/** The string primitives of the .NET runtime that the SQL builder relies on, over
    `seq<char>`: `String.Replace`, `String.TrimStart`, `String.Join`, the decimal
    rendering of an index, and ASCII upper-casing. */
module Text {

  /** `pat` occurs in `s` starting at index `i`. */
  predicate MatchAt(s: string, pat: string, i: nat)
  {
    i + |pat| <= |s| && s[i..i + |pat|] == pat
  }

  /** `pat` occurs somewhere in `s`. */
  ghost predicate Occurs(s: string, pat: string)
  {
    exists i: nat :: i <= |s| && MatchAt(s, pat, i)
  }

  /** `String.Replace(pat, rep)`: one left-to-right pass that replaces every
      non-overlapping occurrence of `pat`; the replacement text is never rescanned. */
  function Replace(s: string, pat: string, rep: string): (r: string)
    requires pat != []
    ensures |rep| <= |pat| ==> |r| <= |s|
    decreases |s|
  {
    if |s| < |pat| then s
    else if s[..|pat|] == pat then rep + Replace(s[|pat|..], pat, rep)
    else [s[0]] + Replace(s[1..], pat, rep)
  }

  /** Replacing a pattern that does not occur leaves the text unchanged. */
  lemma {:induction false} ReplaceAbsent(s: string, pat: string, rep: string)
    requires pat != [] && !Occurs(s, pat)
    ensures Replace(s, pat, rep) == s
    decreases |s|
  {
    if |s| >= |pat| {
      assert s[0..0 + |pat|] == s[..|pat|];
      assert !MatchAt(s, pat, 0);
      forall i: nat ensures !MatchAt(s[1..], pat, i) {
        if i + |pat| <= |s[1..]| {
          assert s[1..][i..i + |pat|] == s[i + 1..i + 1 + |pat|];
          assert !MatchAt(s, pat, i + 1);
        }
      }
      ReplaceAbsent(s[1..], pat, rep);
      assert [s[0]] + s[1..] == s;
    }
  }

  /** Replacing a pattern that occurs by a shorter text shortens the text. */
  lemma {:induction false} ReplaceShrinks(s: string, pat: string, rep: string)
    requires pat != [] && |rep| < |pat| && Occurs(s, pat)
    ensures |Replace(s, pat, rep)| < |s|
    decreases |s|
  {
    var i: nat :| i <= |s| && MatchAt(s, pat, i);
    if s[..|pat|] != pat {
      assert s[0..|pat|] == s[..|pat|];
      assert i > 0;
      assert s[1..][i - 1..i - 1 + |pat|] == s[i..i + |pat|];
      assert MatchAt(s[1..], pat, i - 1);
      ReplaceShrinks(s[1..], pat, rep);
    }
  }

  /** A pattern one of whose characters does not appear in `s` cannot occur in `s`. */
  lemma MissingCharNoOccurrence(s: string, pat: string, k: nat)
    requires k < |pat| && pat[k] !in s
    ensures !Occurs(s, pat)
  {
    forall i: nat ensures !MatchAt(s, pat, i) {
      if i + |pat| <= |s| {
        assert s[i..i + |pat|][k] == s[i + k];
      }
    }
  }

  /** No `x` in `s` is immediately followed by `y`. */
  predicate NoPair(s: string, x: char, y: char)
  {
    forall i :: 0 <= i < |s| - 1 ==> !(s[i] == x && s[i + 1] == y)
  }

  /** A pattern containing the pair `pat[j] pat[j + 1]` cannot occur where that pair
      never does. */
  lemma PairNoOccurrence(s: string, pat: string, j: nat)
    requires j + 1 < |pat| && NoPair(s, pat[j], pat[j + 1])
    ensures !Occurs(s, pat)
  {
    forall i: nat ensures !MatchAt(s, pat, i) {
      if i + |pat| <= |s| {
        assert s[i..i + |pat|][j] == s[i + j] && s[i..i + |pat|][j + 1] == s[i + j + 1];
      }
    }
  }

  /** A pattern cannot occur in a text that holds fewer copies of one of its characters. */
  lemma CountNoOccurrence(s: string, pat: string, c: char)
    requires multiset(s)[c] < multiset(pat)[c]
    ensures !Occurs(s, pat)
  {
    forall i: nat ensures !MatchAt(s, pat, i) {
      if i + |pat| <= |s| {
        assert s == s[..i] + s[i..i + |pat|] + s[i + |pat|..];
      }
    }
  }

  /** Two texts free of a pair, glued where the pair does not form, stay free of it. */
  lemma NoPairConcat(a: string, b: string, x: char, y: char)
    requires NoPair(a, x, y) && NoPair(b, x, y)
    requires a == [] || b == [] || a[|a| - 1] != x || b[0] != y
    ensures NoPair(a + b, x, y)
  {
    forall i | 0 <= i < |a + b| - 1 ensures !((a + b)[i] == x && (a + b)[i + 1] == y) {
      if i + 1 < |a| {
        assert (a + b)[i] == a[i] && (a + b)[i + 1] == a[i + 1];
      } else if i >= |a| {
        assert (a + b)[i] == b[i - |a|] && (a + b)[i + 1] == b[i - |a| + 1];
      }
    }
  }

  /** When no occurrence of `pat` starts inside `a`, the first occurrence of `pat` in
      `a + pat + b` is the one right after `a`. */
  lemma {:induction false} ReplaceFirst(a: string, pat: string, rep: string, b: string)
    requires pat != []
    requires forall i :: 0 <= i < |a| ==> !MatchAt(a + pat + b, pat, i)
    ensures Replace(a + pat + b, pat, rep) == a + rep + Replace(b, pat, rep)
    decreases |a|
  {
    var s := a + pat + b;
    if a == [] {
      assert s == pat + b;
      assert s[..|pat|] == pat && s[|pat|..] == b;
    } else {
      assert !MatchAt(s, pat, 0);
      assert s[0..|pat|] == s[..|pat|];
      var tail := a[1..] + pat + b;
      assert s[1..] == tail;
      forall i | 0 <= i < |a[1..]| ensures !MatchAt(tail, pat, i) {
        assert !MatchAt(s, pat, i + 1);
        assert tail[i..i + |pat|] == s[i + 1..i + 1 + |pat|];
      }
      ReplaceFirst(a[1..], pat, rep, b);
      calc {
        Replace(s, pat, rep);
        [a[0]] + Replace(tail, pat, rep);
        [a[0]] + (a[1..] + rep + Replace(b, pat, rep));
        { assert [a[0]] + a[1..] == a; }
        a + rep + Replace(b, pat, rep);
      }
    }
  }

  /** `s` starts with `p`. */
  predicate StartsWith(s: string, p: string)
  {
    |p| <= |s| && s[..|p|] == p
  }

  /** `s` ends with `p`. */
  predicate EndsWith(s: string, p: string)
  {
    |p| <= |s| && s[|s| - |p|..] == p
  }

  /** A text whose last character differs from the last of `x` does not end with `x`. */
  lemma NotEndsWith(a: string, x: string)
    requires x != [] && (a == [] || a[|a| - 1] != x[|x| - 1])
    ensures !EndsWith(a, x)
  {
    if |x| <= |a| {
      assert a[|a| - |x|..][|x| - 1] == a[|a| - 1];
    }
  }

  /** A text whose first character differs from the first of `y` does not start with `y`. */
  lemma NotStartsWith(b: string, y: string)
    requires y != [] && (b == [] || b[0] != y[0])
    ensures !StartsWith(b, y)
  {
    if |y| <= |b| {
      assert b[..|y|][0] == b[0];
    }
  }

  /** A suffix of `p + j` longer than `j` takes in the last character of `p`. */
  lemma EndsAfter(p: string, j: string, x: string)
    requires p == [] || p[|p| - 1] !in x
    ensures EndsWith(p + j, x) ==> EndsWith(j, x)
  {
    var s := p + j;
    if |j| < |x| <= |s| {
      var k := |x| - |j| - 1;
      assert s[|s| - |x|..][k] == p[|p| - 1];
      assert x[k] in x;
    } else if |x| <= |j| {
      assert s[|s| - |x|..] == j[|j| - |x|..];
    }
  }

  /** A prefix of `j + q` longer than `j` takes in the first character of `q`. */
  lemma StartsBefore(j: string, q: string, y: string)
    requires q == [] || q[0] !in y
    ensures StartsWith(j + q, y) ==> StartsWith(j, y)
  {
    var s := j + q;
    if |j| < |y| <= |s| {
      assert s[..|y|][|j|] == q[0];
      assert y[|j|] in y;
    } else if |y| <= |j| {
      assert s[..|y|] == j[..|y|];
    }
  }

  /** An occurrence of `x + " " + y` in `a + " " + b`, where neither `x` nor `y` holds
      a blank, lies inside `a`, inside `b`, or uses the blank between them, in which
      case `a` ends with `x` and `b` starts with `y`. */
  lemma SpacedOccurrence(a: string, b: string, x: string, y: string)
    requires ' ' !in x && ' ' !in y
    requires !Occurs(a, x + " " + y) && !Occurs(b, x + " " + y)
    requires !(EndsWith(a, x) && StartsWith(b, y))
    ensures !Occurs(a + " " + b, x + " " + y)
  {
    var s, p := a + " " + b, x + " " + y;
    forall i: nat | i + |p| <= |s| ensures !MatchAt(s, p, i) {
      if i + |p| <= |a| {
        assert s[i..i + |p|] == a[i..i + |p|];
        assert !MatchAt(a, p, i);
      } else if i > |a| {
        assert s[i..i + |p|] == b[i - |a| - 1..i - |a| - 1 + |p|];
        assert !MatchAt(b, p, i - |a| - 1);
      } else {
        JointMatch(a, b, x, y, i);
      }
    }
  }

  /** A match of `x + " " + y` over the blank between `a` and `b` puts that blank
      between `x` and `y`. */
  lemma JointMatch(a: string, b: string, x: string, y: string, i: nat)
    requires ' ' !in x && ' ' !in y
    requires !(EndsWith(a, x) && StartsWith(b, y))
    requires i <= |a| < i + |x| + 1 + |y| <= |a| + 1 + |b|
    ensures !MatchAt(a + " " + b, x + " " + y, i)
  {
    var s, p := a + " " + b, x + " " + y;
    var m := s[i..i + |p|];
    var k := |a| - i;
    assert m[k] == ' ';
    if k < |x| {
      assert p[k] == x[k] && x[k] in x;
    } else if k > |x| {
      assert p[k] == y[k - |x| - 1] && y[k - |x| - 1] in y;
    } else if !EndsWith(a, x) {
      assert m[..|x|] == a[i..];
      assert p[..|x|] == x;
    } else {
      assert m[|x| + 1..] == b[..|y|];
      assert p[|x| + 1..] == y;
    }
  }

  /** Gluing two texts free of `pat` creates no occurrence when one of the two
      characters that meet does not appear in `pat`. */
  lemma ShieldedOccurrence(a: string, b: string, pat: string)
    requires !Occurs(a, pat) && !Occurs(b, pat)
    requires a == [] || b == [] || a[|a| - 1] !in pat || b[0] !in pat
    ensures !Occurs(a + b, pat)
  {
    var s := a + b;
    forall i: nat | i + |pat| <= |s| ensures !MatchAt(s, pat, i) {
      if i + |pat| <= |a| {
        assert s[i..i + |pat|] == a[i..i + |pat|];
        assert !MatchAt(a, pat, i);
      } else if i >= |a| {
        assert s[i..i + |pat|] == b[i - |a|..i - |a| + |pat|];
        assert !MatchAt(b, pat, i - |a|);
      } else {
        assert s[i..i + |pat|][|a| - 1 - i] == a[|a| - 1] && pat[|a| - 1 - i] in pat;
        assert s[i..i + |pat|][|a| - i] == b[0] && pat[|a| - i] in pat;
      }
    }
  }

  /** A blank put before a text cannot start a pattern that does not start with one. */
  lemma BlankBeforeOccurrence(s: string, pat: string)
    requires pat != [] && pat[0] != ' ' && !Occurs(s, pat)
    ensures !Occurs(" " + s, pat)
  {
    var t := " " + s;
    forall i: nat | i + |pat| <= |t| ensures !MatchAt(t, pat, i) {
      if i == 0 {
        assert t[i..i + |pat|][0] == ' ';
      } else {
        assert t[i..i + |pat|] == s[i - 1..i - 1 + |pat|];
        assert !MatchAt(s, pat, i - 1);
      }
    }
  }

  /** A blank put after a text cannot end a pattern that does not end with one. */
  lemma BlankAfterOccurrence(s: string, pat: string)
    requires pat != [] && pat[|pat| - 1] != ' ' && !Occurs(s, pat)
    ensures !Occurs(s + " ", pat)
  {
    var t := s + " ";
    forall i: nat | i + |pat| <= |t| ensures !MatchAt(t, pat, i) {
      if i + |pat| == |t| {
        assert t[i..i + |pat|][|pat| - 1] == ' ';
      } else {
        assert t[i..i + |pat|] == s[i..i + |pat|];
        assert !MatchAt(s, pat, i);
      }
    }
  }

  /** `String.TrimStart(cs)`: drops the longest prefix made of characters in `cs`. */
  function TrimStart(s: string, cs: set<char>): (r: string)
    ensures |r| <= |s| && r == s[|s| - |r|..]
    ensures r == [] || r[0] !in cs
    ensures forall i :: 0 <= i < |s| - |r| ==> s[i] in cs
  {
    if s != [] && s[0] in cs then TrimStart(s[1..], cs) else s
  }

  /** `TrimStart` stops at the first character outside `cs`, so text after it is kept. */
  lemma {:induction false} TrimStartSkip(a: string, b: string, cs: set<char>)
    requires b != [] && b[0] !in cs
    ensures TrimStart(a + b, cs) == TrimStart(a, cs) + b
    decreases |a|
  {
    if a != [] {
      assert (a + b)[0] == a[0] && (a + b)[1..] == a[1..] + b;
      TrimStartSkip(a[1..], b, cs);
    } else {
      assert a + b == b;
    }
  }

  /** `String.Join(sep, parts)`. */
  function Join(parts: seq<string>, sep: string): (r: string)
  {
    if parts == [] then ""
    else if |parts| == 1 then parts[0]
    else Join(parts[..|parts| - 1], sep) + sep + parts[|parts| - 1]
  }

  /** Every character of a joined text comes from the separator or from one of the parts. */
  lemma {:induction false} JoinChars(parts: seq<string>, sep: string, c: char)
    requires c in Join(parts, sep)
    ensures c in sep || exists p :: p in parts && c in p
    decreases |parts|
  {
    if |parts| > 1 {
      var init := parts[..|parts| - 1];
      var last := parts[|parts| - 1];
      assert Join(parts, sep) == Join(init, sep) + sep + last;
      if c in Join(init, sep) {
        JoinChars(init, sep, c);
        if !(c in sep) {
          var p :| p in init && c in p;
          assert p in parts;
        }
      } else if c !in sep {
        assert last in parts;
      }
    } else if |parts| == 1 {
      assert parts[0] in parts;
    }
  }

  /** A join of non-empty parts is non-empty and ends where its last part ends. */
  lemma {:induction false} JoinLast(parts: seq<string>, sep: string)
    requires parts != [] && parts[|parts| - 1] != []
    ensures Join(parts, sep) != []
    ensures Join(parts, sep)[|Join(parts, sep)| - 1] == parts[|parts| - 1][|parts[|parts| - 1]| - 1]
  {
  }

  /** The decimal digit for `d < 10`. */
  function Digit(d: nat): (c: char)
    requires d < 10
    ensures '0' <= c <= '9' && c as int - '0' as int == d
  {
    ('0' as int + d) as char
  }

  /** `Int32.ToString()` of a non-negative index: its decimal digits, most significant first. */
  function NatToString(n: nat): (r: string)
    ensures r != [] && (n < 10 <==> |r| == 1)
    ensures forall i :: 0 <= i < |r| ==> '0' <= r[i] <= '9'
    ensures r[|r| - 1] == Digit(n % 10)
  {
    if n < 10 then [Digit(n)] else NatToString(n / 10) + [Digit(n % 10)]
  }

  /** Distinct indices have distinct decimal renderings. */
  lemma {:induction false} NatToStringInjective(a: nat, b: nat)
    requires NatToString(a) == NatToString(b)
    ensures a == b
    decreases a
  {
    if a >= 10 && b >= 10 {
      var sa, sb := NatToString(a), NatToString(b);
      assert sa[..|sa| - 1] == NatToString(a / 10);
      assert sb[..|sb| - 1] == NatToString(b / 10);
      NatToStringInjective(a / 10, b / 10);
    }
  }

  /** `char.IsUpper`, restricted to ASCII. */
  predicate IsUpper(c: char)
  {
    'A' <= c <= 'Z'
  }

  /** `char.ToUpper`, restricted to ASCII: lower-case letters move up, everything else stays. */
  function ToUpperChar(c: char): (u: char)
    ensures 'a' <= c <= 'z' ==> IsUpper(u) && u as int == c as int - 32
    ensures !('a' <= c <= 'z') ==> u == c
  {
    if 'a' <= c <= 'z' then (c as int - 32) as char else c
  }

  /** `String.ToUpper`, character by character: no lower-case ASCII letter is left,
      each one having moved up to its capital, and every other character stays. */
  function ToUpper(s: string): (r: string)
    ensures |r| == |s|
    ensures forall i :: 0 <= i < |r| ==> !('a' <= r[i] <= 'z')
    ensures forall i :: 0 <= i < |s| && 'a' <= s[i] <= 'z' ==> r[i] as int == s[i] as int - 32
    ensures forall i :: 0 <= i < |s| && !('a' <= s[i] <= 'z') ==> r[i] == s[i]
  {
    seq(|s|, i requires 0 <= i < |s| => ToUpperChar(s[i]))
  }
}
