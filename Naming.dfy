/** `ToUnderlineName` (DBHelper/DBHelper.cs): a CamelCase property name turned into
    the upper-case, underscore-separated column name it is matched against. Only ASCII
    letters are case-mapped here. */
module Naming {
  import opened Wrappers
  import opened Text

  /** The text the loop accumulates before the final `ToUpper`: the first character as
      it is, then every later character, with `_` in front of each upper-case one. */
  function Underlined(s: string): string
  {
    if |s| <= 1 then s
    else Underlined(s[..|s| - 1]) + (if IsUpper(s[|s| - 1]) then "_" else "") + [s[|s| - 1]]
  }

  /** The number of upper-case characters after the first. */
  function UpperAfterFirst(s: string): nat
  {
    if |s| <= 1 then 0
    else UpperAfterFirst(s[..|s| - 1]) + (if IsUpper(s[|s| - 1]) then 1 else 0)
  }

  /** `ToUnderlineName(name)`: `None` is the `IndexOutOfRangeException` that reading
      `charArray[0]` throws on an empty name. */
  method ToUnderlineName(name: string) returns (r: Option<string>)
    ensures r.None? <==> name == []
    ensures r.Some? ==> r.value == ToUpper(Underlined(name))
  {
    if |name| == 0 {
      return None;
    }
    var underlineName := [name[0]];
    for i := 1 to |name|
      invariant underlineName == Underlined(name[..i])
    {
      assert name[..i + 1][..i] == name[..i];
      if IsUpper(name[i]) {
        underlineName := underlineName + "_";
      }
      underlineName := underlineName + [name[i]];
    }
    assert name[..|name|] == name;
    return Some(ToUpper(underlineName));
  }

  /** The output is one character longer than the input for every upper-case
      character after the first. */
  lemma {:induction false} UnderlinedLength(s: string)
    ensures |Underlined(s)| == |s| + UpperAfterFirst(s)
    decreases |s|
  {
    if |s| > 1 {
      UnderlinedLength(s[..|s| - 1]);
    }
  }

  /** Where each input character lands: the i-th character sits after the
      underscores inserted for the upper-case characters at indices 1 to i, and an
      upper-case character at index 1 or more has `_` right before it. In particular
      the first character is copied without an underscore. */
  lemma {:induction false} UnderlinedAt(s: string, i: nat)
    requires i < |s|
    ensures var p := i + UpperAfterFirst(s[..i + 1]);
      p < |Underlined(s)| && Underlined(s)[p] == s[i] &&
      (i >= 1 && IsUpper(s[i]) ==> Underlined(s)[p - 1] == '_')
    decreases |s|
  {
    var p := i + UpperAfterFirst(s[..i + 1]);
    if |s| > 1 {
      var init := s[..|s| - 1];
      UnderlinedLength(init);
      if i < |s| - 1 {
        assert init[..i + 1] == s[..i + 1];
        UnderlinedAt(init, i);
      } else {
        assert s[..i + 1] == s;
        assert s[..i + 1][..i] == init;
      }
    } else {
      assert s[..i + 1] == s;
    }
  }

  /** Nothing else is inserted: the underscores are exactly those in front of the
      upper-case characters after the first, so the output length is the input length
      plus their number. */
  lemma UnderlineNameLength(name: string)
    requires name != []
    ensures |ToUpper(Underlined(name))| == |name| + UpperAfterFirst(name)
  {
    UnderlinedLength(name);
  }

  /** The result holds no lower-case ASCII letter. */
  lemma UnderlineNameUpper(name: string)
    ensures forall i :: 0 <= i < |ToUpper(Underlined(name))| ==> !('a' <= ToUpper(Underlined(name))[i] <= 'z')
  {
  }

  /** `UserName` becomes `USER_NAME`: upper case throughout, not the `user_name` the
      documentation comment gives. */
  lemma UserNameExample()
    ensures ToUpper(Underlined("UserName")) == "USER_NAME"
  {
    UserNameUnderlined();
    UpperUserName();
  }

  lemma UserNameUnderlined()
    ensures Underlined("UserName") == "User_Name"
  {
    UnderlinedSnoc("U", 's');
    assert "U" + ['s'] == "Us";
    UnderlinedSnoc("Us", 'e');
    assert "Us" + ['e'] == "Use";
    UnderlinedSnoc("Use", 'r');
    assert "Use" + ['r'] == "User";
    UnderlinedSnoc("User", 'N');
    assert "User" + ['N'] == "UserN";
    UnderlinedSnoc("UserN", 'a');
    assert "UserN" + ['a'] == "UserNa";
    UnderlinedSnoc("UserNa", 'm');
    assert "UserNa" + ['m'] == "UserNam";
    UnderlinedSnoc("UserNam", 'e');
    assert "UserNam" + ['e'] == "UserName";
  }

  lemma UpperUserName()
    ensures ToUpper("User_Name") == "USER_NAME"
  {
    var r := ToUpper("User_Name");
    forall i | 0 <= i < 9 ensures r[i] == "USER_NAME"[i] {
    }
  }

  lemma UnderlinedSnoc(s: string, c: char)
    requires s != []
    ensures Underlined(s + [c]) == Underlined(s) + (if IsUpper(c) then "_" else "") + [c]
  {
    assert (s + [c])[..|s|] == s;
  }
}
