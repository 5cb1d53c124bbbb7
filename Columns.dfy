/** The list of selected columns (class `ColumnBuilder` in DBHelper/SqlBuilder.cs). */
module Columns {
  import opened Wrappers
  import opened Text

  /** `Enumerable.Distinct`: every column once, in the order of its first occurrence. */
  function Distinct(s: seq<string>): (r: seq<string>)
  {
    if s == [] then []
    else
      var d := Distinct(s[..|s| - 1]);
      if s[|s| - 1] in d then d else d + [s[|s| - 1]]
  }

  /** No column occurs twice. */
  predicate NoDuplicates(s: seq<string>)
  {
    forall i, j :: 0 <= i < j < |s| ==> s[i] != s[j]
  }

  /** The index of the first occurrence of `x` in `s`. */
  function FirstIndex(s: seq<string>, x: string): (i: nat)
    requires x in s
    ensures i < |s| && s[i] == x && x !in s[..i]
  {
    if s[0] == x then 0 else 1 + FirstIndex(s[1..], x)
  }

  /** The partial `*` check: a batch holding `*` is refused when it holds anything else
      or when columns were already chosen. A later batch without `*` is never
      refused, even after a `*`. */
  predicate RejectsBatch(existing: seq<string>, batch: seq<string>)
  {
    "*" in batch && (|batch| > 1 || |existing| > 0)
  }

  class ColumnBuilder {
    /** `Column`. */
    var columns: seq<string>

    constructor ()
      ensures columns == []
    {
      columns := [];
    }

    /** `Add(columns)`: a refused batch is still appended, without removing duplicates,
        before the `ArgumentException` (whose message lists the columns, here the
        `Failure` payload) is thrown; an accepted batch is appended and the list
        deduplicated. */
    method Add(batch: seq<string>) returns (r: Result<(), seq<string>>)
      modifies this
      ensures r.Failure? <==> RejectsBatch(old(columns), batch)
      ensures r.Failure? ==> columns == old(columns) + batch && r.error == columns
      ensures r.Success? ==> columns == Distinct(old(columns) + batch)
    {
      if "*" in batch {
        if |batch| > 1 || |columns| > 0 {
          columns := columns + batch;
          return Failure(columns);
        }
      }
      columns := columns + batch;
      columns := Distinct(columns);
      return Success(());
    }
  }

  /** `Distinct` keeps exactly the columns of its input. */
  lemma {:induction false} DistinctSameColumns(s: seq<string>)
    ensures forall x :: x in Distinct(s) <==> x in s
  {
    if s != [] {
      DistinctSameColumns(s[..|s| - 1]);
      assert s == s[..|s| - 1] + [s[|s| - 1]];
    }
  }

  /** `Distinct` leaves no column twice. */
  lemma {:induction false} DistinctNoDuplicates(s: seq<string>)
    ensures NoDuplicates(Distinct(s))
  {
    if s != [] {
      DistinctNoDuplicates(s[..|s| - 1]);
    }
  }

  /** `Distinct` keeps the order of first occurrences. */
  lemma DistinctFirstOrder(s: seq<string>, d: seq<string>)
    requires d == Distinct(s)
    ensures forall x :: x in d <==> x in s
    ensures forall i, j :: 0 <= i < j < |d| ==> FirstIndex(s, d[i]) < FirstIndex(s, d[j])
  {
    DistinctSameColumns(s);
    forall i, j | 0 <= i < j < |d|
      ensures FirstIndex(s, d[i]) < FirstIndex(s, d[j])
    {
      DistinctOrderAt(s, i, j);
    }
  }

  lemma {:induction false} DistinctOrderAt(s: seq<string>, i: nat, j: nat)
    requires i < j < |Distinct(s)|
    ensures Distinct(s)[i] in s && Distinct(s)[j] in s
    ensures FirstIndex(s, Distinct(s)[i]) < FirstIndex(s, Distinct(s)[j])
    decreases |s|
  {
    var init, x := s[..|s| - 1], s[|s| - 1];
    var d0 := Distinct(init);
    var d := Distinct(s);
    DistinctSameColumns(init);
    assert s == init + [x];
    assert d[i] == d0[i] && d0[i] in init;
    FirstIndexPrefix(init, [x], d[i]);
    if j < |d0| {
      assert d[j] == d0[j];
      FirstIndexPrefix(init, [x], d[j]);
      DistinctOrderAt(init, i, j);
    } else {
      assert x !in d0 && d[j] == x;
      SnocFirstIndex(init, x);
    }
  }

  /** A column that is new at the end of a list first occurs there. */
  lemma SnocFirstIndex(init: seq<string>, x: string)
    requires x !in init
    ensures x in init + [x] && FirstIndex(init + [x], x) == |init|
  {
    var s := init + [x];
    var k := FirstIndex(s, x);
    assert forall m :: 0 <= m < |init| ==> s[m] == init[m];
  }

  /** A column found in a prefix has its first occurrence there. */
  lemma {:induction false} FirstIndexPrefix(a: seq<string>, b: seq<string>, x: string)
    requires x in a
    ensures x in a + b && FirstIndex(a + b, x) == FirstIndex(a, x)
  {
    if a[0] != x {
      assert (a + b)[1..] == a[1..] + b;
      FirstIndexPrefix(a[1..], b, x);
    }
  }

  /** An accepted batch keeps the columns chosen before it at the front, in their
      order, when they were already distinct. */
  lemma {:induction false} DistinctKeepsPrefix(a: seq<string>, b: seq<string>)
    requires NoDuplicates(a)
    ensures |Distinct(a + b)| >= |a| && Distinct(a + b)[..|a|] == a
    decreases |b|
  {
    if b == [] {
      assert a + b == a;
      DistinctOfDistinct(a);
    } else {
      var b' := b[..|b| - 1];
      assert (a + b)[..|a + b| - 1] == a + b';
      DistinctKeepsPrefix(a, b');
    }
  }

  /** A list without duplicates is its own `Distinct`. */
  lemma {:induction false} DistinctOfDistinct(a: seq<string>)
    requires NoDuplicates(a)
    ensures Distinct(a) == a
  {
    if a != [] {
      var init := a[..|a| - 1];
      DistinctOfDistinct(init);
      assert a[|a| - 1] !in init by {
        forall k | 0 <= k < |init| ensures init[k] != a[|a| - 1] {
          assert init[k] == a[k];
        }
      }
    }
  }

  /** `Select("*")` on a fresh builder is accepted, and a later `Select(c)` for any other
      column `c` is accepted too, leaving both. */
  lemma StarThenColumn(c: string)
    requires c != "*"
    ensures !RejectsBatch([], ["*"]) && Distinct(["*"]) == ["*"]
    ensures !RejectsBatch(["*"], [c]) && Distinct(["*"] + [c]) == ["*", c]
  {
    assert ["*"][..0] == [];
    assert (["*"] + [c])[..1] == ["*"];
  }
}
