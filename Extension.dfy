/** Dictionary writes of the .NET runtime and the `AddAll` extension
    (DBHelper/Extension.cs). A `Dictionary<K, V>` is a Dafny `map`; its enumeration
    order is not modelled. */
module Extension {
  import opened Wrappers

  /** `Dictionary.Add`: inserts a new key, and throws when the key is already present. */
  function DictAdd<K, V>(m: map<K, V>, k: K, v: V): (r: Option<map<K, V>>)
    ensures r.Some? <==> k !in m
    ensures r.Some? ==> r.value.Keys == m.Keys + {k} && r.value[k] == v
    ensures r.Some? ==> forall j :: j in m ==> r.value[j] == m[j]
  {
    if k in m then None else Some(m[k := v])
  }

  /** `dict.AddAll(values)`: writes every entry of `values` into `dict` through the
      indexer, so a key already in `dict` is overwritten and the call never fails. */
  method AddAll<K, V>(dict: map<K, V>, values: Option<map<K, V>>) returns (r: map<K, V>)
    ensures values.None? ==> r == dict
    ensures values.Some? ==> r == dict + values.value
  {
    r := dict;
    if values.None? {
      return;
    }
    var todo := values.value.Keys;
    while todo != {}
      invariant todo <= values.value.Keys
      invariant r.Keys == dict.Keys + (values.value.Keys - todo)
      invariant forall k :: k in values.value && k !in todo ==> r[k] == values.value[k]
      invariant forall k :: k in dict && k !in values.value ==> r[k] == dict[k]
      decreases todo
    {
      var k :| k in todo;
      r := r[k := values.value[k]];
      todo := todo - {k};
    }
  }

  /** The dictionary obtained by writing `entries` in order through the indexer: a
      later entry for a key overwrites an earlier one. */
  function LastWins<K, V>(entries: seq<(K, V)>): map<K, V>
  {
    if entries == [] then map[]
    else LastWins(entries[..|entries| - 1])[entries[|entries| - 1].0 := entries[|entries| - 1].1]
  }

  /** Inserting `entries` in order with `Dictionary.Add`: fails as soon as a key is
      already present. */
  function AddEach<K, V>(m: map<K, V>, entries: seq<(K, V)>): Option<map<K, V>>
  {
    if entries == [] then Some(m)
    else
      match AddEach(m, entries[..|entries| - 1])
      case None => None
      case Some(m') => DictAdd(m', entries[|entries| - 1].0, entries[|entries| - 1].1)
  }

  /** The keys of `entries`, as a set. */
  function KeysOf<K, V>(entries: seq<(K, V)>): set<K>
  {
    set i | 0 <= i < |entries| :: entries[i].0
  }

  /** No key occurs twice in `entries`. */
  predicate DistinctKeys<K(==), V>(entries: seq<(K, V)>)
  {
    forall i, j :: 0 <= i < j < |entries| ==> entries[i].0 != entries[j].0
  }

  /** Writing entries through the indexer yields exactly their keys, each bound to the
      value of its last entry. */
  lemma {:induction false} LastWinsAt<K, V>(entries: seq<(K, V)>, i: nat)
    requires i < |entries|
    ensures entries[i].0 in LastWins(entries)
    ensures (forall j :: i < j < |entries| ==> entries[j].0 != entries[i].0) ==>
              LastWins(entries)[entries[i].0] == entries[i].1
    decreases |entries|
  {
    if i < |entries| - 1 {
      LastWinsAt(entries[..|entries| - 1], i);
    }
  }

  /** The key set of `LastWins` is the set of keys written. */
  lemma {:induction false} LastWinsKeys<K, V>(entries: seq<(K, V)>)
    ensures LastWins(entries).Keys == KeysOf(entries)
    decreases |entries|
  {
    if entries != [] {
      var init := entries[..|entries| - 1];
      LastWinsKeys(init);
      assert KeysOf(entries) == KeysOf(init) + {entries[|entries| - 1].0} by {
        forall k | k in KeysOf(entries) ensures k in KeysOf(init) + {entries[|entries| - 1].0} {
          var i :| 0 <= i < |entries| && entries[i].0 == k;
          if i < |init| { assert init[i] == entries[i]; }
        }
        forall k | k in KeysOf(init) ensures k in KeysOf(entries) {
          var i :| 0 <= i < |init| && init[i].0 == k;
          assert entries[i] == init[i];
        }
      }
    }
  }

  /** Writing two batches one after the other is merging the second over the first. */
  lemma {:induction false} LastWinsConcat<K, V>(a: seq<(K, V)>, b: seq<(K, V)>)
    ensures LastWins(a + b) == LastWins(a) + LastWins(b)
    decreases |b|
  {
    if b != [] {
      var b' := b[..|b| - 1];
      assert (a + b)[..|a + b| - 1] == a + b';
      LastWinsConcat(a, b');
    } else {
      assert a + b == a;
    }
  }

  /** Dropping the last entry of a list with distinct keys keeps the keys distinct,
      and the dropped key is not among the rest. */
  lemma DistinctKeysInit<K, V>(entries: seq<(K, V)>)
    requires entries != [] && DistinctKeys(entries)
    ensures KeysOf(entries[..|entries| - 1]) <= KeysOf(entries)
    ensures DistinctKeys(entries[..|entries| - 1])
    ensures entries[|entries| - 1].0 !in KeysOf(entries[..|entries| - 1])
  {
    var init := entries[..|entries| - 1];
    forall k | k in KeysOf(init) ensures k in KeysOf(entries) {
      var i :| 0 <= i < |init| && init[i].0 == k;
      assert entries[i] == init[i];
    }
    forall i, j | 0 <= i < j < |init| ensures init[i].0 != init[j].0 {
      assert init[i] == entries[i] && init[j] == entries[j];
    }
    forall i | 0 <= i < |init| ensures init[i].0 != entries[|entries| - 1].0 {
      assert init[i] == entries[i];
    }
  }

  /** `Dictionary.Add` of entries with pairwise distinct new keys never fails, and then
      agrees with writing them through the indexer. */
  lemma {:induction false} AddEachDistinct<K, V>(m: map<K, V>, entries: seq<(K, V)>)
    requires DistinctKeys(entries) && m.Keys !! KeysOf(entries)
    ensures AddEach(m, entries) == Some(m + LastWins(entries))
    decreases |entries|
  {
    if entries != [] {
      var init := entries[..|entries| - 1];
      var last := entries[|entries| - 1];
      DistinctKeysInit(entries);
      AddEachDistinct(m, init);
      LastWinsKeys(init);
      assert last.0 in KeysOf(entries);
      assert (m + LastWins(init))[last.0 := last.1] == m + LastWins(entries);
    } else {
      assert m + LastWins(entries) == m;
    }
  }

  /** Writing one entry, or two, through the indexer. */
  lemma LastWinsSingle<K, V>(a: (K, V))
    ensures LastWins([a]) == map[a.0 := a.1]
  {
    assert [a][..0] == [];
  }

  lemma LastWinsPair<K, V>(a: (K, V), b: (K, V))
    ensures LastWins([a, b]) == map[a.0 := a.1, b.0 := b.1]
  {
    assert [a, b][..1] == [a];
    LastWinsSingle(a);
  }
}
