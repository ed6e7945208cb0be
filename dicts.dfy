/** Python dictionaries as association lists: one entry per key, kept in
    insertion order. Lookup is `Tables.LookupRight`, and one entry per key is
    `Tables.UniqueKeys`. */
module Dicts {
  import opened Wrappers
  import opened Tables

  type Dict<K, V> = seq<(K, V)>

  function Keys<K, V>(d: Dict<K, V>): (r: seq<K>)
    ensures |r| == |d| && forall i :: 0 <= i < |d| ==> r[i] == d[i].0
  {
    if d == [] then [] else [d[0].0] + Keys(d[1..])
  }

  function Values<K, V>(d: Dict<K, V>): (r: seq<V>)
    ensures |r| == |d| && forall i :: 0 <= i < |d| ==> r[i] == d[i].1
  {
    if d == [] then [] else [d[0].1] + Values(d[1..])
  }

  /** A key has an entry exactly when it is among the keys. */
  lemma {:induction false} LookupKeys<K, V>(d: Dict<K, V>, k: K)
    ensures LookupRight(d, k).Some? <==> k in Keys(d)
  {
    if d != [] {
      LookupKeys(d[1..], k);
      assert Keys(d) == [d[0].0] + Keys(d[1..]);
    }
  }

  /** `d[k] = v`: an existing key keeps its place and takes the new value,
      a new key goes at the end. */
  function Put<K(==), V>(d: Dict<K, V>, k: K, v: V): (r: Dict<K, V>)
    ensures |r| == if k in Keys(d) then |d| else |d| + 1
  {
    if d == [] then [(k, v)]
    else if d[0].0 == k then [(k, v)] + d[1..]
    else
      assert Keys(d) == [d[0].0] + Keys(d[1..]);
      [d[0]] + Put(d[1..], k, v)
  }

  /** After `d[k] = v` the key order is the old one with `k` appended if
      it is new. */
  lemma {:induction false} PutKeys<K, V>(d: Dict<K, V>, k: K, v: V)
    ensures Keys(Put(d, k, v)) == if k in Keys(d) then Keys(d) else Keys(d) + [k]
  {
    if d != [] {
      assert Keys(d) == [d[0].0] + Keys(d[1..]);
      if d[0].0 == k {
        assert Keys(Put(d, k, v)) == [k] + Keys(d[1..]);
      } else {
        PutKeys(d[1..], k, v);
        assert Keys(Put(d, k, v)) == [d[0].0] + Keys(Put(d[1..], k, v));
      }
    }
  }

  /** After `d[k] = v`, `k` maps to `v` and every other key keeps its
      value. */
  lemma {:induction false} PutLookups<K, V>(d: Dict<K, V>, k: K, v: V)
    ensures LookupRight(Put(d, k, v), k) == Some(v)
    ensures forall j :: j != k ==> LookupRight(Put(d, k, v), j) == LookupRight(d, j)
  {
    if d != [] && d[0].0 != k {
      PutLookups(d[1..], k, v);
    }
  }

  /** Keys that are distinct as a list of keys are distinct entries. */
  lemma {:induction false} UniqueKeysOfKeys<K, V>(d: Dict<K, V>)
    requires forall i, j :: 0 <= i < j < |Keys(d)| ==> Keys(d)[i] != Keys(d)[j]
    ensures UniqueKeys(d)
  {
    forall i, j | 0 <= i < j < |d| ensures d[i].0 != d[j].0 {
      assert Keys(d)[i] != Keys(d)[j];
    }
  }

  /** `d[k] = v` keeps one entry per key. */
  lemma {:induction false} PutUnique<K, V>(d: Dict<K, V>, k: K, v: V)
    requires UniqueKeys(d)
    ensures UniqueKeys(Put(d, k, v))
  {
    PutKeys(d, k, v);
    var ks := Keys(Put(d, k, v));
    forall i, j | 0 <= i < j < |ks| ensures ks[i] != ks[j] {
      assert Keys(d)[i] == d[i].0;
      if j < |d| {
        assert Keys(d)[j] == d[j].0;
      } else {
        assert ks[i] in Keys(d);
      }
    }
    UniqueKeysOfKeys(Put(d, k, v));
  }

  /** After `d[k] = v` the keys stay distinct, `k` maps to `v`, every other
      key keeps its value, and the key order is the old one with `k`
      appended if it is new. */
  lemma {:induction false} PutSpec<K, V>(d: Dict<K, V>, k: K, v: V)
    requires UniqueKeys(d)
    ensures var r := Put(d, k, v);
      && UniqueKeys(r)
      && LookupRight(r, k) == Some(v)
      && (forall j :: j != k ==> LookupRight(r, j) == LookupRight(d, j))
      && Keys(r) == if k in Keys(d) then Keys(d) else Keys(d) + [k]
  {
    PutKeys(d, k, v);
    PutLookups(d, k, v);
    PutUnique(d, k, v);
  }

  /** Replacing a value changes the sum of the values by the difference. */
  lemma {:induction false} PutSum<K>(d: Dict<K, int>, k: K, v: int)
    requires UniqueKeys(d)
    ensures SumInt(Values(Put(d, k, v))) == SumInt(Values(d)) - LookupRight(d, k).GetOr(0) + v
  {
    if d == [] {
      assert Values([(k, v)]) == [v];
      assert SumInt([v]) == SumInt([]) + v;
    } else {
      var r := Put(d, k, v);
      assert Values(d) == [d[0].1] + Values(d[1..]);
      SumIntAppend([d[0].1], Values(d[1..]));
      if d[0].0 == k {
        assert Values(r) == [v] + Values(d[1..]);
        SumIntAppend([v], Values(d[1..]));
        assert SumInt([v]) == SumInt([]) + v;
        assert SumInt([d[0].1]) == SumInt([]) + d[0].1;
      } else {
        PutSum(d[1..], k, v);
        assert Values(r) == [d[0].1] + Values(Put(d[1..], k, v));
        SumIntAppend([d[0].1], Values(Put(d[1..], k, v)));
      }
    }
  }
}
