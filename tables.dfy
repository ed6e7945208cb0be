/** The dataframe operations the pipeline is built from, on tables held as
    sequences of rows: row filters, column sums, `groupby(key)` with a count,
    a sum and the first value per group (keys in ascending order, as pandas
    sorts them), `merge(how='left')`, and `sort_values(ascending=False).head(n)`. */
module Tables {
  import opened Wrappers

  /** Boolean-mask selection `df[mask]`: the rows satisfying `p`, in order. */
  function Filter<T(!new)>(s: seq<T>, p: T -> bool): (r: seq<T>)
    ensures |r| <= |s|
    ensures forall x :: x in r <==> x in s && p(x)
  {
    if s == [] then []
    else
      var rest := Filter(s[1..], p);
      assert s == [s[0]] + s[1..];
      if p(s[0]) then [s[0]] + rest else rest
  }

  lemma {:induction false} FilterAppend<T(!new)>(a: seq<T>, b: seq<T>, p: T -> bool)
    ensures Filter(a + b, p) == Filter(a, p) + Filter(b, p)
  {
    if a == [] {
      assert a + b == b;
    } else {
      FilterAppend(a[1..], b, p);
      assert (a + b)[1..] == a[1..] + b;
    }
  }

  /** A loop that keeps `f(x).value` for every `x` with `f(x)` present, in order. */
  function FilterMap<T, U>(s: seq<T>, f: T -> Option<U>): seq<U>
  {
    if s == [] then []
    else
      var last := s[|s| - 1];
      FilterMap(s[..|s| - 1], f) + (if f(last).Some? then [f(last).value] else [])
  }

  lemma {:induction false} FilterMapStep<T, U>(s: seq<T>, f: T -> Option<U>, k: nat)
    requires k < |s|
    ensures FilterMap(s[..k + 1], f) == FilterMap(s[..k], f) + (if f(s[k]).Some? then [f(s[k]).value] else [])
  {
    assert s[..k + 1][..k] == s[..k];
  }

  /** Every kept value comes from an element of `s`, every element with a
      value contributes it, and nothing else is added. */
  lemma {:induction false} FilterMapSpec<T, U>(s: seq<T>, f: T -> Option<U>)
    ensures |FilterMap(s, f)| <= |s|
    ensures forall i :: 0 <= i < |FilterMap(s, f)| ==>
      exists j :: 0 <= j < |s| && f(s[j]) == Some(FilterMap(s, f)[i])
    ensures forall j :: 0 <= j < |s| && f(s[j]).Some? ==> f(s[j]).value in FilterMap(s, f)
  {
    if s != [] {
      var p := s[..|s| - 1];
      FilterMapSpec(p, f);
      var front := FilterMap(p, f);
      var r := FilterMap(s, f);
      assert r[..|front|] == front;
      forall i | 0 <= i < |r|
        ensures exists j :: 0 <= j < |s| && f(s[j]) == Some(r[i])
      {
        if i < |front| {
          var j :| 0 <= j < |p| && f(p[j]) == Some(front[i]);
          assert s[j] == p[j];
        } else {
          assert f(s[|s| - 1]) == Some(r[i]);
        }
      }
      forall j | 0 <= j < |s| && f(s[j]).Some? ensures f(s[j]).value in r {
        if j < |p| {
          assert s[j] == p[j];
          assert f(p[j]).value in front;
        }
      }
    }
  }

  /** A mask and its negation split the rows between them. */
  lemma {:induction false} FilterPartition<T(!new)>(s: seq<T>, p: T -> bool, q: T -> bool)
    requires forall x :: q(x) == !p(x)
    ensures |Filter(s, p)| + |Filter(s, q)| == |s|
  {
    if s != [] {
      FilterPartition(s[1..], p, q);
    }
  }

  function SumInt(s: seq<int>): int
  {
    if s == [] then 0 else SumInt(s[..|s| - 1]) + s[|s| - 1]
  }

  function SumReal(s: seq<real>): real
  {
    if s == [] then 0.0 else SumReal(s[..|s| - 1]) + s[|s| - 1]
  }

  lemma {:induction false} SumIntAppend(a: seq<int>, b: seq<int>)
    ensures SumInt(a + b) == SumInt(a) + SumInt(b)
    decreases |b|
  {
    if b == [] {
      assert a + b == a;
    } else {
      assert (a + b)[..|a + b| - 1] == a + b[..|b| - 1];
      SumIntAppend(a, b[..|b| - 1]);
    }
  }

  lemma {:induction false} SumIntNonNegative(s: seq<int>)
    requires forall i :: 0 <= i < |s| ==> s[i] >= 0
    ensures SumInt(s) >= 0
  {
    if s != [] {
      SumIntNonNegative(s[..|s| - 1]);
    }
  }

  // ---------------------------------------------------------------- group by

  /** One group of `groupby(key)`: its key, the number of rows, the sum of the
      value column and the payload of the first row. */
  datatype Group<G> = Group(key: int, count: nat, total: int, first: G)

  predicate KeysStrictlySorted<G>(gs: seq<Group<G>>) {
    forall i, j :: 0 <= i < j < |gs| ==> gs[i].key < gs[j].key
  }

  /** The group with key `k`, if there is one. */
  function Lookup<G>(gs: seq<Group<G>>, k: int): Option<Group<G>>
  {
    if gs == [] then None else if gs[0].key == k then Some(gs[0]) else Lookup(gs[1..], k)
  }

  function SumCounts<G>(gs: seq<Group<G>>): int
  {
    if gs == [] then 0 else gs[0].count + SumCounts(gs[1..])
  }

  function SumTotals<G>(gs: seq<Group<G>>): int
  {
    if gs == [] then 0 else gs[0].total + SumTotals(gs[1..])
  }

  /** A group after one more row: a fresh group, or one more count and more total. */
  function Bump<G>(o: Option<Group<G>>, k: int, v: int, g: G): Group<G>
  {
    match o
    case None => Group(k, 1, v, g)
    case Some(grp) => grp.(count := grp.count + 1, total := grp.total + v)
  }

  /** Adds one row to groups kept in ascending key order. */
  function Insert<G>(gs: seq<Group<G>>, k: int, v: int, g: G): seq<Group<G>>
  {
    if gs == [] then [Group(k, 1, v, g)]
    else if gs[0].key == k then [gs[0].(count := gs[0].count + 1, total := gs[0].total + v)] + gs[1..]
    else if k < gs[0].key then [Group(k, 1, v, g)] + gs
    else [gs[0]] + Insert(gs[1..], k, v, g)
  }

  /** `groupby(key).agg(count, sum(value), first(payload))` over rows
      `(key, value, payload)`. */
  function GroupBy<G>(rows: seq<(int, int, G)>): seq<Group<G>>
  {
    if rows == [] then []
    else
      var n := |rows| - 1;
      Insert(GroupBy(rows[..n]), rows[n].0, rows[n].1, rows[n].2)
  }

  /** Number of rows with key `k`. */
  function CountKey<G>(rows: seq<(int, int, G)>, k: int): nat
  {
    if rows == [] then 0
    else CountKey(rows[..|rows| - 1], k) + (if rows[|rows| - 1].0 == k then 1 else 0)
  }

  /** Sum of the values of the rows with key `k`. */
  function SumKey<G>(rows: seq<(int, int, G)>, k: int): int
  {
    if rows == [] then 0
    else SumKey(rows[..|rows| - 1], k) + (if rows[|rows| - 1].0 == k then rows[|rows| - 1].1 else 0)
  }

  function SumValues<G>(rows: seq<(int, int, G)>): int
  {
    if rows == [] then 0 else SumValues(rows[..|rows| - 1]) + rows[|rows| - 1].1
  }

  /** The payload of the earliest row with key `k`. */
  function FirstWith<G>(rows: seq<(int, int, G)>, k: int): (r: Option<G>)
    ensures r.Some? <==> CountKey(rows, k) > 0
    ensures r.Some? ==> exists i :: (0 <= i < |rows| && rows[i].0 == k && rows[i].2 == r.value
      && forall j :: 0 <= j < i ==> rows[j].0 != k)
  {
    if rows == [] then None
    else
      var n := |rows| - 1;
      var f := FirstWith(rows[..n], k);
      if f.Some? then f
      else if rows[n].0 == k then
        assert forall j :: 0 <= j < n ==> rows[j].0 != k by {
          NoneMeansAbsent(rows[..n], k);
        }
        Some(rows[n].2)
      else None
  }

  lemma {:induction false} NoneMeansAbsent<G>(rows: seq<(int, int, G)>, k: int)
    requires CountKey(rows, k) == 0
    ensures forall j :: 0 <= j < |rows| ==> rows[j].0 != k
  {
    if rows != [] {
      var n := |rows| - 1;
      NoneMeansAbsent(rows[..n], k);
      assert forall j :: 0 <= j < n ==> rows[j] == rows[..n][j];
    }
  }

  lemma {:induction false} SumKeyOfAbsent<G>(rows: seq<(int, int, G)>, k: int)
    requires CountKey(rows, k) == 0
    ensures SumKey(rows, k) == 0
  {
    if rows != [] {
      SumKeyOfAbsent(rows[..|rows| - 1], k);
    }
  }

  lemma {:induction false} CountKeyPositive<G>(rows: seq<(int, int, G)>, i: int)
    requires 0 <= i < |rows|
    ensures CountKey(rows, rows[i].0) > 0
  {
    var n := |rows| - 1;
    if i < n {
      assert rows[..n][i] == rows[i];
      CountKeyPositive(rows[..n], i);
    }
  }

  lemma {:induction false} LookupAbsent<G>(gs: seq<Group<G>>, k: int)
    requires KeysStrictlySorted(gs)
    requires |gs| > 0 && k < gs[0].key
    ensures Lookup(gs, k) == None
  {
    if |gs| > 1 {
      LookupAbsent(gs[1..], k);
    }
  }

  lemma {:induction false} LookupFindsKey<G>(gs: seq<Group<G>>, k: int)
    ensures Lookup(gs, k).Some? ==> Lookup(gs, k).value.key == k && Lookup(gs, k).value in gs
  {
    if gs != [] && gs[0].key != k {
      LookupFindsKey(gs[1..], k);
    }
  }

  lemma {:induction false} InsertSpec<G>(gs: seq<Group<G>>, k: int, v: int, g: G)
    requires KeysStrictlySorted(gs)
    requires forall i :: 0 <= i < |gs| ==> gs[i].count > 0
    ensures var r := Insert(gs, k, v, g);
      KeysStrictlySorted(r)
      && (forall i :: 0 <= i < |r| ==> r[i].count > 0)
      && (|r| > 0 && r[0].key >= Min0(gs, k))
      && (forall x :: Lookup(r, x) == if x == k then Some(Bump(Lookup(gs, k), k, v, g)) else Lookup(gs, x))
      && SumCounts(r) == SumCounts(gs) + 1
      && SumTotals(r) == SumTotals(gs) + v
  {
    var r := Insert(gs, k, v, g);
    if gs == [] {
    } else if gs[0].key == k {
      assert r[1..] == gs[1..];
    } else if k < gs[0].key {
      assert r[1..] == gs;
      LookupAbsent(gs, k);
    } else {
      var rest := Insert(gs[1..], k, v, g);
      InsertSpec(gs[1..], k, v, g);
      assert r[1..] == rest;
      assert KeysStrictlySorted(r) by {
        forall i, j | 0 <= i < j < |r| ensures r[i].key < r[j].key {
          if i == 0 {
            assert r[j] == rest[j - 1];
            assert rest[0].key >= Min0(gs[1..], k);
            if j > 1 { assert rest[0].key < rest[j - 1].key; }
          }
        }
      }
    }
  }

  /** The smallest key after inserting `k`. */
  function Min0<G>(gs: seq<Group<G>>, k: int): int
  {
    if gs == [] || k < gs[0].key then k else gs[0].key
  }

  /** `groupby` yields one group per distinct key, in ascending key order; each
      group counts and sums exactly the rows with its key and keeps the first
      such row's payload; counts add up to the number of rows and totals to
      the sum of all values. */
  lemma {:induction false} GroupBySpec<G>(rows: seq<(int, int, G)>)
    ensures var gs := GroupBy(rows);
      KeysStrictlySorted(gs)
      && (forall i :: 0 <= i < |gs| ==> gs[i].count > 0)
      && (forall k :: Lookup(gs, k) ==
            if CountKey(rows, k) == 0 then None
            else Some(Group(k, CountKey(rows, k), SumKey(rows, k), FirstWith(rows, k).value)))
      && SumCounts(gs) == |rows|
      && SumTotals(gs) == SumValues(rows)
  {
    if rows != [] {
      var n := |rows| - 1;
      var prev := rows[..n];
      GroupBySpec(prev);
      InsertSpec(GroupBy(prev), rows[n].0, rows[n].1, rows[n].2);
      var gs := GroupBy(rows);
      forall k
        ensures Lookup(gs, k) ==
          if CountKey(rows, k) == 0 then None
          else Some(Group(k, CountKey(rows, k), SumKey(rows, k), FirstWith(rows, k).value))
      {
        if k == rows[n].0 && CountKey(prev, k) == 0 {
          SumKeyOfAbsent(prev, k);
        }
      }
    }
  }

  function GroupKeys<G>(gs: seq<Group<G>>): set<int>
  {
    set i | 0 <= i < |gs| :: gs[i].key
  }

  function RowKeys<G>(rows: seq<(int, int, G)>): set<int>
  {
    set j | 0 <= j < |rows| :: rows[j].0
  }

  /** The keys of the groups are exactly the keys occurring in the rows. */
  lemma {:induction false} GroupByKeys<G>(rows: seq<(int, int, G)>)
    ensures GroupKeys(GroupBy(rows)) == RowKeys(rows)
  {
    var gs := GroupBy(rows);
    GroupBySpec(rows);
    forall k | k in RowKeys(rows) ensures k in GroupKeys(gs) {
      var j :| 0 <= j < |rows| && rows[j].0 == k;
      CountKeyPositive(rows, j);
      LookupFindsKey(gs, k);
      var i :| 0 <= i < |gs| && gs[i] == Lookup(gs, k).value;
    }
    forall k | k in GroupKeys(gs) ensures k in RowKeys(rows) {
      var i :| 0 <= i < |gs| && gs[i].key == k;
      LookupOfSorted(gs, i);
      var f := FirstWith(rows, k);
      var j :| 0 <= j < |rows| && rows[j].0 == k && rows[j].2 == f.value
        && forall j' :: 0 <= j' < j ==> rows[j'].0 != k;
    }
  }

  lemma {:induction false} LookupOfSorted<G>(gs: seq<Group<G>>, i: int)
    requires KeysStrictlySorted(gs) && 0 <= i < |gs|
    ensures Lookup(gs, gs[i].key) == Some(gs[i])
  {
    if i > 0 {
      LookupOfSorted(gs[1..], i - 1);
    }
  }

  // ------------------------------------------------------------- left merge

  /** The right-hand payloads whose key is `k`, in order. */
  function Matches<K(==), R>(right: seq<(K, R)>, k: K): (r: seq<R>)
    ensures |r| <= |right|
  {
    if right == [] then []
    else (if right[0].0 == k then [right[0].1] else []) + Matches(right[1..], k)
  }

  /** The rows one left row turns into: one per match, or one with no match. */
  function JoinRow<K, L, R>(k: K, l: L, ms: seq<R>): (r: seq<(K, L, Option<R>)>)
    ensures |r| == if ms == [] then 1 else |ms|
  {
    if ms == [] then [(k, l, None)] else seq(|ms|, i requires 0 <= i < |ms| => (k, l, Some(ms[i])))
  }

  /** `left.merge(right, on=key, how='left')`: left order is kept, a left row
      with several matches is repeated once per match, and a left row with no
      match is kept with a missing right part. */
  function LeftJoin<K(==), L, R>(left: seq<(K, L)>, right: seq<(K, R)>): (r: seq<(K, L, Option<R>)>)
    ensures |r| >= |left|
  {
    if left == [] then []
    else JoinRow(left[0].0, left[0].1, Matches(right, left[0].0)) + LeftJoin(left[1..], right)
  }

  predicate UniqueKeys<K(==), R>(right: seq<(K, R)>) {
    forall i, j :: 0 <= i < j < |right| ==> right[i].0 != right[j].0
  }

  /** The payload of the first right row with key `k`. */
  function LookupRight<K(==), R>(right: seq<(K, R)>, k: K): Option<R>
  {
    if right == [] then None else if right[0].0 == k then Some(right[0].1) else LookupRight(right[1..], k)
  }

  lemma {:induction false} MatchesUnique<K, R>(right: seq<(K, R)>, k: K)
    requires UniqueKeys(right)
    ensures Matches(right, k) == match LookupRight(right, k) case None => [] case Some(x) => [x]
  {
    if right != [] {
      MatchesUnique(right[1..], k);
      if right[0].0 == k {
        AbsentAfter(right, k);
      }
    }
  }

  lemma {:induction false} AbsentAfter<K, R>(right: seq<(K, R)>, k: K)
    requires UniqueKeys(right) && |right| > 0 && right[0].0 == k
    ensures LookupRight(right[1..], k) == None
  {
    NotFound(right[1..], k);
  }

  lemma {:induction false} NotFound<K, R>(right: seq<(K, R)>, k: K)
    requires forall i :: 0 <= i < |right| ==> right[i].0 != k
    ensures LookupRight(right, k) == None
  {
    if right != [] {
      NotFound(right[1..], k);
    }
  }

  /** With unique keys on the right, the left merge keeps exactly one row per
      left row, in order, carrying that row's match if there is one. */
  lemma {:induction false} LeftJoinUnique<K, L, R>(left: seq<(K, L)>, right: seq<(K, R)>)
    requires UniqueKeys(right)
    ensures |LeftJoin(left, right)| == |left|
    ensures forall i :: 0 <= i < |left| ==>
      LeftJoin(left, right)[i] == (left[i].0, left[i].1, LookupRight(right, left[i].0))
  {
    if left != [] {
      LeftJoinUnique(left[1..], right);
      MatchesUnique(right, left[0].0);
      var head := JoinRow(left[0].0, left[0].1, Matches(right, left[0].0));
      assert |head| == 1;
      var r := LeftJoin(left, right);
      assert r == head + LeftJoin(left[1..], right);
      forall i | 0 <= i < |left|
        ensures r[i] == (left[i].0, left[i].1, LookupRight(right, left[i].0))
      {
        if i > 0 {
          assert r[i] == LeftJoin(left[1..], right)[i - 1];
          assert left[1..][i - 1] == left[i];
        }
      }
    }
  }

  lemma {:induction false} MatchesMembership<K, R>(right: seq<(K, R)>, k: K, x: R)
    ensures x in Matches(right, k) <==> (k, x) in right
  {
    if right != [] {
      MatchesMembership(right[1..], k, x);
      assert right == [right[0]] + right[1..];
    }
  }

  /** Every merged row comes from a left row, and carries a right row with the
      same key when it carries one. */
  lemma {:induction false} LeftJoinRowsFromInputs<K, L, R>(left: seq<(K, L)>, right: seq<(K, R)>)
    ensures forall t :: t in LeftJoin(left, right) ==>
      (t.0, t.1) in left && (t.2.Some? ==> (t.0, t.2.value) in right)
      && (t.2.None? ==> Matches(right, t.0) == [])
  {
    if left != [] {
      LeftJoinRowsFromInputs(left[1..], right);
      var ms := Matches(right, left[0].0);
      var head := JoinRow(left[0].0, left[0].1, ms);
      forall t | t in head
        ensures (t.0, t.1) in left && (t.2.Some? ==> (t.0, t.2.value) in right)
          && (t.2.None? ==> Matches(right, t.0) == [])
      {
        if t.2.Some? {
          MatchesMembership(right, left[0].0, t.2.value);
        }
      }
      assert left == [left[0]] + left[1..];
    }
  }

  // ---------------------------------------------------------------- sorting

  predicate SortedDesc<T>(s: seq<T>, key: T -> real) {
    forall i, j :: 0 <= i < j < |s| ==> key(s[i]) >= key(s[j])
  }

  function InsertDesc<T>(x: T, s: seq<T>, key: T -> real): seq<T>
  {
    if s == [] then [x]
    else if key(x) >= key(s[0]) then [x] + s
    else [s[0]] + InsertDesc(x, s[1..], key)
  }

  lemma {:induction false} InsertDescSpec<T>(x: T, s: seq<T>, key: T -> real)
    requires SortedDesc(s, key)
    ensures var r := InsertDesc(x, s, key);
      SortedDesc(r, key) && multiset(r) == multiset(s) + multiset{x} && |r| == |s| + 1
      && (|s| > 0 ==> key(r[0]) == Max(key(x), key(s[0])))
  {
    InsertDescCount(x, s, key);
    InsertDescSorted(x, s, key);
  }

  lemma {:induction false} InsertDescCount<T>(x: T, s: seq<T>, key: T -> real)
    ensures multiset(InsertDesc(x, s, key)) == multiset(s) + multiset{x}
    ensures |InsertDesc(x, s, key)| == |s| + 1
  {
    if s != [] && key(x) < key(s[0]) {
      InsertDescCount(x, s[1..], key);
      assert s == [s[0]] + s[1..];
    }
  }

  lemma {:induction false} InsertDescSorted<T>(x: T, s: seq<T>, key: T -> real)
    requires SortedDesc(s, key)
    ensures SortedDesc(InsertDesc(x, s, key), key)
    ensures |s| > 0 ==> key(InsertDesc(x, s, key)[0]) == Max(key(x), key(s[0]))
  {
    if s != [] && key(x) < key(s[0]) {
      var rest := InsertDesc(x, s[1..], key);
      InsertDescSorted(x, s[1..], key);
      InsertDescCount(x, s[1..], key);
      var r := [s[0]] + rest;
      forall i, j | 0 <= i < j < |r| ensures key(r[i]) >= key(r[j]) {
        if i == 0 {
          if |s| > 1 {
            assert key(s[0]) >= key(s[1]);
            if j > 1 { assert key(rest[0]) >= key(rest[j - 1]); }
          }
        } else {
          assert r[i] == rest[i - 1] && r[j] == rest[j - 1];
        }
      }
    }
  }

  function Max(a: real, b: real): real { if a >= b then a else b }

  /** `sort_values(by=key, ascending=False)`: the rows, rearranged in
      descending key order. */
  function SortDesc<T(!new)>(s: seq<T>, key: T -> real): (r: seq<T>)
    ensures SortedDesc(r, key)
    ensures multiset(r) == multiset(s)
    ensures |r| == |s|
  {
    if s == [] then []
    else
      assert s == [s[0]] + s[1..];
      InsertDescSpec(s[0], SortDesc(s[1..], key), key);
      InsertDesc(s[0], SortDesc(s[1..], key), key)
  }

  /** `sort_values(by=key, ascending=False).head(n)`. */
  function TopN<T(!new)>(s: seq<T>, key: T -> real, n: nat): (r: seq<T>)
  {
    var sorted := SortDesc(s, key);
    sorted[..if n < |s| then n else |s|]
  }

  /** The top-`n` list has `min(n, |s|)` rows in descending order, every one
      taken from the input, and no row left out ranks above a row kept. */
  lemma {:induction false} TopNSpec<T(!new)>(s: seq<T>, key: T -> real, n: nat)
    ensures var r := TopN(s, key, n);
      |r| == (if n < |s| then n else |s|)
      && SortedDesc(r, key)
      && multiset(r) <= multiset(s)
      && (forall x, y :: x in r && y in multiset(s) - multiset(r) ==> key(y) <= key(x))
  {
    var sorted := SortDesc(s, key);
    var m := if n < |s| then n else |s|;
    var r := sorted[..m];
    assert sorted == r + sorted[m..];
    assert multiset(sorted) == multiset(r) + multiset(sorted[m..]);
    forall x, y | x in r && y in multiset(s) - multiset(r)
      ensures key(y) <= key(x)
    {
      assert y in multiset(sorted[m..]);
      var j :| m <= j < |sorted| && sorted[j] == y by {
        assert y in sorted[m..];
        var j' :| 0 <= j' < |sorted[m..]| && sorted[m..][j'] == y;
        assert sorted[m + j'] == y;
      }
      var i :| 0 <= i < m && r[i] == x;
      assert sorted[i] == x;
    }
  }
}
