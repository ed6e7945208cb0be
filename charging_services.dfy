/** The charging-station domain service: stations counted per postal code,
    power summed per postal code, and the stations of a list of postal
    codes. Each works on the list the station repository's `get_all()`
    returns; the dictionaries it fills are `Dicts.Dict`s in insertion order. */
module ChargingServices {
  import opened Wrappers
  import opened Tables
  import opened Dicts
  import opened Charging

  /** How often `k` occurs in `s`. */
  function CountOf<K(==)>(s: seq<K>, k: K): nat
  {
    if s == [] then 0 else CountOf(s[..|s| - 1], k) + (if s[|s| - 1] == k then 1 else 0)
  }

  lemma {:induction false} CountOfAbsent<K>(s: seq<K>, k: K)
    requires k !in s
    ensures CountOf(s, k) == 0
  {
    if s != [] {
      assert s == s[..|s| - 1] + [s[|s| - 1]];
      CountOfAbsent(s[..|s| - 1], k);
    }
  }

  /** The distinct elements of `s` in order of first occurrence. */
  function Distinct<K(==)>(s: seq<K>): seq<K>
  {
    if s == [] then []
    else
      var prefix := s[..|s| - 1];
      var d := Distinct(prefix);
      if s[|s| - 1] in prefix then d else d + [s[|s| - 1]]
  }

  /** `Distinct` of a non-empty sequence: that of its front, with the last
      element added when it is new. */
  lemma {:induction false} DistinctLast<K>(s: seq<K>)
    requires s != []
    ensures Distinct(s) == if s[|s| - 1] in s[..|s| - 1] then Distinct(s[..|s| - 1]) else Distinct(s[..|s| - 1]) + [s[|s| - 1]]
  {
  }

  /** `Distinct` keeps exactly the elements of `s`. */
  lemma {:induction false} DistinctHas<K>(s: seq<K>, x: K)
    ensures x in Distinct(s) <==> x in s
  {
    if s != [] {
      var prefix := s[..|s| - 1];
      assert s == prefix + [s[|s| - 1]];
      DistinctHas(prefix, x);
    }
  }

  /** `Distinct` holds no element twice. */
  lemma {:induction false} DistinctUnique<K>(s: seq<K>)
    ensures forall i, j :: 0 <= i < j < |Distinct(s)| ==> Distinct(s)[i] != Distinct(s)[j]
  {
    if s != [] {
      var prefix := s[..|s| - 1];
      var x := s[|s| - 1];
      DistinctUnique(prefix);
      DistinctHas(prefix, x);
      var d := Distinct(prefix);
      if x !in prefix {
        forall i | 0 <= i < |d| ensures d[i] != x {
          assert d[i] in d;
        }
      }
    }
  }

  // ------------------------------------------------------------ counting

  /** The dictionary `summary[k] = summary.get(k, 0) + 1` builds over `codes`. */
  function Tally<K(==)>(codes: seq<K>): Dict<K, int>
  {
    if codes == [] then []
    else
      var prev := Tally(codes[..|codes| - 1]);
      var c := codes[|codes| - 1];
      Put(prev, c, LookupRight(prev, c).GetOr(0) + 1)
  }

  /** One step of the tally: the prefix up to `i` extended by code `i`. */
  lemma {:induction false} TallyStep<K>(codes: seq<K>, i: nat)
    requires i < |codes|
    ensures Tally(codes[..i + 1]) == Put(Tally(codes[..i]), codes[i], LookupRight(Tally(codes[..i]), codes[i]).GetOr(0) + 1)
  {
    assert codes[..i + 1][..i] == codes[..i];
  }

  /** The tally holds one entry per key. */
  lemma {:induction false} TallyUnique<K>(codes: seq<K>)
    ensures UniqueKeys(Tally(codes))
  {
    if codes != [] {
      var p := codes[..|codes| - 1];
      var c := codes[|codes| - 1];
      TallyUnique(p);
      var prev := Tally(p);
      PutUnique(prev, c, LookupRight(prev, c).GetOr(0) + 1);
    }
  }

  /** The tally's keys are the distinct codes in order of first occurrence. */
  lemma {:induction false} TallyKeys<K>(codes: seq<K>)
    ensures Keys(Tally(codes)) == Distinct(codes)
  {
    if codes != [] {
      var p := codes[..|codes| - 1];
      var c := codes[|codes| - 1];
      TallyKeys(p);
      var prev := Tally(p);
      var v := LookupRight(prev, c).GetOr(0) + 1;
      assert Tally(codes) == Put(prev, c, v);
      PutKeys(prev, c, v);
      DistinctHas(p, c);
      var kp := Keys(prev);
      assert kp == Distinct(p);
      assert Distinct(codes) == if c in p then Distinct(p) else Distinct(p) + [c];
      assert Keys(Tally(codes)) == if c in kp then kp else kp + [c];
    }
  }

  /** An element of a non-empty list is in its front or is its last. */
  lemma {:induction false} InInitOrLast<T>(s: seq<T>, x: T)
    requires s != []
    ensures x in s <==> x in s[..|s| - 1] || x == s[|s| - 1]
  {
    assert s == s[..|s| - 1] + [s[|s| - 1]];
  }

  /** Each code maps to its number of occurrences; every other key is absent. */
  lemma {:induction false} TallyCounts<K>(codes: seq<K>, k: K)
    ensures LookupRight(Tally(codes), k) == if k in codes then Some(CountOf(codes, k)) else None
  {
    if codes != [] {
      var p := codes[..|codes| - 1];
      var c := codes[|codes| - 1];
      InInitOrLast(codes, k);
      TallyCounts(p, k);
      var prev := Tally(p);
      var v := LookupRight(prev, c).GetOr(0) + 1;
      assert Tally(codes) == Put(prev, c, v);
      PutLookups(prev, c, v);
      if k == c {
        assert CountOf(codes, k) == CountOf(p, k) + 1;
        if c !in p {
          CountOfAbsent(p, c);
        }
      } else {
        assert CountOf(codes, k) == CountOf(p, k);
      }
    }
  }

  /** The counts add up to the number of codes. */
  lemma {:induction false} TallySum<K>(codes: seq<K>)
    ensures SumInt(Values(Tally(codes))) == |codes|
  {
    if codes != [] {
      var p := codes[..|codes| - 1];
      var c := codes[|codes| - 1];
      TallyUnique(p);
      TallySum(p);
      var prev := Tally(p);
      PutSum(prev, c, LookupRight(prev, c).GetOr(0) + 1);
    }
  }

  /** `get_stations_summary_by_postal_code`. */
  method StationsSummaryByPostalCode(stations: seq<ChargingStation>) returns (summary: Dict<string, int>)
    ensures summary == Tally(Codes(stations))
  {
    ghost var codes := Codes(stations);
    summary := [];
    var i := 0;
    while i < |stations|
      invariant 0 <= i <= |stations|
      invariant summary == Tally(codes[..i])
    {
      var postalCode := stations[i].postalCode;
      assert codes[i] == postalCode;
      TallyStep(codes, i);
      summary := Put(summary, postalCode, LookupRight(summary, postalCode).GetOr(0) + 1);
      i := i + 1;
    }
    assert codes[..|stations|] == codes;
  }

  /** Two stations at 10115 and one at 10117 give `{10115: 2, 10117: 1}`. */
  lemma SummaryExample()
    ensures Tally(["10115", "10115", "10117"]) == [("10115", 2), ("10117", 1)]
  {
    var codes := ["10115", "10115", "10117"];
    TallyStep(codes, 0);
    TallyStep(codes, 1);
    TallyStep(codes, 2);
    assert codes[..0] == [];
    assert codes[..3] == codes;
    var t1 := Tally(codes[..1]);
    assert t1 == [("10115", 1)];
    var t2 := Tally(codes[..2]);
    assert LookupRight(t1, "10115") == Some(1);
    assert t2 == [("10115", 2)];
    assert "10115" != "10117";
    assert LookupRight(t2, "10117") == None;
  }

  // ------------------------------------------------------------ capacity

  /** The sum of the amounts recorded against `k`. */
  function SumAt<K(==)>(pairs: seq<(K, real)>, k: K): real
  {
    if pairs == [] then 0.0
    else SumAt(pairs[..|pairs| - 1], k) + (if pairs[|pairs| - 1].0 == k then pairs[|pairs| - 1].1 else 0.0)
  }

  /** The dictionary `acc[k] = acc.get(k, 0) + x` builds over `pairs`. */
  function Accumulate<K(==)>(pairs: seq<(K, real)>): Dict<K, real>
  {
    if pairs == [] then []
    else
      var prev := Accumulate(pairs[..|pairs| - 1]);
      var last := pairs[|pairs| - 1];
      Put(prev, last.0, LookupRight(prev, last.0).GetOr(0.0) + last.1)
  }

  lemma {:induction false} AccumulateStep<K>(pairs: seq<(K, real)>, i: nat)
    requires i < |pairs|
    ensures Accumulate(pairs[..i + 1])
      == Put(Accumulate(pairs[..i]), pairs[i].0, LookupRight(Accumulate(pairs[..i]), pairs[i].0).GetOr(0.0) + pairs[i].1)
  {
    assert pairs[..i + 1][..i] == pairs[..i];
  }

  /** The totals hold one entry per key. */
  lemma {:induction false} AccumulateUnique<K>(pairs: seq<(K, real)>)
    ensures UniqueKeys(Accumulate(pairs))
  {
    if pairs != [] {
      var p := pairs[..|pairs| - 1];
      var (c, x) := pairs[|pairs| - 1];
      AccumulateUnique(p);
      var prev := Accumulate(p);
      PutUnique(prev, c, LookupRight(prev, c).GetOr(0.0) + x);
    }
  }

  /** The keys of a non-empty list of pairs: the keys of its front, then
      its last key. */
  lemma {:induction false} KeysInit<K, V>(pairs: seq<(K, V)>)
    requires pairs != []
    ensures Keys(pairs)[..|pairs| - 1] == Keys(pairs[..|pairs| - 1])
    ensures Keys(pairs)[|pairs| - 1] == pairs[|pairs| - 1].0
  {
  }

  /** A key of a non-empty list of pairs is a key of its front or its last
      key. */
  lemma {:induction false} KeyInInit<K, V>(pairs: seq<(K, V)>, k: K)
    requires pairs != []
    ensures k in Keys(pairs) <==> k in Keys(pairs[..|pairs| - 1]) || k == pairs[|pairs| - 1].0
  {
    KeysInit(pairs);
    InInitOrLast(Keys(pairs), k);
  }

  /** The totals' keys are the distinct keys in order of first occurrence. */
  lemma {:induction false} AccumulateKeys<K>(pairs: seq<(K, real)>)
    ensures Keys(Accumulate(pairs)) == Distinct(Keys(pairs))
  {
    if pairs != [] {
      AccumulateKeys(pairs[..|pairs| - 1]);
      AccumulateKeysStep(pairs);
    }
  }

  /** One step of `AccumulateKeys`: the last pair adds its key to the
      front's keys exactly when it is new. */
  lemma {:induction false} AccumulateKeysStep<K>(pairs: seq<(K, real)>)
    requires pairs != []
    requires Keys(Accumulate(pairs[..|pairs| - 1])) == Distinct(Keys(pairs[..|pairs| - 1]))
    ensures Keys(Accumulate(pairs)) == Distinct(Keys(pairs))
  {
    var p := pairs[..|pairs| - 1];
    var c := pairs[|pairs| - 1].0;
    var x := pairs[|pairs| - 1].1;
    var prev := Accumulate(p);
    var v := LookupRight(prev, c).GetOr(0.0) + x;
    assert Accumulate(pairs) == Put(prev, c, v);
    PutKeys(prev, c, v);
    KeysInit(pairs);
    DistinctHas(Keys(p), c);
    DistinctLast(Keys(pairs));
  }

  /** The last pair of a non-empty list adds its amount to its key. */
  lemma {:induction false} AccumulateLast<K>(pairs: seq<(K, real)>)
    requires pairs != []
    ensures Accumulate(pairs) == Put(Accumulate(pairs[..|pairs| - 1]), pairs[|pairs| - 1].0,
      LookupRight(Accumulate(pairs[..|pairs| - 1]), pairs[|pairs| - 1].0).GetOr(0.0) + pairs[|pairs| - 1].1)
  {
    var n := |pairs| - 1;
    AccumulateStep(pairs, n);
    assert pairs[..n + 1] == pairs;
  }

  lemma {:induction false} SumAtLast<K>(pairs: seq<(K, real)>, k: K)
    requires pairs != []
    ensures SumAt(pairs, k) == SumAt(pairs[..|pairs| - 1], k) + (if pairs[|pairs| - 1].0 == k then pairs[|pairs| - 1].1 else 0.0)
  {
  }

  /** Each key maps to the sum of its amounts; keys that never occur are absent. */
  lemma {:induction false} AccumulateSums<K>(pairs: seq<(K, real)>, k: K)
    ensures LookupRight(Accumulate(pairs), k) == if k in Keys(pairs) then Some(SumAt(pairs, k)) else None
  {
    if pairs != [] {
      var p := pairs[..|pairs| - 1];
      var c := pairs[|pairs| - 1].0;
      var x := pairs[|pairs| - 1].1;
      KeyInInit(pairs, k);
      AccumulateLast(pairs);
      SumAtLast(pairs, k);
      AccumulateSums(p, k);
      AccumulateSums(p, c);
      var prev := Accumulate(p);
      PutLookups(prev, c, LookupRight(prev, c).GetOr(0.0) + x);
      if k == c && c !in Keys(p) {
        SumAtAbsent(p, c);
      }
    }
  }

  lemma {:induction false} SumAtAbsent<K>(pairs: seq<(K, real)>, k: K)
    requires k !in Keys(pairs)
    ensures SumAt(pairs, k) == 0.0
  {
    if pairs != [] {
      var p := pairs[..|pairs| - 1];
      assert Keys(pairs) == Keys(p) + [pairs[|pairs| - 1].0];
      SumAtAbsent(p, k);
    }
  }

  /** `calculate_total_capacity_by_postal_code`. */
  method TotalCapacityByPostalCode(stations: seq<ChargingStation>) returns (capacity: Dict<string, real>)
    ensures capacity == Accumulate(CodesAndPowers(stations))
  {
    ghost var pairs := CodesAndPowers(stations);
    capacity := [];
    var i := 0;
    while i < |stations|
      invariant 0 <= i <= |stations|
      invariant capacity == Accumulate(pairs[..i])
    {
      var postalCode := stations[i].postalCode;
      var power := stations[i].capacity.powerKw;
      assert pairs[i] == (postalCode, power);
      AccumulateStep(pairs, i);
      capacity := Put(capacity, postalCode, LookupRight(capacity, postalCode).GetOr(0.0) + power);
      i := i + 1;
    }
    assert pairs[..|stations|] == pairs;
  }

  // ------------------------------------------------------------ area search

  /** The stations of each postal code in turn, in argument order. */
  function InArea(stations: seq<ChargingStation>, postalCodes: seq<string>): seq<ChargingStation>
    reads set s | s in stations
  {
    if postalCodes == [] then []
    else InArea(stations, postalCodes[..|postalCodes| - 1]) + AtPostalCode(stations, postalCodes[|postalCodes| - 1])
  }

  /** `find_stations_in_area`. */
  method FindStationsInArea(stations: seq<ChargingStation>, postalCodes: seq<string>) returns (found: seq<ChargingStation>)
    ensures found == InArea(stations, postalCodes)
  {
    found := [];
    var i := 0;
    while i < |postalCodes|
      invariant 0 <= i <= |postalCodes|
      invariant found == InArea(stations, postalCodes[..i])
    {
      assert postalCodes[..i + 1][..i] == postalCodes[..i];
      found := found + AtPostalCode(stations, postalCodes[i]);
      i := i + 1;
    }
    assert postalCodes[..|postalCodes|] == postalCodes;
  }

  /** The search result holds exactly the stations whose postal code was asked for. */
  lemma {:induction false} InAreaMembership(stations: seq<ChargingStation>, postalCodes: seq<string>)
    ensures forall i :: 0 <= i < |InArea(stations, postalCodes)| ==>
      InArea(stations, postalCodes)[i] in stations && InArea(stations, postalCodes)[i].postalCode in postalCodes
    ensures forall i, j :: 0 <= i < |stations| && 0 <= j < |postalCodes| && stations[i].postalCode == postalCodes[j] ==>
      stations[i] in InArea(stations, postalCodes)
  {
    if postalCodes != [] {
      var p := postalCodes[..|postalCodes| - 1];
      var c := postalCodes[|postalCodes| - 1];
      assert postalCodes == p + [c];
      InAreaMembership(stations, p);
      var front := InArea(stations, p);
      var back := AtPostalCode(stations, c);
      assert InArea(stations, postalCodes) == front + back;
      forall i | 0 <= i < |front + back|
        ensures (front + back)[i] in stations && (front + back)[i].postalCode in postalCodes
      {
        if i >= |front| {
          assert (front + back)[i] == back[i - |front|];
        }
      }
      forall i, j | 0 <= i < |stations| && 0 <= j < |postalCodes| && stations[i].postalCode == postalCodes[j]
        ensures stations[i] in front + back
      {
        if j < |p| {
          assert postalCodes[j] == p[j];
        }
      }
    }
  }

  /** Searching a list of codes is searching its parts one after the other,
      so a code given twice contributes its stations twice. */
  lemma {:induction false} InAreaAppend(stations: seq<ChargingStation>, a: seq<string>, b: seq<string>)
    ensures InArea(stations, a + b) == InArea(stations, a) + InArea(stations, b)
    decreases |b|
  {
    if b == [] {
      assert a + b == a;
    } else {
      var b' := b[..|b| - 1];
      InAreaLast(stations, a, b);
      InAreaAppend(stations, a, b');
      AppendAssociative(InArea(stations, a), InArea(stations, b'), AtPostalCode(stations, b[|b| - 1]));
    }
  }

  lemma {:induction false} AppendAssociative<T>(x: seq<T>, y: seq<T>, z: seq<T>)
    ensures (x + y) + z == x + (y + z)
  {
  }

  /** The last code of a non-empty concatenation is the last code of its
      second part. */
  lemma {:induction false} InAreaLast(stations: seq<ChargingStation>, a: seq<string>, b: seq<string>)
    requires b != []
    ensures InArea(stations, a + b) == InArea(stations, a + b[..|b| - 1]) + AtPostalCode(stations, b[|b| - 1])
  {
    assert (a + b)[..|a + b| - 1] == a + b[..|b| - 1];
    assert (a + b)[|a + b| - 1] == b[|b| - 1];
  }
}
