/** The JSON suggestion repository. The file is a list of objects, each
    written from one suggestion; reading it back rebuilds the suggestions,
    and a single object that fails to parse makes the whole read come back
    empty. Every write rewrites the whole file from such a read. */
module SuggestionRepository {
  import opened Wrappers
  import opened Tables
  import opened Community

  /** An object of the file can be turned back into a suggestion: its
      status is one of the enumeration's values and its postal code,
      address and reason are non-empty. */
  predicate Loadable(rec: SuggestionRecord) {
    ParseStatus(rec.status).Some? && rec.plz != "" && rec.address != "" && rec.reason != ""
  }

  predicate AllLoadable(file: seq<SuggestionRecord>) {
    forall i :: 0 <= i < |file| ==> Loadable(file[i])
  }

  /** What `get_all` reads back, as records: the whole file when every
      object loads, nothing otherwise (the `ValueError` is caught). */
  function Reload(file: seq<SuggestionRecord>): (r: seq<SuggestionRecord>)
    ensures AllLoadable(file) ==> r == file
    ensures !AllLoadable(file) ==> r == []
  {
    if AllLoadable(file) then file else []
  }

  /** Reading back what was read back changes nothing. */
  lemma {:induction false} ReloadIdempotent(file: seq<SuggestionRecord>)
    ensures AllLoadable(Reload(file))
    ensures Reload(Reload(file)) == Reload(file)
  {
  }

  /** A valid suggestion writes an object that loads. */
  lemma {:induction false} ValidRecordLoads(s: ChargingSuggestion)
    requires s.Valid()
    ensures Loadable(s.Record())
  {
  }

  /** The position of the first record with the identifier; the length
      when there is none. */
  function IndexOfId(records: seq<SuggestionRecord>, id: int): (i: nat)
    ensures i <= |records|
    ensures i < |records| ==> records[i].id == id
    ensures forall k :: 0 <= k < i ==> records[k].id != id
  {
    if records == [] then 0
    else if records[0].id == id then 0
    else 1 + IndexOfId(records[1..], id)
  }

  /** A record has the postal code. */
  function HasPostalCode(postalCode: string): SuggestionRecord -> bool
  {
    (rec: SuggestionRecord) => rec.plz == postalCode
  }

  /** A record has the status. */
  function HasStatus(status: SuggestionStatus): SuggestionRecord -> bool
  {
    (rec: SuggestionRecord) => rec.status == StatusValue(status)
  }

  /** The loop of `update`: the first record with the identifier is
      replaced, the others stay. */
  function ReplaceFirst(records: seq<SuggestionRecord>, id: int, rec: SuggestionRecord): seq<SuggestionRecord>
  {
    if records == [] then []
    else if records[0].id == id then [rec] + records[1..]
    else [records[0]] + ReplaceFirst(records[1..], id, rec)
  }

  /** With no record carrying the identifier nothing changes; otherwise
      exactly the first one carrying it is replaced. */
  lemma {:induction false} ReplaceFirstSpec(records: seq<SuggestionRecord>, id: int, rec: SuggestionRecord)
    ensures IndexOfId(records, id) == |records| ==> ReplaceFirst(records, id, rec) == records
    ensures IndexOfId(records, id) < |records| ==>
      ReplaceFirst(records, id, rec) == records[IndexOfId(records, id) := rec]
  {
    if records != [] && records[0].id != id {
      ReplaceFirstSpec(records[1..], id, rec);
      assert records == [records[0]] + records[1..];
      if IndexOfId(records, id) < |records| {
        var i := IndexOfId(records[1..], id);
        assert records[1..][i := rec] == records[i + 1 := rec][1..];
        assert records[i + 1 := rec] == [records[0]] + records[i + 1 := rec][1..];
      }
    }
  }

  // ------------------------------------------------------------ comprehensions

  /** `next((s for s in suggestions if s.id == suggestion_id), None)`. */
  function FirstWithId(ss: seq<ChargingSuggestion>, id: int): (r: Option<ChargingSuggestion>)
    reads set s | s in ss
    ensures r.None? <==> IndexOfId(Records(ss), id) == |ss|
    ensures r.Some? ==> r.value == ss[IndexOfId(Records(ss), id)]
  {
    if ss == [] then None
    else if ss[0].id == id then Some(ss[0])
    else
      var rest := FirstWithId(ss[1..], id);
      assert Records(ss)[1..] == Records(ss[1..]);
      rest
  }

  /** `[s for s in suggestions if s.postal_code == postal_code]`. */
  function AtPostalCode(ss: seq<ChargingSuggestion>, postalCode: string): (r: seq<ChargingSuggestion>)
    reads set s | s in ss
    ensures Records(r) == Filter(Records(ss), HasPostalCode(postalCode))
  {
    if ss == [] then []
    else
      var rest := AtPostalCode(ss[1..], postalCode);
      assert Records(ss) == [ss[0].Record()] + Records(ss[1..]);
      assert Records(ss)[1..] == Records(ss[1..]);
      if ss[0].postalCode == postalCode then [ss[0]] + rest else rest
  }

  /** `[s for s in suggestions if s.status == status]`. */
  function AtStatus(ss: seq<ChargingSuggestion>, status: SuggestionStatus): (r: seq<ChargingSuggestion>)
    reads set s | s in ss
    ensures Records(r) == Filter(Records(ss), HasStatus(status))
  {
    if ss == [] then []
    else
      var rest := AtStatus(ss[1..], status);
      assert Records(ss) == [ss[0].Record()] + Records(ss[1..]);
      assert Records(ss)[1..] == Records(ss[1..]);
      StatusValueInjective(ss[0].status, status);
      if ss[0].status == status then [ss[0]] + rest else rest
  }

  lemma {:induction false} StatusValueInjective(a: SuggestionStatus, b: SuggestionStatus)
    ensures StatusValue(a) == StatusValue(b) <==> a == b
  {
  }

  /** The loop of `get_all`: one new suggestion per object when every
      object loads, none otherwise. */
  method LoadSuggestions(file: seq<SuggestionRecord>) returns (r: seq<ChargingSuggestion>)
    ensures Records(r) == Reload(file)
    ensures forall i :: 0 <= i < |r| ==> fresh(r[i]) && r[i].Valid()
  {
    r := [];
    var k := 0;
    while k < |file|
      invariant 0 <= k <= |file|
      invariant |r| == k && forall i :: 0 <= i < k ==> r[i].Record() == file[i]
      invariant forall i :: 0 <= i < k ==> Loadable(file[i])
      invariant forall i :: 0 <= i < |r| ==> fresh(r[i]) && r[i].Valid()
    {
      var rec := file[k];
      if !Loadable(rec) {
        // `SuggestionStatus(status)` or the constructor raises `ValueError`,
        // which `get_all` catches.
        return [];
      }
      var status := ParseStatus(rec.status).value;
      ParseStatusInverse(rec.status);
      var s := new ChargingSuggestion(rec.id, rec.plz, rec.address, rec.reason, rec.timestamp, status, rec.review);
      assert s.Record() == rec;
      r := r + [s];
      k := k + 1;
    }
    assert Records(r) == file;
  }

  /** The search loop of `update`: the position of the first suggestion
      with the identifier, the length when there is none. */
  method FindId(ss: seq<ChargingSuggestion>, id: int) returns (i: nat)
    ensures i == IndexOfId(Records(ss), id)
  {
    i := 0;
    while i < |ss| && ss[i].id != id
      invariant i <= |ss|
      invariant forall k :: 0 <= k < i ==> ss[k].id != id
    {
      i := i + 1;
    }
    IndexOfIdUnique(Records(ss), id, i);
  }

  /** The loop of `update`: the first suggestion with the same identifier
      is replaced by the new one. */
  method ReplaceFirstWithId(ss: seq<ChargingSuggestion>, suggestion: ChargingSuggestion)
    returns (r: seq<ChargingSuggestion>)
    ensures Records(r) == ReplaceFirst(Records(ss), suggestion.id, suggestion.Record())
  {
    var i := FindId(ss, suggestion.id);
    ReplaceFirstSpec(Records(ss), suggestion.id, suggestion.Record());
    r := ss;
    if i < |ss| {
      ReplaceAt(ss, i, suggestion);
      r := ss[i := suggestion];
    }
  }

  /** Any position before which no record has the identifier, and which is
      the end or holds the identifier, is the first one. */
  lemma {:induction false} IndexOfIdUnique(records: seq<SuggestionRecord>, id: int, i: nat)
    requires i <= |records| && (i < |records| ==> records[i].id == id)
    requires forall k :: 0 <= k < i ==> records[k].id != id
    ensures i == IndexOfId(records, id)
  {
  }

  lemma {:induction false} ReplaceAt(ss: seq<ChargingSuggestion>, i: nat, s: ChargingSuggestion)
    requires i < |ss|
    ensures Records(ss[i := s]) == Records(ss)[i := s.Record()]
  {
  }

  class JsonSuggestionRepository {
    /** The file's objects; a missing file is created holding `[]`. */
    var file: seq<SuggestionRecord>

    constructor(file: seq<SuggestionRecord>)
      ensures this.file == file
    {
      this.file := file;
    }

    /** `get_all`. */
    method GetAll() returns (r: seq<ChargingSuggestion>)
      ensures Records(r) == Reload(file)
      ensures forall i :: 0 <= i < |r| ==> fresh(r[i]) && r[i].Valid()
    {
      r := LoadSuggestions(file);
    }

    /** `_save_all`: the file becomes the suggestions' objects, in order. */
    method SaveAll(suggestions: seq<ChargingSuggestion>)
      modifies this
      ensures file == Records(suggestions)
    {
      file := Records(suggestions);
    }

    /** `save`: what reads back, followed by the new suggestion. */
    method Save(suggestion: ChargingSuggestion)
      modifies this
      ensures file == Reload(old(file)) + [suggestion.Record()]
    {
      var suggestions := GetAll();
      suggestions := suggestions + [suggestion];
      SaveAll(suggestions);
    }

    /** `update`: what reads back, with the first suggestion carrying the
        same identifier replaced. */
    method Update(suggestion: ChargingSuggestion)
      modifies this
      ensures file == ReplaceFirst(Reload(old(file)), suggestion.id, suggestion.Record())
    {
      var suggestions := GetAll();
      suggestions := ReplaceFirstWithId(suggestions, suggestion);
      SaveAll(suggestions);
    }

    /** `get_by_id`. */
    method GetById(id: int) returns (r: Option<ChargingSuggestion>)
      ensures r.None? <==> IndexOfId(Reload(file), id) == |Reload(file)|
      ensures r.Some? ==> fresh(r.value) && r.value.Record() == Reload(file)[IndexOfId(Reload(file), id)]
    {
      var suggestions := GetAll();
      r := FirstWithId(suggestions, id);
    }

    /** `get_by_postal_code`. */
    method GetByPostalCode(postalCode: string) returns (r: seq<ChargingSuggestion>)
      ensures Records(r) == Filter(Reload(file), HasPostalCode(postalCode))
    {
      var suggestions := GetAll();
      r := AtPostalCode(suggestions, postalCode);
    }

    /** `get_by_status`. */
    method GetByStatus(status: SuggestionStatus) returns (r: seq<ChargingSuggestion>)
      ensures Records(r) == Filter(Reload(file), HasStatus(status))
    {
      var suggestions := GetAll();
      r := AtStatus(suggestions, status);
    }

    /** `get_pending_suggestions`. */
    method GetPendingSuggestions() returns (r: seq<ChargingSuggestion>)
      ensures Records(r) == Filter(Reload(file), HasStatus(Pending))
    {
      r := GetByStatus(Pending);
    }

    /** `get_approved_suggestions`. */
    method GetApprovedSuggestions() returns (r: seq<ChargingSuggestion>)
      ensures Records(r) == Filter(Reload(file), HasStatus(Approved))
    {
      r := GetByStatus(Approved);
    }
  }

  /** Saving a valid suggestion into a file that loads keeps everything and
      adds the new one at the end, where `get_all` finds it. */
  lemma {:induction false} SaveKeepsLoadableFile(old_file: seq<SuggestionRecord>, s: SuggestionRecord)
    requires AllLoadable(old_file) && Loadable(s)
    ensures Reload(Reload(old_file) + [s]) == old_file + [s]
  {
  }

  /** Saving into a file with one object that does not load throws every
      earlier object away: the file then holds only the new one. */
  lemma {:induction false} SaveOverCorruptFileKeepsOnlyNew(old_file: seq<SuggestionRecord>, s: SuggestionRecord, bad: nat)
    requires bad < |old_file| && !Loadable(old_file[bad])
    ensures Reload(old_file) + [s] == [s]
  {
  }
}
