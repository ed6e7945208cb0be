/** The suggestion-saved event handler: the caller's JSON object is stamped
    in place with an identifier, a time stamp, the pending status and empty
    review fields, then appended to what was loaded, and the whole list is
    what gets written. The identifier is the number of loaded suggestions
    plus one. */
module SuggestionEvents {
  import opened Wrappers
  import opened Clock
  import opened Tables
  import opened Dicts

  /** The JSON values the handler writes. */
  datatype Json = JStr(s: string) | JInt(n: int) | JNull

  type Object = Dict<string, Json>

  /** A JSON object the caller owns and the handler mutates. */
  class JsonObject {
    var fields: Object

    constructor(fields: Object)
      ensures this.fields == fields
    {
      this.fields := fields;
    }
  }

  /** The six assignments of `save_suggestion`, in order. */
  function Stamp(d: Object, id: int, now: Moment): Object
  {
    var d1 := Put(d, "id", JInt(id));
    var d2 := Put(d1, "timestamp", JStr(now.iso));
    var d3 := Put(d2, "status", JStr("pending"));
    var d4 := Put(d3, "reviewed_by", JNull);
    var d5 := Put(d4, "review_date", JNull);
    Put(d5, "review_notes", JNull)
  }

  predicate StampKey(k: string) {
    k == "id" || k == "timestamp" || k == "status" || k == "reviewed_by" || k == "review_date" || k == "review_notes"
  }

  /** One assignment `d[k] = v`: the keys stay distinct and `k` maps to
      `v`. */
  lemma {:induction false} PutLookup(d: Object, k: string, v: Json)
    requires UniqueKeys(d)
    ensures UniqueKeys(Put(d, k, v))
    ensures LookupRight(Put(d, k, v), k) == Some(v)
  {
    PutSpec(d, k, v);
  }

  /** One assignment `d[k] = v` leaves the key `j` alone. */
  lemma {:induction false} PutOther(d: Object, k: string, v: Json, j: string)
    requires UniqueKeys(d) && j != k
    ensures LookupRight(Put(d, k, v), j) == LookupRight(d, j)
  {
    PutSpec(d, k, v);
  }

  /** A stamped object keeps one entry per key, carries the identifier, the
      time stamp, the pending status and null review fields. */
  lemma {:induction false} StampSpec(d: Object, id: int, now: Moment)
    requires UniqueKeys(d)
    ensures var r := Stamp(d, id, now);
      && UniqueKeys(r)
      && LookupRight(r, "id") == Some(JInt(id))
      && LookupRight(r, "timestamp") == Some(JStr(now.iso))
      && LookupRight(r, "status") == Some(JStr("pending"))
      && LookupRight(r, "reviewed_by") == Some(JNull)
      && LookupRight(r, "review_date") == Some(JNull)
      && LookupRight(r, "review_notes") == Some(JNull)
  {
    var d1 := Put(d, "id", JInt(id));
    PutLookup(d, "id", JInt(id));
    var d2 := Put(d1, "timestamp", JStr(now.iso));
    PutLookup(d1, "timestamp", JStr(now.iso));
    PutOther(d1, "timestamp", JStr(now.iso), "id");
    var d3 := Put(d2, "status", JStr("pending"));
    PutLookup(d2, "status", JStr("pending"));
    PutOther(d2, "status", JStr("pending"), "id");
    PutOther(d2, "status", JStr("pending"), "timestamp");
    var d4 := Put(d3, "reviewed_by", JNull);
    PutLookup(d3, "reviewed_by", JNull);
    PutOther(d3, "reviewed_by", JNull, "id");
    PutOther(d3, "reviewed_by", JNull, "timestamp");
    PutOther(d3, "reviewed_by", JNull, "status");
    var d5 := Put(d4, "review_date", JNull);
    PutLookup(d4, "review_date", JNull);
    PutOther(d4, "review_date", JNull, "id");
    PutOther(d4, "review_date", JNull, "timestamp");
    PutOther(d4, "review_date", JNull, "status");
    PutOther(d4, "review_date", JNull, "reviewed_by");
    var r := Put(d5, "review_notes", JNull);
    PutLookup(d5, "review_notes", JNull);
    PutOther(d5, "review_notes", JNull, "id");
    PutOther(d5, "review_notes", JNull, "timestamp");
    PutOther(d5, "review_notes", JNull, "status");
    PutOther(d5, "review_notes", JNull, "reviewed_by");
    PutOther(d5, "review_notes", JNull, "review_date");
  }

  /** Stamping keeps every other key's value: the postal code, the address
      and the reason come through unchanged. */
  lemma {:induction false} StampKeepsOthers(d: Object, id: int, now: Moment, k: string)
    requires UniqueKeys(d)
    requires !StampKey(k)
    ensures LookupRight(Stamp(d, id, now), k) == LookupRight(d, k)
  {
    var d1 := Put(d, "id", JInt(id));
    PutLookup(d, "id", JInt(id));
    PutOther(d, "id", JInt(id), k);
    var d2 := Put(d1, "timestamp", JStr(now.iso));
    PutLookup(d1, "timestamp", JStr(now.iso));
    PutOther(d1, "timestamp", JStr(now.iso), k);
    var d3 := Put(d2, "status", JStr("pending"));
    PutLookup(d2, "status", JStr("pending"));
    PutOther(d2, "status", JStr("pending"), k);
    var d4 := Put(d3, "reviewed_by", JNull);
    PutLookup(d3, "reviewed_by", JNull);
    PutOther(d3, "reviewed_by", JNull, k);
    var d5 := Put(d4, "review_date", JNull);
    PutLookup(d4, "review_date", JNull);
    PutOther(d4, "review_date", JNull, k);
    var r := Put(d5, "review_notes", JNull);
    PutLookup(d5, "review_notes", JNull);
    PutOther(d5, "review_notes", JNull, k);
  }

  /** What `load_suggestions` finds on disk: no file, a file that does
      not open or parse, or a stored list. */
  datatype SuggestionFile = Missing | Unreadable | Stored(suggestions: seq<Object>)

  /** `load_suggestions`: the stored list, and an empty list both for a
      missing file and for any failure to read it. */
  function LoadSuggestions(file: SuggestionFile): (r: seq<Object>)
    ensures file.Stored? ==> r == file.suggestions
    ensures !file.Stored? ==> r == []
  {
    match file
    case Stored(suggestions) => suggestions
    case _ => []
  }

  /** `save_suggestion`, with the file and the clock as inputs: the
      caller's object is stamped in place and the result is the list
      written back. */
  method SaveSuggestion(suggestion: JsonObject, file: SuggestionFile, now: Moment) returns (written: seq<Object>)
    modifies suggestion
    ensures suggestion.fields == Stamp(old(suggestion.fields), |LoadSuggestions(file)| + 1, now)
    ensures written == LoadSuggestions(file) + [suggestion.fields]
  {
    var suggestions := LoadSuggestions(file);
    suggestion.fields := Put(suggestion.fields, "id", JInt(|suggestions| + 1));
    suggestion.fields := Put(suggestion.fields, "timestamp", JStr(now.iso));
    suggestion.fields := Put(suggestion.fields, "status", JStr("pending"));
    suggestion.fields := Put(suggestion.fields, "reviewed_by", JNull);
    suggestion.fields := Put(suggestion.fields, "review_date", JNull);
    suggestion.fields := Put(suggestion.fields, "review_notes", JNull);
    suggestions := suggestions + [suggestion.fields];
    written := suggestions;
  }

  /** Saving over a file that cannot be read writes a list holding only the
      new suggestion, with identifier 1: what the file held is lost. */
  lemma {:induction false} SaveOverUnreadableFileKeepsOnlyNew(d: Object, now: Moment)
    requires UniqueKeys(d)
    ensures var written := LoadSuggestions(Unreadable) + [Stamp(d, |LoadSuggestions(Unreadable)| + 1, now)];
      |written| == 1 && IdOf(written[0]) == Some(1)
  {
    StampSpec(d, 1, now);
  }

  /** Saving into a file written by an earlier save gives the next
      identifier: saves into a fresh file number their suggestions 1, 2, 3
      and so on, and the list grows by one each time. */
  lemma {:induction false} SavesNumberConsecutively(loaded: seq<Object>, d: Object, now: Moment)
    requires UniqueKeys(d)
    requires forall i :: 0 <= i < |loaded| ==> IdOf(loaded[i]) == Some(i + 1)
    ensures var written := LoadSuggestions(Stored(loaded)) + [Stamp(d, |LoadSuggestions(Stored(loaded))| + 1, now)];
      forall i :: 0 <= i < |written| ==> IdOf(written[i]) == Some(i + 1)
  {
    StampedId(d, |loaded| + 1, now);
    NextIdKeepsNumbering(loaded, Stamp(d, |loaded| + 1, now));
  }

  /** Appending an object numbered one past the list keeps the numbering
      consecutive. */
  lemma {:induction false} NextIdKeepsNumbering(loaded: seq<Object>, next: Object)
    requires forall i :: 0 <= i < |loaded| ==> IdOf(loaded[i]) == Some(i + 1)
    requires IdOf(next) == Some(|loaded| + 1)
    ensures forall i :: 0 <= i < |loaded + [next]| ==> IdOf((loaded + [next])[i]) == Some(i + 1)
  {
    var written := loaded + [next];
    forall i | 0 <= i < |written|
      ensures IdOf(written[i]) == Some(i + 1)
    {
      if i < |loaded| {
        assert written[i] == loaded[i];
      }
    }
  }

  /** A stamped object's identifier is the one it was stamped with. */
  lemma {:induction false} StampedId(d: Object, id: int, now: Moment)
    requires UniqueKeys(d)
    ensures IdOf(Stamp(d, id, now)) == Some(id)
  {
    StampSpec(d, id, now);
  }

  /** The identifier of an object, when it has an integer one. */
  function IdOf(d: Object): Option<int>
  {
    var v := LookupRight(d, "id");
    if v.Some? && v.value.JInt? then Some(v.value.n) else None
  }

  /** Once the identifiers have a gap the count plus one can be taken: a
      file holding identifiers 1 and 3 gets a second suggestion with
      identifier 3, where the largest identifier plus one would be 4. */
  lemma {:induction false} CountIdCollidesAfterGap(now: Moment)
    ensures var loaded := [[("id", JInt(1))], [("id", JInt(3))]];
      && IdOf(loaded[1]) == Some(|loaded| + 1)
      && forall i :: 0 <= i < |loaded| ==> IdOf(loaded[i]).value < 4
  {
    var loaded: seq<Object> := [[("id", JInt(1))], [("id", JInt(3))]];
    assert IdOf(loaded[0]) == Some(1);
    assert IdOf(loaded[1]) == Some(3);
  }
}
