/** Community engagement: a charging-location suggestion moves from pending
    to approved or rejected. `approve` and `reject` carry no guard, so a
    reviewed suggestion can be reviewed again. */
module Community {
  import opened Wrappers
  import opened Clock

  datatype SuggestionStatus = Pending | Approved | Rejected

  /** The enumeration's value, as written to the suggestion file. */
  function StatusValue(s: SuggestionStatus): string
  {
    match s
    case Pending => "pending"
    case Approved => "approved"
    case Rejected => "rejected"
  }

  /** `SuggestionStatus(v)`: `None` where the enumeration raises ValueError. */
  function ParseStatus(v: string): (r: Option<SuggestionStatus>)
  {
    if v == "pending" then Some(Pending)
    else if v == "approved" then Some(Approved)
    else if v == "rejected" then Some(Rejected)
    else None
  }

  /** Parsing the value written for a status gives the status back. */
  lemma {:induction false} StatusValueParses(s: SuggestionStatus)
    ensures ParseStatus(StatusValue(s)) == Some(s)
  {
  }

  /** Parsing accepts exactly the three enumeration values. */
  lemma {:induction false} ParseStatusInverse(v: string)
    ensures ParseStatus(v).Some? ==> StatusValue(ParseStatus(v).value) == v
    ensures ParseStatus(v).None? ==> v != "pending" && v != "approved" && v != "rejected"
  {
  }

  datatype ReviewInfo = ReviewInfo(reviewer: string, reviewDate: Moment, notes: Option<string>)

  /** One object of the suggestion file, as `_save_all` writes it: the
      review keys are present exactly when the suggestion was reviewed. */
  datatype SuggestionRecord = SuggestionRecord(
    id: int, plz: string, address: string, reason: string, timestamp: Moment,
    status: string, review: Option<ReviewInfo>)

  class ChargingSuggestion {
    var id: int
    var postalCode: string
    var address: string
    var reason: string
    var submittedAt: Moment
    var status: SuggestionStatus
    var reviewInfo: Option<ReviewInfo>

    predicate Valid()
      reads this
    {
      postalCode != "" && address != "" && reason != ""
    }

    /** The constructor past its checks. */
    constructor(id: int, postalCode: string, address: string, reason: string, submittedAt: Moment,
                status: SuggestionStatus, reviewInfo: Option<ReviewInfo>)
      requires postalCode != "" && address != "" && reason != ""
      ensures Valid()
      ensures this.id == id && this.postalCode == postalCode && this.address == address && this.reason == reason
      ensures this.submittedAt == submittedAt && this.status == status && this.reviewInfo == reviewInfo
    {
      this.id := id;
      this.postalCode := postalCode;
      this.address := address;
      this.reason := reason;
      this.submittedAt := submittedAt;
      this.status := status;
      this.reviewInfo := reviewInfo;
    }

    /** `approve`: whatever the current status. */
    method Approve(reviewer: string, notes: Option<string>, now: Moment)
      modifies this
      ensures status == Approved && reviewInfo == Some(ReviewInfo(reviewer, now, notes))
      ensures id == old(id) && postalCode == old(postalCode) && address == old(address)
      ensures reason == old(reason) && submittedAt == old(submittedAt)
    {
      status := Approved;
      reviewInfo := Some(ReviewInfo(reviewer, now, notes));
    }

    /** `reject`: whatever the current status. */
    method Reject(reviewer: string, notes: Option<string>, now: Moment)
      modifies this
      ensures status == Rejected && reviewInfo == Some(ReviewInfo(reviewer, now, notes))
      ensures id == old(id) && postalCode == old(postalCode) && address == old(address)
      ensures reason == old(reason) && submittedAt == old(submittedAt)
    {
      status := Rejected;
      reviewInfo := Some(ReviewInfo(reviewer, now, notes));
    }

    predicate IsPending() reads this { status == Pending }
    predicate IsApproved() reads this { status == Approved }
    predicate IsRejected() reads this { status == Rejected }

    /** The object `_save_all` writes for this suggestion. */
    function Record(): SuggestionRecord
      reads this
    {
      SuggestionRecord(id, postalCode, address, reason, submittedAt, StatusValue(status), reviewInfo)
    }
  }

  /** Exactly one of the three status predicates holds. */
  lemma {:induction false} ExactlyOneStatus(s: ChargingSuggestion)
    ensures s.IsPending() || s.IsApproved() || s.IsRejected()
    ensures !(s.IsPending() && s.IsApproved()) && !(s.IsPending() && s.IsRejected()) && !(s.IsApproved() && s.IsRejected())
  {
  }

  /** `ChargingSuggestion(...)` with its checks, in the order the source
      makes them: postal code, address, reason. */
  method NewChargingSuggestion(id: int, postalCode: string, address: string, reason: string, submittedAt: Moment,
                               status: SuggestionStatus, reviewInfo: Option<ReviewInfo>)
    returns (r: Result<ChargingSuggestion, string>)
    ensures r.Ok? <==> postalCode != "" && address != "" && reason != ""
    ensures postalCode == "" ==> r == Err("Postal code cannot be empty")
    ensures postalCode != "" && address == "" ==> r == Err("Address cannot be empty")
    ensures postalCode != "" && address != "" && reason == "" ==> r == Err("Reason cannot be empty")
    ensures r.Ok? ==> fresh(r.value) && r.value.Record() == SuggestionRecord(id, postalCode, address, reason, submittedAt, StatusValue(status), reviewInfo)
    ensures r.Ok? ==> r.value.status == status
  {
    if postalCode == "" {
      return Err("Postal code cannot be empty");
    }
    if address == "" {
      return Err("Address cannot be empty");
    }
    if reason == "" {
      return Err("Reason cannot be empty");
    }
    var s := new ChargingSuggestion(id, postalCode, address, reason, submittedAt, status, reviewInfo);
    return Ok(s);
  }

  /** A new suggestion with the defaults is pending and unreviewed; approving
      it records the reviewer and the notes. */
  method SubmitThenApprove(submittedAt: Moment, now: Moment) returns (s: ChargingSuggestion)
    ensures s.IsApproved() && s.reviewInfo == Some(ReviewInfo("Admin", now, Some("Good location")))
    ensures s.id == 1 && s.postalCode == "10115"
  {
    s := new ChargingSuggestion(1, "10115", "Test Address", "Need more charging", submittedAt, Pending, None);
    assert s.IsPending() && s.reviewInfo.None?;
    s.Approve("Admin", Some("Good location"), now);
  }

  /** The records of a list of suggestions, in order; the same shape as
      `Charging.Records`, over suggestions. */
  function Records(ss: seq<ChargingSuggestion>): (r: seq<SuggestionRecord>)
    reads set s | s in ss
    ensures |r| == |ss| && forall i :: 0 <= i < |ss| ==> r[i] == ss[i].Record()
  {
    if ss == [] then [] else [ss[0].Record()] + Records(ss[1..])
  }
}
