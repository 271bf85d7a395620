/** The report repository of the business backend
    (`internal/repository/impl/report_repo.go`): `Create` validates a report
    request, refuses a second report by the same reporter on the same post
    and appends a row. The RFC 3339 parser is the parameter `parseTime`. */
module BizReportRepo {
  import opened Wrappers
  import opened Tables
  import Text

  /** A row of the `report` table: the post id column is 32 bits wide. */
  datatype Report = Report(userId: string, postId: int, reason: string, date: int, reportFlag: int, removeFlag: int)

  /** The request `Create` expects as its payload. */
  datatype CreateReportRequest = CreateReportRequest(reportedGoogleId: string, targetPostId: int,
                                                     reportReason: string, reportedAt: string)

  /** The SQL duplicate test `userId = ? AND postId = ?`. */
  function SamePair(reporterId: string, postId: int): Report -> bool {
    (r: Report) => r.userId == reporterId && r.postId == postId
  }

  /** No two reports share a (reporter, post) pair. */
  predicate NoDuplicatePairs(reports: seq<Report>) {
    forall i, j :: 0 <= i < j < |reports| ==> !(reports[i].userId == reports[j].userId && reports[i].postId == reports[j].postId)
  }

  const DuplicateMessage: string := "duplicate report already exists"

  /** The checks `Create` runs before the duplicate test, in order: payload
      type (`None` is a payload of another type), required ids, then the
      timestamp. On success, the parsed time. */
  function CheckRequest(reporterId: string, payload: Option<CreateReportRequest>, parseTime: string -> Option<int>): (r: Result<int, string>)
    ensures payload.None? ==> r == Err("invalid payload type: expected *domain.CreateReportRequest")
    ensures payload.Some? && (reporterId == "" || payload.value.reportedGoogleId == "") ==>
      r == Err("reporterID and reportedGoogleID are required")
    ensures r.Ok? <==> (payload.Some? && reporterId != "" && payload.value.reportedGoogleId != ""
      && parseTime(payload.value.reportedAt).Some?)
    ensures r.Ok? ==> r.value == parseTime(payload.value.reportedAt).value
  {
    if payload.None? then Err("invalid payload type: expected *domain.CreateReportRequest")
    else if reporterId == "" || payload.value.reportedGoogleId == "" then Err("reporterID and reportedGoogleID are required")
    else match parseTime(payload.value.reportedAt)
      case None => Err("invalid reportedAt format")
      case Some(t) => Ok(t)
  }

  /** `Create` as written: the duplicate test compares the column with the
      request's full 64-bit post id, but the row stores `int32(TargetPostID)`. */
  function CreateAsWritten(reports: seq<Report>, reporterId: string, payload: Option<CreateReportRequest>,
                           parseTime: string -> Option<int>): (r: (Outcome<string>, seq<Report>))
    ensures CheckRequest(reporterId, payload, parseTime).Err? ==> r == (Fail(CheckRequest(reporterId, payload, parseTime).error), reports)
  {
    match CheckRequest(reporterId, payload, parseTime)
    case Err(e) => (Fail(e), reports)
    case Ok(date) =>
      var req := payload.value;
      if Any(reports, SamePair(reporterId, req.targetPostId)) then (Fail(DuplicateMessage), reports)
      else (Pass, reports + [Report(reporterId, Text.Int32(req.targetPostId), req.reportReason, date, 0, 0)])
  }

  /** `Create` with the duplicate test on the id the row would store. */
  function CreateReport(reports: seq<Report>, reporterId: string, payload: Option<CreateReportRequest>,
                        parseTime: string -> Option<int>): (r: (Outcome<string>, seq<Report>))
    ensures CheckRequest(reporterId, payload, parseTime).Err? ==> r == (Fail(CheckRequest(reporterId, payload, parseTime).error), reports)
    ensures CheckRequest(reporterId, payload, parseTime).Ok? && Any(reports, SamePair(reporterId, Text.Int32(payload.value.targetPostId))) ==>
      r == (Fail(DuplicateMessage), reports)
    ensures CheckRequest(reporterId, payload, parseTime).Ok? && !Any(reports, SamePair(reporterId, Text.Int32(payload.value.targetPostId))) ==>
      r.0.Pass?
    ensures r.0.Pass? ==>
      r.1 == reports + [Report(reporterId, Text.Int32(payload.value.targetPostId), payload.value.reportReason,
                               CheckRequest(reporterId, payload, parseTime).value, 0, 0)]
    ensures r.0.Fail? ==> r.1 == reports
  {
    match CheckRequest(reporterId, payload, parseTime)
    case Err(e) => (Fail(e), reports)
    case Ok(date) =>
      var req := payload.value;
      var postId := Text.Int32(req.targetPostId);
      if Any(reports, SamePair(reporterId, postId)) then (Fail(DuplicateMessage), reports)
      else (Pass, reports + [Report(reporterId, postId, req.reportReason, date, 0, 0)])
  }

  /** The two agree whenever the post id fits in 32 bits. */
  lemma AsWrittenAgreesInRange(reports: seq<Report>, reporterId: string, payload: Option<CreateReportRequest>,
                               parseTime: string -> Option<int>)
    requires payload.Some? ==> Text.InInt32(payload.value.targetPostId)
    ensures CreateAsWritten(reports, reporterId, payload, parseTime) == CreateReport(reports, reporterId, payload, parseTime)
  {
  }

  /** `Create` never leaves two reports with the same (reporter, post) pair. */
  lemma CreateKeepsPairsUnique(reports: seq<Report>, reporterId: string, payload: Option<CreateReportRequest>,
                               parseTime: string -> Option<int>)
    requires NoDuplicatePairs(reports)
    ensures NoDuplicatePairs(CreateReport(reports, reporterId, payload, parseTime).1)
  {
    var r := CreateReport(reports, reporterId, payload, parseTime);
    if r.0.Pass? {
      var last := r.1[|reports|];
      forall i | 0 <= i < |reports|
        ensures !(reports[i].userId == last.userId && reports[i].postId == last.postId)
      {
        assert !SamePair(reporterId, last.postId)(reports[i]);
      }
    }
  }

  /** As written, two reports of post 2^32 + 5 by the same reporter are both
      stored, as two rows for post 5. */
  lemma AsWrittenStoresDuplicates(parseTime: string -> Option<int>)
    requires parseTime("2025-01-01T00:00:00Z") == Some(0)
    ensures var req := Some(CreateReportRequest("v", Text.TWO_32 + 5, "spam", "2025-01-01T00:00:00Z"));
      var first := CreateAsWritten([], "u", req, parseTime);
      var second := CreateAsWritten(first.1, "u", req, parseTime);
      second.0.Pass? && second.1 == [Report("u", 5, "spam", 0, 0, 0), Report("u", 5, "spam", 0, 0, 0)]
      && !NoDuplicatePairs(second.1)
  {
    var req := Some(CreateReportRequest("v", Text.TWO_32 + 5, "spam", "2025-01-01T00:00:00Z"));
    assert Text.Int32(Text.TWO_32 + 5) == 5;
    var first := CreateAsWritten([], "u", req, parseTime);
    assert CheckRequest("u", req, parseTime) == Ok(0);
    assert first.1 == [Report("u", 5, "spam", 0, 0, 0)];
    assert !Any(first.1, SamePair("u", Text.TWO_32 + 5)) by {
      assert !SamePair("u", Text.TWO_32 + 5)(first.1[0]);
    }
    var second := CreateAsWritten(first.1, "u", req, parseTime);
    assert second.1 == first.1 + [Report("u", 5, "spam", 0, 0, 0)];
    assert second.1[0].userId == second.1[1].userId && second.1[0].postId == second.1[1].postId;
  }

  class ReportTable {
    var rows: seq<Report>

    constructor (initial: seq<Report>)
      ensures rows == initial
    {
      rows := initial;
    }

    /** `Create`, with the duplicate test on the stored post id. */
    method Create(reporterId: string, payload: Option<CreateReportRequest>, parseTime: string -> Option<int>) returns (r: Outcome<string>)
      modifies this
      ensures (r, rows) == CreateReport(old(rows), reporterId, payload, parseTime)
    {
      var checked := CheckRequest(reporterId, payload, parseTime);
      if checked.Err? {
        return Fail(checked.error);
      }
      var postId := Text.Int32(payload.value.targetPostId);
      var existing := FindFirst(rows, SamePair(reporterId, postId));
      if existing.Some? {
        return Fail(DuplicateMessage);
      }
      rows := rows + [Report(reporterId, postId, payload.value.reportReason, checked.value, 0, 0)];
      return Pass;
    }
  }
}
