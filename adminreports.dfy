/** Report moderation in the admin backend: the report table
    (`admin/repository/report_repository.go`) and the service in front of it
    (`admin/service/admin_report_service.go`). A report moves from
    unhandled to handled once, and never back. */
module AdminReports {
  import opened Wrappers
  import opened Tables

  /** A row of the report table; `reportId` is its primary key. */
  datatype Report = Report(reportId: int, userId: string, postId: int, reason: string, date: int,
                           reportFlag: bool, removeFlag: bool)

  function ReportHasId(id: int): Report -> bool { (r: Report) => r.reportId == id }
  function ReportDateKey(r: Report): (int, int) { (r.date, 0) }
  function Unhandled(r: Report): bool { !r.reportFlag }

  /** The optional `reportFlag = ?` filter; `None` is a nil pointer. */
  function FlagFilter(handled: Option<bool>): Report -> bool {
    (r: Report) => handled.None? || r.reportFlag == handled.value
  }

  /** The shared pagination clamps: a page below 1 is 1, and a page size
      outside 1..100 is 20. */
  function ClampPage(page: int): (r: int)
    ensures r >= 1
    ensures page >= 1 ==> r == page
    ensures page < 1 ==> r == 1
  {
    if page < 1 then 1 else page
  }

  function ClampPageSize(pageSize: int): (r: int)
    ensures 1 <= r <= 100
    ensures 1 <= pageSize <= 100 ==> r == pageSize
    ensures !(1 <= pageSize <= 100) ==> r == 20
  {
    if pageSize < 1 || pageSize > 100 then 20 else pageSize
  }

  /** The rows `FindAll` returns, before the window: the filtered rows,
      newest first. */
  function Listed(rows: seq<Report>, handled: Option<bool>): seq<Report> {
    SortDesc(Filter(rows, FlagFilter(handled)), ReportDateKey)
  }

  /** `FindAll`: one page of `Listed`, and the count of the filtered rows
      whatever the page. */
  function FindAll(rows: seq<Report>, page: int, pageSize: int, handled: Option<bool>): (r: (seq<Report>, int))
    ensures r.1 == Count(rows, FlagFilter(handled))
    ensures r.0 == Window(Listed(rows, handled), (page - 1) * pageSize, pageSize)
  {
    (Window(Listed(rows, handled), (page - 1) * pageSize, pageSize), Count(rows, FlagFilter(handled)))
  }

  /** What a page holds: at most `pageSize` rows, each a stored row passing
      the filter, newest first, while the total counts every filtered row. */
  lemma FindAllPage(rows: seq<Report>, page: int, pageSize: int, handled: Option<bool>)
    requires pageSize >= 1
    ensures var r := FindAll(rows, page, pageSize, handled);
      |r.0| <= pageSize && r.1 == |Listed(rows, handled)|
      && (forall k :: 0 <= k < |r.0| ==> r.0[k] in rows && FlagFilter(handled)(r.0[k]))
      && (forall i, j :: 0 <= i < j < |r.0| ==> r.0[i].date >= r.0[j].date)
  {
    var w := Window(Listed(rows, handled), (page - 1) * pageSize, pageSize);
    PageOfSelection(rows, FlagFilter(handled), ReportDateKey, (page - 1) * pageSize, pageSize);
    assert SortedDesc(w, ReportDateKey);
    forall i, j | 0 <= i < j < |w|
      ensures w[i].date >= w[j].date
    {
      assert KeyGe(ReportDateKey(w[i]), ReportDateKey(w[j]));
    }
  }

  /** `CountUnprocessed`. */
  function CountUnprocessed(rows: seq<Report>): (n: nat)
    ensures n == Count(rows, Unhandled)
    ensures n <= |rows|
  {
    Count(rows, Unhandled)
  }

  /** `MarkAsHandled` on the table: `reportFlag = true` on the matching rows
      only; no match is not an error. */
  function MarkRows(rows: seq<Report>, id: int): (r: seq<Report>)
    ensures |r| == |rows|
    ensures forall k :: 0 <= k < |rows| ==>
      r[k] == if rows[k].reportId == id then rows[k].(reportFlag := true) else rows[k]
  {
    MapWhere(rows, ReportHasId(id), (x: Report) => x.(reportFlag := true))
  }

  /** Report ids are a primary key. */
  predicate UniqueIds(rows: seq<Report>) {
    forall i, j :: 0 <= i < j < |rows| ==> rows[i].reportId != rows[j].reportId
  }

  /** Handling an unhandled report lowers the unprocessed count by exactly
      one. */
  lemma MarkLowersUnprocessed(rows: seq<Report>, i: int)
    requires UniqueIds(rows) && 0 <= i < |rows| && !rows[i].reportFlag
    ensures CountUnprocessed(MarkRows(rows, rows[i].reportId)) == CountUnprocessed(rows) - 1
  {
    var id := rows[i].reportId;
    assert MarkRows(rows, id) == rows[i := rows[i].(reportFlag := true)];
    CountUpdate(rows, i, rows[i].(reportFlag := true), Unhandled);
  }

  /** The service's `MarkAsHandled`: "report not found", then "report is
      already handled", then the update. */
  function HandleReport(rows: seq<Report>, id: int): (r: (Outcome<string>, seq<Report>))
    ensures !Any(rows, ReportHasId(id)) ==> r == (Fail("report not found"), rows)
    ensures Any(rows, ReportHasId(id)) && FindFirst(rows, ReportHasId(id)).value.reportFlag ==>
      r == (Fail("report is already handled"), rows)
    ensures r.0.Pass? <==> Any(rows, ReportHasId(id)) && !FindFirst(rows, ReportHasId(id)).value.reportFlag
    ensures r.0.Pass? ==> r.1 == MarkRows(rows, id)
  {
    match FindFirst(rows, ReportHasId(id))
    case None => (Fail("report not found"), rows)
    case Some(report) =>
      if report.reportFlag then (Fail("report is already handled"), rows)
      else (Pass, MarkRows(rows, id))
  }

  /** A report is handled at most once: a second `HandleReport` on the same
      id fails and changes nothing. */
  lemma {:induction false} HandledOnce(rows: seq<Report>, id: int)
    requires HandleReport(rows, id).0.Pass?
    ensures var after := HandleReport(rows, id).1;
      HandleReport(after, id) == (Fail("report is already handled"), after)
  {
    var after := MarkRows(rows, id);
    var k :| 0 <= k < |rows| && ReportHasId(id)(rows[k]);
    assert ReportHasId(id)(after[k]);
    var found := FindFirst(after, ReportHasId(id)).value;
    var j :| 0 <= j < |after| && after[j] == found && ReportHasId(id)(after[j]);
    MarkedRowFlagged(rows, id, j);
  }

  /** Every row with the id is flagged after the update. */
  lemma MarkedRowFlagged(rows: seq<Report>, id: int, j: int)
    requires 0 <= j < |MarkRows(rows, id)| && MarkRows(rows, id)[j].reportId == id
    ensures MarkRows(rows, id)[j].reportFlag
  {
    assert MarkRows(rows, id)[j] == rows[j].(reportFlag := true);
  }

  /** The report table. */
  class ReportRepository {
    var rows: seq<Report>

    constructor (initial: seq<Report>)
      ensures rows == initial
    {
      rows := initial;
    }

    /** `FindByID`: the row with that id, or GORM's "record not found". */
    function FindById(id: int): (r: Result<Report, string>)
      reads this
      ensures r.Ok? <==> Any(rows, ReportHasId(id))
      ensures r.Ok? ==> r.value in rows && r.value.reportId == id
    {
      match FindFirst(rows, ReportHasId(id))
      case None => Err("record not found")
      case Some(x) => Ok(x)
    }

    /** `MarkAsHandled`. */
    method MarkAsHandled(id: int)
      modifies this
      ensures rows == MarkRows(old(rows), id)
    {
      rows := MapWhere(rows, ReportHasId(id), (x: Report) => x.(reportFlag := true));
    }
  }

  /** The service's list response. */
  datatype ReportListResponse = ReportListResponse(reports: seq<Report>, total: int, page: int, pageSize: int)

  class AdminReportService {
    const repo: ReportRepository

    constructor (repo: ReportRepository)
      ensures this.repo == repo
    {
      this.repo := repo;
    }

    /** `GetReports`: clamps the page and page size, then echoes them with
      the repository's page and total. */
    method GetReports(page: int, pageSize: int, handled: Option<bool>) returns (resp: ReportListResponse)
      ensures resp.page == ClampPage(page) && resp.pageSize == ClampPageSize(pageSize)
      ensures (resp.reports, resp.total) == FindAll(repo.rows, resp.page, resp.pageSize, handled)
    {
      var p := page;
      if p < 1 {
        p := 1;
      }
      var ps := pageSize;
      if ps < 1 || ps > 100 {
        ps := 20;
      }
      var found := FindAll(repo.rows, p, ps, handled);
      resp := ReportListResponse(found.0, found.1, p, ps);
    }

    /** `MarkAsHandled`: looks the report up, refuses a handled one, then
      updates the table. */
    method MarkAsHandled(id: int) returns (r: Outcome<string>)
      modifies repo
      ensures (r, repo.rows) == HandleReport(old(repo.rows), id)
    {
      var report := repo.FindById(id);
      if report.Err? {
        return Fail("report not found");
      }
      if report.value.reportFlag {
        return Fail("report is already handled");
      }
      repo.MarkAsHandled(id);
      return Pass;
    }
  }
}
