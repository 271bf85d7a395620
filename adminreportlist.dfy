/** The administrator's report list (`src/components/AdminReport.tsx`): the
    order the reports are shown in and the actions each one offers. */
module AdminReportList {
  import opened Tables

  datatype Status = Pending | Resolved

  /** `Report` as this component declares it. */
  datatype Report = Report(id: string, pinId: string, reporter: string, reason: string, status: Status, date: string)

  /** A button on a report card and the callback argument it passes. */
  datatype Action = DeletePost(pinId: string) | Dismiss(reportId: string)

  /** The comparator as a descending sort key: pending reports first, then
      the later `new Date(date).getTime()` first. */
  function SortKey(parseDate: string -> int): Report -> (int, int) {
    (r: Report) => (if r.status == Pending then 1 else 0, parseDate(r.date))
  }

  /** `sortedReports`: a sorted copy; the input is a value and is left as it
      was. The result holds the same reports, every pending report comes
      before every resolved one, and within a status later dates come
      first. */
  function SortedReports(reports: seq<Report>, parseDate: string -> int): (r: seq<Report>)
    ensures multiset(r) == multiset(reports)
    ensures forall i, j :: 0 <= i < j < |r| && r[j].status == Pending ==> r[i].status == Pending
    ensures forall i, j :: 0 <= i < j < |r| && r[i].status == r[j].status ==> parseDate(r[i].date) >= parseDate(r[j].date)
  {
    SortDescCorrect(reports, SortKey(parseDate));
    var r := SortDesc(reports, SortKey(parseDate));
    assert forall i, j :: 0 <= i < j < |r| ==> KeyGe(SortKey(parseDate)(r[i]), SortKey(parseDate)(r[j]));
    r
  }

  /** The sorted list is exactly as long as the input and lists each
      report of it. */
  lemma SortedKeepsEveryReport(reports: seq<Report>, parseDate: string -> int, x: Report)
    ensures |SortedReports(reports, parseDate)| == |reports|
    ensures x in SortedReports(reports, parseDate) <==> x in reports
  {
    var r := SortedReports(reports, parseDate);
    assert x in r <==> x in multiset(r);
    assert x in reports <==> x in multiset(reports);
    assert |r| == |multiset(r)| == |multiset(reports)| == |reports|;
  }

  /** The buttons a report card shows: delete and dismiss for a pending
      report, passing its post id and its own id; none for a resolved one. */
  function Actions(report: Report): (r: seq<Action>)
    ensures report.status.Resolved? <==> r == []
    ensures report.status == Pending ==> DeletePost(report.pinId) in r && Dismiss(report.id) in r
    ensures forall k :: 0 <= k < |r| ==> r[k] == DeletePost(report.pinId) || r[k] == Dismiss(report.id)
  {
    if report.status.Pending? then [DeletePost(report.pinId), Dismiss(report.id)] else []
  }
}
