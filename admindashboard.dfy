/** The administrator dashboard's state updates (`src/components/AdminDashboard.tsx`):
    the pending-report count and the handlers for business applications,
    reports, accounts and inquiries. `confirm()` answers are inputs; the
    toasts are left out. */
module AdminDashboardState {
  import opened Tables

  /** `Report` as the dashboard holds it: `reportFlag` means handled,
      `removeFlag` means the post was removed. */
  datatype Report = Report(reportId: int, userId: string, postId: int, reason: string, date: string,
                           reportFlag: bool, removeFlag: bool)

  /** A business application awaiting a decision. */
  datatype Application = Application(id: string, userName: string, email: string, shopName: string,
                                     phoneNumber: string, address: string, date: string)

  /** An entry of the user list. */
  datatype Account = Account(id: string, name: string, email: string, role: string, posts: int)

  /** An inquiry as the dashboard's list holds it. */
  datatype DashInquiry = DashInquiry(id: string, fromName: string, email: string, message: string, date: string)

  predicate IsPending(r: Report) { !r.reportFlag }

  /** `systemStats.pendingReports`: the reports not yet handled. */
  function PendingReports(reports: seq<Report>): (n: nat)
    ensures n <= |reports|
    ensures n == 0 <==> forall k :: 0 <= k < |reports| ==> reports[k].reportFlag
  {
    CountPositive(reports, IsPending);
    Count(reports, IsPending)
  }

  // ---------------------------------------------------------------------------
  // Business applications

  /** `handleApprove` and `handleReject` alike: only the applications with
      that id leave the list; the rest keep their order. */
  function RemoveApplication(apps: seq<Application>, id: string): (r: seq<Application>)
    ensures forall a :: a in r <==> a in apps && a.id != id
    ensures forall a :: multiset(r)[a] == if a.id != id then multiset(apps)[a] else 0
    ensures IsSubsequence(r, apps)
  {
    var p := (a: Application) => a.id != id;
    forall a
      ensures (a in Filter(apps, p) <==> a in apps && p(a)) && multiset(Filter(apps, p))[a] == (if p(a) then multiset(apps)[a] else 0)
    {
      FilterMember(apps, p, a);
      FilterMultiset(apps, p, a);
    }
    FilterIsSubsequence(apps, p);
    Filter(apps, p)
  }

  /** Removing an id that is not listed changes nothing. */
  lemma RemoveAbsentApplication(apps: seq<Application>, id: string)
    requires forall k :: 0 <= k < |apps| ==> apps[k].id != id
    ensures RemoveApplication(apps, id) == apps
  {
    FilterAll(apps, (a: Application) => a.id != id);
  }

  // ---------------------------------------------------------------------------
  // Reports

  /** `handleResolveReport`: the reports with that id become handled; the
      removal flag and every other report stay as they were. */
  function ResolveReport(reports: seq<Report>, reportId: int): (r: seq<Report>)
    ensures |r| == |reports|
    ensures forall k :: 0 <= k < |reports| ==>
      r[k] == (if reports[k].reportId == reportId then reports[k].(reportFlag := true) else reports[k])
  {
    MapWhere(reports, (x: Report) => x.reportId == reportId, (x: Report) => x.(reportFlag := true))
  }

  /** `handleDeletePost`: when confirmed, every report of the post becomes
      handled and removed; when not, nothing changes. */
  function DeletePost(reports: seq<Report>, postId: int, confirmed: bool): (r: seq<Report>)
    ensures !confirmed ==> r == reports
    ensures |r| == |reports|
    ensures confirmed ==> forall k :: 0 <= k < |reports| ==>
      r[k] == (if reports[k].postId == postId then reports[k].(reportFlag := true, removeFlag := true) else reports[k])
  {
    if !confirmed then reports
    else MapWhere(reports, (x: Report) => x.postId == postId, (x: Report) => x.(reportFlag := true, removeFlag := true))
  }

  /** Resolving a pending report whose id is unique lowers the pending count
      by one; resolving a handled one leaves it. */
  lemma ResolveCountsDown(reports: seq<Report>, k: int)
    requires 0 <= k < |reports|
    requires forall j :: 0 <= j < |reports| && j != k ==> reports[j].reportId != reports[k].reportId
    ensures PendingReports(ResolveReport(reports, reports[k].reportId))
      == PendingReports(reports) - (if IsPending(reports[k]) then 1 else 0)
  {
    var r := ResolveReport(reports, reports[k].reportId);
    assert r == reports[k := reports[k].(reportFlag := true)];
    CountUpdate(reports, k, reports[k].(reportFlag := true), IsPending);
  }

  /** After a confirmed deletion no report of the post is pending. */
  lemma DeletedPostHasNoPendingReport(reports: seq<Report>, postId: int)
    ensures forall k :: 0 <= k < |reports| && reports[k].postId == postId ==>
      !IsPending(DeletePost(reports, postId, true)[k]) && DeletePost(reports, postId, true)[k].removeFlag
  {
  }

  // ---------------------------------------------------------------------------
  // Accounts and inquiries

  /** `handleDeleteAccount`: only the accounts with that id leave the list. */
  function DeleteAccount(users: seq<Account>, userId: string): (r: seq<Account>)
    ensures forall u :: u in r <==> u in users && u.id != userId
    ensures forall u :: multiset(r)[u] == if u.id != userId then multiset(users)[u] else 0
    ensures IsSubsequence(r, users)
  {
    var p := (u: Account) => u.id != userId;
    forall u
      ensures (u in Filter(users, p) <==> u in users && p(u)) && multiset(Filter(users, p))[u] == (if p(u) then multiset(users)[u] else 0)
    {
      FilterMember(users, p, u);
      FilterMultiset(users, p, u);
    }
    FilterIsSubsequence(users, p);
    Filter(users, p)
  }

  /** `handleDeleteInquiry`: when confirmed, the inquiries with that id
      leave the list; when not, nothing changes. */
  function DeleteInquiry(inquiries: seq<DashInquiry>, id: string, confirmed: bool): (r: seq<DashInquiry>)
    ensures !confirmed ==> r == inquiries
    ensures confirmed ==> forall q :: q in r <==> q in inquiries && q.id != id
    ensures confirmed ==> forall q :: multiset(r)[q] == if q.id != id then multiset(inquiries)[q] else 0
    ensures IsSubsequence(r, inquiries)
  {
    var p := (q: DashInquiry) => q.id != id;
    if !confirmed then
      FilterAll(inquiries, (q: DashInquiry) => true);
      FilterIsSubsequence(inquiries, (q: DashInquiry) => true);
      inquiries
    else
      forall q
        ensures (q in Filter(inquiries, p) <==> q in inquiries && p(q))
          && multiset(Filter(inquiries, p))[q] == (if p(q) then multiset(inquiries)[q] else 0)
      {
        FilterMember(inquiries, p, q);
        FilterMultiset(inquiries, p, q);
      }
      FilterIsSubsequence(inquiries, p);
      Filter(inquiries, p)
  }
}
