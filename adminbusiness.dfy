/** Business applications in the admin backend: the request table
    (`admin/repository/business_request_repository.go`) and the service that
    lists, approves and rejects applications
    (`admin/service/admin_business_service.go`). An application is
    "pending" until it is approved or rejected, and both outcomes are
    final. */
module AdminBusiness {
  import opened Wrappers
  import opened Tables
  import AdminUsers

  /** A row of the request table; `requestId` is its primary key. */
  datatype BusinessRequest = BusinessRequest(requestId: int, name: string, userId: string, status: string,
                                             address: string, phone: string, createdAt: int)

  /** The member row an approval inserts. */
  datatype BusinessMember = BusinessMember(businessName: string, kanaBusinessName: string, address: string,
                                           phone: string, userId: string, placeId: Option<int>, registDate: int)

  const Pending := "pending"
  const Approved := "approved"
  const Rejected := "rejected"

  function RequestHasId(id: int): BusinessRequest -> bool { (r: BusinessRequest) => r.requestId == id }
  function StatusIs(status: string): BusinessRequest -> bool { (r: BusinessRequest) => r.status == status }
  function CreatedKey(r: BusinessRequest): (int, int) { (r.createdAt, 0) }

  // ---------------------------------------------------------------------------
  // The request table

  /** `FindAll`: every request, newest first. */
  function FindAll(rows: seq<BusinessRequest>): (r: seq<BusinessRequest>)
    ensures multiset(r) == multiset(rows)
    ensures SortedDesc(r, CreatedKey)
  {
    SortDescCorrect(rows, CreatedKey);
    SortDesc(rows, CreatedKey)
  }

  /** The optional status filter: skipped for a nil or empty status. */
  function StatusFilter(status: Option<string>): BusinessRequest -> bool {
    (r: BusinessRequest) => status.None? || status.value == "" || r.status == status.value
  }

  /** `FindAllPaginated`: the count of the filtered rows, and one page of
      them, newest first. */
  function FindAllPaginated(rows: seq<BusinessRequest>, page: int, pageSize: int, status: Option<string>): (r: (seq<BusinessRequest>, int))
    ensures r.1 == Count(rows, StatusFilter(status))
    ensures pageSize >= 0 ==> |r.0| <= pageSize
    ensures forall k :: 0 <= k < |r.0| ==> r.0[k] in rows && StatusFilter(status)(r.0[k])
    ensures SortedDesc(r.0, CreatedKey)
  {
    PageOfSelection(rows, StatusFilter(status), CreatedKey, (page - 1) * pageSize, pageSize);
    (Window(SortDesc(Filter(rows, StatusFilter(status)), CreatedKey), (page - 1) * pageSize, pageSize),
     Count(rows, StatusFilter(status)))
  }

  /** An empty status is no filter at all: it lists and counts exactly what
      a nil status does, and the total is then every row. */
  lemma EmptyStatusIsNoFilter(rows: seq<BusinessRequest>, page: int, pageSize: int)
    ensures FindAllPaginated(rows, page, pageSize, Some("")) == FindAllPaginated(rows, page, pageSize, None)
    ensures FindAllPaginated(rows, page, pageSize, None).1 == |rows|
  {
    FilterAll(rows, StatusFilter(Some("")));
    FilterAll(rows, StatusFilter(None));
  }

  /** `FindByID`. */
  function FindById(rows: seq<BusinessRequest>, id: int): (r: Result<BusinessRequest, string>)
    ensures r.Err? <==> !Any(rows, RequestHasId(id))
    ensures r.Ok? ==> r.value in rows && r.value.requestId == id
  {
    match FindFirst(rows, RequestHasId(id))
    case None => Err("record not found")
    case Some(x) => Ok(x)
  }

  /** `UpdateStatus`: only the matching request's status changes. */
  function UpdateStatusRows(rows: seq<BusinessRequest>, id: int, status: string): (r: seq<BusinessRequest>)
    ensures |r| == |rows|
    ensures forall k :: 0 <= k < |rows| ==>
      r[k] == if rows[k].requestId == id then rows[k].(status := status) else rows[k]
  {
    MapWhere(rows, RequestHasId(id), (x: BusinessRequest) => x.(status := status))
  }

  /** `Delete`: exactly the rows with another id remain, in order. */
  function DeleteRows(rows: seq<BusinessRequest>, id: int): (r: seq<BusinessRequest>)
    ensures forall x :: x in r <==> x in rows && x.requestId != id
    ensures IsSubsequence(r, rows)
  {
    FilterIsSubsequence(rows, (x: BusinessRequest) => x.requestId != id);
    forall x {
      FilterMember(rows, (x: BusinessRequest) => x.requestId != id, x);
    }
    Filter(rows, (x: BusinessRequest) => x.requestId != id)
  }

  /** `CountPending`. */
  function CountPending(rows: seq<BusinessRequest>): (n: nat)
    ensures n == Count(rows, StatusIs(Pending))
    ensures n > 0 <==> exists k :: 0 <= k < |rows| && rows[k].status == Pending
  {
    CountPositive(rows, StatusIs(Pending));
    Count(rows, StatusIs(Pending))
  }

  // ---------------------------------------------------------------------------
  // The service's decisions

  datatype ApplicationResponse = ApplicationResponse(requestId: int, businessName: string, applicantName: string,
                                                     applicantEmail: string, status: string, address: string,
                                                     phone: string, createdAt: string)

  /** One `GetApplications` entry: the applicant is the user's Gmail, or ""
      when the lookup fails; `format` renders the timestamp. */
  function ResponseOf(req: BusinessRequest, users: seq<AdminUsers.User>, format: int -> string): (r: ApplicationResponse)
    ensures r.requestId == req.requestId && r.businessName == req.name && r.status == req.status
    ensures r.address == req.address && r.phone == req.phone && r.createdAt == format(req.createdAt)
    ensures r.applicantName == r.applicantEmail
    ensures AdminUsers.FindByGoogleId(users, req.userId).Err? ==> r.applicantEmail == ""
    ensures AdminUsers.FindByGoogleId(users, req.userId).Ok? ==>
      r.applicantEmail == AdminUsers.FindByGoogleId(users, req.userId).value.gmail
  {
    var email := match AdminUsers.FindByGoogleId(users, req.userId)
      case Ok(u) => u.gmail
      case Err(_) => "";
    ApplicationResponse(req.requestId, req.name, email, email, req.status, req.address, req.phone, format(req.createdAt))
  }

  /** The member an approval creates from its request. */
  function MemberOf(req: BusinessRequest, now: int): (m: BusinessMember)
    ensures m.businessName == req.name && m.kanaBusinessName == req.name
    ensures m.address == req.address && m.phone == req.phone && m.userId == req.userId
    ensures m.placeId.None? && m.registDate == now
  {
    BusinessMember(req.name, req.name, req.address, req.phone, req.userId, None, now)
  }

  /** The guards approve and reject share: "application not found", then
      "application is already processed". */
  function CheckPending(requests: seq<BusinessRequest>, id: int): (r: Result<BusinessRequest, string>)
    ensures !Any(requests, RequestHasId(id)) ==> r == Err("application not found")
    ensures Any(requests, RequestHasId(id)) && FindById(requests, id).value.status != Pending ==>
      r == Err("application is already processed")
    ensures r.Ok? <==> Any(requests, RequestHasId(id)) && FindById(requests, id).value.status == Pending
    ensures r.Ok? ==> r.value == FindById(requests, id).value
  {
    match FindById(requests, id)
    case Err(_) => Err("application not found")
    case Ok(req) => if req.status != Pending then Err("application is already processed") else Ok(req)
  }

  /** `ApproveApplication` on the tables. After the guards and the user
      check, the status is set to "approved" and the member is inserted as
      two separate statements: `insertError` is the database's answer to the
      insert, and when it fails the approval stays. */
  function Approve(requests: seq<BusinessRequest>, users: seq<AdminUsers.User>, members: seq<BusinessMember>,
                   id: int, now: int, insertError: Option<string>): (r: (Outcome<string>, seq<BusinessRequest>, seq<BusinessMember>))
    ensures CheckPending(requests, id).Err? ==> r == (Fail(CheckPending(requests, id).error), requests, members)
    ensures CheckPending(requests, id).Ok? && AdminUsers.FindByGoogleId(users, CheckPending(requests, id).value.userId).Err? ==>
      r == (Fail("record not found"), requests, members)
    ensures CheckPending(requests, id).Ok? && AdminUsers.FindByGoogleId(users, CheckPending(requests, id).value.userId).Ok? ==>
      r.1 == UpdateStatusRows(requests, id, Approved)
      && (insertError.Some? ==> r.0 == Fail(insertError.value) && r.2 == members)
      && (insertError.None? ==> r.0 == Pass && r.2 == members + [MemberOf(CheckPending(requests, id).value, now)])
  {
    match CheckPending(requests, id)
    case Err(e) => (Fail(e), requests, members)
    case Ok(req) =>
      match AdminUsers.FindByGoogleId(users, req.userId)
      case Err(e) => (Fail(e), requests, members)
      case Ok(_) =>
        var approved := UpdateStatusRows(requests, id, Approved);
        match insertError
        case Some(e) => (Fail(e), approved, members)
        case None => (Pass, approved, members + [MemberOf(req, now)])
  }

  /** `RejectApplication` on the request table; it creates no member. */
  function Reject(requests: seq<BusinessRequest>, id: int): (r: (Outcome<string>, seq<BusinessRequest>))
    ensures CheckPending(requests, id).Err? ==> r == (Fail(CheckPending(requests, id).error), requests)
    ensures CheckPending(requests, id).Ok? ==> r == (Pass, UpdateStatusRows(requests, id, Rejected))
  {
    match CheckPending(requests, id)
    case Err(e) => (Fail(e), requests)
    case Ok(_) => (Pass, UpdateStatusRows(requests, id, Rejected))
  }

  /** After a status update on a stored id, that id is no longer pending. */
  lemma {:induction false} UpdatedNotPending(requests: seq<BusinessRequest>, id: int, status: string)
    requires Any(requests, RequestHasId(id)) && status != Pending
    ensures CheckPending(UpdateStatusRows(requests, id, status), id) == Err("application is already processed")
  {
    var after := UpdateStatusRows(requests, id, status);
    var k :| 0 <= k < |requests| && RequestHasId(id)(requests[k]);
    assert RequestHasId(id)(after[k]);
    UpdatedRowHasStatus(requests, id, status, FindById(after, id).value);
  }

  /** Every row with the id carries the new status after the update. */
  lemma UpdatedRowHasStatus(requests: seq<BusinessRequest>, id: int, status: string, x: BusinessRequest)
    requires x in UpdateStatusRows(requests, id, status) && x.requestId == id
    ensures x.status == status
  {
    var after := UpdateStatusRows(requests, id, status);
    var j :| 0 <= j < |after| && after[j] == x;
    assert after[j] == requests[j].(status := status);
  }

  /** Approval is final, even when the member insert failed: a later
      approve or reject of the same application is refused and changes
      nothing. */
  lemma ApprovalIsFinal(requests: seq<BusinessRequest>, users: seq<AdminUsers.User>, members: seq<BusinessMember>,
                        id: int, now: int, insertError: Option<string>, later: int, laterError: Option<string>)
    requires CheckPending(requests, id).Ok?
    requires AdminUsers.FindByGoogleId(users, CheckPending(requests, id).value.userId).Ok?
    ensures var a := Approve(requests, users, members, id, now, insertError);
      Approve(a.1, users, a.2, id, later, laterError) == (Fail("application is already processed"), a.1, a.2)
      && Reject(a.1, id) == (Fail("application is already processed"), a.1)
  {
    UpdatedNotPending(requests, id, Approved);
  }

  /** Rejection is final: a later approve or reject is refused, and no
      member is ever created for the application. */
  lemma RejectionIsFinal(requests: seq<BusinessRequest>, users: seq<AdminUsers.User>, members: seq<BusinessMember>,
                         id: int, later: int, laterError: Option<string>)
    requires Reject(requests, id).0.Pass?
    ensures var r := Reject(requests, id).1;
      Approve(r, users, members, id, later, laterError) == (Fail("application is already processed"), r, members)
      && Reject(r, id) == (Fail("application is already processed"), r)
  {
    UpdatedNotPending(requests, id, Rejected);
  }

  /** One more response, built as the listing loop builds it. */
  lemma ResponsesStep(responses: seq<ApplicationResponse>, requests: seq<BusinessRequest>, i: int,
                      users: seq<AdminUsers.User>, format: int -> string, response: ApplicationResponse)
    requires 0 <= i < |requests| && |responses| == i
    requires forall k :: 0 <= k < i ==> responses[k] == ResponseOf(requests[k], users, format)
    requires var req := requests[i]; var user := AdminUsers.FindByGoogleId(users, req.userId);
      var email := if user.Ok? then user.value.gmail else "";
      response == ApplicationResponse(req.requestId, req.name, email, email, req.status, req.address, req.phone,
                                      format(req.createdAt))
    ensures forall k :: 0 <= k < i + 1 ==> (responses + [response])[k] == ResponseOf(requests[k], users, format)
  {
    assert response == ResponseOf(requests[i], users, format);
  }

  /** Request ids are a primary key. */
  predicate UniqueIds(rows: seq<BusinessRequest>) {
    forall i, j :: 0 <= i < j < |rows| ==> rows[i].requestId != rows[j].requestId
  }

  /** Deciding a pending application lowers `CountPending` by exactly one. */
  lemma DecisionLowersPending(requests: seq<BusinessRequest>, i: int, status: string)
    requires UniqueIds(requests) && 0 <= i < |requests| && requests[i].status == Pending && status != Pending
    ensures CountPending(UpdateStatusRows(requests, requests[i].requestId, status)) == CountPending(requests) - 1
  {
    assert UpdateStatusRows(requests, requests[i].requestId, status) == requests[i := requests[i].(status := status)];
    CountUpdate(requests, i, requests[i].(status := status), StatusIs(Pending));
  }

  // ---------------------------------------------------------------------------
  // Repositories and the service

  class BusinessRequestRepository {
    var rows: seq<BusinessRequest>

    constructor (initial: seq<BusinessRequest>)
      ensures rows == initial
    {
      rows := initial;
    }

    /** `UpdateStatus`. */
    method UpdateStatus(id: int, status: string)
      modifies this
      ensures rows == UpdateStatusRows(old(rows), id, status)
    {
      rows := MapWhere(rows, RequestHasId(id), (x: BusinessRequest) => x.(status := status));
    }

    /** `Delete`. */
    method Delete(id: int)
      modifies this
      ensures rows == DeleteRows(old(rows), id)
    {
      rows := DeleteRows(rows, id);
    }
  }

  /** The member table; only `Create` is used here. */
  class BusinessMemberRepository {
    var rows: seq<BusinessMember>

    constructor (initial: seq<BusinessMember>)
      ensures rows == initial
    {
      rows := initial;
    }

    /** `Create`: appends, unless the database refuses the insert with
      `insertError`. */
    method Create(m: BusinessMember, insertError: Option<string>) returns (r: Outcome<string>)
      modifies this
      ensures insertError.Some? ==> r == Fail(insertError.value) && rows == old(rows)
      ensures insertError.None? ==> r == Pass && rows == old(rows) + [m]
    {
      if insertError.Some? {
        return Fail(insertError.value);
      }
      rows := rows + [m];
      return Pass;
    }
  }

  class AdminBusinessService {
    const requestRepo: BusinessRequestRepository
    const userRepo: AdminUsers.UserRepository
    const memberRepo: BusinessMemberRepository

    constructor (requestRepo: BusinessRequestRepository, userRepo: AdminUsers.UserRepository, memberRepo: BusinessMemberRepository)
      ensures this.requestRepo == requestRepo && this.userRepo == userRepo && this.memberRepo == memberRepo
    {
      this.requestRepo := requestRepo;
      this.userRepo := userRepo;
      this.memberRepo := memberRepo;
    }

    /** `GetApplications`: one entry per request, in the repository's
      newest-first order. */
    method GetApplications(format: int -> string) returns (responses: seq<ApplicationResponse>)
      ensures |responses| == |requestRepo.rows|
      ensures forall k :: 0 <= k < |responses| ==>
        responses[k] == ResponseOf(FindAll(requestRepo.rows)[k], userRepo.rows, format)
    {
      var requests := FindAll(requestRepo.rows);
      var users := userRepo.rows;
      assert |requests| == |requestRepo.rows| by {
        assert |multiset(requests)| == |multiset(requestRepo.rows)|;
      }
      responses := [];
      var i := 0;
      while i < |requests|
        invariant 0 <= i <= |requests|
        invariant |responses| == i
        invariant forall k :: 0 <= k < i ==> responses[k] == ResponseOf(requests[k], users, format)
      {
        var req := requests[i];
        var user := AdminUsers.FindByGoogleId(users, req.userId);
        var applicantName := "";
        var applicantEmail := "";
        if user.Ok? {
          applicantEmail := user.value.gmail;
          applicantName := user.value.gmail;
        }
        var response := ApplicationResponse(req.requestId, req.name, applicantName, applicantEmail,
                                            req.status, req.address, req.phone, format(req.createdAt));
        ResponsesStep(responses, requests, i, users, format, response);
        responses := responses + [response];
        i := i + 1;
      }
    }

    /** `ApproveApplication`. */
    method ApproveApplication(id: int, now: int, insertError: Option<string>) returns (r: Outcome<string>)
      modifies requestRepo, memberRepo
      ensures (r, requestRepo.rows, memberRepo.rows)
        == Approve(old(requestRepo.rows), userRepo.rows, old(memberRepo.rows), id, now, insertError)
    {
      var request := FindById(requestRepo.rows, id);
      if request.Err? {
        return Fail("application not found");
      }
      if request.value.status != Pending {
        return Fail("application is already processed");
      }
      var user := AdminUsers.FindByGoogleId(userRepo.rows, request.value.userId);
      if user.Err? {
        return Fail(user.error);
      }
      requestRepo.UpdateStatus(id, Approved);
      r := memberRepo.Create(MemberOf(request.value, now), insertError);
    }

    /** `RejectApplication`. */
    method RejectApplication(id: int) returns (r: Outcome<string>)
      modifies requestRepo
      ensures (r, requestRepo.rows) == Reject(old(requestRepo.rows), id)
    {
      var request := FindById(requestRepo.rows, id);
      if request.Err? {
        return Fail("application not found");
      }
      if request.value.status != Pending {
        return Fail("application is already processed");
      }
      requestRepo.UpdateStatus(id, Rejected);
      return Pass;
    }
  }
}
