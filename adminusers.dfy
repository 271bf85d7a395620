/** User administration: the shared user table
    (`shared/repository/user_repository.go`) and the admin service over it
    (`service/admin_user_service.go`). Deletion is soft: it stamps
    `deletedAt` and removes no row. */
module AdminUsers {
  import opened Wrappers
  import opened Tables
  import AdminReports

  /** A row of the user table; `deletedAt` is a nullable timestamp. */
  datatype User = User(googleId: string, gmail: string, role: string, registrationDate: int, deletedAt: Option<int>)

  const RoleAdmin := "admin"

  function UserHasGoogleId(googleId: string): User -> bool { (u: User) => u.googleId == googleId }
  function UserHasRole(role: string): User -> bool { (u: User) => u.role == role }

  /** `FindAll`: one page of the table in storage order (no ORDER BY), and
      the count of every row. */
  function FindAll(rows: seq<User>, page: int, pageSize: int): (r: (seq<User>, int))
    ensures r.1 == |rows|
    ensures pageSize >= 0 ==> |r.0| <= pageSize
    ensures forall k :: 0 <= k < |r.0| ==>
      Max((page - 1) * pageSize, 0) + k < |rows| && r.0[k] == rows[Max((page - 1) * pageSize, 0) + k]
  {
    (Window(rows, (page - 1) * pageSize, pageSize), |rows|)
  }

  /** A page lists stored users only. */
  lemma FindAllMembers(rows: seq<User>, page: int, pageSize: int)
    ensures forall k :: 0 <= k < |FindAll(rows, page, pageSize).0| ==> FindAll(rows, page, pageSize).0[k] in rows
  {
    WindowMembers(rows, (page - 1) * pageSize, pageSize);
  }

  /** `FindByGoogleID`: the first row with that id, or "record not found". */
  function FindByGoogleId(rows: seq<User>, googleId: string): (r: Result<User, string>)
    ensures r.Err? <==> !Any(rows, UserHasGoogleId(googleId))
    ensures r.Ok? ==> r.value in rows && r.value.googleId == googleId
  {
    match FindFirst(rows, UserHasGoogleId(googleId))
    case None => Err("record not found")
    case Some(u) => Ok(u)
  }

  /** `CountByRole`. */
  function CountByRole(rows: seq<User>, role: string): (n: nat)
    ensures n == Count(rows, UserHasRole(role))
    ensures n > 0 <==> exists k :: 0 <= k < |rows| && rows[k].role == role
  {
    CountPositive(rows, UserHasRole(role));
    Count(rows, UserHasRole(role))
  }

  /** `SoftDelete`: `deletedAt = now` on the matching rows only. */
  function SoftDeleteRows(rows: seq<User>, googleId: string, now: int): (r: seq<User>)
    ensures |r| == |rows|
    ensures forall k :: 0 <= k < |rows| ==>
      r[k] == if rows[k].googleId == googleId then rows[k].(deletedAt := Some(now)) else rows[k]
  {
    MapWhere(rows, UserHasGoogleId(googleId), (u: User) => u.(deletedAt := Some(now)))
  }

  /** Soft deletion keeps every row and every role, so the role counts and
      the total do not move. */
  lemma {:induction false} SoftDeleteKeepsCounts(rows: seq<User>, googleId: string, now: int, role: string)
    ensures |SoftDeleteRows(rows, googleId, now)| == |rows|
    ensures CountByRole(SoftDeleteRows(rows, googleId, now), role) == CountByRole(rows, role)
    decreases |rows|
  {
    if rows != [] {
      SoftDeleteKeepsCounts(rows[1..], googleId, now, role);
      assert SoftDeleteRows(rows, googleId, now)[1..] == SoftDeleteRows(rows[1..], googleId, now);
    }
  }

  /** The service's `DeleteUser` decision on the table: "user not found",
      then "user is already deleted", then "cannot delete admin users", then
      the soft delete. */
  function DeleteUserOutcome(rows: seq<User>, googleId: string, now: int): (r: (Outcome<string>, seq<User>))
    ensures !Any(rows, UserHasGoogleId(googleId)) ==> r == (Fail("user not found"), rows)
    ensures r.0.Pass? <==>
      (Any(rows, UserHasGoogleId(googleId))
       && FindByGoogleId(rows, googleId).value.deletedAt.None?
       && FindByGoogleId(rows, googleId).value.role != RoleAdmin)
    ensures r.0.Fail? ==> r.1 == rows
    ensures r.0.Pass? ==> r.1 == SoftDeleteRows(rows, googleId, now)
  {
    match FindByGoogleId(rows, googleId)
    case Err(_) => (Fail("user not found"), rows)
    case Ok(user) =>
      if user.deletedAt.Some? then (Fail("user is already deleted"), rows)
      else if user.role == RoleAdmin then (Fail("cannot delete admin users"), rows)
      else (Pass, SoftDeleteRows(rows, googleId, now))
  }

  /** "Already deleted" is checked first: a deleted admin is reported as
      deleted, not as an admin. */
  lemma DeletedBeforeAdmin(rows: seq<User>, googleId: string, now: int)
    requires FindByGoogleId(rows, googleId).Ok?
    requires FindByGoogleId(rows, googleId).value.deletedAt.Some?
    ensures DeleteUserOutcome(rows, googleId, now) == (Fail("user is already deleted"), rows)
  {
  }

  /** A user is deleted once: a second call fails with "user is already
      deleted" and changes nothing. */
  lemma {:induction false} DeleteUserOnce(rows: seq<User>, googleId: string, now: int, later: int)
    requires DeleteUserOutcome(rows, googleId, now).0.Pass?
    ensures var after := DeleteUserOutcome(rows, googleId, now).1;
      DeleteUserOutcome(after, googleId, later) == (Fail("user is already deleted"), after)
  {
    var after := SoftDeleteRows(rows, googleId, now);
    var k :| 0 <= k < |rows| && UserHasGoogleId(googleId)(rows[k]);
    assert UserHasGoogleId(googleId)(after[k]);
    var found := FindFirst(after, UserHasGoogleId(googleId)).value;
    var j :| 0 <= j < |after| && after[j] == found && UserHasGoogleId(googleId)(after[j]);
    DeletedRowStamped(rows, googleId, now, j);
  }

  /** Every row with the Google id carries the deletion time after the
      update. */
  lemma DeletedRowStamped(rows: seq<User>, googleId: string, now: int, j: int)
    requires 0 <= j < |SoftDeleteRows(rows, googleId, now)| && SoftDeleteRows(rows, googleId, now)[j].googleId == googleId
    ensures SoftDeleteRows(rows, googleId, now)[j].deletedAt == Some(now)
  {
    assert SoftDeleteRows(rows, googleId, now)[j] == rows[j].(deletedAt := Some(now));
  }

  /** The user table. */
  class UserRepository {
    var rows: seq<User>

    constructor (initial: seq<User>)
      ensures rows == initial
    {
      rows := initial;
    }

    /** `SoftDelete`; `now` is the database's `NOW()`. */
    method SoftDelete(googleId: string, now: int)
      modifies this
      ensures rows == SoftDeleteRows(old(rows), googleId, now)
    {
      rows := MapWhere(rows, UserHasGoogleId(googleId), (u: User) => u.(deletedAt := Some(now)));
    }
  }

  datatype UserListResponse = UserListResponse(users: seq<User>, total: int, page: int)

  class AdminUserService {
    const repo: UserRepository

    constructor (repo: UserRepository)
      ensures this.repo == repo
    {
      this.repo := repo;
    }

    /** `GetUsers`: the same clamps as the report list; the response carries
      the effective page but not the page size. */
    method GetUsers(page: int, pageSize: int) returns (resp: UserListResponse)
      ensures resp.page == AdminReports.ClampPage(page)
      ensures (resp.users, resp.total) == FindAll(repo.rows, resp.page, AdminReports.ClampPageSize(pageSize))
    {
      var p := page;
      if p < 1 {
        p := 1;
      }
      var ps := pageSize;
      if ps < 1 || ps > 100 {
        ps := 20;
      }
      var found := FindAll(repo.rows, p, ps);
      resp := UserListResponse(found.0, found.1, p);
    }

    /** `DeleteUser`. */
    method DeleteUser(googleId: string, now: int) returns (r: Outcome<string>)
      modifies repo
      ensures (r, repo.rows) == DeleteUserOutcome(old(repo.rows), googleId, now)
    {
      var user := FindByGoogleId(repo.rows, googleId);
      if user.Err? {
        return Fail("user not found");
      }
      if user.value.deletedAt.Some? {
        return Fail("user is already deleted");
      }
      if user.value.role == RoleAdmin {
        return Fail("cannot delete admin users");
      }
      repo.SoftDelete(googleId, now);
      return Pass;
    }
  }
}
