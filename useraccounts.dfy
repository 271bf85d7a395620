/** The user backend's account service (`user/services/user_service.go`):
    register-or-login with session reuse, user lookups, logout and
    withdrawal. Identifiers that the service draws from a UUID generator,
    and the clock, are parameters. Users are soft-deleted: a withdrawn row
    is invisible to every lookup but keeps its unique `googleId`. */
module UserAccountService {
  import opened Wrappers
  import opened Tables
  import opened UserDb

  const Day := 24 * 60 * 60

  function LiveWithGoogleId(googleId: string): User -> bool { (u: User) => u.googleId == googleId && u.deletedAt.None? }
  function LiveWithId(id: string): User -> bool { (u: User) => u.id == id && u.deletedAt.None? }
  function AnyWithGoogleId(googleId: string): User -> bool { (u: User) => u.googleId == googleId }
  function ValidSessionOf(userId: string, now: int): Session -> bool { (s: Session) => s.userId == userId && s.expiresAt > now }
  function HasSessionId(sessionId: string): Session -> bool { (s: Session) => s.sessionId == sessionId }
  function NotOfUser(userId: string): Session -> bool { (s: Session) => s.userId != userId }

  /** The identifiers a call may draw: a user id, a session row id and a
      session id. */
  datatype FreshIds = FreshIds(userId: string, rowId: string, sessionId: string)

  /** The message of a failed insert, wrapping the driver's text. */
  function CreateFailed(dbError: string): string { "failed to create user: " + dbError }

  /** The user part of `RegisterOrLogin`: the live user with that googleId,
      or a new "user" row. The insert breaks the unique index on `googleId`
      when a withdrawn row still holds it; `dbError` is the driver's message
      then. */
  function FindOrCreateUser(users: seq<User>, googleId: string, email: string, now: int, newId: string, dbError: string): (r: (Result<User, string>, seq<User>))
    ensures Any(users, LiveWithGoogleId(googleId)) ==>
      r == (Ok(FindFirst(users, LiveWithGoogleId(googleId)).value), users)
    ensures !Any(users, LiveWithGoogleId(googleId)) && Any(users, AnyWithGoogleId(googleId)) ==>
      r == (Err(CreateFailed(dbError)), users)
    ensures !Any(users, AnyWithGoogleId(googleId)) ==>
      r.0 == Ok(User(newId, googleId, email, "user", now, None)) && r.1 == users + [r.0.value]
  {
    match FindFirst(users, LiveWithGoogleId(googleId))
    case Some(u) => (Ok(u), users)
    case None =>
      if Any(users, AnyWithGoogleId(googleId)) then (Err(CreateFailed(dbError)), users)
      else
        var u := User(newId, googleId, email, "user", now, None);
        (Ok(u), users + [u])
  }

  /** `RegisterOrLogin`: googleID, then email, must be non-empty. A valid
      session of the user is extended to now + 24h and returned; otherwise a
      new one with that expiry is created. */
  function RegisterOrLoginOutcome(t: Snapshot, googleId: string, email: string, now: int, ids: FreshIds, dbError: string): (r: (Result<Session, string>, Snapshot))
    ensures googleId == "" ==> r == (Err("googleID is required"), t)
    ensures googleId != "" && email == "" ==> r == (Err("email is required"), t)
    ensures r.0.Ok? ==> r.0.value.expiresAt == now + Day && r.1.users == FindOrCreateUser(t.users, googleId, email, now, ids.userId, dbError).1
    ensures r.0.Ok? ==> r.0.value in r.1.sessions && FindOrCreateUser(t.users, googleId, email, now, ids.userId, dbError).0.Ok? && r.0.value.userId == FindOrCreateUser(t.users, googleId, email, now, ids.userId, dbError).0.value.id
    ensures r.0.Err? ==> r.1 == t
    ensures googleId != "" && email != "" ==>
      (r.0.Ok? <==> FindOrCreateUser(t.users, googleId, email, now, ids.userId, dbError).0.Ok?)
    ensures (googleId != "" && email != "" && FindOrCreateUser(t.users, googleId, email, now, ids.userId, dbError).0.Ok?
      && !Any(t.sessions, ValidSessionOf(FindOrCreateUser(t.users, googleId, email, now, ids.userId, dbError).0.value.id, now))) ==>
      r.0 == Ok(Session(ids.rowId, FindOrCreateUser(t.users, googleId, email, now, ids.userId, dbError).0.value.id, ids.sessionId, now + Day))
      && r.1.sessions == t.sessions + [r.0.value]
  {
    if googleId == "" then (Err("googleID is required"), t)
    else if email == "" then (Err("email is required"), t)
    else
      var (user, users) := FindOrCreateUser(t.users, googleId, email, now, ids.userId, dbError);
      match user
      case Err(e) => (Err(e), t)
      case Ok(u) =>
        match FindIndex(t.sessions, ValidSessionOf(u.id, now))
        case Some(k) =>
          var extended := t.sessions[k].(expiresAt := now + Day);
          assert t.sessions[k := extended][k] == extended;
          (Ok(extended), t.(users := users, sessions := t.sessions[k := extended]))
        case None =>
          var created := Session(ids.rowId, u.id, ids.sessionId, now + Day);
          (Ok(created), t.(users := users, sessions := t.sessions + [created]))
  }

  /** A returning user with a valid session keeps its session id, and no
      user or session row is added. */
  lemma LoginExtendsSession(t: Snapshot, googleId: string, email: string, now: int, ids: FreshIds, dbError: string)
    requires googleId != "" && email != ""
    requires Any(t.users, LiveWithGoogleId(googleId))
    requires Any(t.sessions, ValidSessionOf(FindFirst(t.users, LiveWithGoogleId(googleId)).value.id, now))
    ensures var r := RegisterOrLoginOutcome(t, googleId, email, now, ids, dbError);
      var k := FindIndex(t.sessions, ValidSessionOf(FindFirst(t.users, LiveWithGoogleId(googleId)).value.id, now)).value;
      r.0 == Ok(t.sessions[k].(expiresAt := now + Day)) && r.0.value.sessionId == t.sessions[k].sessionId
      && r.1.users == t.users && |r.1.sessions| == |t.sessions|
  {
  }

  datatype UserInfo = UserInfo(userId: string, email: string, role: string, registrationDate: int)

  /** `GetUserInfo`. */
  function GetUserInfo(t: Snapshot, googleId: string): (r: Result<UserInfo, string>)
    ensures googleId == "" ==> r == Err("googleID is required")
    ensures googleId != "" && !Any(t.users, LiveWithGoogleId(googleId)) ==> r == Err("user not found")
    ensures googleId != "" && Any(t.users, LiveWithGoogleId(googleId)) ==> r.Ok?
    ensures r.Ok? ==> exists k :: (0 <= k < |t.users| && t.users[k].googleId == googleId && t.users[k].deletedAt.None?
      && r.value == UserInfo(t.users[k].id, t.users[k].email, t.users[k].role, t.users[k].registrationDate))
  {
    if googleId == "" then Err("googleID is required")
    else match FindFirst(t.users, LiveWithGoogleId(googleId))
      case None => Err("user not found")
      case Some(u) => Ok(UserInfo(u.id, u.email, u.role, u.registrationDate))
  }

  /** `GetUserByID`. */
  function GetUserById(t: Snapshot, userId: string): (r: Result<User, string>)
    ensures userId == "" ==> r == Err("userID is required")
    ensures userId != "" && !Any(t.users, LiveWithId(userId)) ==> r == Err("user not found")
    ensures userId != "" && Any(t.users, LiveWithId(userId)) ==> r.Ok?
    ensures r.Ok? ==> r.value in t.users && r.value.id == userId && r.value.deletedAt.None?
  {
    if userId == "" then Err("userID is required")
    else match FindFirst(t.users, LiveWithId(userId))
      case None => Err("user not found")
      case Some(u) => Ok(u)
  }

  /** `Logout`: deletes every session with that id; none is "session not
      found". */
  function LogoutOutcome(t: Snapshot, sessionId: string): (r: (Outcome<string>, Snapshot))
    ensures sessionId == "" ==> r == (Fail("sessionID is required"), t)
    ensures sessionId != "" && !Any(t.sessions, HasSessionId(sessionId)) ==> r == (Fail("session not found"), t)
    ensures r.0.Pass? <==> sessionId != "" && Any(t.sessions, HasSessionId(sessionId))
    ensures r.0.Pass? ==> (r.1 == t.(sessions := r.1.sessions)
      && (forall s :: s in r.1.sessions <==> s in t.sessions && s.sessionId != sessionId))
  {
    if sessionId == "" then (Fail("sessionID is required"), t)
    else
      var kept := Filter(t.sessions, (s: Session) => s.sessionId != sessionId);
      CountPositive(t.sessions, HasSessionId(sessionId));
      FilterComplement(t.sessions, (s: Session) => s.sessionId != sessionId, HasSessionId(sessionId));
      if |t.sessions| - |kept| == 0 then (Fail("session not found"), t)
      else
        forall s {
          FilterMember(t.sessions, (s: Session) => s.sessionId != sessionId, s);
        }
        (Pass, t.(sessions := kept))
  }

  /** `DeleteUser`: in one transaction, every session of the user is
      deleted and the user row is stamped deleted. */
  function DeleteUserOutcome(t: Snapshot, googleId: string, now: int): (r: (Outcome<string>, Snapshot))
    ensures googleId == "" ==> r == (Fail("googleID is required"), t)
    ensures googleId != "" && !Any(t.users, LiveWithGoogleId(googleId)) ==> r == (Fail("user not found"), t)
    ensures r.0.Pass? <==> googleId != "" && Any(t.users, LiveWithGoogleId(googleId))
    ensures r.0.Pass? ==> var u := FindFirst(t.users, LiveWithGoogleId(googleId)).value;
      (r.1 == t.(sessions := r.1.sessions, users := r.1.users)
      && (forall s :: s in r.1.sessions <==> s in t.sessions && s.userId != u.id)
      && |r.1.users| == |t.users|
      && (forall k :: 0 <= k < |t.users| ==>
            r.1.users[k] == if t.users[k].id == u.id then t.users[k].(deletedAt := Some(now)) else t.users[k]))
  {
    if googleId == "" then (Fail("googleID is required"), t)
    else match FindFirst(t.users, LiveWithGoogleId(googleId))
      case None => (Fail("user not found"), t)
      case Some(u) =>
        forall s {
          FilterMember(t.sessions, NotOfUser(u.id), s);
        }
        (Pass, t.(sessions := Filter(t.sessions, NotOfUser(u.id)),
                  users := MapWhere(t.users, (x: User) => x.id == u.id, (x: User) => x.(deletedAt := Some(now)))))
  }

  /** After withdrawal the user is gone for every lookup, and signing in
      again with the same Google account fails on the unique index: the
      withdrawn row still holds the googleId. */
  lemma WithdrawnCannotReturn(t: Snapshot, googleId: string, email: string, now: int, later: int, ids: FreshIds, dbError: string)
    requires email != ""
    requires DeleteUserOutcome(t, googleId, now).0.Pass?
    requires forall i, j :: 0 <= i < j < |t.users| ==> t.users[i].googleId != t.users[j].googleId
    ensures var after := DeleteUserOutcome(t, googleId, now).1;
      GetUserInfo(after, googleId) == Err("user not found")
      && RegisterOrLoginOutcome(after, googleId, email, later, ids, dbError) == (Err(CreateFailed(dbError)), after)
  {
    var after := DeleteUserOutcome(t, googleId, now).1;
    var u := FindFirst(t.users, LiveWithGoogleId(googleId)).value;
    var i :| 0 <= i < |t.users| && t.users[i] == u && LiveWithGoogleId(googleId)(u);
    assert AnyWithGoogleId(googleId)(after.users[i]);
    NoneLiveAfterDelete(t, googleId, now, i);
  }

  /** Once the only row holding the Google id is withdrawn, no live row
      holds it. */
  lemma NoneLiveAfterDelete(t: Snapshot, googleId: string, now: int, i: int)
    requires DeleteUserOutcome(t, googleId, now).0.Pass?
    requires forall i, j :: 0 <= i < j < |t.users| ==> t.users[i].googleId != t.users[j].googleId
    requires 0 <= i < |t.users| && t.users[i] == FindFirst(t.users, LiveWithGoogleId(googleId)).value
    ensures forall j :: 0 <= j < |t.users| ==> !LiveWithGoogleId(googleId)(DeleteUserOutcome(t, googleId, now).1.users[j])
  {
    var after := DeleteUserOutcome(t, googleId, now).1;
    forall j | 0 <= j < |t.users|
      ensures !LiveWithGoogleId(googleId)(after.users[j])
    {
      if j != i {
        assert t.users[j].googleId != googleId;
      }
    }
  }

  /** The account service over the shared database handle. */
  class UserService {
    const db: Database

    constructor (db: Database)
      ensures this.db == db
    {
      this.db := db;
    }

    /** `RegisterOrLogin`. */
    method RegisterOrLogin(googleId: string, email: string, now: int, ids: FreshIds, dbError: string) returns (r: Result<Session, string>)
      modifies db
      ensures (r, db.State()) == RegisterOrLoginOutcome(old(db.State()), googleId, email, now, ids, dbError)
    {
      if googleId == "" {
        return Err("googleID is required");
      }
      if email == "" {
        return Err("email is required");
      }
      var found := FindFirst(db.users, LiveWithGoogleId(googleId));
      var user: User;
      if found.Some? {
        user := found.value;
      } else {
        if Any(db.users, AnyWithGoogleId(googleId)) {
          return Err(CreateFailed(dbError));
        }
        user := User(ids.userId, googleId, email, "user", now, None);
        db.users := db.users + [user];
      }
      var existing := FindIndex(db.sessions, ValidSessionOf(user.id, now));
      if existing.Some? {
        var extended := db.sessions[existing.value].(expiresAt := now + Day);
        db.sessions := db.sessions[existing.value := extended];
        return Ok(extended);
      }
      var session := Session(ids.rowId, user.id, ids.sessionId, now + Day);
      db.sessions := db.sessions + [session];
      return Ok(session);
    }

    /** `Logout`. */
    method Logout(sessionId: string) returns (r: Outcome<string>)
      modifies db
      ensures (r, db.State()) == LogoutOutcome(old(db.State()), sessionId)
    {
      if sessionId == "" {
        return Fail("sessionID is required");
      }
      var kept := Filter(db.sessions, (s: Session) => s.sessionId != sessionId);
      if |db.sessions| - |kept| == 0 {
        return Fail("session not found");
      }
      db.sessions := kept;
      return Pass;
    }

    /** `DeleteUser`: the transaction deletes the sessions, then stamps the
        user row. */
    method DeleteUser(googleId: string, now: int) returns (r: Outcome<string>)
      modifies db
      ensures (r, db.State()) == DeleteUserOutcome(old(db.State()), googleId, now)
    {
      if googleId == "" {
        return Fail("googleID is required");
      }
      var found := FindFirst(db.users, LiveWithGoogleId(googleId));
      if found.None? {
        return Fail("user not found");
      }
      var id := found.value.id;
      db.sessions := Filter(db.sessions, NotOfUser(id));
      db.users := MapWhere(db.users, (x: User) => x.id == id, (x: User) => x.(deletedAt := Some(now)));
      return Pass;
    }
  }
}
