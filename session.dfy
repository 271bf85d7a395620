/** The MFA session store of the business backend (`pkg/session/session.go`):
    pending logins keyed by session id, each holding the e-mail address, the
    MFA code and the Google id, with an expiry. Time is an integer number of
    seconds passed in as `now`. */
module Session {
  import opened Wrappers

  datatype MfaSession = MfaSession(sessionId: string, gmail: string, mfaCode: string, googleId: string, expiresAt: int)

  /** "セッションが見つかりません" (not found), "セッションの有効期限が切れています"
      (expired), "MFAコードが一致しません" (code mismatch). */
  datatype SessionError = NotFound | SessionExpired | CodeMismatch

  type Sessions = map<string, MfaSession>

  /** `time.Now().After(s.ExpiresAt)`. */
  predicate IsExpired(s: MfaSession, now: int) { now > s.expiresAt }

  /** `GetSession` on a given table: unknown ids and expired sessions fail;
      expired sessions are reported, not removed. */
  function Lookup(sessions: Sessions, id: string, now: int): (r: Result<MfaSession, SessionError>)
    ensures id !in sessions ==> r == Err(NotFound)
    ensures r.Ok? <==> id in sessions && !IsExpired(sessions[id], now)
    ensures r.Ok? ==> r.value == sessions[id]
    ensures id in sessions && IsExpired(sessions[id], now) ==> r == Err(SessionExpired)
  {
    if id !in sessions then Err(NotFound)
    else if IsExpired(sessions[id], now) then Err(SessionExpired)
    else Ok(sessions[id])
  }

  /** `ValidateMFACode` on a given table. Go compares the two codes' bytes in
      constant time; equal UTF-8 bytes are equal strings. */
  function Validate(sessions: Sessions, id: string, code: string, now: int): (r: Result<MfaSession, SessionError>)
    ensures r.Ok? <==> Lookup(sessions, id, now).Ok? && Lookup(sessions, id, now).value.mfaCode == code
    ensures r.Ok? ==> r == Lookup(sessions, id, now)
    ensures Lookup(sessions, id, now).Err? ==> r == Lookup(sessions, id, now)
  {
    match Lookup(sessions, id, now)
    case Err(e) => Err(e)
    case Ok(s) => if s.mfaCode == code then Ok(s) else Err(CodeMismatch)
  }

  /** What one pass of the cleanup goroutine leaves: the unexpired sessions. */
  function Sweep(sessions: Sessions, now: int): (r: Sessions)
    ensures r.Keys <= sessions.Keys
    ensures forall id :: id in sessions ==> (id in r <==> !IsExpired(sessions[id], now))
    ensures forall id :: id in r ==> r[id] == sessions[id]
  {
    map id | id in sessions && !IsExpired(sessions[id], now) :: sessions[id]
  }

  /** A session created with a positive time-to-live is found, with exactly
      the stored fields, until it expires, and not after. */
  lemma CreatedSessionFound(sessions: Sessions, id: string, gmail: string, code: string, googleId: string, ttl: int, now: int, at: int)
    ensures var t := sessions[id := MfaSession(id, gmail, code, googleId, now + ttl)];
      var r := Lookup(t, id, at);
      (at <= now + ttl ==> r == Ok(MfaSession(id, gmail, code, googleId, now + ttl)))
      && (at > now + ttl ==> r == Err(SessionExpired))
  {
  }

  /** The sweep is unobservable through `GetSession` at the same time or later. */
  lemma SweepUnobservable(sessions: Sessions, id: string, now: int, at: int)
    requires now <= at
    ensures Lookup(Sweep(sessions, now), id, at).Ok? == Lookup(sessions, id, at).Ok?
  {
  }

  class SessionStore {
    var sessions: Sessions

    /** `NewSessionStore`, without the cleanup goroutine. */
    constructor ()
      ensures sessions == map[]
    {
      sessions := map[];
    }

    /** `CreateSession`: stores the record under `sessionId`, overwriting any
        previous one, with expiry now + ttl. */
    method CreateSession(sessionId: string, gmail: string, mfaCode: string, googleId: string, ttl: int, now: int)
      modifies this
      ensures sessions == old(sessions)[sessionId := MfaSession(sessionId, gmail, mfaCode, googleId, now + ttl)]
    {
      sessions := sessions[sessionId := MfaSession(sessionId, gmail, mfaCode, googleId, now + ttl)];
    }

    /** `GetSession`. */
    function GetSession(sessionId: string, now: int): (r: Result<MfaSession, SessionError>)
      reads this
      ensures r == Lookup(sessions, sessionId, now)
    {
      if sessionId !in sessions then Err(NotFound)
      else if now > sessions[sessionId].expiresAt then Err(SessionExpired)
      else Ok(sessions[sessionId])
    }

    /** `DeleteSession`: removes only that id; an absent id is a no-op. */
    method DeleteSession(sessionId: string)
      modifies this
      ensures sessions == old(sessions) - {sessionId}
      ensures sessionId !in old(sessions) ==> sessions == old(sessions)
    {
      sessions := sessions - {sessionId};
    }

    /** `ValidateMFACode`: never changes the store. */
    function ValidateMfaCode(sessionId: string, mfaCode: string, now: int): (r: Result<MfaSession, SessionError>)
      reads this
      ensures r == Validate(sessions, sessionId, mfaCode, now)
    {
      var s := GetSession(sessionId, now);
      if s.Err? then s
      else if s.value.mfaCode == mfaCode then s
      else Err(CodeMismatch)
    }

    /** The body of `cleanupExpiredSessions` for one tick. */
    method SweepExpired(now: int)
      modifies this
      ensures sessions == Sweep(old(sessions), now)
    {
      var pending := sessions.Keys;
      while pending != {}
        invariant pending <= sessions.Keys <= old(sessions).Keys
        invariant forall id :: id in sessions ==> sessions[id] == old(sessions)[id]
        invariant forall id :: id in old(sessions) && id !in pending ==> (id in sessions <==> !IsExpired(old(sessions)[id], now))
        invariant forall id :: id in old(sessions) && id in pending ==> id in sessions
        decreases pending
      {
        var id :| id in pending;
        if now > sessions[id].expiresAt {
          sessions := sessions - {id};
        }
        pending := pending - {id};
      }
    }
  }
}
