/** The frontend's conversion of the user record the token exchange returns
    into the record it keeps in local storage (`src/lib/auth.ts`). The
    request itself and the storage are left out. */
module FrontAuth {
  import opened Wrappers

  /** `BackendUser`: every field but `id` and `role` may be absent. */
  datatype BackendUser = BackendUser(id: string, googleId: Option<string>, gmail: Option<string>,
                                     email: Option<string>, role: string, registrationDate: Option<string>,
                                     createdAt: Option<string>, updatedAt: Option<string>)

  /** `StoredUser`. The role is whatever string the server sent: the cast to
      `UserRole` checks nothing. */
  datatype StoredUser = StoredUser(id: string, googleId: Option<string>, email: string, role: string,
                                   createdAt: string)

  /** A JavaScript string value is truthy when it is present and non-empty. */
  predicate Truthy(s: Option<string>) { s.Some? && s.value != "" }

  /** `a || b` on strings: `a` if truthy, otherwise `b`. */
  function OrElse(a: Option<string>, b: string): (r: string)
    ensures Truthy(a) ==> r == a.value
    ensures !Truthy(a) ==> r == b
  {
    match a
    case Some(s) => if s != "" then s else b
    case None => b
  }

  /** `toStoredUser`, with the ISO-8601 text of the current time as
      `nowIso`. */
  function ToStoredUser(user: BackendUser, nowIso: string): (r: StoredUser)
    ensures r.id == user.id && r.googleId == user.googleId
    ensures Truthy(user.gmail) ==> r.email == user.gmail.value
    ensures !Truthy(user.gmail) && Truthy(user.email) ==> r.email == user.email.value
    ensures !Truthy(user.gmail) && !Truthy(user.email) ==> r.email == ""
    ensures Truthy(user.createdAt) ==> r.createdAt == user.createdAt.value
    ensures !Truthy(user.createdAt) && Truthy(user.registrationDate) ==> r.createdAt == user.registrationDate.value
    ensures !Truthy(user.createdAt) && !Truthy(user.registrationDate) ==> r.createdAt == nowIso
    ensures r.role == (if user.role == "" then "general" else user.role)
  {
    StoredUser(user.id, user.googleId, OrElse(user.gmail, OrElse(user.email, "")), OrElse(Some(user.role), "general"),
               OrElse(user.createdAt, OrElse(user.registrationDate, nowIso)))
  }

  /** The stored e-mail is one of the two server fields, and it is empty only
      when neither carries text. */
  lemma EmailFromServer(user: BackendUser, nowIso: string)
    ensures var e := ToStoredUser(user, nowIso).email;
      (e == "" <==> !Truthy(user.gmail) && !Truthy(user.email))
      && (e != "" ==> Some(e) == user.gmail || Some(e) == user.email)
  {
  }

  /** The current time is used only when the server sent neither date, so
      converting a user that has a creation date does not depend on it. */
  lemma ClockIrrelevantWithDate(user: BackendUser, now1: string, now2: string)
    requires Truthy(user.createdAt) || Truthy(user.registrationDate)
    ensures ToStoredUser(user, now1) == ToStoredUser(user, now2)
  {
  }

  /** Converting a stored user back (as the server would send it) and again
      gives the same stored user, so the conversion is idempotent on
      records with an e-mail and a date. */
  lemma StoredRoundTrip(s: StoredUser, nowIso: string)
    requires s.email != "" && s.createdAt != "" && s.role != ""
    ensures ToStoredUser(BackendUser(s.id, s.googleId, None, Some(s.email), s.role, None, Some(s.createdAt), None), nowIso) == s
  {
  }
}
