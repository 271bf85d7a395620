/** The two Bearer-header parsers of the business backend (section 2.1 of
    RFC 6750, `Authorization: Bearer <token>`): `extractTokenFromHeader` in
    `internal/api/handler/auth_handler.go`, which splits at the first space,
    and `AuthMiddleware` in `internal/api/middleware/auth.go`, which tests the
    prefix `"Bearer "`. */
module BizAuthHandler {
  import opened Wrappers
  import Text

  /** "authorization header is required" / "missing authorization header",
      "invalid authorization header format", "token is empty" / "empty token". */
  datatype BearerError = MissingHeader | BadFormat | EmptyToken

  /** `extractTokenFromHeader`. */
  function ExtractTokenFromHeader(header: string): (r: Result<string, BearerError>)
    ensures header == "" ==> r == Err(MissingHeader)
    ensures r.Ok? ==> r.value != "" && header == "Bearer" + " " + r.value
    ensures header != "" && !("Bearer " <= header) ==> r == Err(BadFormat)
  {
    if header == "" then Err(MissingHeader)
    else
      var parts := Text.SplitN2(header, ' ');
      if |parts| != 2 || parts[0] != "Bearer" then Err(BadFormat)
      else if parts[1] == "" then Err(EmptyToken)
      else Ok(parts[1])
  }

  /** The token is everything after the first space and may itself contain
      spaces. */
  lemma TokenKeepsSpaces(token: string)
    requires token != ""
    ensures ExtractTokenFromHeader("Bearer " + token) == Ok(token)
  {
    assert "Bearer " + token == "Bearer" + [' '] + token;
    Text.SplitN2Of("Bearer", token, ' ');
  }

  /** What `Logout` does with the header: answer 401 when extraction fails,
      otherwise hand the token to the auth service. */
  datatype LogoutStep = Unauthorized(reason: BearerError) | CallLogout(token: string)

  function Logout(header: string): (r: LogoutStep)
    ensures r.CallLogout? <==> ExtractTokenFromHeader(header).Ok?
    ensures r.CallLogout? ==> r.token == ExtractTokenFromHeader(header).value
  {
    match ExtractTokenFromHeader(header)
    case Err(e) => Unauthorized(e)
    case Ok(t) => CallLogout(t)
  }
}

module BizAuthMiddleware {
  import opened Wrappers
  import opened AuthContext
  import opened BizAuthHandler

  const BearerScheme: string := "Bearer "

  /** The header stage of `AuthMiddleware`. */
  function BearerToken(header: string): (r: Result<string, BearerError>)
    ensures header == "" ==> r == Err(MissingHeader)
    ensures r.Ok? <==> BearerScheme <= header && |header| > |BearerScheme|
    ensures r.Ok? ==> r.value == header[|BearerScheme|..]
  {
    if header == "" then Err(MissingHeader)
    else if !(BearerScheme <= header) then Err(BadFormat)
    else
      var token := header[|BearerScheme|..];
      if token == "" then Err(EmptyToken) else Ok(token)
  }

  /** For every header the prefix parser and the split parser give the same
      answer: the same token, or the same kind of error. */
  lemma {:induction false} ParsersAgree(header: string)
    ensures BearerToken(header) == ExtractTokenFromHeader(header)
  {
    if header != "" {
      var parts := Text.SplitN2(header, ' ');
      if BearerScheme <= header {
        assert header[6] == ' ' && ' ' !in header[..6];
        assert Text.IndexOf(header, ' ') == Some(6);
        assert parts == [header[..6], header[7..]];
      }
    }
  }

  /** The claims `VerifyToken` extracts from a valid token. */
  datatype Claims = Claims(userId: string, gmail: string, role: string)

  /** Why `AuthMiddleware` aborted with 401. */
  datatype Rejection = HeaderRejected(reason: BearerError) | InvalidToken | Revoked

  /** `AuthMiddleware`: the context gains user id, gmail and role only when
      the header parses, the token verifies and it is not revoked. Token
      verification and the blacklist are parameters. */
  function Authenticate(header: string, ctx: Ctx, verify: string -> Option<Claims>, isRevoked: string -> bool): (r: Result<Ctx, Rejection>)
    ensures r.Ok? <==> BearerToken(header).Ok? && verify(BearerToken(header).value).Some? && !isRevoked(BearerToken(header).value)
    ensures r.Ok? ==> var c := verify(BearerToken(header).value).value;
      r.value == ctx.(userId := Some(c.userId), gmail := Some(c.gmail), role := Some(c.role))
    ensures BearerToken(header).Err? ==> r == Err(HeaderRejected(BearerToken(header).error))
  {
    match BearerToken(header)
    case Err(e) => Err(HeaderRejected(e))
    case Ok(token) =>
      match verify(token)
      case None => Err(InvalidToken)
      case Some(c) =>
        if isRevoked(token) then Err(Revoked)
        else Ok(ctx.(userId := Some(c.userId), gmail := Some(c.gmail), role := Some(c.role)))
  }

  /** `OptionalAuthMiddleware`: every failure continues with the context
      unchanged; success fills it in as `AuthMiddleware` does. */
  function OptionalAuthenticate(header: string, ctx: Ctx, verify: string -> Option<Claims>, isRevoked: string -> bool): (r: Ctx)
    ensures Authenticate(header, ctx, verify, isRevoked).Ok? ==> r == Authenticate(header, ctx, verify, isRevoked).value
    ensures Authenticate(header, ctx, verify, isRevoked).Err? ==> r == ctx
  {
    match Authenticate(header, ctx, verify, isRevoked)
    case Ok(c) => c
    case Err(_) => ctx
  }
}
