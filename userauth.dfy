/** The gates of the user backend's auth handler
    (`user/handlers/auth_handler.go`): the `strings.Split`-based Bearer parsing
    of `GetCurrentUser` and `Refresh`, the session-id fallback of `Logout`,
    and the checks in front of `Withdrawal` and `ExchangeToken`. The services
    behind them (JWT, Google verification, the user service) are parameters. */
module UserAuthHandler {
  import opened Wrappers
  import Text
  import opened BizAuthHandler

  /** The header stage of `GetCurrentUser` / `Refresh`: split on every space;
      exactly two fields, the first "Bearer". */
  function SplitBearer(header: string): (r: Result<string, BearerError>)
    ensures header == "" ==> r == Err(MissingHeader)
    ensures r.Err? ==> r.error != EmptyToken
  {
    if header == "" then Err(MissingHeader)
    else
      var parts := Text.Split(header, ' ');
      if |parts| != 2 || parts[0] != "Bearer" then Err(BadFormat)
      else Ok(parts[1])
  }

  /** The split parser accepts exactly "Bearer " followed by a token with no
      space, possibly empty. */
  lemma SplitBearerAccepts(header: string, token: string)
    ensures SplitBearer(header) == Ok(token) <==> header == "Bearer " + token && ' ' !in token
  {
    if header == "Bearer " + token && ' ' !in token {
      assert header == "Bearer" + [' '] + token;
      Text.SplitCons("Bearer", token, ' ');
      assert Text.Split(token, ' ') == [token];
      assert Text.Split(header, ' ') == ["Bearer", token];
    }
    if SplitBearer(header) == Ok(token) {
      var parts := Text.Split(header, ' ');
      Text.JoinTwo(parts, ' ');
      assert parts[1] == token && ' ' !in parts[1];
      assert header == "Bearer" + [' '] + token;
    }
  }

  /** Where the user backend's parser and the business backend's parser
      disagree: an empty token passes here and not there. */
  lemma EmptyTokenDiffers()
    ensures SplitBearer("Bearer ") == Ok("") && ExtractTokenFromHeader("Bearer ") == Err(EmptyToken)
  {
    assert "Bearer " == "Bearer" + [' '] + "";
    Text.SplitN2Of("Bearer", "", ' ');
  }

  /** The other disagreement: a token containing a space is refused here
      and passes there. */
  lemma SpacedTokenDiffers(token: string)
    requires ' ' in token
    ensures SplitBearer("Bearer " + token).Err? && ExtractTokenFromHeader("Bearer " + token) == Ok(token)
  {
    var header := "Bearer " + token;
    forall t ensures SplitBearer(header) != Ok(t) {
      SplitBearerAccepts(header, t);
      if header == "Bearer " + t {
        assert t == header[7..] == token;
      }
    }
    TokenKeepsSpaces(token);
  }

  /** For a non-empty token without spaces the two parsers agree. */
  lemma ParsersAgreeOnPlainTokens(token: string)
    requires token != "" && ' ' !in token
    ensures SplitBearer("Bearer " + token) == ExtractTokenFromHeader("Bearer " + token) == Ok(token)
  {
    SplitBearerAccepts("Bearer " + token, token);
    assert "Bearer " + token == "Bearer" + [' '] + token;
    Text.SplitN2Of("Bearer", token, ' ');
  }

  /** `GetCurrentUser`: 401 for a bad header or a token the verifier rejects,
      404 when the user is missing, else 200. `verifyJwt` yields the user id. */
  function GetCurrentUser(header: string, verifyJwt: string -> Option<string>, userExists: string -> bool): (status: int)
    ensures status == 200 <==> (SplitBearer(header).Ok? && verifyJwt(SplitBearer(header).value).Some?
      && userExists(verifyJwt(SplitBearer(header).value).value))
    ensures SplitBearer(header).Err? ==> status == 401
  {
    match SplitBearer(header)
    case Err(_) => 401
    case Ok(token) =>
      match verifyJwt(token)
      case None => 401
      case Some(uid) => if userExists(uid) then 200 else 404
  }

  /** `Refresh`: as `GetCurrentUser`, then 500 when a new token cannot be
      generated. */
  function Refresh(header: string, verifyJwt: string -> Option<string>, userExists: string -> bool, canSign: string -> bool): (status: int)
    ensures status == 200 <==> (GetCurrentUser(header, verifyJwt, userExists) == 200
      && canSign(verifyJwt(SplitBearer(header).value).value))
    ensures GetCurrentUser(header, verifyJwt, userExists) != 200 ==> status == GetCurrentUser(header, verifyJwt, userExists)
  {
    match SplitBearer(header)
    case Err(_) => 401
    case Ok(token) =>
      match verifyJwt(token)
      case None => 401
      case Some(uid) => if !userExists(uid) then 404 else if canSign(uid) then 200 else 500
  }

  /** A handler's answer and the argument its service call received, if it
      made one. */
  datatype Reply = Reply(status: int, call: Option<string>)

  /** `Logout`: the body's session id if non-empty, else the context's, else
      400 without calling the service. `logoutFails` is the service's error. */
  function Logout(bodySessionId: string, ctxSessionId: string, logoutFails: string -> bool): (r: Reply)
    ensures bodySessionId != "" ==> r.call == Some(bodySessionId)
    ensures bodySessionId == "" && ctxSessionId != "" ==> r.call == Some(ctxSessionId)
    ensures bodySessionId == "" && ctxSessionId == "" ==> r == Reply(400, None)
    ensures r.call.Some? ==> r.status == (if logoutFails(r.call.value) then 500 else 200)
  {
    var sid := if bodySessionId != "" then bodySessionId else ctxSessionId;
    if sid == "" then Reply(400, None)
    else Reply(if logoutFails(sid) then 500 else 200, Some(sid))
  }

  /** `Withdrawal`: 401 without deleting anything when no google id is in the
      context. */
  function Withdrawal(googleId: string, deleteFails: string -> bool): (r: Reply)
    ensures googleId == "" ==> r == Reply(401, None)
    ensures googleId != "" ==> r.call == Some(googleId) && r.status == (if deleteFails(googleId) then 500 else 200)
  {
    if googleId == "" then Reply(401, None)
    else Reply(if deleteFails(googleId) then 500 else 200, Some(googleId))
  }

  /** The binding rules of `ExchangeToken`'s request: `google_token` is
      required and `role` must be one of "user" and "business". */
  predicate ExchangeRequestValid(googleToken: string, role: string) {
    googleToken != "" && (role == "user" || role == "business")
  }

  /** `ExchangeToken` up to the Google verification: 400 before any
      verification for an invalid request, 401 when the verifier rejects the
      token; otherwise the rest of the exchange runs. */
  datatype ExchangeStep = BadRequest | VerificationFailed | Continue(sub: string, email: string, role: string)

  function ExchangeToken(googleToken: string, role: string, verifyGoogle: string -> Option<(string, string)>): (r: ExchangeStep)
    ensures !ExchangeRequestValid(googleToken, role) ==> r == BadRequest
    ensures r.Continue? ==> (ExchangeRequestValid(googleToken, role) && r.role == role
      && verifyGoogle(googleToken) == Some((r.sub, r.email)))
    ensures ExchangeRequestValid(googleToken, role) ==> (r == VerificationFailed <==> verifyGoogle(googleToken).None?)
    ensures ExchangeRequestValid(googleToken, role) && verifyGoogle(googleToken).Some? ==> r.Continue?
  {
    if !ExchangeRequestValid(googleToken, role) then BadRequest
    else
      match verifyGoogle(googleToken)
      case None => VerificationFailed
      case Some((sub, email)) => Continue(sub, email, role)
  }
}
