/** The business backend's gin middleware (`internal/middleware/middleware.go`):
    the error-to-response mapping run after each handler and the CORS
    decision run before it. */
module Middleware {
  import opened Wrappers
  import Text
  import ApiErrors

  // ---------------------------------------------------------------------------
  // Error handling

  /** An error a handler recorded with `c.Error`: an `*APIError` or anything
      else. */
  datatype RecordedError = ApiErr(e: ApiErrors.ApiError) | OtherErr(description: string)

  /** The JSON reply: status, `errorCode` and `message`. */
  datatype ErrorReply = ErrorReply(status: int, errorCode: string, message: string)

  /** `ErrorHandlingMiddleware` after `c.Next()`: nothing when no error was
      recorded; otherwise the last error, an `APIError` with its own fields
      and any other error as a generic 500. */
  function ErrorResponse(errors: seq<RecordedError>): (r: Option<ErrorReply>)
    ensures errors == [] <==> r.None?
    ensures errors != [] && errors[|errors| - 1].ApiErr? ==>
      var e := errors[|errors| - 1].e;
      r == Some(ErrorReply(e.statusCode, e.errorCode, e.message))
    ensures errors != [] && errors[|errors| - 1].OtherErr? ==>
      r == Some(ErrorReply(500, ApiErrors.InternalServer, "Internal Server Error"))
  {
    if |errors| == 0 then None
    else
      match errors[|errors| - 1]
      case OtherErr(_) => Some(ErrorReply(500, ApiErrors.InternalServer, "Internal Server Error"))
      case ApiErr(e) => Some(ErrorReply(e.statusCode, e.errorCode, e.message))
  }

  /** Only the last recorded error is reported: earlier ones never matter. */
  lemma OnlyLastErrorReported(earlier: seq<RecordedError>, earlier': seq<RecordedError>, last: RecordedError)
    ensures ErrorResponse(earlier + [last]) == ErrorResponse(earlier' + [last])
  {
  }

  /** An error built with `NewAPIError` is replied to with the status its code
      maps to. */
  lemma ApiErrorKeepsStatus(errors: seq<RecordedError>, code: ApiErrors.ErrorCode, message: string)
    ensures ErrorResponse(errors + [ApiErr(ApiErrors.NewApiError(code, message))])
      == Some(ErrorReply(ApiErrors.StatusCode(code), code, message))
  {
  }

  // ---------------------------------------------------------------------------
  // CORS

  /** The list used when ALLOWED_ORIGINS is unset or empty. */
  const DefaultAllowedOrigins: string := "http://localhost:5173,http://localhost:3000"

  const AllowHeaders: string := "Content-Type, Content-Length, Accept-Encoding, X-CSRF-Token, Authorization, accept, origin, Cache-Control, X-Requested-With"
  const AllowMethods: string := "POST, OPTIONS, GET, PUT, DELETE"

  /** `contains`: some item, with its surrounding white space trimmed, equals
      `str`; `str` itself is compared untrimmed. */
  predicate ListContains(slice: seq<string>, str: string) {
    exists i :: 0 <= i < |slice| && Text.GoTrimSpace(slice[i]) == str
  }

  /** `contains`, the loop as written: the first trimmed match ends it. */
  method Contains(slice: seq<string>, str: string) returns (found: bool)
    ensures found == ListContains(slice, str)
  {
    for i := 0 to |slice|
      invariant forall k :: 0 <= k < i ==> Text.GoTrimSpace(slice[k]) != str
    {
      var item := Text.GoTrimSpace(slice[i]);
      if item == str {
        return true;
      }
    }
    return false;
  }

  /** The headers `CORSMiddleware` sets and whether it answers the request
      itself. */
  datatype CorsReply = CorsReply(allowOrigin: Option<string>, allowCredentials: bool,
                                 allowHeaders: string, allowMethods: string, abortStatus: Option<int>)

  /** The list actually used for a given ALLOWED_ORIGINS value. */
  function OriginList(allowedOrigins: string): (r: string)
    ensures r != ""
    ensures allowedOrigins != "" ==> r == allowedOrigins
  {
    if allowedOrigins == "" then DefaultAllowedOrigins else allowedOrigins
  }

  /** `CORSMiddleware` for one request, given ALLOWED_ORIGINS, the Origin
      header and the method. */
  function Cors(allowedOrigins: string, origin: string, httpMethod: string): (r: CorsReply)
    ensures r.allowOrigin.Some? <==> origin != "" && ListContains(Text.Split(OriginList(allowedOrigins), ','), origin)
    ensures r.allowOrigin.Some? ==> r.allowOrigin.value == origin
    ensures r.allowCredentials <==> r.allowOrigin.Some?
    ensures r.allowHeaders == AllowHeaders && r.allowMethods == AllowMethods
    ensures r.abortStatus.Some? <==> httpMethod == "OPTIONS"
    ensures r.abortStatus.Some? ==> r.abortStatus.value == 204
  {
    var allowed := origin != "" && ListContains(Text.Split(OriginList(allowedOrigins), ','), origin);
    CorsReply(if allowed then Some(origin) else None, allowed, AllowHeaders, AllowMethods,
              if httpMethod == "OPTIONS" then Some(204) else None)
  }

  /** A preflight is answered 204 whether or not the origin is allowed. */
  lemma PreflightAlwaysAnswered(allowedOrigins: string, origin: string)
    ensures Cors(allowedOrigins, origin, "OPTIONS").abortStatus == Some(204)
  {
  }

  /** An origin with leading or trailing white space is never allowed: list
      items are trimmed, the origin is not. */
  lemma PaddedOriginRefused(allowedOrigins: string, origin: string, httpMethod: string)
    requires origin != "" && (Text.IsGoSpace(origin[0]) || Text.IsGoSpace(origin[|origin| - 1]))
    ensures Cors(allowedOrigins, origin, httpMethod).allowOrigin.None?
  {
    var items := Text.Split(OriginList(allowedOrigins), ',');
    forall i | 0 <= i < |items| ensures Text.GoTrimSpace(items[i]) != origin {
      Text.TrimNeverPadded(items[i], origin, Text.IsGoSpace);
    }
    assert !ListContains(items, origin);
  }

  /** Items written with spaces around them still match. */
  lemma SpacedItemMatches(before: string, item: string, after: string, origin: string)
    requires Text.GoTrimSpace(item) == origin != "" && ',' !in before && ',' !in item
    ensures Cors(before + [','] + item + [','] + after, origin, "GET").allowOrigin == Some(origin)
  {
    var rest := item + [','] + after;
    var v := before + [','] + rest;
    assert v == before + [','] + item + [','] + after;
    var items := Text.Split(v, ',');
    assert |items| > 1 && items[1] == item by {
      Text.SplitCons(before, rest, ',');
      Text.SplitCons(item, after, ',');
    }
    assert ListContains(items, origin);
  }
}
