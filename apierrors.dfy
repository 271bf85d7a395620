/** The error type of the business backend's API (`pkg/errors/errors.go`):
    a code string, a message, and the HTTP status derived from the code. */
module ApiErrors {

  type ErrorCode = string

  const InvalidCredentials: ErrorCode := "INVALID_CREDENTIALS"
  const MissingMfa: ErrorCode := "MISSING_MFA"
  const Unauthorized: ErrorCode := "UNAUTHORIZED"
  const TokenExpired: ErrorCode := "TOKEN_EXPIRED"
  const NotFound: ErrorCode := "NOT_FOUND"
  const AlreadyExists: ErrorCode := "ALREADY_EXISTS"
  const Duplicate: ErrorCode := "DUPLICATE"
  const InvalidInput: ErrorCode := "INVALID_INPUT"
  const ValidationFailed: ErrorCode := "VALIDATION_FAILED"
  const InvalidEmail: ErrorCode := "INVALID_EMAIL"
  const InvalidImage: ErrorCode := "INVALID_IMAGE"
  const ImageTooLarge: ErrorCode := "IMAGE_TOO_LARGE"
  const OperationFailed: ErrorCode := "OPERATION_FAILED"
  const ExternalServiceError: ErrorCode := "EXTERNAL_SERVICE_ERROR"
  const InternalServer: ErrorCode := "INTERNAL_SERVER_ERROR"
  /** The services return `ErrForbidden`, which the errors package does not
      declare; the model gives it a code of its own, and the status table
      sends it to the default branch. */
  const Forbidden: ErrorCode := "FORBIDDEN"

  datatype ApiError = ApiError(errorCode: ErrorCode, message: string, statusCode: int)

  /** `getStatusCode`. */
  function StatusCode(code: ErrorCode): (r: int)
    ensures r == 401 <==> code in {InvalidCredentials, MissingMfa, Unauthorized, TokenExpired}
    ensures r == 404 <==> code == NotFound
    ensures r == 409 <==> code in {AlreadyExists, Duplicate}
    ensures r == 400 <==> code in {InvalidInput, ValidationFailed, InvalidEmail, InvalidImage, ImageTooLarge}
    ensures r == 502 <==> code in {OperationFailed, ExternalServiceError}
    ensures r in {400, 401, 404, 409, 500, 502}
  {
    if code in {InvalidCredentials, MissingMfa, Unauthorized, TokenExpired} then 401
    else if code == NotFound then 404
    else if code in {AlreadyExists, Duplicate} then 409
    else if code in {InvalidInput, ValidationFailed, InvalidEmail, InvalidImage, ImageTooLarge} then 400
    else if code in {OperationFailed, ExternalServiceError} then 502
    else 500
  }

  /** The internal-server code and the undeclared forbidden code both fall
      through to 500. */
  lemma DefaultStatus()
    ensures StatusCode(InternalServer) == 500 && StatusCode(Forbidden) == 500
  {
  }

  /** `NewAPIError`. */
  function NewApiError(code: ErrorCode, message: string): (e: ApiError)
    ensures e.errorCode == code && e.message == message
    ensures e.statusCode == StatusCode(code)
  {
    ApiError(code, message, StatusCode(code))
  }

  /** `APIError.Error()`: `"[" + code + "] " + message`. */
  function Render(e: ApiError): (s: string)
    ensures |s| == |e.errorCode| + |e.message| + 3
    ensures s[..1] == "[" && s[1..|e.errorCode| + 1] == e.errorCode
    ensures s[|e.errorCode| + 1..|e.errorCode| + 3] == "] " && s[|e.errorCode| + 3..] == e.message
  {
    "[" + e.errorCode + "] " + e.message
  }
}
