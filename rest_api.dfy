/**
 * The REST layer's error plumbing and request guards
 * (internal/api/rest/v1/api.go): errors carrying an HTTP status, the status
 * and body an error is answered with, the `Content-Length` limit, and the
 * order in which `CheckAuthorization` handles the outcomes of a token lookup.
 *
 * The token service's lookup is an input; whether a token has expired is
 * part of what the lookup returns (the clock is not modelled).
 */
module RestApi {
  import opened Wrappers
  import opened GoErrors
  import opened GoStrings
  import opened RestAuth

  const StatusOK := 200
  const StatusCreated := 201
  const StatusBadRequest := 400
  const StatusUnauthorized := 401
  const StatusNotFound := 404
  const StatusInternalServerError := 500

  const InternalServerErrorMsg := "Internal Server Error"
  const AssetNotFoundMsg := "Asset not found"
  const UnauthorizedMsg := "Unauthorized"

  // ------------------------------------------------------------ statusError

  /** `WithStatus(err, message, status)`: a statusError wrapping `err` (nil is `None`). */
  function WithStatus(err: Option<Error>, message: string, status: int): Error
  {
    StatusErr(err, message, status)
  }

  /** The body text of a statusError. */
  function StatusBody(message: string): string
  {
    "{\"error\":\"" + message + "\"}"
  }

  /**
   * For a value built by `WithStatus`: `Status()` is the status, `Error()` is
   * `{"error":"<message>"}`, `Unwrap()` is the wrapped error, and `errors.Is`
   * sees through it to the wrapped error.
   */
  lemma WithStatusAccessors(err: Option<Error>, message: string, status: int)
    ensures AsStatus(WithStatus(err, message, status)) == Some((status, StatusBody(message)))
    ensures Text(WithStatus(err, message, status)) == StatusBody(message)
    ensures WithStatus(err, message, status).inner == err
    ensures forall k :: Is(WithStatus(err, message, status), k) <==> err.Some? && Is(err.value, k)
  {
  }

  /** The statusError answered when an error carries no status. */
  const UnexpectedError := StatusErr(Some(Leaf("unexpected error")), "Unexpected error", StatusInternalServerError)

  /**
   * `processHttpError(w, err)`: the status and body written. The first
   * statusError on the unwrap chain decides both; without one the answer is
   * 500 with the "Unexpected error" body. The body ends with a newline.
   */
  function ProcessHttpError(err: Error): (r: (int, string))
    ensures AsStatus(err).Some? ==> r == (AsStatus(err).value.0, AsStatus(err).value.1 + "\n")
    ensures AsStatus(err).None? ==> r == (StatusInternalServerError, StatusBody("Unexpected error") + "\n")
  {
    match AsStatus(err)
    case Some((status, text)) => (status, text + "\n")
    case None => (UnexpectedError.status, Text(UnexpectedError) + "\n")
  }

  /** An error made by `WithStatus` is answered with its own status and message. */
  lemma ProcessWithStatus(err: Option<Error>, message: string, status: int)
    ensures ProcessHttpError(WithStatus(err, message, status)) == (status, StatusBody(message) + "\n")
  {
  }

  /** Wrapping with `fmt.Errorf("...: %w", ...)` does not change the answer. */
  lemma ProcessHttpErrorSeesThroughWrapping(prefix: string, err: Error)
    ensures ProcessHttpError(Wrapped(prefix, err)) == ProcessHttpError(err)
  {
  }

  // ------------------------------------------------------------ body size limit

  const ContentLengthParseMessage := "unable to parse 'Content-Length' header"

  /**
   * `isBodyLimitExceeded(r)` on the `Content-Length` header value: no header
   * is not exceeded; a value that does not parse is an error; otherwise the
   * limit is exceeded exactly when the length is greater than the maximum.
   */
  function IsBodyLimitExceeded(contentLength: string, bodyMaxSize: int): (r: (bool, Option<Error>))
    ensures |contentLength| == 0 ==> r == (false, None)
    ensures |contentLength| > 0 && Atoi(contentLength).Err? ==>
              r == (false, Some(Wrapped(ContentLengthParseMessage, Atoi(contentLength).error)))
    ensures |contentLength| > 0 && Atoi(contentLength).Ok? ==> r == (Atoi(contentLength).value > bodyMaxSize, None)
  {
    if |contentLength| == 0 then (false, None)
    else
      match Atoi(contentLength)
      case Err(e) => (false, Some(Wrapped(ContentLengthParseMessage, e)))
      case Ok(bodyLength) => (bodyLength > bodyMaxSize, None)
  }

  /** What `BodySizeLimitHandler` does with a request. */
  datatype Decision =
    | Reject(status: int, body: string)
    | PassOn

  /** The message for a body over the limit. */
  function ExceededMessage(bodyMaxSize: int): string
  {
    "body size exceeds the limit in " + Itoa(bodyMaxSize) + " bytes"
  }

  /** `BodySizeLimitHandler.ServeHTTP`: 500 on a parse error, 400 over the limit, otherwise the request passes on. */
  function BodySizeLimit(contentLength: string, bodyMaxSize: int): Decision
  {
    var (isExceeded, err) := IsBodyLimitExceeded(contentLength, bodyMaxSize);
    if err.Some? then
      var (status, body) := ProcessHttpError(WithStatus(err, InternalServerErrorMsg, StatusInternalServerError));
      Reject(status, body)
    else if isExceeded then
      var (status, body) := ProcessHttpError(WithStatus(err, ExceededMessage(bodyMaxSize), StatusBadRequest));
      Reject(status, body)
    else PassOn
  }

  /**
   * A request announcing n bytes passes exactly when n is at most the limit
   * (a length equal to the limit is allowed) and is refused with 400
   * otherwise; a request without the header always passes.
   */
  lemma BodySizeLimitByLength(n: int, bodyMaxSize: int)
    requires MinInt64 <= n <= MaxInt64
    ensures BodySizeLimit(Itoa(n), bodyMaxSize) ==
      if n <= bodyMaxSize then PassOn
      else Reject(StatusBadRequest, StatusBody(ExceededMessage(bodyMaxSize)) + "\n")
    ensures BodySizeLimit("", bodyMaxSize) == PassOn
  {
    AtoiItoa(n);
    assert |Itoa(n)| > 0;
  }

  /** A header that is not a decimal number is refused with 500. */
  lemma BodySizeLimitUnparsable(contentLength: string, bodyMaxSize: int)
    requires |contentLength| > 0 && Atoi(contentLength).Err?
    ensures BodySizeLimit(contentLength, bodyMaxSize) == Reject(StatusInternalServerError, StatusBody(InternalServerErrorMsg) + "\n")
  {
  }

  // ------------------------------------------------------------ CheckAuthorization

  /** An access token as the token service returns it; `expired` is `IsExpired()` at the time of the check. */
  datatype AccessToken = AccessToken(accessToken: string, userUuid: string, expired: bool)

  const UnexpectedTokenLookupMessage := "unexpected error during getting access token"

  /**
   * `CheckAuthorization(r)` for the request's `Authorization` header: the
   * header parse error as it is; then the lookup: not found is 401, any other
   * failure 500; then an expired token is 401; otherwise the token.
   */
  function CheckAuthorization(header: string, getToken: string -> Result<AccessToken, Error>): Result<AccessToken, Error>
  {
    match ParseAuthorizationHeader(header)
    case Err(e) => Err(e)
    case Ok(t) =>
      match getToken(t)
      case Err(e) =>
        if Is(e, NotFoundAccessToken) then
          Err(WithStatus(Some(Sentinel(NotFoundAccessToken)), UnauthorizedMsg, StatusUnauthorized))
        else
          Err(WithStatus(Some(Wrapped(UnexpectedTokenLookupMessage, e)), InternalServerErrorMsg, StatusInternalServerError))
      case Ok(result) =>
        if result.expired then Err(WithStatus(Some(Sentinel(AccessTokenExpired)), UnauthorizedMsg, StatusUnauthorized))
        else Ok(result)
  }

  /**
   * The answers, in the order the outcomes are handled. A header that does
   * not parse carries no status, so it is answered 500 "Unexpected error"
   * rather than 401; the token is looked up exactly as sent after "Bearer ".
   */
  lemma CheckAuthorizationOrder(header: string, getToken: string -> Result<AccessToken, Error>)
    ensures var r := CheckAuthorization(header, getToken);
      var p := ParseAuthorizationHeader(header);
      && (p.Err? ==> r == Err(p.error) && ProcessHttpError(r.error) == (StatusInternalServerError, StatusBody("Unexpected error") + "\n"))
      && (p.Ok? ==> header == BearerPrefix + p.value)
      && (p.Ok? && getToken(p.value).Err? && Is(getToken(p.value).error, NotFoundAccessToken) ==>
            ProcessHttpError(r.error) == (StatusUnauthorized, StatusBody(UnauthorizedMsg) + "\n"))
      && (p.Ok? && getToken(p.value).Err? && !Is(getToken(p.value).error, NotFoundAccessToken) ==>
            ProcessHttpError(r.error) == (StatusInternalServerError, StatusBody(InternalServerErrorMsg) + "\n")
            && forall k :: Is(r.error, k) <==> Is(getToken(p.value).error, k))
      && (p.Ok? && getToken(p.value).Ok? && getToken(p.value).value.expired ==>
            ProcessHttpError(r.error) == (StatusUnauthorized, StatusBody(UnauthorizedMsg) + "\n") && Is(r.error, AccessTokenExpired))
      && (r.Ok? <==> p.Ok? && getToken(p.value).Ok? && !getToken(p.value).value.expired)
      && (r.Ok? ==> r.value == getToken(p.value).value)
  {
    var p := ParseAuthorizationHeader(header);
    if p.Err? {
      assert AsStatus(p.error).None?;
    }
  }
}
