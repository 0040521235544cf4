/**
 * Go error values as the system builds and inspects them: package-level
 * sentinels compared by identity, driver errors, `fmt.Errorf` with `%w`
 * (which keeps the cause reachable through `Unwrap`), and the REST layer's
 * status-carrying error. `Is` and `AsPgCode`/`AsStatus` follow the unwrap
 * chain the way `errors.Is` and `errors.As` do.
 */
module GoErrors {
  import opened Wrappers

  /** The package-level sentinel errors (values made by `errors.New`). */
  datatype SentinelKind =
    | NoRows                // pgx.ErrNoRows
    | DuplicateAsset        // services.ErrDuplicateAsset
    | NotFoundAsset         // services.ErrNotFoundAsset
    | DuplicateUser         // services.ErrDuplicateUser
    | UserNotFound          // services.ErrUserNotFound
    | InvalidPasswod        // services.ErrInvalidPasswod (the source's spelling)
    | NotFoundToken         // services.ErrNotFoundToken
    | DuplicateAccessToken  // services.ErrDuplicateAccessToken
    | NotFoundAccessToken   // services.ErrNotFoundAccessToken
    | AccessTokenExpired    // v1.ErrAccessTokenExpired

  datatype NumErrorReason = Syntax | Range

  datatype Error =
      /** A sentinel; two sentinel errors are equal exactly when they are the same variable. */
    | Sentinel(kind: SentinelKind)
      /** A *pgconn.PgError reported by the database, with its SQLSTATE code. */
    | PgError(code: string, message: string)
      /** An error known only by its text: `fmt.Errorf` without `%w`, or one made by a collaborator. */
    | Leaf(text: string)
      /** `fmt.Errorf("<prefix>: %w", cause)`. */
    | Wrapped(prefix: string, cause: Error)
      /** A *strconv.NumError. */
    | NumError(fnName: string, num: string, reason: NumErrorReason)
      /** The REST layer's statusError: an optional wrapped error, a client message and an HTTP status. */
    | StatusErr(inner: Option<Error>, message: string, status: int)

  /** SQLSTATE of a unique-constraint violation. */
  const DuplicateErrorCode := "23505"

  function SentinelText(k: SentinelKind): string
  {
    match k
    case NoRows => "no rows in result set"
    case DuplicateAsset => "duplicate asset"
    case NotFoundAsset => "asset not found"
    case DuplicateUser => "duplicate user"
    case UserNotFound => "user not found"
    case InvalidPasswod => "invalid password"
    case NotFoundToken => "access token not found"
    case DuplicateAccessToken => "duplicate access token"
    case NotFoundAccessToken => "access token not found"
    case AccessTokenExpired => "access token is expired"
  }

  /** `err.Error()`. */
  function Text(e: Error): string
  {
    match e
    case Sentinel(k) => SentinelText(k)
    case PgError(code, msg) => "ERROR: " + msg + " (SQLSTATE " + code + ")"
    case Leaf(t) => t
    case Wrapped(p, c) => p + ": " + Text(c)
    case NumError(f, n, r) =>
      "strconv." + f + ": parsing \"" + n + "\": " + (if r == Syntax then "invalid syntax" else "value out of range")
    case StatusErr(_, m, _) => "{\"error\":\"" + m + "\"}"
  }

  /** `errors.Is(e, <sentinel k>)`: some error on the unwrap chain is that sentinel. */
  predicate Is(e: Error, k: SentinelKind)
  {
    match e
    case Sentinel(j) => j == k
    case Wrapped(_, c) => Is(c, k)
    case StatusErr(inner, _, _) => inner.Some? && Is(inner.value, k)
    case _ => false
  }

  /** `errors.As(e, &pgErr)`: the SQLSTATE code of the first *pgconn.PgError on the chain. */
  function AsPgCode(e: Error): Option<string>
  {
    match e
    case PgError(code, _) => Some(code)
    case Wrapped(_, c) => AsPgCode(c)
    case StatusErr(inner, _, _) => if inner.Some? then AsPgCode(inner.value) else None
    case _ => None
  }

  /** `errors.As(e, &statusError)`: the status and text of the first statusError on the chain. */
  function AsStatus(e: Error): Option<(int, string)>
  {
    match e
    case StatusErr(_, m, s) => Some((s, Text(e)))
    case Wrapped(_, c) => AsStatus(c)
    case _ => None
  }

  /** A driver-level outcome: the insert hit a unique constraint. */
  predicate IsDuplicateKey(e: Error)
  {
    AsPgCode(e) == Some(DuplicateErrorCode)
  }
}
