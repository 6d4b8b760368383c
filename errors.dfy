/** Go error values as the services and handlers use them: sentinel errors compared with
    `errors.Is`, errors that wrap another one with `%w`, the record-not-found error of the
    database layer, and errors known only by their text. */
module Errors {

  datatype Error =
    // the sentinels of the authentication service
    | UserNotFound
    | EmailAlreadyExists
    | InvalidCredentials
    | UserInactive
    | UserBanned
    // the sentinels of the OAuth service
    | OAuthProviderNotSupported
    | OAuthStateMismatch
    | OAuthCodeExchange
    | OAuthUserInfo
    | OAuthProviderNotConfigured
    | OAuthEmailRequired
    // the sentinels of the category service
    | CategoryNotFound
    | SlugAlreadyExists
    // the sentinels of the profile service
    | NoAvatar
    | FileTooLarge
    | InvalidFileType
    // the sentinels of the authentication middleware
    | MissingToken
    | InvalidToken
    | InvalidTokenType
    | Unauthorized
    | Forbidden
    /** `gorm.ErrRecordNotFound`. */
    | RecordNotFound
    /** Any other failure of the database, of a library or of the operating system. */
    | Failure(message: string)
    /** `fmt.Errorf("<context>: %w", inner)`: a new message that still `Is` its inner error. */
    | Wrapped(context: string, inner: Error)

  /** `errors.Is(e, target)` for a sentinel `target`: `e` is `target` or wraps it. */
  predicate Is(e: Error, target: Error)
    requires !target.Wrapped?
  {
    e == target || (e.Wrapped? && Is(e.inner, target))
  }

  /** The error at the end of a chain of wrappings. */
  function Root(e: Error): (r: Error)
    ensures !r.Wrapped?
  {
    if e.Wrapped? then Root(e.inner) else e
  }

  /** An error `Is` exactly one sentinel: the one at the end of its chain. */
  lemma {:induction false} IsSingleSentinel(e: Error)
    ensures forall t: Error :: !t.Wrapped? ==> (Is(e, t) <==> Root(e) == t)
  {
    if e.Wrapped? {
      IsSingleSentinel(e.inner);
    }
  }
}
