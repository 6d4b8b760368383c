# Authentication, OAuth and category core of the foods-and-drinks API

This project is a Dafny model of the request-handling core of a Go web API for a
food-and-drink shop. It covers:

- **Local accounts.** Register, log in, load and update a profile, upload and delete an avatar.
- **Google sign-in.** A provider registry built from configuration, then the
  authorization-code callback. The callback exchanges the code, fetches the profile, finds or
  creates the user inside an all-or-nothing transaction, applies the status gate and issues a
  token (section 4.1 of RFC 6749).
- **Request gates in front of the handlers.** A bearer token read from the `Authorization`
  header (section 2.1 of RFC 6750), an admin gate, a role gate, an optional-authentication
  gate, and a gate that also loads the user and refuses inactive or banned accounts.
- **The HTTP handlers.** They bind requests, normalise e-mail addresses and names, check the
  CSRF `state` cookie of the OAuth flow (section 10.12 of RFC 6749), and map service errors to
  HTTP status codes and error codes.
- **Categories.** Slug generation, a bounded search for a free slug, creation, field-by-field
  partial update, deletion, and paginated listing with defaults.
- **The password-strength rule** of the request validator.

How the model is organised:

- The database is one `Store.Database` object. It holds three maps (users, social-auth links,
  categories) and their auto-increment counters.
- A set `failing` names the repository operations that fail. It is fixed for a whole call: an
  operation named in it fails every time it runs, and every other operation succeeds. Each
  repository error path of the source is reachable this way, except the two listed under
  "## Left out".
- Categories are soft-deleted. A deleted row leaves every query, but its slug stays in
  `deletedSlugs`, since the unique index on `slug` still holds it. Inserting or saving a row
  with such a slug fails with a duplicate-entry error, as MySQL does.
- A transaction is a snapshot of the user and link maps, restored on failure.
- A gin request context is an `Http.Context` object. Handlers and middlewares write its keys,
  its reply, its `Set-Cookie` list, and its abort and next flags.
- bcrypt and JWT signing are functions held in a `Crypto` value. The model states nothing
  about them except what a lemma's `requires` names.
- The OAuth provider's answers are a `Remote` value: the code exchange, then the profile fetch.
- The clock and random bytes are parameters.

Go error wrapping (`fmt.Errorf("%w")`) is `Errors.Wrapped`, and `errors.Is` is `Errors.Is`.
Go's `strings` functions are modelled in `Text`, `strconv` decimals in `Decimal`, and
`base64.URLEncoding` in `Base64`.

## Model

| member | source | states |
|---|---|---|
| Errors.IsSingleSentinel | internal/service/oauth_service.go:109 | an error chain built by wrapping is `errors.Is` some sentinel exactly when that sentinel is at its root |
| Models.ToUserResponse | internal/dto/user.go:9-23 | every field of the user except the password hash is copied unchanged |
| Models.ResponseHidesPasswordHash | internal/dto/user.go:9-23 | the response is the same whatever the password hash, so it never reveals it |
| Models.BeforeCreate | internal/models/category.go:37-41 | a category inserted with an empty status is stored as active; a status already set and every other field are kept |
| Store.Database.constructor | internal/repository/user_repository.go:14-17 | an empty database satisfies every table invariant (positive ids, links point at users, e-mails and slugs unique) |
| Store.Database.FindUserById | internal/repository/user_repository.go:24-30 | the row with that id, `ErrRecordNotFound` when there is none, the storage error when the query fails |
| Store.Database.UserByEmail | internal/repository/user_repository.go:33-39 | the first row (lowest id) with that address, or `ErrRecordNotFound` when no row has it |
| Store.Database.ExistsByEmail | internal/repository/user_repository.go:42-48 | true exactly when some row has the address; an error exactly when the count query fails |
| Store.Database.InsertUser | internal/repository/user_repository.go:19-21 | the row gets the next id and is added; nothing else changes; a failing insert changes nothing |
| Store.Database.SaveUserRow | internal/repository/user_repository.go:51-53 | the row under that id is replaced; nothing else changes |
| Store.Database.FindSocialLink | internal/repository/social_auth_repository.go:24-30 | the first link with that provider and provider user id, or `ErrRecordNotFound` |
| Store.Database.InsertSocial | internal/repository/social_auth_repository.go:19-21 | the link gets the next id and is added; users and categories are untouched |
| Store.Database.UpdateLinkTokens | internal/repository/social_auth_repository.go:56-61 | only the two token columns of that link change, and a missing id changes no row |
| Store.Database.Begin | internal/service/oauth_service.go:183 | a transaction's snapshot holds the user and link maps as they are |
| Store.Database.Rollback | internal/service/oauth_service.go:183-230 | the user and link maps are restored from the snapshot; the counters keep their values |
| Store.Database.FindCategoryById | internal/repository/category_repository.go:24-30 | the category with that id, or `ErrRecordNotFound` |
| Store.Database.ExistsBySlug | internal/repository/category_repository.go:42-52 | true exactly when a category other than `excludeID` (none when it is 0) holds the slug |
| Store.Database.InsertCategory | internal/repository/category_repository.go:19-21 | the row, after the `BeforeCreate` hook has filled in an empty status, gets the next id; a slug held by a live or soft-deleted row fails with a duplicate entry and changes nothing; slugs stay unique |
| Store.Database.SaveCategoryRow | internal/repository/category_repository.go:55-57 | the row is replaced; a slug held by another live row or by a soft-deleted row fails with a duplicate entry and changes nothing; slugs stay unique |
| Store.Database.DeleteCategoryRow | internal/repository/category_repository.go:60-62 | exactly that id leaves the table, and its slug stays reserved by the unique index |
| Store.OwnSlugFree | internal/repository/category_repository.go:45-47 | with slugs unique, a category's own slug is never "taken" once its own id is excluded |
| Validator.MatchesClass | pkg/validator/validator.go:10-13 | a class regex matches exactly when some character of the password is in the class |
| Validator.PasswordStrength | pkg/validator/validator.go:21-38 | true exactly when the password has an ASCII upper-case letter, a lower-case letter, a digit and one of the listed special characters |
| Validator.MissingClassRejects | pkg/validator/validator.go:24-35 | a password with no character of any one class is rejected |
| Validator.AppendKeepsStrength | pkg/validator/validator.go:24-37 | appending characters never turns an accepted password into a rejected one |
| Validator.ClassesAreAscii | pkg/validator/validator.go:10-13 | every character of every class is ASCII, so no non-ASCII letter counts |
| Validator.SpaceInNoClass | pkg/validator/validator.go:13 | space is in no class, in particular not in the special set |
| Text.NormalizeEmailIdempotent | internal/handler/auth.go:48 | normalising an address twice gives what normalising it once gives |
| Text.NormalizeEmailCanonical | internal/handler/auth.go:80 | addresses typed with surrounding white space or different letter case normalise to the same address |
| Text.TrimSpaceIdempotent | internal/handler/auth.go:230-238 | trimming white space twice changes nothing more |
| Decimal.ParseUint32 | internal/handler/category.go:206 | `strconv.ParseUint(s, 10, 32)`: defined exactly for non-empty all-digit text whose value fits in 32 bits, and then that value |
| Decimal.ParseFormatRoundTrip | internal/handler/category.go:206 | every 32-bit value printed in decimal parses back to itself |
| Decimal.FormatUintInjective | internal/service/category_service.go:245 | different numbers print differently |
| Base64.EncodeUrl | internal/handler/oauth.go:264 | the output is a multiple of four long and uses only the URL-safe alphabet and `=` |
| Base64.DecodeEncode | internal/handler/oauth.go:264 | decoding an encoding gives the original bytes back, for every length |
| Base64.EncodedLength | internal/handler/oauth.go:264 | the encoding is 4 * ceil(n / 3) characters long |
| Base64.EncodeUrlInjective | internal/handler/oauth.go:264 | different byte strings encode differently |
| AuthService.ClaimsFor | internal/service/auth_service.go:154-164 | the claims carry the user's id, e-mail and role, with iat = nbf = now and exp = now + TTL; the subject is the decimal id (see "## Left out") |
| AuthService.AuthService.GenerateToken | internal/service/auth_service.go:149-173 | HS256 over those claims with the secret; `expiresIn` is the TTL in seconds; a signing failure is the only error |
| AuthService.AuthService.ValidateToken | internal/service/auth_service.go:176-193 | accepted exactly when the token decodes, names an HMAC method, verifies with the secret and is inside its window; a non-HMAC method is refused as such |
| AuthService.IssuedTokenValidates | internal/service/auth_service.go:149-193 | a freshly issued token validates exactly from its issue time up to its expiry and gives back its user's id, e-mail and role |
| AuthService.AuthService.GetUserById | internal/service/auth_service.go:196-205 | the user when the row exists; `ErrUserNotFound` exactly when the lookup ran and found nothing; a failing lookup's database error is passed through unchanged |
| AuthService.AuthService.Respond | internal/service/auth_service.go:119-130 | an `AuthResponse` with token type `Bearer`, the TTL, and the user's response data |
| AuthService.AuthService.Login | internal/service/auth_service.go:91-131 | success only for the account with that address, a matching password and a status that is neither inactive nor banned; after a matching password an inactive account gets `ErrUserInactive`, a banned one `ErrUserBanned`, and any other the token response |
| AuthService.LoginCollapsesFailures | internal/service/auth_service.go:93-109 | `ErrInvalidCredentials` exactly when no account has the address, the account has no password, or the password does not match |
| AuthService.LoginPassesStorageErrors | internal/service/auth_service.go:94-98 | a lookup error other than "not found" comes back unchanged |
| AuthService.AuthService.Register | internal/service/auth_service.go:47-88 | a taken address gives `ErrEmailAlreadyExists` and creates nothing; it succeeds exactly when `Registers` holds, and then adds the one row `NewLocalUser` and answers with its token |
| AuthService.AuthService.Registers | internal/service/auth_service.go:49-87 | registration succeeds exactly when the count query and the insert work, no row holds the address, hashing succeeds and the new row's token can be signed |
| AuthService.NewLocalUser | internal/service/auth_service.go:64-70 | the inserted row has role `user`, status `active`, the password hash, and no phone, address, avatar or verification time |
| AuthService.AuthService.UpdateProfile | internal/service/auth_service.go:208-231 | a missing user gives `ErrUserNotFound` with nothing changed; a failing lookup or save returns the storage error as it is; otherwise the row becomes `ApplyProfileUpdate` of itself |
| AuthService.ApplyProfileUpdate | internal/service/auth_service.go:218-224 | the full name is always overwritten; phone and address change only when the request carries them; nothing else changes |
| AuthService.SubjectAsWrittenCollides | internal/service/auth_service.go:162 | the `sub` claim as written gives two different users the same subject, and user 65 the subject "A" |
| AuthService.SubjectAsWritten | internal/service/auth_service.go:162 | the subject as written is one character: the id itself when it is a Unicode scalar value, U+FFFD when the id cut to 32 bits is a surrogate or above U+10FFFF |
| AuthService.SubjectInjective | internal/service/auth_service.go:162 | the corrected decimal subject is different for different users |
| OAuthService.GoogleUserInfo | internal/service/oauth_service.go:322-328 | the profile's e-mail is normalised to lower case without surrounding white space; the other fields are copied |
| OAuthService.StoredRefreshToken | internal/service/oauth_service.go:153-156 | an empty refresh token is stored as null, any other as itself |
| OAuthService.NewOAuthUser | internal/service/oauth_service.go:194-205 | a new OAuth user has role `user`, status `active`, no password, and a verification time exactly when the provider verified the address |
| OAuthService.NewLink | internal/service/oauth_service.go:211-224 | the link points at the user, is keyed by provider and provider user id, and stores the access token and the refresh token only when one was issued |
| OAuthService.Registry | internal/service/oauth_service.go:65-70 | Google is registered exactly when both its client id and secret are set, with those settings; no other provider is ever registered |
| OAuthService.OAuthService.constructor | internal/service/oauth_service.go:59-88 | the registered providers are `Registry` of the configuration |
| OAuthService.OAuthService.IsProviderSupported | internal/service/oauth_service.go:248-252 | a provider is supported exactly when it is Google and Google's client id and secret are both set |
| OAuthService.OAuthService.GetAuthUrl | internal/service/oauth_service.go:91-97 | an unregistered provider gives `ErrOAuthProviderNotSupported`; a registered one gives its offline-access URL for the state |
| OAuthService.OAuthService.GetSupportedProviders | internal/service/oauth_service.go:240-246 | the result lists every registered provider exactly once |
| OAuthService.OAuthService.CreateInTransaction | internal/service/oauth_service.go:188-208 | with no user found and an empty address the result is `ErrOAuthEmailRequired` and nothing changes; a created user is the new OAuth user |
| OAuthService.OAuthService.RefreshLink | internal/service/oauth_service.go:151-165 | an existing link gets the new tokens, a failing token update is ignored, and the linked user is returned |
| OAuthService.OAuthService.LinkInTransaction | internal/service/oauth_service.go:183-234 | the user (found or new) and its link are committed together, or on any failure both tables are as before |
| OAuthService.OAuthService.FindOrCreate | internal/service/oauth_service.go:147-237 | whatever `findOrCreateUser` does, no existing user row changes; an error changes no user; a returned account is stored; a new account is `NewOAuthUser` for an address no row holds |
| OAuthService.OAuthService.LinkAccount | internal/service/oauth_service.go:168-236 | with no link for the identity, an error leaves both tables as they were; a new account is `NewOAuthUser` for an address no row holds |
| OAuthService.OAuthService.LinkByAddress | internal/service/oauth_service.go:168-236 | the result and tables are `LinkAccount`'s; an account with the address is linked and not created; a failing lookup or transaction writes nothing; a free address gets one new user and one link |
| OAuthService.OAuthService.FindOrCreateUser | internal/service/oauth_service.go:147-237 | the result and both tables are those of `FindOrCreate`; an existing identity returns its user and creates nothing; a matching address links to that user, and a failing link insert or commit leaves both tables as they were; a failing address lookup is returned and writes nothing; a new address creates one user and one link; no address gives `ErrOAuthEmailRequired` with both tables unchanged |
| OAuthService.OAuthService.HandleCallback | internal/service/oauth_service.go:100-144 | the answer is `Callback` of the tables before the call; an unregistered provider makes no call; a failed exchange fetches nothing; a failed fetch touches no table; after both calls the tables are those `FindOrCreate` leaves |
| OAuthService.OAuthService.CompleteLogin | internal/service/oauth_service.go:118-143 | the tables are those `FindOrCreate` leaves, and the answer is the status gate `Admit` applied to the account it links, or its error |
| OAuthService.OAuthService.Admit | internal/service/oauth_service.go:125-143 | an inactive user gets `ErrUserInactive` and a banned one `ErrUserBanned`, with no token; every other user gets a `Bearer` token |
| OAuthService.OAuthService.AdmitLinked | internal/service/oauth_service.go:119-143 | an error of `findOrCreateUser` is returned as it is; an account goes through the status gate |
| OAuthService.OAuthService.Callback | internal/service/oauth_service.go:100-144 | an unregistered provider gives `ErrOAuthProviderNotSupported`; a failed exchange wraps `ErrOAuthCodeExchange`; a failed fetch wraps `ErrOAuthUserInfo`; success needs both calls and an account that is neither inactive nor banned |
| CategoryService.DropNonSlugChars | internal/service/category_service.go:220-221 | every character outside `[a-z0-9-]` is removed and every character inside it is kept, counted by multiset |
| CategoryService.CollapseHyphens | internal/service/category_service.go:224-225 | the result has no `--`, keeps the first and last character, and leaves text without `--` unchanged |
| CategoryService.CollapseHyphensKeepsOthers | internal/service/category_service.go:224-225 | only hyphens are removed: every other character keeps its count |
| CategoryService.GenerateSlug | internal/service/category_service.go:212-231 | the slug uses only `[a-z0-9-]`, has no `--`, and neither starts nor ends with `-` |
| CategoryService.SlugIsFixedPoint | internal/service/category_service.go:212-231 | a well-formed slug passes through every step unchanged |
| CategoryService.GenerateSlugIdempotent | internal/service/category_service.go:212-231 | slugging a slug changes nothing |
| CategoryService.GenerateSlugOfPhrase | internal/service/category_service.go:212-231 | words of ASCII letters and digits separated by single spaces keep every character in order: the slug is the text lower-cased with each space turned into a hyphen |
| CategoryService.HyphenatedPhraseIsSlug | internal/service/category_service.go:212-231 | such words, lower-cased and hyphenated, already form a well-formed slug |
| CategoryService.NonBlank | internal/service/category_service.go:53-64 | an optional text becomes its trimmed value, or nil when it is absent or blank |
| CategoryService.RequestedSlug | internal/service/category_service.go:37-38 | a request's own slug is used exactly when it is not blank, and then in slug form |
| CategoryService.BaseSlug | internal/service/category_service.go:36-39 | the slug comes from `slug` when that is not blank and from the name otherwise |
| CategoryService.Candidate | internal/service/category_service.go:245 | a candidate is the slug, a hyphen and the decimal suffix |
| CategoryService.ToCategoryResponse | internal/service/category_service.go:259-271 | every stored field is copied unchanged |
| CategoryService.CandidatesDistinct | internal/service/category_service.go:244-253 | different suffixes give different candidates |
| CategoryService.CategoryService.EnsureUniqueSlug | internal/service/category_service.go:234-256 | a free slug is returned unchanged; otherwise "slug-i" for the least free i in 2..100; an error when all are taken |
| CategoryService.CategoryService.FirstFreeCandidate | internal/service/category_service.go:244-253 | the least `i` from the start to 100 whose "slug-i" is free, or none exactly when all of them are taken |
| CategoryService.CategoryService.UniqueSlug | internal/service/category_service.go:234-256 | the slug itself when it is free; otherwise a free "slug-i" with every smaller suffix taken; none exactly when the slug and all 99 candidates are taken |
| CategoryService.CategoryService.GetById | internal/service/category_service.go:80-89 | the category when it exists, `ErrCategoryNotFound` when it does not, a wrapped storage error otherwise |
| CategoryService.CategoryService.NewCategory | internal/service/category_service.go:47-70 | the trimmed name, the chosen slug, blank description and image URL left nil, status `active` unless the request sets one |
| CategoryService.CategoryService.ChooseSlug | internal/service/category_service.go:36-45 | the slug `Create` stores is free and is the base slug or one of its candidates |
| CategoryService.CategoryService.Create | internal/service/category_service.go:34-77 | exactly one new row holding the request's fields under the slug `UniqueSlug` chooses, with status active when the request's status is absent or empty; `SlugExhausted` when every candidate is taken; a duplicate-entry failure when a deleted category still holds the chosen slug; every error is one of four wrapped errors and changes nothing; slugs stay unique |
| CategoryService.CategoryService.InsertNew | internal/service/category_service.go:47-76 | the new row holds the request's fields under the given slug, with status active when the request's status is absent or empty (the `BeforeCreate` hook); a failing insert is wrapped and changes nothing |
| CategoryService.UpdatedText | internal/service/category_service.go:122-140 | an absent field keeps its value, a blank one is cleared to nil, any other becomes its trimmed text |
| CategoryService.ApplyUpdate | internal/service/category_service.go:101-150 | every field the request carries is applied and every other field is kept |
| CategoryService.EmptyUpdateKeeps | internal/service/category_service.go:101-150 | an update that carries no field leaves the category as it is |
| CategoryService.ApplyUpdateIdempotent | internal/service/category_service.go:101-150 | applying the same update twice gives what applying it once gives |
| CategoryService.BlankClears | internal/service/category_service.go:123-140 | a blank description or image URL clears the field whatever it held |
| CategoryService.CategoryService.UpdateContent | internal/service/category_service.go:122-150 | the description, image URL, sort order and status of the category become those of `ApplyUpdate` |
| CategoryService.CategoryService.UpdateSlug | internal/service/category_service.go:106-120 | an unchanged or blank slug is kept, even when the slug check would fail; a changed slug held by another category gives `ErrSlugAlreadyExists` |
| CategoryService.CategoryService.Update | internal/service/category_service.go:92-157 | a missing id gives `ErrCategoryNotFound`; a slug held elsewhere gives `ErrSlugAlreadyExists`; a slug a deleted category holds gives the wrapped duplicate-entry error; on any error nothing is saved; on success the row is `ApplyUpdate` of itself |
| CategoryService.CategoryService.SaveUpdated | internal/service/category_service.go:152-156 | a failing save or a slug held elsewhere (live or deleted) is wrapped and saves nothing; otherwise exactly that row is replaced and returned |
| CategoryService.CategoryService.Delete | internal/service/category_service.go:160-175 | a missing id gives `ErrCategoryNotFound` and deletes nothing; it succeeds exactly when the row exists and both queries work, and then exactly that row goes and its slug stays reserved; a failing lookup or delete gives the storage error wrapped as "failed to find category" or "failed to delete category" |
| CategoryService.CeilDivBounds | internal/service/category_service.go:200 | the page count is the least number of pages that holds every item |
| CategoryService.ParamsFor | internal/service/category_service.go:179-188 | the repository query has offset (page - 1) * pageSize and the request's filter and order |
| CategoryService.EveryItemOnOnePage | internal/service/category_service.go:179-200 | every item lies on exactly one page, and that page is one of the announced pages |
| CategoryService.CategoryService.List | internal/service/category_service.go:178-209 | the items are the rows converted in order; total, page and page size are echoed; the page count is ceil(total / pageSize); a query error is wrapped |
| Http.ErrorReply | internal/middleware/auth.go:244-247 | an error reply carries its status and code and no details |
| Http.ValidationReply | internal/handler/auth.go:92-125 | validation errors give 400 `validation_error` with the details map; any other bind error gives 400 `bad_request` |
| Http.BuildDetails | internal/handler/auth.go:95-112 | the loop builds exactly `DetailsOf` the field errors |
| Http.DetailsKeys | internal/handler/auth.go:97 | a details key is present exactly when some field lower-cases to it |
| Http.DetailsLastWins | internal/handler/auth.go:96-111 | a field's message is the one for its last error |
| Http.Context.Set | internal/middleware/auth.go:60-62 | one context key is written; nothing else changes |
| Http.Context.SetCookie | internal/handler/oauth.go:76 | one cookie is appended to the response; nothing else changes |
| Middleware.BearerSplit | internal/middleware/auth.go:221-222 | the header splits into `Bearer` and a rest exactly when it starts with `Bearer `, and the rest is what follows it |
| Middleware.AuthMiddleware.ExtractAndValidateToken | internal/middleware/auth.go:214-238 | an empty header or an empty token gives `ErrMissingToken`; anything not starting with `Bearer ` gives `ErrInvalidTokenType`; every validation failure gives `ErrInvalidToken` |
| Middleware.LowerCaseSchemeRejected | internal/middleware/auth.go:222 | the scheme is compared case-sensitively: `bearer` is refused |
| Middleware.BearerTokenRoundTrip | internal/middleware/auth.go:221-237 | a valid token sent after `Bearer ` yields its claims |
| Middleware.HandleAuthError | internal/middleware/auth.go:241-264 | every authentication error is 401, with `missing_token`, `invalid_token_type`, `invalid_token` or `unauthorized` chosen by `errors.Is` in that order |
| Middleware.ExtractionFailuresDistinguished | internal/middleware/auth.go:214-264 | different extraction failures get different error codes |
| Middleware.WithClaims | internal/middleware/auth.go:60-62 | the id, e-mail and role keys are set from the claims, and every other key is kept |
| Middleware.AuthMiddleware.RequireAuth | internal/middleware/auth.go:50-66 | a failed extraction aborts with its 401 reply; a valid token sets the three keys and calls the next handler |
| Middleware.AuthMiddleware.AuthenticatedUser | internal/middleware/auth.go:72-114 | a missing user gives 401 `user_not_found`, a failing lookup 500, an inactive user 403 `user_inactive`, a banned one 403 `user_banned` |
| Middleware.AuthMiddleware.RequireAuthWithUser | internal/middleware/auth.go:70-124 | the context keys are set and the chain continues only for an existing user who is neither inactive nor banned; otherwise it aborts with that reply |
| Middleware.AuthMiddleware.RequireAdmin | internal/middleware/auth.go:127-150 | no role gives 401, a role other than `admin` gives 403, and only `admin` passes |
| Middleware.AuthMiddleware.RequireRole | internal/middleware/auth.go:153-195 | a request passes exactly when its role is in the list, so an empty list denies everyone; no role gives 401; a role of the wrong type gives 500 |
| Middleware.AuthMiddleware.OptionalAuth | internal/middleware/auth.go:199-211 | never aborts, always continues, and sets the keys only for a valid token |
| Middleware.GetUserId | internal/middleware/auth.go:268-275 | an id is present exactly when the key holds an unsigned value |
| Middleware.GetUserRole | internal/middleware/auth.go:290-297 | a role is present exactly when the key holds a string |
| Middleware.IsAdmin | internal/middleware/auth.go:310-314 | admin exactly when the context holds the role as the text `admin`, the test `RequireAdmin` applies |
| OAuthHandler.GenerateRandomState | internal/handler/oauth.go:259-265 | 32 random bytes give a 44-character state that decodes back to them; a failing random source is an error |
| OAuthHandler.StatesOfDistinctDrawsDiffer | internal/handler/oauth.go:259-265 | different random bytes give different states |
| OAuthHandler.HandleOAuthError | internal/handler/oauth.go:212-256 | provider, state, exchange, profile and e-mail errors give 400, inactive and banned 403, anything else 500 `internal_error` |
| OAuthHandler.RedirectErrorCode | internal/handler/oauth.go:186-194 | inactive gives `user_inactive`, banned `user_banned`, no e-mail `email_required`, and every other error `auth_failed` |
| OAuthHandler.ExchangeFailureIsAuthFailed | internal/handler/oauth.go:186-194 | a failed code exchange is reported as `auth_failed` |
| OAuthHandler.FailureNeverLooksLikeSuccess | internal/handler/oauth.go:195-208 | no error redirect equals the success redirect |
| OAuthHandler.OAuthHandler.InitiateOAuth | internal/handler/oauth.go:50-94 | an unsupported provider gets 400 `invalid_provider` and no cookie; otherwise the state goes into a ten-minute HTTP-only cookie |
| OAuthHandler.OAuthHandler.HandleCallback | internal/handler/oauth.go:109-153 | provider, then query, then state are checked before the service; a mismatched state gets `invalid_state` and the service is never called; a match clears the cookie first, then answers 200 with the token or `handleOAuthError` of the service's error |
| OAuthHandler.OAuthHandler.HandleCallbackRedirect | internal/handler/oauth.go:158-209 | every answer is a 307 redirect; the service is called only after the state matched, and then the redirect and cookies are `CallbackRedirected` of the service's answer; on success the token is only in the `access_token` cookie and the URL ends in `?auth=success` |
| OAuthHandler.OAuthHandler.CompleteRedirect | internal/handler/oauth.go:181-208 | the state cookie is cleared before the service runs; the redirect and cookies are `CallbackRedirected` of the service's answer |
| OAuthHandler.CallbackRedirected | internal/handler/oauth.go:185-208 | an error redirects to its code with only the state cookie cleared; a token redirects to the success page with the cleared state cookie then the HTTP-only token cookie |
| OAuthHandler.OAuthHandler.RedirectFor | internal/handler/oauth.go:185-208 | the reply and cookies are `CallbackRedirected` of the service's answer |
| OAuthHandler.RedirectShape | internal/handler/oauth.go:185-208 | such a redirect is always a 307; the success page only with a token, sent as an HTTP-only cookie for 24 hours; otherwise one of the four error codes |
| AuthHandler.AuthMessage | internal/handler/auth.go:98-111 | each validation tag, `password_strength` included, has its fixed message, and an unknown tag gives "is invalid" |
| AuthHandler.HandleAuthError | internal/handler/auth.go:128-157 | a taken address gives 409, bad credentials 401, inactive or banned 403, and anything else 500 |
| AuthHandler.LoginReply | internal/handler/auth.go:82-88 | a login is 200 exactly when the service succeeded, and otherwise the mapped error |
| AuthHandler.LoginIgnoresCaseAndSpace | internal/handler/auth.go:80 | logins whose addresses differ only in letter case or surrounding white space get the same answer |
| AuthHandler.TrimOptional | internal/handler/auth.go:231-238 | a present value is trimmed and an absent one stays absent |
| AuthHandler.TrimmedProfile | internal/handler/auth.go:229-238 | the full name and any present phone and address are trimmed |
| AuthHandler.TrimmedProfileIdempotent | internal/handler/auth.go:229-238 | trimming a trimmed profile request changes nothing |
| AuthHandler.AuthHandler.HandleValidationError | internal/handler/auth.go:92-125 | the reply is the validation reply built with the auth messages |
| AuthHandler.AuthHandler.NormalizeRegisterRequest | internal/handler/auth.go:48-49 | the service receives the normalised e-mail, the trimmed full name and the password as sent |
| AuthHandler.AuthHandler.Register | internal/handler/auth.go:40-58 | a bind failure gets the validation reply and changes nothing; a taken normalised address gets 409; 201 exactly when `Registers` holds for the normalised request |
| AuthHandler.AuthHandler.RegisterNormalized | internal/handler/auth.go:51-57 | the new user is built from the normalised request; 201 exactly when `Registers` holds for it |
| AuthHandler.AuthHandler.Login | internal/handler/auth.go:72-89 | the service sees the normalised address, and the reply is `LoginReply` of its answer |
| AuthHandler.AuthHandler.GetProfile | internal/handler/auth.go:170-198 | no user id gives 401; a missing user 404 `user_not_found`; a failing lookup 500 |
| AuthHandler.AuthHandler.TrimProfileRequest | internal/handler/auth.go:229-238 | the request is trimmed as `TrimmedProfile` says |
| AuthHandler.AuthHandler.UpdateProfile | internal/handler/auth.go:213-258 | no user id gives 401; a bind failure the validation reply; a missing user 404; on success the row is the trimmed update applied |
| CategoryHandler.CategoryMessage | internal/handler/category.go:224-237 | each validation tag has its fixed message, and an unknown tag gives "is invalid" |
| CategoryHandler.HandleServiceError | internal/handler/category.go:254-273 | not found gives 404, a taken slug 409, and anything else 500 |
| CategoryHandler.CreateFailureIsInternal | internal/handler/category.go:49-53 | every error `Create` can return is answered 500 `internal_error` |
| CategoryHandler.ServiceReply | internal/handler/category.go:76-82 | success status exactly when the service succeeded, and otherwise the mapped error |
| CategoryHandler.ParseId | internal/handler/category.go:204-215 | an id is accepted exactly when it is decimal, non-zero and fits in 32 bits |
| CategoryHandler.ParseIdOfFormat | internal/handler/category.go:204-215 | every id from 1 to 2^32 - 1 written in decimal is accepted as itself |
| CategoryHandler.EmptyUpdateIsNoOp | internal/handler/category.go:113-114 | a request the handler refuses as empty is exactly the one that would change nothing |
| CategoryHandler.DefaultsKeepGiven | internal/handler/category.go:181-192 | page 0 becomes 1, page size 0 becomes 20, an empty sort becomes `sort_order` `asc`, and given values are kept |
| CategoryHandler.DefaultsIdempotent | internal/handler/category.go:181-192 | filling in defaults twice changes nothing more |
| CategoryHandler.DefaultPageSizePositive | internal/handler/category.go:184-186 | after the defaults the page size is positive, so the page count is defined |
| CategoryHandler.CategoryHandler.HandleValidationError | internal/handler/category.go:218-251 | the reply is the validation reply built with the category messages |
| CategoryHandler.CategoryHandler.ParseIdParam | internal/handler/category.go:204-215 | a refused id gets 400 `invalid_id` |
| CategoryHandler.CategoryHandler.Create | internal/handler/category.go:42-56 | a bind failure gets the validation reply and changes nothing; 201 when the slug search finds a slug no deleted category holds and storage works; any other answer is 500 `internal_error` with the table unchanged; 201 only when exactly one row with the trimmed name was added |
| CategoryHandler.CategoryHandler.GetById | internal/handler/category.go:70-83 | a bad id gets 400; a missing category 404; 200 exactly when it exists |
| CategoryHandler.CategoryHandler.Update | internal/handler/category.go:100-129 | a bad id gets 400; an update with no field 400 `validation_error` and nothing saved; 200 exactly when the row became `ApplyUpdate` of itself |
| CategoryHandler.CategoryHandler.UpdateExisting | internal/handler/category.go:122-128 | a missing category gives 404 and a taken slug 409, with nothing saved |
| CategoryHandler.CategoryHandler.Delete | internal/handler/category.go:143-155 | a bad id gets 400; a missing category 404; 200 exactly when the row was deleted |
| CategoryHandler.CategoryHandler.SetDefaults | internal/handler/category.go:181-192 | the request is filled in as `WithDefaults` says |
| CategoryHandler.CategoryHandler.List | internal/handler/category.go:173-201 | the service sees the request with defaults; 200 exactly when the query succeeded |
| ProfileService.Ext | internal/service/profile_service.go:47 | `filepath.Ext`: the suffix from the last dot of the last path element, or empty when that element has no dot |
| ProfileService.ExtOfName | internal/service/profile_service.go:47 | the extension of `stem.suffix` is `.suffix` |
| ProfileService.ExtensionCaseIgnored | internal/service/profile_service.go:47-50 | an allowed extension is accepted whatever its letter case |
| ProfileService.AvatarUrl | internal/service/profile_service.go:97 | the avatar URL is "/" followed by the save path |
| ProfileService.OldAvatarFiles | internal/service/profile_service.go:62-65 | a file is removed exactly when the user has a non-empty avatar URL, and it is that URL without its leading "/" |
| ProfileService.StoredAvatarRemovable | internal/service/profile_service.go:62-98 | the file a stored avatar URL points at is the file that was saved |
| ProfileService.ProfileService.IsAllowedType | internal/service/profile_service.go:138-145 | true exactly when the extension equals "." + some allowed type |
| ProfileService.ProfileService.UploadAvatar | internal/service/profile_service.go:40-108 | size first (`ErrFileTooLarge`), then extension (`ErrInvalidFileType`), then the user (`ErrUserNotFound`); a failing user lookup gives the storage error wrapped as "failed to find user"; on success the avatar URL is "/" + save path and is returned |
| ProfileService.ProfileService.ReplaceAvatar | internal/service/profile_service.go:61-107 | the old file is removed, a disk or save failure leaves the row as it was, and success stores the new URL |
| ProfileService.ProfileService.DeleteAvatar | internal/service/profile_service.go:111-135 | a missing user gives `ErrUserNotFound`, no avatar `ErrNoAvatar`, and otherwise the URL becomes nil and its file is removed; a failing lookup or save gives the storage error wrapped as "failed to find user" or "failed to update user" |

## Left out

- bcrypt and the JWT library are not modelled. They are functions held in a `Crypto` value, so
  password hashing, signature checking and claim decoding are assumed only where a lemma's
  `requires` says so.
- The Google provider's network calls, the `oauth2` URL building and JSON decoding are not
  modelled. The provider is a `Remote` value. `GetAuthUrl` returns the URL's parts (provider,
  state, offline access) instead of the URL text.
- `time.Now`, `crypto/rand` and `uuid.New` are parameters. The time stored in
  `EmailVerifiedAt` is the callback's `now`.
- `Text.ToLower` and `Text.ToUpper` fold ASCII letters only. Go's `strings.ToLower` also folds
  non-ASCII letters. `Text.TrimSpace` uses Go's full white-space set.
- Avatar file I/O (`MkdirAll`, `Create`, `io.Copy`, `os.Remove`) is not modelled. A removed
  file is logged in `removed`. A failing disk step is the `failure` parameter.
  `filepath.Join` is the `join` parameter.
- ProfileService.ProfileService.UploadAvatar: the old file is logged as removed before the
  upload succeeds, as the source does. A later failure does not bring it back.
- The repository's SQL listing (status filter, search, order and paging) is not modelled. It is
  the `query` parameter of `List`.
- CategoryService.CategoryService.List: `math.Ceil` over `float64` is replaced by integer
  ceiling division. The two agree for all totals below 2^53.
- CategoryService.CategoryService.List requires a positive page size. In the source, binding
  and the handler's defaults guarantee this.
- CategoryHandler.CategoryHandler.List requires a bound page size that is not negative.
  Binding enforces `min=1`, which is stronger.
- CategoryHandler.CategoryHandler.List states 500 for a failing query only when the query
  error is not itself one of the service's two sentinels.
- CategoryService.CategoryService.Create: for a failing insert it states only that the error is
  one of its four wrapped errors, not which one. That depends on whether the slug search failed
  first.
- AuthService.ClaimsFor: the `sub` claim is the id in decimal (`Subject`). The source writes
  `string(rune(user.ID))` (internal/service/auth_service.go:162), which is one code point, so
  user 65 gets "A". That text is `SubjectAsWritten`, and "## Findings" records the defect.
- AuthService.AuthService.GenerateToken and AuthService.IssuedTokenValidates inherit the
  decimal subject of `ClaimsFor`.
- AuthService.AuthService.GenerateToken: the TTL is a whole, non-negative number of seconds.
  The source's `time.Duration` can also be fractional or negative.
  `int64(Expiration.Seconds())` (internal/service/auth_service.go:152) truncates a fraction for
  `expiresIn`, while the expiry time at line 151 keeps it.
- Models.ToUserResponse and CategoryService.ToCategoryResponse do not carry `CreatedAt` and
  `UpdatedAt`. The model keeps no row timestamps, so the responses have none.
- A repository query that fails after an earlier query of the same call succeeded is not
  modelled, because `failing` is fixed for a whole call. An example is an `ExistsBySlug`
  failure partway through the suffix search (internal/service/category_service.go:247-249).
- A failure to begin the transaction of `findOrCreateUser`
  (internal/service/oauth_service.go:183) is not modelled. `Op` has no begin step; only the
  inserts and the commit inside the transaction can fail.
- Auto-increment counters are not rolled back with a transaction, as in MySQL. A rolled-back
  insert uses up its id.
- OAuthService.OAuthService.GetSupportedProviders: Go's map iteration order is unspecified. The
  model proves only that each registered provider appears exactly once.
- JSON response bodies, messages and header canonicalisation are not modelled. Replies are
  status and error-code pairs.
- The `dto.OAuthCallbackRequest` and `dto.UpdateProfileRequest` fields are taken from how the
  handlers use them.
- Concurrent duplicate callbacks are not modelled. Their safety comes from database unique
  indexes, not from sequential code.
- The health handler, profile handler, router, configuration loading, migrations and server
  start-up are not part of this model.

## Findings

| source | as written | input that shows it | evidently intended | confidence | as-written member | corrected member |
|---|---|---|---|---|---|---|
| internal/service/auth_service.go:162 | `Subject: string(rune(user.ID))` turns the id into one Unicode code point, not its decimal text | users 0xD800 and 0xD801 both get U+FFFD; user 65 gets "A" | the `sub` claim is the decimal id, unique per user | not executed | AuthService.SubjectAsWrittenCollides | AuthService.SubjectInjective |
