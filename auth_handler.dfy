/** The HTTP handlers of local accounts: registration and login (which normalise the e-mail
    address before the service sees it), the profile read and update, and the mapping of
    service and validation errors to replies. */
module AuthHandler {
  import opened Base
  import opened Models
  import opened Errors
  import opened Text
  import opened Store
  import opened AuthService
  import opened Http
  import Middleware

  /** The detail for a password that fails the strength rule. */
  const PasswordStrengthMessage :=
    "password must contain at least one uppercase, one lowercase, one digit, and one special character"

  /** The detail message for one failed validation tag of a request field. */
  function AuthMessage(field: string, fe: FieldError): (m: string)
    ensures fe.tag == "required" ==> m == field + " is required"
    ensures fe.tag == "email" ==> m == "invalid email format"
    ensures fe.tag == "min" ==> m == field + " must be at least " + fe.param + " characters"
    ensures fe.tag == "max" ==> m == field + " must be at most " + fe.param + " characters"
    ensures fe.tag == "password_strength" ==> m == PasswordStrengthMessage
    ensures fe.tag !in {"required", "email", "min", "max", "password_strength"} ==> m == field + " is invalid"
  {
    match fe.tag
    case "required" => field + " is required"
    case "email" => "invalid email format"
    case "min" => field + " must be at least " + fe.param + " characters"
    case "max" => field + " must be at most " + fe.param + " characters"
    case "password_strength" => PasswordStrengthMessage
    case _ => field + " is invalid"
  }

  /** `handleAuthError`: a taken address is 409, wrong credentials 401, an inactive or banned
      account 403, and anything else 500. */
  function HandleAuthError(e: Error): (r: Reply)
    ensures r.Fail? && r.details == map[]
    ensures Is(e, EmailAlreadyExists) <==> r == ErrorReply(StatusConflict, "email_exists")
    ensures !Is(e, EmailAlreadyExists) && Is(e, InvalidCredentials) <==>
              r == ErrorReply(StatusUnauthorized, "invalid_credentials")
    ensures !Is(e, EmailAlreadyExists) && !Is(e, InvalidCredentials) && (Is(e, UserInactive) || Is(e, UserBanned)) <==>
              r.status == StatusForbidden
    ensures r.status == StatusInternalServerError <==>
              !Is(e, EmailAlreadyExists) && !Is(e, InvalidCredentials) && !Is(e, UserInactive) && !Is(e, UserBanned)
  {
    if Is(e, EmailAlreadyExists) then ErrorReply(StatusConflict, "email_exists")
    else if Is(e, InvalidCredentials) then ErrorReply(StatusUnauthorized, "invalid_credentials")
    else if Is(e, UserInactive) then ErrorReply(StatusForbidden, "user_inactive")
    else if Is(e, UserBanned) then ErrorReply(StatusForbidden, "user_banned")
    else ErrorReply(StatusInternalServerError, "internal_error")
  }

  /** The reply `Login` sends for the service's result. */
  function LoginReply(r: Result<AuthResponse, Error>): (reply: Reply)
    ensures r.Ok? <==> reply == Success(StatusOK)
    ensures r.Err? ==> reply == HandleAuthError(r.error)
  {
    match r
    case Ok(_) => Success(StatusOK)
    case Err(e) => HandleAuthError(e)
  }

  /** A given optional value with its surrounding white space trimmed; nil stays nil. */
  function TrimOptional(o: Option<string>): (t: Option<string>)
    ensures t.Some? <==> o.Some?
    ensures t.Some? ==> t.value == TrimSpace(o.value)
  {
    match o
    case None => None
    case Some(v) => Some(TrimSpace(v))
  }

  /** The profile update request after `UpdateProfile` has trimmed it: the name and any given
      phone or address lose their surrounding white space; a field left out stays left out. */
  function TrimmedProfile(req: UpdateProfileRequest): (t: UpdateProfileRequest)
    ensures t.fullName == TrimSpace(req.fullName)
    ensures t.phone == TrimOptional(req.phone) && t.address == TrimOptional(req.address)
  {
    UpdateProfileRequest(TrimSpace(req.fullName), TrimOptional(req.phone), TrimOptional(req.address))
  }

  class AuthHandler {
    const auth: AuthService

    constructor (auth: AuthService)
      ensures this.auth == auth
    {
      this.auth := auth;
    }

    /** `handleValidationError`. */
    method HandleValidationError(c: Context, e: BindError)
      modifies c
      ensures c.reply == Some(ValidationReply(e, AuthMessage))
      ensures c.keys == old(c.keys) && c.setCookies == old(c.setCookies)
      ensures c.aborted == old(c.aborted) && c.nextCalled == old(c.nextCalled)
    {
      if e.ValidationErrors? {
        var details := BuildDetails(e.errors, AuthMessage);
        c.Respond(Fail(StatusBadRequest, "validation_error", details));
        return;
      }
      c.Respond(ErrorReply(StatusBadRequest, "bad_request"));
    }

    /** `Register`: the address is trimmed and lower-cased and the name trimmed before the
        service sees them, so an address differing from a stored one only in case or
        surrounding space is refused with 409. */
    method Register(c: Context, body: Bind<RegisterRequest>, now: int)
      requires auth.db.Valid()
      modifies c, auth.db
      ensures auth.db.Valid()
      ensures old(auth.db.EmailsUnique()) ==> auth.db.EmailsUnique()
      ensures body.BindFailed? ==> c.reply == Some(ValidationReply(body.error, AuthMessage)) && unchanged(auth.db)
      ensures (body.Bound? && CountUsersByEmail !in old(auth.db.failing)
               && exists id :: id in old(auth.db.users)
                               && old(auth.db.users)[id].email == NormalizeEmail(body.value.email)) ==>
                c.reply == Some(ErrorReply(StatusConflict, "email_exists")) && unchanged(auth.db)
      ensures auth.db.users != old(auth.db.users) ==>
                body.Bound? && old(auth.db.nextUserId) in auth.db.users
                && auth.db.users[old(auth.db.nextUserId)].email == NormalizeEmail(body.value.email)
                && auth.db.users[old(auth.db.nextUserId)].fullName == TrimSpace(body.value.fullName)
      ensures c.reply == Some(Success(StatusCreated)) ==> auth.db.users != old(auth.db.users)
      ensures c.reply == Some(Success(StatusCreated)) <==>
                body.Bound? && old(auth.Registers(body.value.(email := NormalizeEmail(body.value.email),
                                                              fullName := TrimSpace(body.value.fullName)), now))
      ensures c.reply.Some? && c.keys == old(c.keys) && c.setCookies == old(c.setCookies)
    {
      if body.BindFailed? {
        HandleValidationError(c, body.error);
        return;
      }
      var req := NormalizeRegisterRequest(body.value);
      RegisterNormalized(c, req, now);
    }

    /** The service call of `Register` on the normalised request, and the reply to it. */
    method RegisterNormalized(c: Context, req: RegisterRequest, now: int)
      requires auth.db.Valid()
      modifies c, auth.db
      ensures auth.db.Valid()
      ensures old(auth.db.EmailsUnique()) ==> auth.db.EmailsUnique()
      ensures (CountUsersByEmail !in old(auth.db.failing)
               && exists id :: id in old(auth.db.users) && old(auth.db.users)[id].email == req.email) ==>
                c.reply == Some(ErrorReply(StatusConflict, "email_exists")) && unchanged(auth.db)
      ensures auth.db.users != old(auth.db.users) ==>
                old(auth.db.nextUserId) in auth.db.users && auth.crypto.hash(req.password).Some?
                && auth.db.users[old(auth.db.nextUserId)] == NewLocalUser(old(auth.db.nextUserId), req,
                                                                          auth.crypto.hash(req.password).value)
      ensures c.reply == Some(Success(StatusCreated)) ==> auth.db.users != old(auth.db.users)
      ensures c.reply == Some(Success(StatusCreated)) <==> old(auth.Registers(req, now))
      ensures c.reply.Some? && c.keys == old(c.keys) && c.setCookies == old(c.setCookies)
    {
      var resp := auth.Register(req, now);
      if resp.Err? {
        c.Respond(HandleAuthError(resp.error));
        return;
      }
      c.Respond(Success(StatusCreated));
    }

    /** The field updates `Register` makes on the bound request before the service sees it. */
    static method NormalizeRegisterRequest(body: RegisterRequest) returns (req: RegisterRequest)
      ensures req.email == NormalizeEmail(body.email) && req.fullName == TrimSpace(body.fullName)
      ensures req.password == body.password
    {
      req := body;
      req := req.(email := ToLower(TrimSpace(req.email)));
      req := req.(fullName := TrimSpace(req.fullName));
    }

    /** `Login`: the service sees the normalised address. */
    method Login(c: Context, body: Bind<LoginRequest>, now: int)
      requires auth.db.Valid()
      modifies c
      ensures body.BindFailed? ==> c.reply == Some(ValidationReply(body.error, AuthMessage))
      ensures body.Bound? ==>
                c.reply == Some(LoginReply(auth.Login(body.value.(email := NormalizeEmail(body.value.email)), now)))
      ensures c.keys == old(c.keys) && c.setCookies == old(c.setCookies)
    {
      if body.BindFailed? {
        HandleValidationError(c, body.error);
        return;
      }
      var req := body.value;
      req := req.(email := ToLower(TrimSpace(req.email)));
      var resp := auth.Login(req, now);
      if resp.Err? {
        c.Respond(HandleAuthError(resp.error));
        return;
      }
      c.Respond(Success(StatusOK));
    }

    /** `GetProfile`: 401 without a user id in the context, 404 for a user that no longer
        exists, 500 for any other failure. */
    method GetProfile(c: Context)
      modifies c
      ensures Middleware.GetUserId(c).None? ==> c.reply == Some(ErrorReply(StatusUnauthorized, "unauthorized"))
      ensures Middleware.GetUserId(c).Some? ==>
                c.reply == Some(match auth.GetUserById(Middleware.GetUserId(c).value)
                                case Ok(_) => Success(StatusOK)
                                case Err(e) =>
                                  if e == UserNotFound then ErrorReply(StatusNotFound, "user_not_found")
                                  else ErrorReply(StatusInternalServerError, "internal_error"))
      ensures c.keys == old(c.keys) && c.setCookies == old(c.setCookies)
    {
      var userId := Middleware.GetUserId(c);
      if userId.None? {
        c.Respond(ErrorReply(StatusUnauthorized, "unauthorized"));
        return;
      }
      var user := auth.GetUserById(userId.value);
      if user.Err? {
        if Is(user.error, UserNotFound) {
          c.Respond(ErrorReply(StatusNotFound, "user_not_found"));
          return;
        }
        c.Respond(ErrorReply(StatusInternalServerError, "internal_error"));
        return;
      }
      c.Respond(Success(StatusOK));
    }

    /** The trimming `UpdateProfile` applies to its request, field by field. */
    static method TrimProfileRequest(body: UpdateProfileRequest) returns (req: UpdateProfileRequest)
      ensures req == TrimmedProfile(body)
    {
      req := body;
      req := req.(fullName := TrimSpace(req.fullName));
      if req.phone.Some? {
        var trimmed := TrimSpace(req.phone.value);
        req := req.(phone := Some(trimmed));
      }
      if req.address.Some? {
        var trimmed := TrimSpace(req.address.value);
        req := req.(address := Some(trimmed));
      }
    }

    /** `UpdateProfile`: the user id is checked before the body is bound; the service sees the
        trimmed request. */
    method UpdateProfile(c: Context, body: Bind<UpdateProfileRequest>)
      requires auth.db.Valid()
      modifies c, auth.db
      ensures auth.db.Valid()
      ensures c.reply.Some? && c.keys == old(c.keys) && c.setCookies == old(c.setCookies)
      ensures old(Middleware.GetUserId(c)).None? ==>
                c.reply == Some(ErrorReply(StatusUnauthorized, "unauthorized")) && unchanged(auth.db)
      ensures old(Middleware.GetUserId(c)).Some? && body.BindFailed? ==>
                c.reply == Some(ValidationReply(body.error, AuthMessage)) && unchanged(auth.db)
      ensures (old(Middleware.GetUserId(c)).Some? && body.Bound? && FindUser !in old(auth.db.failing)
               && old(Middleware.GetUserId(c)).value !in old(auth.db.users)) ==>
                c.reply == Some(ErrorReply(StatusNotFound, "user_not_found")) && auth.db.users == old(auth.db.users)
      ensures c.reply == Some(Success(StatusOK)) ==>
                old(Middleware.GetUserId(c)).Some? && body.Bound?
                && var id := old(Middleware.GetUserId(c)).value;
                   id in old(auth.db.users)
                   && auth.db.users == old(auth.db.users)[id := ApplyProfileUpdate(old(auth.db.users)[id], TrimmedProfile(body.value))]
      ensures c.reply != Some(Success(StatusOK)) ==> auth.db.users == old(auth.db.users)
    {
      var userId := Middleware.GetUserId(c);
      if userId.None? {
        c.Respond(ErrorReply(StatusUnauthorized, "unauthorized"));
        return;
      }
      if body.BindFailed? {
        HandleValidationError(c, body.error);
        return;
      }
      var req := TrimProfileRequest(body.value);
      var user := auth.UpdateProfile(userId.value, req);
      if user.Err? {
        if Is(user.error, UserNotFound) {
          c.Respond(ErrorReply(StatusNotFound, "user_not_found"));
          return;
        }
        c.Respond(ErrorReply(StatusInternalServerError, "internal_error"));
        return;
      }
      c.Respond(Success(StatusOK));
    }
  }

  /** Login addresses that differ only in ASCII case and surrounding white space are treated
      identically: the service gets the same request and so gives the same answer. */
  lemma LoginIgnoresCaseAndSpace(a: AuthService, pre: string, typed: string, post: string,
                                 email: string, password: string, now: int)
    requires a.db.Valid()
    requires AllSpace(pre) && AllSpace(post) && ToLower(typed) == ToLower(email)
    ensures LoginReply(a.Login(LoginRequest(NormalizeEmail(pre + typed + post), password), now))
            == LoginReply(a.Login(LoginRequest(NormalizeEmail(email), password), now))
  {
    NormalizeEmailCanonical(pre, typed, post, email);
  }

  /** Trimming a trimmed optional value changes nothing. */
  lemma TrimOptionalIdempotent(o: Option<string>)
    ensures TrimOptional(TrimOptional(o)) == TrimOptional(o)
  {
    if o.Some? {
      TrimSpaceIdempotent(o.value);
    }
  }

  /** Trimming a trimmed profile request changes nothing, so the stored values are exactly the
      trimmed ones whatever the client sends. */
  lemma TrimmedProfileIdempotent(req: UpdateProfileRequest)
    ensures TrimmedProfile(TrimmedProfile(req)) == TrimmedProfile(req)
  {
    TrimSpaceIdempotent(req.fullName);
    TrimOptionalIdempotent(req.phone);
    TrimOptionalIdempotent(req.address);
  }
}
