/** The authentication middleware: reading a bearer token from the `Authorization` header,
    turning its failures into 401 replies, and the gates that require a login, a loaded and
    active user, the admin role or one of several roles. */
module Middleware {
  import opened Base
  import opened Models
  import opened Errors
  import opened Text
  import opened Store
  import opened AuthService
  import opened Http

  const AuthorizationHeader: string := "Authorization"
  const AuthorizationBearer: string := "Bearer"

  const UserIdKey: string := "user_id"
  const UserEmailKey: string := "user_email"
  const UserRoleKey: string := "user_role"
  const UserKey: string := "user"

  /** The header a bearer token starts with: the scheme and one space. */
  const BearerPrefix: string := AuthorizationBearer + " "

  /** Splitting at the first space gives two parts, the first exactly `Bearer`, precisely when
      the header starts with `Bearer `; the token is then the rest of the header. */
  lemma BearerSplit(header: string)
    ensures (|SplitN2(header, ' ')| == 2 && SplitN2(header, ' ')[0] == AuthorizationBearer)
            <==> HasPrefix(header, BearerPrefix)
    ensures HasPrefix(header, BearerPrefix) ==> SplitN2(header, ' ')[1] == header[|BearerPrefix|..]
  {
    var parts := SplitN2(header, ' ');
    if |parts| == 2 && parts[0] == AuthorizationBearer {
      assert header == BearerPrefix + parts[1];
      assert header[..|BearerPrefix|] == BearerPrefix;
    }
    if HasPrefix(header, BearerPrefix) {
      assert header[6] == ' ';
      assert |parts| == 2;
      assert forall k :: 0 <= k < 6 ==> header[k] == BearerPrefix[k] != ' ';
      assert Index(header, ' ') == 6;
      assert parts[0] == header[..6];
      assert parts[1] == header[7..];
    }
  }

  /** `handleAuthError`: every failure is 401; the three middleware errors get their own codes
      and anything else `unauthorized`. */
  function HandleAuthError(e: Error): (r: Reply)
    ensures r.Fail? && r.status == StatusUnauthorized && r.details == map[]
    ensures r.code == "missing_token" <==> Is(e, MissingToken)
    ensures r.code == "invalid_token_type" <==> !Is(e, MissingToken) && Is(e, InvalidTokenType)
    ensures r.code == "invalid_token" <==>
              !Is(e, MissingToken) && !Is(e, InvalidTokenType) && Is(e, InvalidToken)
    ensures r.code == "unauthorized" <==>
              !Is(e, MissingToken) && !Is(e, InvalidTokenType) && !Is(e, InvalidToken)
  {
    if Is(e, MissingToken) then ErrorReply(StatusUnauthorized, "missing_token")
    else if Is(e, InvalidTokenType) then ErrorReply(StatusUnauthorized, "invalid_token_type")
    else if Is(e, InvalidToken) then ErrorReply(StatusUnauthorized, "invalid_token")
    else ErrorReply(StatusUnauthorized, "unauthorized")
  }

  /** `GetUserID`: the id stored in the context, when there is one of the right type. */
  function GetUserId(c: Context): (id: Option<nat>)
    reads c
    ensures id.Some? <==> UserIdKey in c.keys && c.keys[UserIdKey].UintValue?
    ensures id.Some? ==> c.keys[UserIdKey] == UintValue(id.value)
  {
    if UserIdKey in c.keys && c.keys[UserIdKey].UintValue? then Some(c.keys[UserIdKey].n) else None
  }

  /** `GetUserRole`: the role stored in the context, when there is one of the right type. */
  function GetUserRole(c: Context): (role: Option<string>)
    reads c
    ensures role.Some? <==> UserRoleKey in c.keys && c.keys[UserRoleKey].StringValue?
    ensures role.Some? ==> c.keys[UserRoleKey] == StringValue(role.value)
  {
    if UserRoleKey in c.keys && c.keys[UserRoleKey].StringValue? then Some(c.keys[UserRoleKey].s) else None
  }

  /** `IsAdmin`: the stored role is the text `admin`. */
  function IsAdmin(c: Context): (b: bool)
    reads c
    ensures b <==> UserRoleKey in c.keys && c.keys[UserRoleKey] == StringValue(RoleAdmin)
  {
    GetUserRole(c) == Some(RoleAdmin)
  }

  /** The keys `RequireAuth` and `OptionalAuth` store for a valid token. */
  function WithClaims(keys: map<string, Value>, claims: Claims): (k: map<string, Value>)
    ensures k.Keys == keys.Keys + {UserIdKey, UserEmailKey, UserRoleKey}
    ensures k[UserIdKey] == UintValue(claims.userId) && k[UserEmailKey] == StringValue(claims.email)
    ensures k[UserRoleKey] == StringValue(claims.role)
    ensures forall key :: key in keys && key !in {UserIdKey, UserEmailKey, UserRoleKey} ==> k[key] == keys[key]
  {
    keys[UserIdKey := UintValue(claims.userId)][UserEmailKey := StringValue(claims.email)]
        [UserRoleKey := StringValue(claims.role)]
  }

  class AuthMiddleware {
    const auth: AuthService

    constructor (auth: AuthService)
      ensures this.auth == auth
    {
      this.auth := auth;
    }

    /** `extractAndValidateToken`: an empty header is a missing token; anything but `Bearer`,
        one space and the token (the scheme compared case-sensitively) has the wrong type; an
        empty token is missing; every failure of validation is an invalid token. */
    function ExtractAndValidateToken(authHeader: string, now: int): (r: Result<Claims, Error>)
      ensures authHeader == "" || authHeader == BearerPrefix ==> r == Err(MissingToken)
      ensures authHeader != "" && !HasPrefix(authHeader, BearerPrefix) ==> r == Err(InvalidTokenType)
      ensures r.Ok? <==> HasPrefix(authHeader, BearerPrefix) && |authHeader| > |BearerPrefix|
                         && auth.ValidateToken(authHeader[|BearerPrefix|..], now).Ok?
      ensures r.Ok? ==> r.value == auth.ValidateToken(authHeader[|BearerPrefix|..], now).value
      ensures r.Err? ==> r.error == MissingToken || r.error == InvalidTokenType || r.error == InvalidToken
      ensures HasPrefix(authHeader, BearerPrefix) && |authHeader| > |BearerPrefix| && r.Err? ==>
                r.error == InvalidToken
    {
      if authHeader == "" then Err(MissingToken)
      else
        var parts := SplitN2(authHeader, ' ');
        BearerSplit(authHeader);
        if |parts| != 2 || parts[0] != AuthorizationBearer then Err(InvalidTokenType)
        else if parts[1] == "" then Err(MissingToken)
        else match auth.ValidateToken(parts[1], now)
          case Ok(claims) => Ok(claims)
          case Err(_) => Err(InvalidToken)
    }

    /** `RequireAuth`: a valid token stores its claims and passes the request on; any other
        request gets the 401 of `handleAuthError` and is aborted. */
    method RequireAuth(c: Context, now: int)
      modifies c
      ensures var r := ExtractAndValidateToken(c.GetHeader(AuthorizationHeader), now);
              if r.Ok? then
                c.keys == WithClaims(old(c.keys), r.value) && c.nextCalled
                && c.reply == old(c.reply) && c.aborted == old(c.aborted)
              else
                c.reply == Some(HandleAuthError(r.error)) && c.aborted
                && c.keys == old(c.keys) && c.nextCalled == old(c.nextCalled)
      ensures c.setCookies == old(c.setCookies)
    {
      var claims := ExtractAndValidateToken(c.GetHeader(AuthorizationHeader), now);
      if claims.Err? {
        c.Respond(HandleAuthError(claims.error));
        c.Abort();
        return;
      }
      c.Set(UserIdKey, UintValue(claims.value.userId));
      c.Set(UserEmailKey, StringValue(claims.value.email));
      c.Set(UserRoleKey, StringValue(claims.value.role));
      c.Next();
    }

    /** The decision of `RequireAuthWithUser`: the token's user, if the token is valid and the
        user still exists (401 `user_not_found`; any other lookup failure 500) and is neither
        inactive nor banned (403); otherwise the reply to send. */
    function AuthenticatedUser(authHeader: string, now: int): (r: Result<User, Reply>)
      reads auth.db
      ensures ExtractAndValidateToken(authHeader, now).Err? ==>
                r == Err(HandleAuthError(ExtractAndValidateToken(authHeader, now).error))
      ensures ExtractAndValidateToken(authHeader, now).Ok? && FindUser in auth.db.failing ==>
                r == Err(ErrorReply(StatusInternalServerError, "internal_error"))
      ensures ExtractAndValidateToken(authHeader, now).Ok? && FindUser !in auth.db.failing
              && ExtractAndValidateToken(authHeader, now).value.userId !in auth.db.users ==>
                r == Err(ErrorReply(StatusUnauthorized, "user_not_found"))
      ensures r.Ok? <==> ExtractAndValidateToken(authHeader, now).Ok? && FindUser !in auth.db.failing
                         && ExtractAndValidateToken(authHeader, now).value.userId in auth.db.users
                         && auth.db.users[ExtractAndValidateToken(authHeader, now).value.userId].status
                            !in {UserStatusInactive, UserStatusBanned}
      ensures r.Ok? ==> r.value == auth.db.users[ExtractAndValidateToken(authHeader, now).value.userId]
      ensures r.Err? && r.error.status == StatusForbidden ==>
                ExtractAndValidateToken(authHeader, now).Ok? && FindUser !in auth.db.failing
                && ExtractAndValidateToken(authHeader, now).value.userId in auth.db.users
                && var status := auth.db.users[ExtractAndValidateToken(authHeader, now).value.userId].status;
                   (status == UserStatusInactive && r.error == ErrorReply(StatusForbidden, "user_inactive"))
                   || (status == UserStatusBanned && r.error == ErrorReply(StatusForbidden, "user_banned"))
    {
      match ExtractAndValidateToken(authHeader, now)
      case Err(e) => Err(HandleAuthError(e))
      case Ok(claims) =>
        match auth.GetUserById(claims.userId)
        case Err(e) =>
          if Is(e, UserNotFound) then Err(ErrorReply(StatusUnauthorized, "user_not_found"))
          else Err(ErrorReply(StatusInternalServerError, "internal_error"))
        case Ok(user) =>
          if user.status == UserStatusInactive then Err(ErrorReply(StatusForbidden, "user_inactive"))
          else if user.status == UserStatusBanned then Err(ErrorReply(StatusForbidden, "user_banned"))
          else Ok(user)
    }

    /** `RequireAuthWithUser`: as `RequireAuth`, but the user is loaded and checked, and the
        user's own id, e-mail and role are stored, with the user itself. */
    method RequireAuthWithUser(c: Context, now: int)
      modifies c
      ensures c.setCookies == old(c.setCookies)
      ensures var r := AuthenticatedUser(c.GetHeader(AuthorizationHeader), now);
              if r.Ok? then
                c.keys == old(c.keys)[UserIdKey := UintValue(r.value.id)][UserEmailKey := StringValue(r.value.email)]
                                     [UserRoleKey := StringValue(r.value.role)][UserKey := UserValue(r.value)]
                && c.nextCalled && c.reply == old(c.reply) && c.aborted == old(c.aborted)
              else
                c.reply == Some(r.error) && c.aborted && c.keys == old(c.keys) && c.nextCalled == old(c.nextCalled)
    {
      var authenticated := AuthenticatedUser(c.GetHeader(AuthorizationHeader), now);
      if authenticated.Err? {
        c.Respond(authenticated.error);
        c.Abort();
        return;
      }
      var user := authenticated.value;
      c.Set(UserIdKey, UintValue(user.id));
      c.Set(UserEmailKey, StringValue(user.email));
      c.Set(UserRoleKey, StringValue(user.role));
      c.Set(UserKey, UserValue(user));
      c.Next();
    }

    /** `RequireAdmin`: 401 without a stored role, 403 for any role but `admin`. */
    method RequireAdmin(c: Context)
      modifies c
      ensures c.keys == old(c.keys) && c.setCookies == old(c.setCookies)
      ensures UserRoleKey !in c.keys ==>
                c.reply == Some(ErrorReply(StatusUnauthorized, "unauthorized")) && c.aborted
                && c.nextCalled == old(c.nextCalled)
      ensures UserRoleKey in c.keys && !IsAdmin(c) ==>
                c.reply == Some(ErrorReply(StatusForbidden, "forbidden")) && c.aborted
                && c.nextCalled == old(c.nextCalled)
      ensures IsAdmin(c) ==> c.nextCalled && c.reply == old(c.reply) && c.aborted == old(c.aborted)
    {
      if UserRoleKey !in c.keys {
        c.Respond(ErrorReply(StatusUnauthorized, "unauthorized"));
        c.Abort();
        return;
      }
      if c.keys[UserRoleKey] != StringValue(RoleAdmin) {
        c.Respond(ErrorReply(StatusForbidden, "forbidden"));
        c.Abort();
        return;
      }
      c.Next();
    }

    /** `RequireRole`: the stored role must be text (500 otherwise) and one of `roles` (403
        otherwise), so an empty list lets nobody through. */
    method RequireRole(c: Context, roles: seq<string>)
      modifies c
      ensures c.keys == old(c.keys) && c.setCookies == old(c.setCookies)
      ensures UserRoleKey !in c.keys ==>
                c.reply == Some(ErrorReply(StatusUnauthorized, "unauthorized")) && c.aborted
                && c.nextCalled == old(c.nextCalled)
      ensures UserRoleKey in c.keys && GetUserRole(c).None? ==>
                c.reply == Some(ErrorReply(StatusInternalServerError, "internal_error")) && c.aborted
                && c.nextCalled == old(c.nextCalled)
      ensures GetUserRole(c).Some? && GetUserRole(c).value !in roles ==>
                c.reply == Some(ErrorReply(StatusForbidden, "forbidden")) && c.aborted
                && c.nextCalled == old(c.nextCalled)
      ensures GetUserRole(c).Some? && GetUserRole(c).value in roles ==>
                c.nextCalled && c.reply == old(c.reply) && c.aborted == old(c.aborted)
    {
      if UserRoleKey !in c.keys {
        c.Respond(ErrorReply(StatusUnauthorized, "unauthorized"));
        c.Abort();
        return;
      }
      var role := c.keys[UserRoleKey];
      if !role.StringValue? {
        c.Respond(ErrorReply(StatusInternalServerError, "internal_error"));
        c.Abort();
        return;
      }
      var userRole := role.s;
      var allowed := false;
      var i := 0;
      while i < |roles|
        invariant 0 <= i <= |roles|
        invariant allowed ==> userRole in roles
        invariant !allowed ==> userRole !in roles[..i]
      {
        if userRole == roles[i] {
          allowed := true;
          break;
        }
        i := i + 1;
      }
      assert !allowed ==> roles[..i] == roles;
      if !allowed {
        c.Respond(ErrorReply(StatusForbidden, "forbidden"));
        c.Abort();
        return;
      }
      c.Next();
    }

    /** `OptionalAuth`: never aborts or replies; a valid token's claims are stored. */
    method OptionalAuth(c: Context, now: int)
      modifies c
      ensures c.nextCalled && c.reply == old(c.reply) && c.aborted == old(c.aborted)
      ensures c.setCookies == old(c.setCookies)
      ensures var r := ExtractAndValidateToken(c.GetHeader(AuthorizationHeader), now);
              c.keys == if r.Ok? then WithClaims(old(c.keys), r.value) else old(c.keys)
    {
      var claims := ExtractAndValidateToken(c.GetHeader(AuthorizationHeader), now);
      if claims.Ok? {
        c.Set(UserIdKey, UintValue(claims.value.userId));
        c.Set(UserEmailKey, StringValue(claims.value.email));
        c.Set(UserRoleKey, StringValue(claims.value.role));
      }
      c.Next();
    }
  }

  /** The scheme is compared case-sensitively: `bearer <token>` is the wrong type of token. */
  lemma LowerCaseSchemeRejected(m: AuthMiddleware, token: string, now: int)
    ensures m.ExtractAndValidateToken("bearer " + token, now) == Err(InvalidTokenType)
  {
    assert ("bearer " + token)[0] == 'b';
  }

  /** A token the service accepts is accepted after `Bearer `, with the same claims. */
  lemma BearerTokenRoundTrip(m: AuthMiddleware, token: string, now: int)
    requires token != "" && m.auth.ValidateToken(token, now).Ok?
    ensures m.ExtractAndValidateToken(BearerPrefix + token, now) == m.auth.ValidateToken(token, now)
  {
    assert (BearerPrefix + token)[..|BearerPrefix|] == BearerPrefix;
    assert (BearerPrefix + token)[|BearerPrefix|..] == token;
  }

  /** The replies for the three ways extraction fails are all 401 and all different. */
  lemma ExtractionFailuresDistinguished(m: AuthMiddleware, h1: string, h2: string, now: int)
    requires m.ExtractAndValidateToken(h1, now).Err? && m.ExtractAndValidateToken(h2, now).Err?
    requires m.ExtractAndValidateToken(h1, now).error != m.ExtractAndValidateToken(h2, now).error
    ensures HandleAuthError(m.ExtractAndValidateToken(h1, now).error).code
            != HandleAuthError(m.ExtractAndValidateToken(h2, now).error).code
  {
  }
}
