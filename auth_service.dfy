/** The local-account service: registration, password login, the issuing and checking of JSON
    Web Tokens (RFC 7519), lookup by id and the profile update. Password hashing (bcrypt) and
    token signing are library code; the service sees them through `Crypto`, a record of
    functions about which the proofs assume only what each lemma states in its requires. */
module AuthService {
  import opened Base
  import opened Decimal
  import opened Models
  import opened Errors
  import opened Store

  /** The `alg` of a token header. */
  datatype SigningMethod = HS256 | HS384 | HS512 | RS256 | ES256 | NoSignature

  /** The HMAC family, the only one `ValidateToken` accepts. */
  predicate IsHmac(m: SigningMethod) {
    m == HS256 || m == HS384 || m == HS512
  }

  /** `JWTClaims`: the user's id, e-mail and role, and the registered claims the service sets;
      times are in seconds. */
  datatype Claims = Claims(
    userId: nat,
    email: string,
    role: string,
    expiresAt: int,
    issuedAt: int,
    notBefore: int,
    subject: string)

  /** What a token says about itself: its header's method and its claims. */
  datatype Decoded = Decoded(alg: SigningMethod, claims: Claims)

  /** The libraries the service calls, as functions of their inputs. */
  datatype Crypto = Crypto(
    /** `bcrypt.GenerateFromPassword`; `None` when it fails. */
    hash: string -> Option<string>,
    /** `bcrypt.CompareHashAndPassword(hash, password) == nil`, with the hash first. */
    matches: (string, string) -> bool,
    /** `jwt.NewWithClaims(method, claims).SignedString(key)`; `None` when it fails. */
    sign: (SigningMethod, Claims, string) -> Option<string>,
    /** The header and claims a token carries; `None` for text that is not a token. */
    decode: string -> Option<Decoded>,
    /** Whether the signature of a token checks out with that method and key. */
    verify: (string, SigningMethod, string) -> bool)

  /** The errors raised inside the libraries. */
  const HashFailure: Error := Failure("bcrypt: hashing failed")
  const SignFailure: Error := Failure("jwt: signing failed")
  const MalformedToken: Error := Failure("token is malformed")
  const UnexpectedSigningMethod: Error := Failure("unexpected signing method")
  const SignatureInvalid: Error := Failure("token signature is invalid")
  const TokenExpired: Error := Failure("token is expired")
  const TokenNotValidYet: Error := Failure("token is not valid yet")

  /** `dto.RegisterRequest`. */
  datatype RegisterRequest = RegisterRequest(email: string, password: string, fullName: string)

  /** `dto.LoginRequest`. */
  datatype LoginRequest = LoginRequest(email: string, password: string)

  /** `dto.UpdateProfileRequest`: a nil phone or address means "leave it as it is". */
  datatype UpdateProfileRequest = UpdateProfileRequest(fullName: string, phone: Option<string>, address: Option<string>)

  /** `dto.AuthResponse`. */
  datatype AuthResponse = AuthResponse(accessToken: string, tokenType: string, expiresIn: int, user: UserResponse)

  /** A signed token and its lifetime in seconds. */
  datatype IssuedToken = IssuedToken(token: string, expiresIn: int)

  const BearerType: string := "Bearer"

  /** The `sub` claim: the user's id in decimal, which identifies the user uniquely. */
  function Subject(id: nat): (s: string)
    ensures s != [] && AllDigits(s)
  {
    FormatUint(id)
  }

  /** The claims a token issued at `now` for `user` carries. */
  function ClaimsFor(user: User, now: int, ttl: nat): (c: Claims)
    ensures c.userId == user.id && c.email == user.email && c.role == user.role
    ensures c.issuedAt == now && c.notBefore == now && c.expiresAt == now + ttl
    ensures c.subject == Subject(user.id)
  {
    Claims(user.id, user.email, user.role, now + ttl, now, now, Subject(user.id))
  }

  /** Whether claims are inside their validity window at `now`: not before `nbf`, and strictly
      before `exp`, as version 5 of the jwt library checks them. */
  predicate InWindow(c: Claims, now: int) {
    c.notBefore <= now && now < c.expiresAt
  }

  class AuthService {
    const db: Database
    const secret: string
    /** `JWTConfig.Expiration`, taken to be a whole, non-negative number of seconds (a Go
        `time.Duration` may also be fractional or negative). */
    const ttl: nat
    const crypto: Crypto

    constructor (db: Database, secret: string, ttl: nat, crypto: Crypto)
      ensures this.db == db && this.secret == secret && this.ttl == ttl && this.crypto == crypto
    {
      this.db, this.secret, this.ttl, this.crypto := db, secret, ttl, crypto;
    }

    /** `GenerateToken`: HS256 over the claims for `user`, signed with the secret. */
    function GenerateToken(user: User, now: int): (r: Result<IssuedToken, Error>)
      ensures crypto.sign(HS256, ClaimsFor(user, now, ttl), secret).None? <==> r == Err(SignFailure)
      ensures r.Ok? ==> r.value.expiresIn == ttl
                        && crypto.sign(HS256, ClaimsFor(user, now, ttl), secret) == Some(r.value.token)
    {
      match crypto.sign(HS256, ClaimsFor(user, now, ttl), secret)
      case None => Err(SignFailure)
      case Some(token) => Ok(IssuedToken(token, ttl))
    }

    /** `ValidateToken`: the token must decode, name an HMAC method (checked before the key is
        handed out), carry a signature made with the secret, and be inside its window. */
    function ValidateToken(token: string, now: int): (r: Result<Claims, Error>)
      ensures r.Ok? <==> crypto.decode(token).Some? && IsHmac(crypto.decode(token).value.alg)
                         && crypto.verify(token, crypto.decode(token).value.alg, secret)
                         && InWindow(crypto.decode(token).value.claims, now)
      ensures r.Ok? ==> r.value == crypto.decode(token).value.claims
      ensures crypto.decode(token).Some? && !IsHmac(crypto.decode(token).value.alg) ==>
                r == Err(UnexpectedSigningMethod)
    {
      match crypto.decode(token)
      case None => Err(MalformedToken)
      case Some(Decoded(alg, claims)) =>
        if !IsHmac(alg) then Err(UnexpectedSigningMethod)
        else if !crypto.verify(token, alg, secret) then Err(SignatureInvalid)
        else if !(now < claims.expiresAt) then Err(TokenExpired)
        else if now < claims.notBefore then Err(TokenNotValidYet)
        else Ok(claims)
    }

    /** `GetUserByID`: a missing row becomes `ErrUserNotFound`; other errors pass through. */
    function GetUserById(id: nat): (r: Result<User, Error>)
      reads db
      ensures r.Ok? <==> FindUser !in db.failing && id in db.users
      ensures r.Ok? ==> r.value == db.users[id]
      ensures r.Err? ==> (r.error == UserNotFound <==> FindUser !in db.failing)
      ensures FindUser in db.failing ==> r == Err(DatabaseError)
    {
      match db.FindUserById(id)
      case Ok(u) => Ok(u)
      case Err(e) => if Is(e, RecordNotFound) then Err(UserNotFound) else Err(e)
    }

    /** The response for a user who has passed every check. */
    function Respond(user: User, now: int): (r: Result<AuthResponse, Error>)
      ensures r.Ok? <==> GenerateToken(user, now).Ok?
      ensures r.Ok? ==> r.value.tokenType == BearerType && r.value.expiresIn == ttl
                        && r.value.user == ToUserResponse(user)
                        && r.value.accessToken == GenerateToken(user, now).value.token
    {
      match GenerateToken(user, now)
      case Err(e) => Err(e)
      case Ok(t) => Ok(AuthResponse(t.token, BearerType, t.expiresIn, ToUserResponse(user)))
    }

    /** `Login`. Finding no user, finding one without a password and a wrong password all give
        the same `ErrInvalidCredentials`; the account status is looked at only once the password
        is right. */
    function Login(req: LoginRequest, now: int): (r: Result<AuthResponse, Error>)
      requires db.Valid()
      reads db
      ensures r.Ok? ==> r.value.user.email == req.email && r.value.tokenType == BearerType
      ensures r.Ok? ==> r.value.user.status != UserStatusInactive && r.value.user.status != UserStatusBanned
      ensures r.Ok? || r.error == UserInactive || r.error == UserBanned ==>
        db.UserByEmail(req.email).Ok? && db.UserByEmail(req.email).value.passwordHash.Some?
        && crypto.matches(db.UserByEmail(req.email).value.passwordHash.value, req.password)
      ensures db.UserByEmail(req.email).Ok? && db.UserByEmail(req.email).value.passwordHash.Some?
              && crypto.matches(db.UserByEmail(req.email).value.passwordHash.value, req.password) ==>
        var user := db.UserByEmail(req.email).value;
        (user.status == UserStatusInactive ==> r == Err(UserInactive))
        && (user.status == UserStatusBanned ==> r == Err(UserBanned))
        && (user.status != UserStatusInactive && user.status != UserStatusBanned ==> r == Respond(user, now))
    {
      match db.UserByEmail(req.email)
      case Err(e) => if Is(e, RecordNotFound) then Err(InvalidCredentials) else Err(e)
      case Ok(user) =>
        if user.passwordHash.None? then Err(InvalidCredentials)
        else if !crypto.matches(user.passwordHash.value, req.password) then Err(InvalidCredentials)
        else if user.status == UserStatusInactive then Err(UserInactive)
        else if user.status == UserStatusBanned then Err(UserBanned)
        else Respond(user, now)
    }

    /** Whether `Register` creates the account for `req` and answers with a token: the
        address is free, the count and the insert work, and hashing and signing succeed. */
    ghost predicate Registers(req: RegisterRequest, now: int)
      reads db
    {
      CountUsersByEmail !in db.failing && CreateUser !in db.failing
      && !(exists id :: id in db.users && db.users[id].email == req.email)
      && crypto.hash(req.password).Some?
      && GenerateToken(NewLocalUser(db.nextUserId, req, crypto.hash(req.password).value), now).Ok?
    }

    /** `Register`. A taken address is refused before anything is written; otherwise a user
        with role `user`, status `active` and the password's hash is inserted, and a token is
        issued for it. A signing failure comes after the insert, which stays. */
    method Register(req: RegisterRequest, now: int) returns (r: Result<AuthResponse, Error>)
      requires db.Valid()
      modifies db
      ensures db.Valid()
      ensures old(db.EmailsUnique()) ==> db.EmailsUnique()
      ensures db.socials == old(db.socials) && db.categories == old(db.categories)
      ensures CountUsersByEmail in old(db.failing) ==> r == Err(DatabaseError) && unchanged(db)
      ensures (exists id :: id in old(db.users) && old(db.users)[id].email == req.email) ==>
        r.Err? && unchanged(db) && (CountUsersByEmail !in old(db.failing) ==> r.error == EmailAlreadyExists)
      ensures crypto.hash(req.password).None? && CountUsersByEmail !in old(db.failing) && !(exists id :: id in old(db.users) && old(db.users)[id].email == req.email) ==>
        r == Err(HashFailure) && unchanged(db)
      ensures db.users != old(db.users) ==>
        CountUsersByEmail !in old(db.failing) && CreateUser !in old(db.failing)
        && crypto.hash(req.password).Some?
        && db.users == old(db.users)[old(db.nextUserId) := NewLocalUser(old(db.nextUserId), req, crypto.hash(req.password).value)]
      ensures r.Ok? ==> db.users != old(db.users)
                        && r == Respond(NewLocalUser(old(db.nextUserId), req, crypto.hash(req.password).value), now)
      ensures CountUsersByEmail !in old(db.failing) && CreateUser !in old(db.failing)
              && !(exists id :: id in old(db.users) && old(db.users)[id].email == req.email)
              && crypto.hash(req.password).Some? ==>
        db.users == old(db.users)[old(db.nextUserId) := NewLocalUser(old(db.nextUserId), req, crypto.hash(req.password).value)]
        && r == Respond(NewLocalUser(old(db.nextUserId), req, crypto.hash(req.password).value), now)
      ensures r.Ok? <==> old(Registers(req, now))
    {
      var exists_ := db.ExistsByEmail(req.email);
      if exists_.Err? {
        return Err(exists_.error);
      }
      if exists_.value {
        return Err(EmailAlreadyExists);
      }
      var hashed := crypto.hash(req.password);
      if hashed.None? {
        return Err(HashFailure);
      }
      var user := NewLocalUser(0, req, hashed.value);
      var created := db.InsertUser(user);
      if created.Err? {
        return Err(created.error);
      }
      user := created.value;
      assert user == NewLocalUser(old(db.nextUserId), req, hashed.value);
      r := Respond(user, now);
    }

    /** `UpdateProfile`: the full name is always overwritten; the phone and the address only
        when the request carries them. */
    method UpdateProfile(userId: nat, req: UpdateProfileRequest) returns (r: Result<User, Error>)
      requires db.Valid()
      modifies db
      ensures db.Valid()
      ensures db.socials == old(db.socials) && db.categories == old(db.categories)
      ensures userId !in old(db.users) && FindUser !in old(db.failing) ==> r == Err(UserNotFound) && unchanged(db)
      ensures FindUser in old(db.failing) ==> r == Err(DatabaseError) && unchanged(db)
      ensures userId in old(db.users) && FindUser !in old(db.failing) && SaveUser in old(db.failing) ==>
        r == Err(DatabaseError)
      ensures r.Ok? ==> userId in old(db.users)
                        && r.value == ApplyProfileUpdate(old(db.users)[userId], req)
                        && db.users == old(db.users)[userId := r.value]
      ensures r.Err? ==> db.users == old(db.users)
      ensures userId in old(db.users) && FindUser !in old(db.failing) && SaveUser !in old(db.failing) ==> r.Ok?
    {
      var found := db.FindUserById(userId);
      if found.Err? {
        if Is(found.error, RecordNotFound) {
          return Err(UserNotFound);
        }
        return Err(found.error);
      }
      var user := found.value;
      user := user.(fullName := req.fullName);
      if req.phone.Some? {
        user := user.(phone := req.phone);
      }
      if req.address.Some? {
        user := user.(address := req.address);
      }
      var saved := db.SaveUserRow(user);
      if saved.Some? {
        return Err(saved.value);
      }
      r := Ok(user);
    }
  }

  /** The row `Register` inserts: role `user`, status `active`, the password hash set, and no
      phone, address, avatar or verification time. */
  function NewLocalUser(id: nat, req: RegisterRequest, hash: string): (u: User)
    ensures u.id == id && u.email == req.email && u.fullName == req.fullName
    ensures u.passwordHash == Some(hash)
    ensures u.role == RoleUser && u.status == UserStatusActive
    ensures u.phone.None? && u.address.None? && u.avatarUrl.None? && u.emailVerifiedAt.None?
  {
    User(id, req.email, Some(hash), req.fullName, None, None, None, RoleUser, UserStatusActive, None)
  }

  /** The user after a profile update: the name replaced, phone and address replaced only when
      given, every other field as it was. */
  function ApplyProfileUpdate(u: User, req: UpdateProfileRequest): (v: User)
    ensures v.fullName == req.fullName
    ensures v.phone == (if req.phone.Some? then req.phone else u.phone)
    ensures v.address == (if req.address.Some? then req.address else u.address)
    ensures v.(fullName := u.fullName, phone := u.phone, address := u.address) == u
  {
    u.(fullName := req.fullName,
       phone := if req.phone.Some? then req.phone else u.phone,
       address := if req.address.Some? then req.address else u.address)
  }

  // ---------------------------------------------------------------------------------------
  // Properties across operations

  /** A token the service has just issued is accepted exactly from its issue time up to, not
      including, its expiry, and then gives back the claims it was issued with. The requires
      states what the jwt library does for a token it has signed: it decodes to the method and
      claims that were signed, and its signature checks out with the same key. */
  lemma IssuedTokenValidates(s: AuthService, user: User, now: int, at: int)
    requires s.GenerateToken(user, now).Ok?
    requires s.crypto.decode(s.GenerateToken(user, now).value.token) == Some(Decoded(HS256, ClaimsFor(user, now, s.ttl)))
    requires s.crypto.verify(s.GenerateToken(user, now).value.token, HS256, s.secret)
    ensures s.ValidateToken(s.GenerateToken(user, now).value.token, at).Ok? <==> now <= at < now + s.ttl
    ensures s.ValidateToken(s.GenerateToken(user, now).value.token, at).Ok? ==>
      var c := s.ValidateToken(s.GenerateToken(user, now).value.token, at).value;
      c.userId == user.id && c.email == user.email && c.role == user.role && c.subject == Subject(user.id)
  {
  }

  /** The three credential failures are one answer: with the addresses unique, `Login` answers
      `ErrInvalidCredentials` exactly when no account has the address, the account has no
      password, or the password does not match its hash. */
  lemma LoginCollapsesFailures(s: AuthService, req: LoginRequest, now: int)
    requires s.db.Valid() && s.db.EmailsUnique() && FindUserByEmail !in s.db.failing
    ensures (forall id :: id in s.db.users ==> s.db.users[id].email != req.email) ==>
      s.Login(req, now) == Err(InvalidCredentials)
    ensures forall id :: id in s.db.users && s.db.users[id].email == req.email ==>
      (s.Login(req, now) == Err(InvalidCredentials) <==>
         s.db.users[id].passwordHash.None?
         || !s.crypto.matches(s.db.users[id].passwordHash.value, req.password))
  {
    var r := s.db.UserByEmail(req.email);
    if r.Ok? {
      var k :| k in s.db.users && s.db.users[k] == r.value;
      forall id | id in s.db.users && s.db.users[id].email == req.email
        ensures s.db.users[id] == r.value
      {
        assert s.db.users[k].email == req.email;
      }
    }
  }

  /** `Login` passes a database error other than "not found" through unchanged. */
  lemma LoginPassesStorageErrors(s: AuthService, req: LoginRequest, now: int)
    requires s.db.Valid() && FindUserByEmail in s.db.failing
    ensures s.Login(req, now) == Err(DatabaseError)
  {
  }

  // ---------------------------------------------------------------------------------------
  // The subject claim as the source writes it

  /** Go's `string(rune(user.ID))`: the id is cut to 32 bits and read as one code point;
      a value that is not a Unicode scalar value becomes U+FFFD. */
  function SubjectAsWritten(id: nat): (s: string)
    ensures |s| == 1
    ensures id <= 0x10FFFF && !(0xD800 <= id <= 0xDFFF) ==> s[0] as int == id
    ensures 0xD800 <= id % 0x1_0000_0000 <= 0xDFFF || id % 0x1_0000_0000 > 0x10FFFF ==> s == ['\U{FFFD}']
  {
    var r := id % 0x1_0000_0000;
    if r <= 0x10FFFF && !(0xD800 <= r <= 0xDFFF) then [r as char] else ['\U{FFFD}']
  }

  /** Two different users get the same subject as written: ids 0xD800 and 0xD801 are both
      surrogates, and user 65 gets "A" rather than "65". */
  lemma SubjectAsWrittenCollides()
    ensures SubjectAsWritten(0xD800) == SubjectAsWritten(0xD801)
    ensures SubjectAsWritten(65) == "A" && Subject(65) == "65"
  {
    assert FormatUint(65) == FormatUint(6) + [DigitChar(5)];
  }

  /** The decimal subject identifies the user: different ids never share one. */
  lemma SubjectInjective(a: nat, b: nat)
    requires Subject(a) == Subject(b)
    ensures a == b
  {
    FormatUintInjective(a, b);
  }
}
