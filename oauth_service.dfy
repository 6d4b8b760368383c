/** Sign-in through an external identity provider, the authorization-code flow of section 4.1
    of RFC 6749: the user is sent to the provider's authorization page, comes back with a code,
    the code is exchanged for a token, the token buys the user's profile, and the profile is
    matched to a local account (an existing link, an account with the same e-mail address, or
    a new account) before the service issues its own token. The provider is remote: what it
    answers is given by `Remote`, and every request the service sends it is recorded in
    `calls`. */
module OAuthService {
  import opened Base
  import opened Text
  import opened Models
  import opened Errors
  import opened Store
  import opened AuthService

  /** `config.OAuthProviderConfig`. */
  datatype ProviderConfig = ProviderConfig(clientId: string, clientSecret: string, redirectUrl: string)

  /** `config.OAuthConfig`. */
  datatype OAuthConfig = OAuthConfig(google: ProviderConfig, facebook: ProviderConfig, twitter: ProviderConfig)

  /** The scopes the Google provider asks for. */
  const GoogleScopes: seq<string> := [
    "openid",
    "https://www.googleapis.com/auth/userinfo.email",
    "https://www.googleapis.com/auth/userinfo.profile"
  ]

  /** A registered provider: the `oauth2.Config` it was built with. */
  datatype Provider = Provider(name: string, clientId: string, clientSecret: string, redirectUrl: string,
                               scopes: seq<string>)

  /** The parameters of the authorization request of section 4.1.1 of RFC 6749 that the
      provider's authorization URL carries, with `access_type=offline` so that a refresh token
      is issued. */
  datatype AuthRequest = AuthRequest(provider: string, clientId: string, redirectUri: string,
                                     scopes: seq<string>, state: string, offline: bool)

  /** `oauth2.Token`: an empty refresh token means none was issued. */
  datatype ProviderToken = ProviderToken(accessToken: string, refreshToken: string)

  /** The profile fields Google's userinfo endpoint answers with. */
  datatype GoogleProfile = GoogleProfile(id: string, email: string, verifiedEmail: bool, name: string,
                                         picture: string)

  /** `OAuthUserInfo`. */
  datatype UserInfo = UserInfo(id: string, email: string, name: string, avatarUrl: string,
                               emailVerified: bool)

  /** What the remote provider answers: to a code, a token or an error text; to a token, a
      profile or an error text. */
  datatype Remote = Remote(exchange: string -> Result<ProviderToken, string>,
                           userInfo: ProviderToken -> Result<GoogleProfile, string>)

  /** A request sent to a provider. */
  datatype ProviderCall = ExchangeCode(provider: string, code: string)
                        | FetchUserInfo(provider: string, token: ProviderToken)

  /** `GoogleProvider.GetUserInfo` after decoding: the address is trimmed and lower-cased. */
  function GoogleUserInfo(g: GoogleProfile): (info: UserInfo)
    ensures info.email == NormalizeEmail(g.email)
    ensures info.id == g.id && info.name == g.name && info.avatarUrl == g.picture
    ensures info.emailVerified == g.verifiedEmail
  {
    UserInfo(g.id, NormalizeEmail(g.email), g.name, g.picture, g.verifiedEmail)
  }

  /** The refresh token as stored: NULL when the provider issued none. */
  function StoredRefreshToken(t: ProviderToken): (r: Option<string>)
    ensures r.None? <==> t.refreshToken == ""
    ensures r.Some? ==> r.value == t.refreshToken
  {
    if t.refreshToken != "" then Some(t.refreshToken) else None
  }

  /** The account created for a first sign-in: role `user`, status `active`, no password, the
      provider's picture as avatar, and the address marked verified at `now` only when the
      provider says it is. */
  function NewOAuthUser(id: nat, info: UserInfo, now: int): (u: User)
    ensures u.id == id && u.email == info.email && u.fullName == info.name
    ensures u.role == RoleUser && u.status == UserStatusActive && u.passwordHash.None?
    ensures u.avatarUrl == Some(info.avatarUrl)
    ensures u.emailVerifiedAt.Some? <==> info.emailVerified
    ensures u.emailVerifiedAt.Some? ==> u.emailVerifiedAt.value == now
  {
    User(id, info.email, None, info.name, None, None, Some(info.avatarUrl), RoleUser, UserStatusActive,
         if info.emailVerified then Some(now) else None)
  }

  /** The link row created for a provider identity: it points at `userId`, is keyed by the
      provider and the provider's user id, and stores the access token and, when one was
      issued, the refresh token. */
  function NewLink(id: nat, userId: nat, provider: string, info: UserInfo, token: ProviderToken): (l: SocialAuth)
    ensures l.id == id && l.userId == userId
    ensures l.provider == provider && l.providerUserId == info.id
    ensures l.accessToken == Some(token.accessToken)
    ensures l.refreshToken.None? <==> token.refreshToken == ""
  {
    SocialAuth(id, userId, provider, info.id, Some(token.accessToken), StoredRefreshToken(token))
  }

  /** What `findOrCreateUser` leaves behind: its answer, and the user and link tables after
      it. */
  datatype LinkOutcome = LinkOutcome(result: Result<User, Error>, users: map<nat, User>,
                                     socials: map<nat, SocialAuth>)

  /** Whether some account has address `email`. */
  ghost predicate HasUserWithEmail(users: map<nat, User>, email: string) {
    exists id :: id in users && users[id].email == email
  }

  /** The providers `NewOAuthService` registers: Google when both its client id and its client
      secret are set; Facebook and Twitter never. */
  function Registry(config: OAuthConfig): (m: map<string, Provider>)
    ensures ProviderGoogle in m <==> config.google.clientId != "" && config.google.clientSecret != ""
    ensures ProviderGoogle in m ==>
      m[ProviderGoogle] == Provider(ProviderGoogle, config.google.clientId, config.google.clientSecret,
                                    config.google.redirectUrl, GoogleScopes)
    ensures m.Keys <= {ProviderGoogle}
  {
    if config.google.clientId != "" && config.google.clientSecret != "" then
      map[ProviderGoogle := Provider(ProviderGoogle, config.google.clientId, config.google.clientSecret,
                                     config.google.redirectUrl, GoogleScopes)]
    else map[]
  }

  class OAuthService {
    const db: Database
    const auth: AuthService
    const config: OAuthConfig
    /** The registered providers, by name. */
    const providers: map<string, Provider> := Registry(config)
    /** The requests sent to providers so far. */
    var calls: seq<ProviderCall>

    /** `NewOAuthService`. */
    constructor (db: Database, auth: AuthService, config: OAuthConfig)
      ensures this.db == db && this.auth == auth && this.config == config && calls == []
      ensures providers == Registry(config)
    {
      this.db, this.auth, this.config := db, auth, config;
      calls := [];
    }

    /** `IsProviderSupported`: only Google, and only when it is configured. */
    function IsProviderSupported(provider: string): (b: bool)
      ensures b <==> provider == ProviderGoogle && config.google.clientId != "" && config.google.clientSecret != ""
    {
      provider in providers
    }

    /** `GetAuthURL`: the authorization request of a registered provider, carrying `state`. */
    function GetAuthUrl(provider: string, state: string): (r: Result<AuthRequest, Error>)
      ensures r.Err? <==> !IsProviderSupported(provider)
      ensures r.Err? ==> r.error == OAuthProviderNotSupported
      ensures r.Ok? ==> r.value.state == state && r.value.offline && r.value.provider == provider
                        && r.value.clientId == providers[provider].clientId
                        && r.value.redirectUri == providers[provider].redirectUrl
                        && r.value.scopes == providers[provider].scopes
    {
      if provider !in providers then Err(OAuthProviderNotSupported)
      else
        var p := providers[provider];
        Ok(AuthRequest(provider, p.clientId, p.redirectUrl, p.scopes, state, true))
    }

    /** `GetSupportedProviders`: every registered name once, in the map's iteration order,
        which Go leaves unspecified. */
    method GetSupportedProviders() returns (names: seq<string>)
      ensures forall n :: n in names <==> n in providers
      ensures |names| == |providers.Keys|
      ensures forall i, j :: 0 <= i < j < |names| ==> names[i] != names[j]
    {
      names := [];
      var rest := providers.Keys;
      while rest != {}
        invariant rest <= providers.Keys
        invariant forall n :: n in names <==> n in providers.Keys - rest
        invariant |names| + |rest| == |providers.Keys|
        invariant forall i, j :: 0 <= i < j < |names| ==> names[i] != names[j]
        decreases rest
      {
        var n :| n in rest;
        names := names + [n];
        rest := rest - {n};
      }
    }

    /** The body of the transaction of `findOrCreateUser`: creates the account when `user` is
        nil, then the link. The caller rolls back on error. */
    method CreateInTransaction(info: UserInfo, provider: string, token: ProviderToken,
                               user: Option<User>, now: int) returns (r: Result<User, Error>)
      requires db.Valid()
      requires user.Some? ==> user.value.id in db.users
      modifies db
      ensures db.Valid()
      ensures db.categories == old(db.categories) && db.failing == old(db.failing)
      ensures db.nextUserId >= old(db.nextUserId) && db.nextSocialId >= old(db.nextSocialId)
      ensures user.None? && info.email == "" ==> r == Err(OAuthEmailRequired) && unchanged(db)
      ensures user.Some? ==> db.users == old(db.users)
      ensures user.Some? && r.Ok? ==> r.value == user.value
      ensures user.None? && r.Ok? ==>
        r.value == NewOAuthUser(old(db.nextUserId), info, now)
        && db.users == old(db.users)[r.value.id := r.value]
      ensures r.Ok? ==>
        db.socials == old(db.socials)[old(db.nextSocialId) := NewLink(old(db.nextSocialId), r.value.id, provider, info, token)]
        && old(db.nextSocialId) !in old(db.socials)
      ensures r.Err? ==> db.socials == old(db.socials)
      ensures r.Ok? <==> (user.Some? || (info.email != "" && CreateUser !in old(db.failing)))
                         && CreateSocial !in old(db.failing)
      ensures r.Err? && (user.Some? || info.email != "") ==> r.error == DatabaseError
    {
      var u: User;
      if user.None? {
        if info.email == "" {
          return Err(OAuthEmailRequired);
        }
        var created := db.InsertUser(NewOAuthUser(0, info, now));
        if created.Err? {
          return Err(created.error);
        }
        u := created.value;
      } else {
        u := user.value;
      }
      var link := db.InsertSocial(NewLink(0, u.id, provider, info, token));
      if link.Err? {
        return Err(link.error);
      }
      r := Ok(u);
    }

    /** Whether the transaction of `findOrCreateUser` commits: the account exists or can be
        created, and the link insert and the commit succeed. */
    ghost predicate Commits(user: Option<User>, info: UserInfo, failing: set<Op>) {
      (user.Some? || (info.email != "" && CreateUser !in failing))
      && CreateSocial !in failing && Commit !in failing
    }

    /** The branch of `findOrCreateUser` for an identity that is already linked: the link's
        tokens are refreshed, a failure to do so is ignored, and the linked account is read. */
    method RefreshLink(link: SocialAuth, token: ProviderToken) returns (r: Result<User, Error>)
      requires db.Valid() && link in db.socials.Values
      modifies db
      ensures db.Valid()
      ensures db.users == old(db.users) && db.categories == old(db.categories)
      ensures db.failing == old(db.failing) && db.socials.Keys == old(db.socials).Keys
      ensures UpdateTokens !in old(db.failing) ==>
        db.socials == old(db.socials)[link.id := link.(accessToken := Some(token.accessToken),
                                                       refreshToken := StoredRefreshToken(token))]
      ensures UpdateTokens in old(db.failing) ==> db.socials == old(db.socials)
      ensures r == old(db.FindUserById(link.userId))
    {
      var k :| k in db.socials && db.socials[k] == link;
      assert k == link.id;
      var _ := db.UpdateLinkTokens(link.id, Some(token.accessToken), StoredRefreshToken(token));
      var found := db.FindUserById(link.userId);
      if found.Err? {
        return Err(found.error);
      }
      return Ok(found.value);
    }

    /** The transaction of `findOrCreateUser`: committed when every write and the commit
        succeed, rolled back to the state before it otherwise. */
    method LinkInTransaction(info: UserInfo, provider: string, token: ProviderToken,
                             user: Option<User>, now: int) returns (r: Result<User, Error>)
      requires db.Valid()
      requires user.Some? ==> user.value.id in db.users && db.users[user.value.id] == user.value
      requires user.None? && info.email != "" ==> !HasUserWithEmail(db.users, info.email)
      modifies db
      ensures db.Valid()
      ensures db.categories == old(db.categories) && db.failing == old(db.failing)
      ensures old(db.EmailsUnique()) ==> db.EmailsUnique()
      ensures r.Ok? ==> r.value.id in db.users && db.users[r.value.id] == r.value
      ensures user.None? && info.email == "" ==> r == Err(OAuthEmailRequired)
      ensures Commits(user, info, old(db.failing)) ==>
        r == Ok(if user.Some? then user.value else NewOAuthUser(old(db.nextUserId), info, now))
        && db.users == (if user.Some? then old(db.users) else old(db.users)[old(db.nextUserId) := r.value])
        && db.socials == old(db.socials)[old(db.nextSocialId) := NewLink(old(db.nextSocialId), r.value.id, provider, info, token)]
      ensures !Commits(user, info, old(db.failing)) ==>
        r.Err? && db.users == old(db.users) && db.socials == old(db.socials)
      ensures !Commits(user, info, old(db.failing)) && (user.Some? || info.email != "") ==>
        r == Err(DatabaseError)
    {
      var saved := db.Begin();
      r := CreateInTransaction(info, provider, token, user, now);
      if r.Ok? && Commit in db.failing {
        r := Err(DatabaseError);
      }
      if r.Err? {
        db.Rollback(saved);
      } else if user.None? {
        assert db.users == old(db.users)[r.value.id := r.value];
        assert r.value.email == info.email;
      }
    }

    /** What `findOrCreateUser` does to the tables as they are now: an existing link has its
        tokens refreshed and gives its account; otherwise the account with the address, or a
        new one, is linked in a transaction that either commits or leaves both tables as they
        were. */
    ghost function FindOrCreate(info: UserInfo, provider: string, token: ProviderToken, now: int): (o: LinkOutcome)
      requires db.Valid()
      reads db
      ensures o.users.Keys >= db.users.Keys && o.socials.Keys >= db.socials.Keys
      ensures forall id :: id in db.users ==> o.users[id] == db.users[id]
      ensures o.result.Err? ==> o.users == db.users && (o.socials == db.socials || o.socials.Keys == db.socials.Keys)
      ensures o.result.Ok? ==> o.result.value.id in o.users && o.users[o.result.value.id] == o.result.value
      ensures o.result.Ok? && o.result.value.id !in db.users ==>
        o.result.value == NewOAuthUser(db.nextUserId, info, now) && info.email != ""
        && !HasUserWithEmail(db.users, info.email)
    {
      match db.FindSocialLink(provider, info.id)
      case Ok(link) =>
        LinkOutcome(db.FindUserById(link.userId), db.users,
                    if UpdateTokens in db.failing then db.socials
                    else db.socials[link.id := link.(accessToken := Some(token.accessToken),
                                                     refreshToken := StoredRefreshToken(token))])
      case Err(e) =>
        if !Is(e, RecordNotFound) then LinkOutcome(Err(e), db.users, db.socials)
        else LinkAccount(info, provider, token, now)
    }

    /** The part of `findOrCreateUser` for an identity that no link names: the account with
        the address, or a new one when there is none, is linked in a transaction that either
        commits or leaves both tables as they were. */
    ghost function LinkAccount(info: UserInfo, provider: string, token: ProviderToken, now: int): (o: LinkOutcome)
      requires db.Valid()
      reads db
      ensures o.users.Keys >= db.users.Keys && o.socials.Keys >= db.socials.Keys
      ensures forall id :: id in db.users ==> o.users[id] == db.users[id]
      ensures o.result.Err? ==> o.users == db.users && o.socials == db.socials
      ensures o.result.Ok? ==> o.result.value.id in o.users && o.users[o.result.value.id] == o.result.value
      ensures o.result.Ok? && o.result.value.id !in db.users ==>
        o.result.value == NewOAuthUser(db.nextUserId, info, now) && info.email != ""
        && !HasUserWithEmail(db.users, info.email)
    {
      var byEmail := if info.email == "" then Err(RecordNotFound) else db.UserByEmail(info.email);
      if byEmail.Err? && !Is(byEmail.error, RecordNotFound) then LinkOutcome(Err(byEmail.error), db.users, db.socials)
      else
        var user := if byEmail.Ok? then Some(byEmail.value) else None;
        if user.None? && info.email == "" then LinkOutcome(Err(OAuthEmailRequired), db.users, db.socials)
        else if !Commits(user, info, db.failing) then LinkOutcome(Err(DatabaseError), db.users, db.socials)
        else
          var u := if user.Some? then user.value else NewOAuthUser(db.nextUserId, info, now);
          LinkOutcome(Ok(u), if user.Some? then db.users else db.users[db.nextUserId := u],
                      db.socials[db.nextSocialId := NewLink(db.nextSocialId, u.id, provider, info, token)])
    }

    /** The no-link branch of `findOrCreateUser`: the address is looked up, and the account
        found or a new one is linked in a transaction. */
    method LinkByAddress(info: UserInfo, provider: string, token: ProviderToken, now: int)
      returns (r: Result<User, Error>)
      requires db.Valid()
      modifies db
      ensures db.Valid()
      ensures db.categories == old(db.categories) && db.failing == old(db.failing)
      ensures old(db.EmailsUnique()) ==> db.EmailsUnique()
      ensures r.Ok? ==> r.value.id in db.users && db.users[r.value.id] == r.value
      ensures var o := old(LinkAccount(info, provider, token, now));
        r == o.result && db.users == o.users && db.socials == o.socials
      // an account with the address: the account is linked, not created
      ensures info.email != "" && old(db.UserByEmail(info.email)).Ok? ==>
        var user := old(db.UserByEmail(info.email)).value;
        db.users == old(db.users)
        && (CreateSocial !in old(db.failing) && Commit !in old(db.failing) ==>
              r == Ok(user)
              && db.socials == old(db.socials)[old(db.nextSocialId) := NewLink(old(db.nextSocialId), user.id, provider, info, token)])
        && (CreateSocial in old(db.failing) || Commit in old(db.failing) ==>
              r == Err(DatabaseError) && db.socials == old(db.socials))
      // the lookup by address fails for another reason than "not found"
      ensures info.email != "" && FindUserByEmail in old(db.failing) ==>
        r == Err(DatabaseError) && db.users == old(db.users) && db.socials == old(db.socials)
      // no address: nothing is written
      ensures info.email == "" ==>
        r == Err(OAuthEmailRequired) && db.users == old(db.users) && db.socials == old(db.socials)
      // no account with the address: an account and its link are created together
      ensures info.email != "" && FindUserByEmail !in old(db.failing) && !HasUserWithEmail(old(db.users), info.email) ==>
        if CreateUser !in old(db.failing) && CreateSocial !in old(db.failing) && Commit !in old(db.failing) then
          r == Ok(NewOAuthUser(old(db.nextUserId), info, now))
          && db.users == old(db.users)[old(db.nextUserId) := r.value]
          && db.socials == old(db.socials)[old(db.nextSocialId) := NewLink(old(db.nextSocialId), old(db.nextUserId), provider, info, token)]
        else
          r.Err? && db.users == old(db.users) && db.socials == old(db.socials)
    {
      var user: Option<User> := None;
      if info.email != "" {
        var found := db.UserByEmail(info.email);
        if found.Err? && !Is(found.error, RecordNotFound) {
          return Err(found.error);
        }
        if found.Ok? {
          user := Some(found.value);
        }
      }
      r := LinkInTransaction(info, provider, token, user, now);
    }

    /** `findOrCreateUser`. */
    method FindOrCreateUser(info: UserInfo, provider: string, token: ProviderToken, now: int)
      returns (r: Result<User, Error>)
      requires db.Valid()
      modifies db
      ensures db.Valid()
      ensures db.categories == old(db.categories) && db.failing == old(db.failing)
      ensures old(db.EmailsUnique()) ==> db.EmailsUnique()
      ensures r.Ok? ==> r.value.id in db.users && db.users[r.value.id] == r.value
      ensures var o := old(FindOrCreate(info, provider, token, now));
        r == o.result && db.users == o.users && db.socials == o.socials
      // a lookup of the link that fails for another reason than "not found" stops everything
      ensures FindSocial in old(db.failing) ==> r == Err(DatabaseError) && unchanged(db)
      // an existing link: its tokens are refreshed, nothing is created, and its user returned
      ensures old(db.FindSocialLink(provider, info.id)).Ok? ==>
        var link := old(db.FindSocialLink(provider, info.id)).value;
        db.users == old(db.users) && db.socials.Keys == old(db.socials).Keys
        && (UpdateTokens !in old(db.failing) ==>
              db.socials == old(db.socials)[link.id := link.(accessToken := Some(token.accessToken),
                                                             refreshToken := StoredRefreshToken(token))])
        && (UpdateTokens in old(db.failing) ==> db.socials == old(db.socials))
        && r == old(db.FindUserById(link.userId))
      // no link, and an account with the address: the account is linked, not created
      ensures old(db.FindSocialLink(provider, info.id)) == Err(RecordNotFound) && info.email != ""
              && old(db.UserByEmail(info.email)).Ok? ==>
        var user := old(db.UserByEmail(info.email)).value;
        db.users == old(db.users)
        && (CreateSocial !in old(db.failing) && Commit !in old(db.failing) ==>
              r == Ok(user)
              && db.socials == old(db.socials)[old(db.nextSocialId) := NewLink(old(db.nextSocialId), user.id, provider, info, token)])
        && (CreateSocial in old(db.failing) || Commit in old(db.failing) ==>
              r == Err(DatabaseError) && db.socials == old(db.socials))
      // no link, and the lookup by address fails for another reason than "not found"
      ensures old(db.FindSocialLink(provider, info.id)) == Err(RecordNotFound) && info.email != ""
              && FindUserByEmail in old(db.failing) ==>
        r == Err(DatabaseError) && db.users == old(db.users) && db.socials == old(db.socials)
      // no link and no address: nothing is written
      ensures old(db.FindSocialLink(provider, info.id)) == Err(RecordNotFound) && info.email == "" ==>
        r == Err(OAuthEmailRequired) && db.users == old(db.users) && db.socials == old(db.socials)
      // no link and no account with the address: an account and its link are created together
      ensures old(db.FindSocialLink(provider, info.id)) == Err(RecordNotFound) && info.email != ""
              && FindUserByEmail !in old(db.failing) && !HasUserWithEmail(old(db.users), info.email) ==>
        if CreateUser !in old(db.failing) && CreateSocial !in old(db.failing) && Commit !in old(db.failing) then
          r == Ok(NewOAuthUser(old(db.nextUserId), info, now))
          && db.users == old(db.users)[old(db.nextUserId) := r.value]
          && db.socials == old(db.socials)[old(db.nextSocialId) := NewLink(old(db.nextSocialId), old(db.nextUserId), provider, info, token)]
        else
          r.Err? && db.users == old(db.users) && db.socials == old(db.socials)
    {
      var link := db.FindSocialLink(provider, info.id);
      if link.Ok? {
        r := RefreshLink(link.value, token);
        return;
      }
      if !Is(link.error, RecordNotFound) {
        return Err(link.error);
      }
      r := LinkByAddress(info, provider, token, now);
    }

    /** `HandleCallback`: exchange, fetch, link, status gate, token, in that order; each step
        runs only when the one before it succeeded. */
    method HandleCallback(provider: string, code: string, remote: Remote, now: int)
      returns (r: Result<AuthResponse, Error>)
      requires db.Valid() && auth.db == db
      modifies this, db
      ensures db.Valid()
      ensures db.categories == old(db.categories)
      ensures old(db.EmailsUnique()) ==> db.EmailsUnique()
      ensures r == old(Callback(provider, code, remote, now))
      ensures !IsProviderSupported(provider) ==> calls == old(calls) && unchanged(db)
      ensures IsProviderSupported(provider) && remote.exchange(code).Err? ==>
        calls == old(calls) + [ExchangeCode(provider, code)] && unchanged(db)
      ensures IsProviderSupported(provider) && remote.exchange(code).Ok?
              && remote.userInfo(remote.exchange(code).value).Err? ==>
        calls == old(calls) + [ExchangeCode(provider, code), FetchUserInfo(provider, remote.exchange(code).value)]
        && unchanged(db)
      ensures IsProviderSupported(provider) && remote.exchange(code).Ok?
              && remote.userInfo(remote.exchange(code).value).Ok? ==>
        var token := remote.exchange(code).value;
        var o := old(FindOrCreate(GoogleUserInfo(remote.userInfo(token).value), provider, token, now));
        db.users == o.users && db.socials == o.socials
        && calls == old(calls) + [ExchangeCode(provider, code), FetchUserInfo(provider, token)]
      ensures r.Ok? ==> r.value.user.id in db.users
    {
      if provider !in providers {
        return Err(OAuthProviderNotSupported);
      }
      calls := calls + [ExchangeCode(provider, code)];
      var exchanged := remote.exchange(code);
      if exchanged.Err? {
        return Err(Wrapped(exchanged.error, OAuthCodeExchange));
      }
      var token := exchanged.value;
      calls := calls + [FetchUserInfo(provider, token)];
      var profile := remote.userInfo(token);
      if profile.Err? {
        return Err(Wrapped(profile.error, OAuthUserInfo));
      }
      r := CompleteLogin(GoogleUserInfo(profile.value), provider, token, now);
    }

    /** The part of `HandleCallback` after the provider has answered: link, status gate,
        token. */
    method CompleteLogin(info: UserInfo, provider: string, token: ProviderToken, now: int)
      returns (r: Result<AuthResponse, Error>)
      requires db.Valid() && auth.db == db
      modifies db
      ensures db.Valid()
      ensures db.categories == old(db.categories)
      ensures old(db.EmailsUnique()) ==> db.EmailsUnique()
      ensures r.Ok? ==>
        r.value.tokenType == BearerType
        && r.value.user.status != UserStatusInactive && r.value.user.status != UserStatusBanned
        && r.value.user.id in db.users
      ensures var o := old(FindOrCreate(info, provider, token, now));
        db.users == o.users && db.socials == o.socials && r == AdmitLinked(o.result, now)
    {
      var found := FindOrCreateUser(info, provider, token, now);
      if found.Err? {
        return Err(found.error);
      }
      r := Admit(found.value, now);
    }

    /** The status gate of `HandleCallback`, applied to the linked user: an inactive or banned
        account gets its own error and no token; every other account gets a token. */
    function Admit(user: User, now: int): (r: Result<AuthResponse, Error>)
      ensures user.status == UserStatusInactive ==> r == Err(UserInactive)
      ensures user.status == UserStatusBanned ==> r == Err(UserBanned)
      ensures r.Ok? <==> user.status != UserStatusInactive && user.status != UserStatusBanned
                         && auth.GenerateToken(user, now).Ok?
      ensures r.Ok? ==> r.value.tokenType == BearerType && r.value.user == ToUserResponse(user)
    {
      if user.status == UserStatusInactive then Err(UserInactive)
      else if user.status == UserStatusBanned then Err(UserBanned)
      else auth.Respond(user, now)
    }

    /** The answer once `findOrCreateUser` has answered: its error as it is, or the status gate
        applied to its account. */
    function AdmitLinked(found: Result<User, Error>, now: int): (r: Result<AuthResponse, Error>)
      ensures found.Err? ==> r == Err(found.error)
      ensures found.Ok? ==> r == Admit(found.value, now)
    {
      match found
      case Err(e) => Err(e)
      case Ok(user) => Admit(user, now)
    }

    /** What `HandleCallback` answers for the tables as they are now: an unsupported provider,
        a failed exchange or a failed profile fetch stop it; otherwise the account
        `findOrCreateUser` links goes through the status gate. */
    ghost function Callback(provider: string, code: string, remote: Remote, now: int): (r: Result<AuthResponse, Error>)
      requires db.Valid()
      reads db
      ensures !IsProviderSupported(provider) ==> r == Err(OAuthProviderNotSupported)
      ensures IsProviderSupported(provider) && remote.exchange(code).Err? ==>
        r.Err? && Is(r.error, OAuthCodeExchange)
      ensures IsProviderSupported(provider) && remote.exchange(code).Ok?
              && remote.userInfo(remote.exchange(code).value).Err? ==>
        r.Err? && Is(r.error, OAuthUserInfo)
      ensures r.Ok? ==>
        IsProviderSupported(provider) && remote.exchange(code).Ok?
        && remote.userInfo(remote.exchange(code).value).Ok?
        && r.value.tokenType == BearerType
        && r.value.user.status != UserStatusInactive && r.value.user.status != UserStatusBanned
    {
      if provider !in providers then Err(OAuthProviderNotSupported)
      else match remote.exchange(code)
        case Err(m) => Err(Wrapped(m, OAuthCodeExchange))
        case Ok(token) =>
          match remote.userInfo(token)
          case Err(m) => Err(Wrapped(m, OAuthUserInfo))
          case Ok(profile) => AdmitLinked(FindOrCreate(GoogleUserInfo(profile), provider, token, now).result, now)
    }
  }
}
