/** The HTTP handlers of the OAuth 2.0 flow: starting it with a random state kept in a cookie,
    and the two callbacks, which check the provider, the query and the state, in that order,
    before the service is asked to finish the login. */
module OAuthHandler {
  import opened Base
  import opened Models
  import opened Errors
  import opened Store
  import opened AuthService
  import opened OAuthService
  import opened Base64
  import opened Http

  const StateCookie: string := "oauth_state"
  const AccessTokenCookie: string := "access_token"
  /** The state cookie lives ten minutes, the access-token cookie a day. */
  const StateMaxAge: int := 600
  const AccessTokenMaxAge: int := 86400
  /** How many random bytes a state is made of. */
  const StateBytes: nat := 32

  const RandomFailure: Error := Failure("crypto/rand: read failed")

  /** `dto.OAuthCallbackRequest`: the query a provider redirects back with. */
  datatype CallbackRequest = CallbackRequest(code: string, state: string)

  /** The cookie that deletes the state cookie. */
  function ClearedState(secure: bool): Cookie {
    Cookie(StateCookie, "", -1, "/", secure, true)
  }

  /** `generateRandomState`: 32 random bytes in padded base64url (section 5 of RFC 4648), or the
      failure of the random source. `random` is what `rand.Read` produced. */
  function GenerateRandomState(random: Option<seq<byte>>): (r: Result<string, Error>)
    requires random.Some? ==> |random.value| == StateBytes
    ensures r.Ok? <==> random.Some?
    ensures r.Err? ==> r.error == RandomFailure
    ensures r.Ok? ==> |r.value| == 44 && DecodeUrl(r.value) == Some(random.value)
  {
    match random
    case None => Err(RandomFailure)
    case Some(b) =>
      StateLength(b);
      DecodeEncode(b);
      Ok(EncodeUrl(b))
  }

  /** 32 bytes encode to 44 characters: eleven groups of four, the last with one `=`. */
  lemma StateLength(b: seq<byte>)
    requires |b| == StateBytes
    ensures |EncodeUrl(b)| == 44
  {
    EncodedLength(b);
    assert (|b| + 2) / 3 == 11;
  }

  /** `handleOAuthError`: the provider, state, exchange, profile and e-mail failures are 400,
      an inactive or banned account 403, and anything else 500. */
  function HandleOAuthError(e: Error): (r: Reply)
    ensures r.Fail? && r.details == map[]
    ensures Is(e, OAuthProviderNotSupported) ==> r == ErrorReply(StatusBadRequest, "provider_not_supported")
    ensures Is(e, OAuthStateMismatch) ==> r == ErrorReply(StatusBadRequest, "state_mismatch")
    ensures Is(e, OAuthCodeExchange) ==> r == ErrorReply(StatusBadRequest, "code_exchange_failed")
    ensures Is(e, OAuthUserInfo) ==> r == ErrorReply(StatusBadRequest, "user_info_failed")
    ensures Is(e, OAuthEmailRequired) ==> r == ErrorReply(StatusBadRequest, "email_required")
    ensures Is(e, UserInactive) ==> r == ErrorReply(StatusForbidden, "user_inactive")
    ensures Is(e, UserBanned) ==> r == ErrorReply(StatusForbidden, "user_banned")
    ensures r.status == StatusInternalServerError <==>
              !Is(e, OAuthProviderNotSupported) && !Is(e, OAuthStateMismatch) && !Is(e, OAuthCodeExchange)
              && !Is(e, OAuthUserInfo) && !Is(e, OAuthEmailRequired) && !Is(e, UserInactive) && !Is(e, UserBanned)
  {
    IsSingleSentinel(e);
    if Is(e, OAuthProviderNotSupported) then ErrorReply(StatusBadRequest, "provider_not_supported")
    else if Is(e, OAuthStateMismatch) then ErrorReply(StatusBadRequest, "state_mismatch")
    else if Is(e, OAuthCodeExchange) then ErrorReply(StatusBadRequest, "code_exchange_failed")
    else if Is(e, OAuthUserInfo) then ErrorReply(StatusBadRequest, "user_info_failed")
    else if Is(e, OAuthEmailRequired) then ErrorReply(StatusBadRequest, "email_required")
    else if Is(e, UserInactive) then ErrorReply(StatusForbidden, "user_inactive")
    else if Is(e, UserBanned) then ErrorReply(StatusForbidden, "user_banned")
    else ErrorReply(StatusInternalServerError, "internal_error")
  }

  /** The error code the redirecting callback puts in the URL for a failure of the service. */
  function RedirectErrorCode(e: Error): (code: string)
    ensures Is(e, UserInactive) ==> code == "user_inactive"
    ensures Is(e, UserBanned) ==> code == "user_banned"
    ensures Is(e, OAuthEmailRequired) ==> code == "email_required"
    ensures code == "auth_failed" <==> !Is(e, UserInactive) && !Is(e, UserBanned) && !Is(e, OAuthEmailRequired)
  {
    IsSingleSentinel(e);
    if Is(e, UserInactive) then "user_inactive"
    else if Is(e, UserBanned) then "user_banned"
    else if Is(e, OAuthEmailRequired) then "email_required"
    else "auth_failed"
  }

  /** The frontend URL a failed callback redirects to. */
  function ErrorLocation(frontendUrl: string, code: string): string {
    frontendUrl + "?error=" + code
  }

  /** The frontend URL a successful callback redirects to; it carries no token. */
  function SuccessLocation(frontendUrl: string): string {
    frontendUrl + "?auth=success"
  }

  /** The request carries a state cookie equal to the state in its query. */
  predicate StateMatches(c: Context, query: Bind<CallbackRequest>)
    reads c
  {
    query.Bound? && c.RequestCookie(StateCookie) == Some(query.value.state)
  }

  /** The redirect that answers the service's result `res`: the error code for a failure,
      with only the state cookie cleared; the success page for a token, with the state cookie
      cleared and then the token set in an HTTP-only cookie. */
  predicate CallbackRedirected(c: Context, before: seq<Cookie>, frontendUrl: string, secureCookie: bool,
                               res: Result<AuthResponse, Error>)
    reads c
  {
    if res.Err? then
      c.reply == Some(Redirect(StatusTemporaryRedirect, ErrorLocation(frontendUrl, RedirectErrorCode(res.error))))
      && c.setCookies == before + [ClearedState(secureCookie)]
    else
      c.reply == Some(Redirect(StatusTemporaryRedirect, SuccessLocation(frontendUrl)))
      && c.setCookies == before + [ClearedState(secureCookie),
                                   Cookie(AccessTokenCookie, res.value.accessToken, AccessTokenMaxAge, "/",
                                          secureCookie, true)]
  }

  class OAuthHandler {
    const svc: OAuthService

    constructor (svc: OAuthService)
      ensures this.svc == svc
    {
      this.svc := svc;
    }

    /** `InitiateOAuth`: an unsupported provider is refused before a state is made; the state
        is stored in a ten-minute, HTTP-only cookie and sent to the provider. */
    method InitiateOAuth(c: Context, provider: string, random: Option<seq<byte>>)
      requires random.Some? ==> |random.value| == StateBytes
      modifies c
      ensures !svc.IsProviderSupported(provider) ==>
                c.reply == Some(ErrorReply(StatusBadRequest, "invalid_provider")) && c.setCookies == old(c.setCookies)
      ensures svc.IsProviderSupported(provider) && random.None? ==>
                c.reply == Some(ErrorReply(StatusInternalServerError, "internal_error"))
                && c.setCookies == old(c.setCookies)
      ensures svc.IsProviderSupported(provider) && random.Some? ==>
                c.reply == Some(Success(StatusOK))
                && c.setCookies == old(c.setCookies)
                     + [Cookie(StateCookie, GenerateRandomState(random).value, StateMaxAge, "/", c.secure, true)]
                && svc.GetAuthUrl(provider, GenerateRandomState(random).value).Ok?
      ensures c.keys == old(c.keys)
    {
      if !svc.IsProviderSupported(provider) {
        c.Respond(ErrorReply(StatusBadRequest, "invalid_provider"));
        return;
      }
      var state := GenerateRandomState(random);
      if state.Err? {
        c.Respond(ErrorReply(StatusInternalServerError, "internal_error"));
        return;
      }
      c.SetCookie(Cookie(StateCookie, state.value, StateMaxAge, "/", c.secure, true));
      var url := svc.GetAuthUrl(provider, state.value);
      if url.Err? {
        // the provider was found supported above, so its URL can be built
        assert false;
      }
      c.Respond(Success(StatusOK));
    }

    /** `HandleCallback`: provider, then query, then state; only a matching state clears the
        cookie and reaches the service. */
    method HandleCallback(c: Context, provider: string, query: Bind<CallbackRequest>, remote: Remote, now: int)
      requires svc.db.Valid() && svc.auth.db == svc.db
      modifies c, svc, svc.db
      ensures svc.db.Valid()
      ensures c.keys == old(c.keys)
      ensures !svc.IsProviderSupported(provider) ==>
                c.reply == Some(ErrorReply(StatusBadRequest, "invalid_provider"))
                && c.setCookies == old(c.setCookies) && unchanged(svc, svc.db)
      ensures svc.IsProviderSupported(provider) && query.BindFailed? ==>
                c.reply == Some(ErrorReply(StatusBadRequest, "invalid_request"))
                && c.setCookies == old(c.setCookies) && unchanged(svc, svc.db)
      ensures svc.IsProviderSupported(provider) && query.Bound? && !StateMatches(c, query) ==>
                c.reply == Some(ErrorReply(StatusBadRequest, "invalid_state"))
                && c.setCookies == old(c.setCookies) && unchanged(svc, svc.db)
      ensures svc.IsProviderSupported(provider) && StateMatches(c, query) ==>
                c.setCookies == old(c.setCookies) + [ClearedState(c.secure)]
      ensures (svc.IsProviderSupported(provider) && StateMatches(c, query)
               && remote.exchange(query.value.code).Err?) ==>
                c.reply == Some(ErrorReply(StatusBadRequest, "code_exchange_failed")) && unchanged(svc.db)
      ensures svc.calls != old(svc.calls) ==> StateMatches(c, query)
      ensures c.reply == Some(Success(StatusOK)) ==> svc.IsProviderSupported(provider) && StateMatches(c, query)
      ensures svc.IsProviderSupported(provider) && StateMatches(c, query) ==>
                var res := old(svc.Callback(provider, query.value.code, remote, now));
                c.reply == Some(if res.Ok? then Success(StatusOK) else HandleOAuthError(res.error))
    {
      if !svc.IsProviderSupported(provider) {
        c.Respond(ErrorReply(StatusBadRequest, "invalid_provider"));
        return;
      }
      if query.BindFailed? {
        c.Respond(ErrorReply(StatusBadRequest, "invalid_request"));
        return;
      }
      var req := query.value;
      var stored := c.RequestCookie(StateCookie);
      if stored.None? || stored.value != req.state {
        c.Respond(ErrorReply(StatusBadRequest, "invalid_state"));
        return;
      }
      c.SetCookie(ClearedState(c.secure));
      var resp := svc.HandleCallback(provider, req.code, remote, now);
      if resp.Err? {
        c.Respond(HandleOAuthError(resp.error));
        return;
      }
      c.Respond(Success(StatusOK));
    }

    /** `HandleCallbackRedirect`: the same checks, answered with redirects to the frontend; on
        success the token goes into an HTTP-only cookie and the URL only says `auth=success`. */
    method HandleCallbackRedirect(c: Context, provider: string, query: Bind<CallbackRequest>,
                                  frontendUrl: string, secureCookie: bool, remote: Remote, now: int)
      requires svc.db.Valid() && svc.auth.db == svc.db
      modifies c, svc, svc.db
      ensures svc.db.Valid()
      ensures c.keys == old(c.keys)
      ensures !svc.IsProviderSupported(provider) ==>
                c.reply == Some(Redirect(StatusTemporaryRedirect, ErrorLocation(frontendUrl, "invalid_provider")))
                && c.setCookies == old(c.setCookies) && unchanged(svc, svc.db)
      ensures svc.IsProviderSupported(provider) && query.BindFailed? ==>
                c.reply == Some(Redirect(StatusTemporaryRedirect, ErrorLocation(frontendUrl, "invalid_request")))
                && c.setCookies == old(c.setCookies) && unchanged(svc, svc.db)
      ensures svc.IsProviderSupported(provider) && query.Bound? && !StateMatches(c, query) ==>
                c.reply == Some(Redirect(StatusTemporaryRedirect, ErrorLocation(frontendUrl, "invalid_state")))
                && c.setCookies == old(c.setCookies) && unchanged(svc, svc.db)
      ensures (svc.IsProviderSupported(provider) && StateMatches(c, query)
               && remote.exchange(query.value.code).Err?) ==>
                c.reply == Some(Redirect(StatusTemporaryRedirect, ErrorLocation(frontendUrl, "auth_failed")))
                && c.setCookies == old(c.setCookies) + [ClearedState(secureCookie)]
      ensures svc.calls != old(svc.calls) ==> StateMatches(c, query)
      ensures c.reply.Some? && c.reply.value.Redirect? && c.reply.value.status == StatusTemporaryRedirect
      ensures c.reply == Some(Redirect(StatusTemporaryRedirect, SuccessLocation(frontendUrl))) ==>
                svc.IsProviderSupported(provider) && StateMatches(c, query)
                && |c.setCookies| == |old(c.setCookies)| + 2
                && c.setCookies[..|old(c.setCookies)| + 1] == old(c.setCookies) + [ClearedState(secureCookie)]
                && var token := c.setCookies[|c.setCookies| - 1];
                   token.name == AccessTokenCookie && token.maxAge == AccessTokenMaxAge && token.httpOnly
                   && token.secure == secureCookie && token.path == "/"
      ensures c.reply != Some(Redirect(StatusTemporaryRedirect, SuccessLocation(frontendUrl))) ==>
                exists code :: code in {"invalid_provider", "invalid_request", "invalid_state", "user_inactive",
                                         "user_banned", "email_required", "auth_failed"}
                               && c.reply == Some(Redirect(StatusTemporaryRedirect, ErrorLocation(frontendUrl, code)))
      ensures svc.IsProviderSupported(provider) && StateMatches(c, query) ==>
                CallbackRedirected(c, old(c.setCookies), frontendUrl, secureCookie,
                                   old(svc.Callback(provider, query.value.code, remote, now)))
    {
      if !svc.IsProviderSupported(provider) {
        c.Respond(Redirect(StatusTemporaryRedirect, ErrorLocation(frontendUrl, "invalid_provider")));
        return;
      }
      if query.BindFailed? {
        c.Respond(Redirect(StatusTemporaryRedirect, ErrorLocation(frontendUrl, "invalid_request")));
        return;
      }
      var req := query.value;
      var stored := c.RequestCookie(StateCookie);
      if stored.None? || stored.value != req.state {
        c.Respond(Redirect(StatusTemporaryRedirect, ErrorLocation(frontendUrl, "invalid_state")));
        return;
      }
      ghost var res := svc.Callback(provider, req.code, remote, now);
      CompleteRedirect(c, provider, req.code, frontendUrl, secureCookie, remote, now);
      RedirectShape(c, old(c.setCookies), frontendUrl, secureCookie, res);
      if remote.exchange(req.code).Err? {
        ExchangeFailureIsAuthFailed(res.error);
      }
    }

    /** The part of `HandleCallbackRedirect` after the state has been checked: the state cookie
        is cleared, the service finishes the login, and the token cookie is set on success. */
    method CompleteRedirect(c: Context, provider: string, code: string, frontendUrl: string,
                            secureCookie: bool, remote: Remote, now: int)
      requires svc.db.Valid() && svc.auth.db == svc.db && svc.IsProviderSupported(provider)
      modifies c, svc, svc.db
      ensures svc.db.Valid()
      ensures c.keys == old(c.keys)
      ensures CallbackRedirected(c, old(c.setCookies), frontendUrl, secureCookie,
                                 old(svc.Callback(provider, code, remote, now)))
    {
      c.SetCookie(ClearedState(secureCookie));
      var resp := svc.HandleCallback(provider, code, remote, now);
      RedirectFor(c, resp, frontendUrl, secureCookie, old(c.setCookies));
    }

    /** The redirect for the service's answer, once the state cookie has been cleared: an error
        code, or the token cookie and the success page. */
    static method RedirectFor(c: Context, resp: Result<AuthResponse, Error>, frontendUrl: string,
                              secureCookie: bool, ghost before: seq<Cookie>)
      requires c.setCookies == before + [ClearedState(secureCookie)]
      modifies c
      ensures c.keys == old(c.keys)
      ensures CallbackRedirected(c, before, frontendUrl, secureCookie, resp)
    {
      if resp.Err? {
        var errCode := RedirectErrorCode(resp.error);
        c.Respond(Redirect(StatusTemporaryRedirect, ErrorLocation(frontendUrl, errCode)));
        return;
      }
      c.SetCookie(Cookie(AccessTokenCookie, resp.value.accessToken, AccessTokenMaxAge, "/", secureCookie, true));
      c.Respond(Redirect(StatusTemporaryRedirect, SuccessLocation(frontendUrl)));
    }
  }

  /** A redirect answering the service is always a 307; it goes to the success page only for
      a token, with the token cookie set after the cleared state cookie; otherwise it carries
      one of the four codes a service failure can have. */
  lemma RedirectShape(c: Context, before: seq<Cookie>, frontendUrl: string, secureCookie: bool,
                      res: Result<AuthResponse, Error>)
    requires CallbackRedirected(c, before, frontendUrl, secureCookie, res)
    ensures c.reply.Some? && c.reply.value.Redirect? && c.reply.value.status == StatusTemporaryRedirect
    ensures c.reply == Some(Redirect(StatusTemporaryRedirect, SuccessLocation(frontendUrl))) ==>
              res.Ok? && |c.setCookies| == |before| + 2
              && c.setCookies[..|before| + 1] == before + [ClearedState(secureCookie)]
              && var token := c.setCookies[|c.setCookies| - 1];
                 token.name == AccessTokenCookie && token.maxAge == AccessTokenMaxAge && token.httpOnly
                 && token.secure == secureCookie && token.path == "/"
    ensures c.reply != Some(Redirect(StatusTemporaryRedirect, SuccessLocation(frontendUrl))) ==>
              res.Err?
              && exists code :: code in {"user_inactive", "user_banned", "email_required", "auth_failed"}
                               && c.reply == Some(Redirect(StatusTemporaryRedirect, ErrorLocation(frontendUrl, code)))
  {
    if res.Err? {
      FailureNeverLooksLikeSuccess(frontendUrl, RedirectErrorCode(res.error));
    } else {
      assert c.setCookies[..|before| + 1] == before + [ClearedState(secureCookie)];
    }
  }

  /** An exchange failure is reported to the frontend as `auth_failed`. */
  lemma ExchangeFailureIsAuthFailed(e: Error)
    requires Is(e, OAuthCodeExchange)
    ensures RedirectErrorCode(e) == "auth_failed"
  {
    IsSingleSentinel(e);
  }

  /** A failure never redirects to the success page: the two locations differ for every
      frontend URL and every error code. */
  lemma FailureNeverLooksLikeSuccess(frontendUrl: string, code: string)
    ensures ErrorLocation(frontendUrl, code) != SuccessLocation(frontendUrl)
  {
    var i := |frontendUrl| + 1;
    assert ErrorLocation(frontendUrl, code)[i] == 'e';
    assert SuccessLocation(frontendUrl)[i] == 'a';
  }

  /** A state is 44 characters and decodes back to the random bytes it was made from, so two
      different draws never give the same state. */
  lemma StatesOfDistinctDrawsDiffer(a: seq<byte>, b: seq<byte>)
    requires |a| == StateBytes && |b| == StateBytes && a != b
    ensures GenerateRandomState(Some(a)).value != GenerateRandomState(Some(b)).value
  {
    DecodeEncode(a);
    DecodeEncode(b);
  }
}
