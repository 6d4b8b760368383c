/** The part of gin's request context the middleware and the handlers use: the request's
    headers and cookies, the per-request key/value store, the reply, the cookies written and the
    abort/next flags. A reply is its status and error code; JSON bodies are not modelled. */
module Http {
  import opened Base
  import opened Models
  import opened Text

  const StatusOK: int := 200
  const StatusCreated: int := 201
  const StatusTemporaryRedirect: int := 307
  const StatusBadRequest: int := 400
  const StatusUnauthorized: int := 401
  const StatusForbidden: int := 403
  const StatusNotFound: int := 404
  const StatusConflict: int := 409
  const StatusInternalServerError: int := 500

  /** What a handler sends: an error with its code and validation details, a success, or a
      redirect. */
  datatype Reply =
    | Fail(status: int, code: string, details: map<string, string>)
    | Success(status: int)
    | Redirect(status: int, location: string)

  /** An error reply without details. */
  function ErrorReply(status: int, code: string): (r: Reply)
    ensures r.Fail? && r.status == status && r.code == code && r.details == map[]
  {
    Fail(status, code, map[])
  }

  /** The arguments of `c.SetCookie`; the domain is always empty in this program. */
  datatype Cookie = Cookie(name: string, value: string, maxAge: int, path: string, secure: bool,
                           httpOnly: bool)

  /** The dynamically typed values the middleware stores under context keys. */
  datatype Value = UintValue(n: nat) | StringValue(s: string) | UserValue(user: User)

  /** One `validator.FieldError`: the struct field, the failed tag and its parameter. */
  datatype FieldError = FieldError(field: string, tag: string, param: string)

  /** Why `ShouldBindJSON`/`ShouldBindQuery` failed: validation errors, or anything else
      (malformed JSON, a value of the wrong type). */
  datatype BindError = ValidationErrors(errors: seq<FieldError>) | Malformed

  /** The outcome of binding a request into a `T`. */
  datatype Bind<T> = Bound(value: T) | BindFailed(error: BindError)

  /** The details map the validation handlers build: every error writes its message under the
      lower-cased field name, a later error for the same key replacing an earlier one. */
  function DetailsOf(errs: seq<FieldError>, message: (string, FieldError) -> string): (d: map<string, string>)
    decreases |errs|
  {
    if errs == [] then map[]
    else
      var last := errs[|errs| - 1];
      var field := ToLower(last.field);
      DetailsOf(errs[..|errs| - 1], message)[field := message(field, last)]
  }

  /** The reply of both `handleValidationError`s: 400 `validation_error` with the details for
      validation errors, 400 `bad_request` for any other binding failure. */
  function ValidationReply(e: BindError, message: (string, FieldError) -> string): (r: Reply)
    ensures r.Fail? && r.status == StatusBadRequest
    ensures e.ValidationErrors? ==> r.code == "validation_error" && r.details == DetailsOf(e.errors, message)
    ensures e.Malformed? ==> r.code == "bad_request" && r.details == map[]
  {
    match e
    case ValidationErrors(errs) => Fail(StatusBadRequest, "validation_error", DetailsOf(errs, message))
    case Malformed => ErrorReply(StatusBadRequest, "bad_request")
  }

  /** The loop of `handleValidationError`: `details[field] = message` for every error in turn. */
  method BuildDetails(errs: seq<FieldError>, message: (string, FieldError) -> string)
    returns (details: map<string, string>)
    ensures details == DetailsOf(errs, message)
  {
    details := map[];
    for i := 0 to |errs|
      invariant details == DetailsOf(errs[..i], message)
    {
      var field := ToLower(errs[i].field);
      details := details[field := message(field, errs[i])];
      assert errs[..i + 1][..i] == errs[..i];
    }
    assert errs[..|errs|] == errs;
  }

  /** A key is in the details exactly when some error's field lower-cases to it. */
  lemma {:induction false} DetailsKeys(errs: seq<FieldError>, message: (string, FieldError) -> string, key: string)
    ensures key in DetailsOf(errs, message) <==> exists i :: 0 <= i < |errs| && ToLower(errs[i].field) == key
    decreases |errs|
  {
    if errs != [] {
      var init := errs[..|errs| - 1];
      DetailsKeys(init, message, key);
      if exists i :: 0 <= i < |errs| && ToLower(errs[i].field) == key {
        var i :| 0 <= i < |errs| && ToLower(errs[i].field) == key;
        if i < |errs| - 1 {
          assert init[i] == errs[i];
        }
      }
      if exists i :: 0 <= i < |init| && ToLower(init[i].field) == key {
        var i :| 0 <= i < |init| && ToLower(init[i].field) == key;
        assert errs[i] == init[i];
      }
    }
  }

  /** The message under a key is that of the last error whose field lower-cases to it. */
  lemma {:induction false} DetailsLastWins(errs: seq<FieldError>, message: (string, FieldError) -> string, i: nat)
    requires i < |errs|
    requires forall j :: i < j < |errs| ==> ToLower(errs[j].field) != ToLower(errs[i].field)
    ensures ToLower(errs[i].field) in DetailsOf(errs, message)
    ensures DetailsOf(errs, message)[ToLower(errs[i].field)] == message(ToLower(errs[i].field), errs[i])
    decreases |errs|
  {
    if i < |errs| - 1 {
      var init := errs[..|errs| - 1];
      assert init[i] == errs[i];
      forall j | i < j < |init| ensures ToLower(init[j].field) != ToLower(init[i].field) {
        assert init[j] == errs[j];
      }
      DetailsLastWins(init, message, i);
    }
  }

  /** A gin request context. */
  class Context {
    /** The request headers, by canonical name. */
    const header: map<string, string>
    /** The cookies the request carries. */
    const cookies: map<string, string>
    /** `isSecureRequest`: TLS, or `X-Forwarded-Proto: https` from a proxy. */
    const secure: bool
    /** The values `c.Set` stored. */
    var keys: map<string, Value>
    /** The reply written, if any. */
    var reply: Option<Reply>
    /** The cookies written, in order. */
    var setCookies: seq<Cookie>
    var aborted: bool
    var nextCalled: bool

    constructor (header: map<string, string>, cookies: map<string, string>, secure: bool,
                 keys: map<string, Value>)
      ensures this.header == header && this.cookies == cookies && this.secure == secure
      ensures this.keys == keys && reply == None && setCookies == [] && !aborted && !nextCalled
    {
      this.header, this.cookies, this.secure, this.keys := header, cookies, secure, keys;
      reply, setCookies, aborted, nextCalled := None, [], false, false;
    }

    /** `c.GetHeader`: the header's value, or the empty string. */
    function GetHeader(name: string): (v: string)
      ensures name !in header ==> v == ""
      ensures name in header ==> v == header[name]
    {
      if name in header then header[name] else ""
    }

    /** `c.Cookie`: the cookie's value, or `None` for `http.ErrNoCookie`. */
    function RequestCookie(name: string): (v: Option<string>)
      ensures v.Some? <==> name in cookies
      ensures v.Some? ==> v.value == cookies[name]
    {
      if name in cookies then Some(cookies[name]) else None
    }

    /** `c.Set`. */
    method Set(key: string, v: Value)
      modifies this
      ensures keys == old(keys)[key := v]
      ensures reply == old(reply) && setCookies == old(setCookies)
      ensures aborted == old(aborted) && nextCalled == old(nextCalled)
    {
      keys := keys[key := v];
    }

    /** `c.JSON` and `c.Redirect`. */
    method Respond(r: Reply)
      modifies this
      ensures reply == Some(r)
      ensures keys == old(keys) && setCookies == old(setCookies)
      ensures aborted == old(aborted) && nextCalled == old(nextCalled)
    {
      reply := Some(r);
    }

    /** `c.SetCookie`. */
    method SetCookie(cookie: Cookie)
      modifies this
      ensures setCookies == old(setCookies) + [cookie]
      ensures keys == old(keys) && reply == old(reply)
      ensures aborted == old(aborted) && nextCalled == old(nextCalled)
    {
      setCookies := setCookies + [cookie];
    }

    /** `c.Abort`. */
    method Abort()
      modifies this
      ensures aborted
      ensures keys == old(keys) && reply == old(reply) && setCookies == old(setCookies)
      ensures nextCalled == old(nextCalled)
    {
      aborted := true;
    }

    /** `c.Next`: hand the request on to the next handler. */
    method Next()
      modifies this
      ensures nextCalled
      ensures keys == old(keys) && reply == old(reply) && setCookies == old(setCookies)
      ensures aborted == old(aborted)
    {
      nextCalled := true;
    }
  }
}
