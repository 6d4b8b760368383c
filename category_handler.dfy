/** The administrative HTTP handlers of categories: the category id taken from the path, the
    request bound from JSON or the query string, the defaults of the listing, and the mapping of
    service and validation errors to replies. */
module CategoryHandler {
  import opened Base
  import opened Models
  import opened Errors
  import opened Text
  import opened Store
  import opened Decimal
  import opened Http
  import opened CategoryService

  /** The detail message for one failed validation tag of a category request field. */
  function CategoryMessage(field: string, fe: FieldError): (m: string)
    ensures fe.tag == "required" ==> m == field + " is required"
    ensures fe.tag == "min" ==> m == field + " must be at least " + fe.param + " characters"
    ensures fe.tag == "max" ==> m == field + " must be at most " + fe.param + " characters"
    ensures fe.tag == "url" ==> m == field + " must be a valid URL"
    ensures fe.tag == "oneof" ==> m == field + " must be one of: " + fe.param
    ensures fe.tag !in {"required", "min", "max", "url", "oneof"} ==> m == field + " is invalid"
  {
    match fe.tag
    case "required" => field + " is required"
    case "min" => field + " must be at least " + fe.param + " characters"
    case "max" => field + " must be at most " + fe.param + " characters"
    case "url" => field + " must be a valid URL"
    case "oneof" => field + " must be one of: " + fe.param
    case _ => field + " is invalid"
  }

  /** `handleServiceError`: a missing category is 404, a taken slug 409, and anything else 500. */
  function HandleServiceError(e: Error): (r: Reply)
    ensures r.Fail? && r.details == map[]
    ensures Is(e, CategoryNotFound) <==> r == ErrorReply(StatusNotFound, "category_not_found")
    ensures Is(e, SlugAlreadyExists) <==> r == ErrorReply(StatusConflict, "slug_exists")
    ensures r.status == StatusInternalServerError <==> !Is(e, CategoryNotFound) && !Is(e, SlugAlreadyExists)
    ensures r.status == StatusInternalServerError ==> r.code == "internal_error"
  {
    IsSingleSentinel(e);
    if Is(e, CategoryNotFound) then ErrorReply(StatusNotFound, "category_not_found")
    else if Is(e, SlugAlreadyExists) then ErrorReply(StatusConflict, "slug_exists")
    else ErrorReply(StatusInternalServerError, "internal_error")
  }

  /** The reply for the outcome of a service call that answers with a value on success. */
  function ServiceReply<T>(r: Result<T, Error>, success: int): (reply: Reply)
    ensures r.Ok? <==> reply == Success(success)
    ensures r.Err? ==> reply == HandleServiceError(r.error)
  {
    match r
    case Ok(_) => Success(success)
    case Err(e) => HandleServiceError(e)
  }

  /** `parseID`: the path parameter as an unsigned 32-bit decimal, zero refused. */
  function ParseId(idStr: string): (id: Option<nat>)
    ensures id.Some? <==> idStr != [] && AllDigits(idStr) && 0 < Decimal.Value(idStr) <= MaxUint32
    ensures id.Some? ==> id.value == Decimal.Value(idStr)
  {
    var parsed := ParseUint32(idStr);
    if parsed.None? || parsed.value == 0 then None else parsed
  }

  /** Every id a category can have in a URL is read back from its decimal form. */
  lemma ParseIdOfFormat(id: nat)
    requires 0 < id <= MaxUint32
    ensures ParseId(FormatUint(id)) == Some(id)
  {
    ParseFormatRoundTrip(id);
  }

  /** The update request that carries no field at all, which `Update` refuses. */
  predicate IsEmptyUpdate(req: UpdateRequest) {
    req.name.None? && req.slug.None? && req.description.None? && req.imageUrl.None?
    && req.sortOrder.None? && req.status.None?
  }

  /** A request with no field would leave the category as it is, and it is the only one whose
      fields are all absent. */
  lemma EmptyUpdateIsNoOp(c: Category, req: UpdateRequest)
    requires IsEmptyUpdate(req)
    ensures req == UpdateRequest(None, None, None, None, None, None)
    ensures ApplyUpdate(c, req) == c
  {
    EmptyUpdateKeeps(c);
  }

  /** The listing request with the defaults of `List` in place of zero or empty values: page 1,
      20 per page, ordered by `sort_order` ascending. */
  function WithDefaults(req: ListRequest): (d: ListRequest)
  {
    ListRequest(if req.page == 0 then 1 else req.page,
                if req.pageSize == 0 then 20 else req.pageSize,
                req.status, req.search,
                if req.sortBy == "" then "sort_order" else req.sortBy,
                if req.sortDir == "" then "asc" else req.sortDir)
  }

  /** The defaults fill only what is missing: a value given is kept, a missing one replaced. */
  lemma DefaultsKeepGiven(req: ListRequest)
    ensures req.page != 0 ==> WithDefaults(req).page == req.page
    ensures req.pageSize != 0 ==> WithDefaults(req).pageSize == req.pageSize
    ensures req.sortBy != "" ==> WithDefaults(req).sortBy == req.sortBy
    ensures req.sortDir != "" ==> WithDefaults(req).sortDir == req.sortDir
    ensures WithDefaults(req).page != 0 && WithDefaults(req).pageSize != 0
    ensures WithDefaults(req).sortBy != "" && WithDefaults(req).sortDir != ""
    ensures WithDefaults(req).status == req.status && WithDefaults(req).search == req.search
  {
  }

  /** Filling the defaults twice is filling them once. */
  lemma DefaultsIdempotent(req: ListRequest)
    ensures WithDefaults(WithDefaults(req)) == WithDefaults(req)
  {
    DefaultsKeepGiven(req);
    DefaultsKeepGiven(WithDefaults(req));
  }

  /** A page size that binding let through is positive once the default is in place. */
  lemma DefaultPageSizePositive(req: ListRequest)
    requires req.pageSize >= 0
    ensures WithDefaults(req).pageSize > 0
  {
  }

  /** Every error `Create` can answer with is neither a missing category nor a taken slug,
      so it is a 500. */
  lemma CreateFailureIsInternal(e: Error)
    requires e == Wrapped("failed to generate unique slug", DatabaseError)
             || e == Wrapped("failed to generate unique slug", SlugExhausted)
             || e == Wrapped("failed to create category", DatabaseError)
             || e == Wrapped("failed to create category", DuplicateEntry)
    ensures HandleServiceError(e) == ErrorReply(StatusInternalServerError, "internal_error")
  {
  }

  class CategoryHandler {
    const svc: CategoryService

    constructor (svc: CategoryService)
      ensures this.svc == svc
    {
      this.svc := svc;
    }

    /** `handleValidationError`. */
    method HandleValidationError(c: Context, e: BindError)
      modifies c
      ensures c.reply == Some(ValidationReply(e, CategoryMessage))
      ensures c.keys == old(c.keys) && c.setCookies == old(c.setCookies)
    {
      if e.ValidationErrors? {
        var details := BuildDetails(e.errors, CategoryMessage);
        c.Respond(Fail(StatusBadRequest, "validation_error", details));
        return;
      }
      c.Respond(ErrorReply(StatusBadRequest, "bad_request"));
    }

    /** `parseID`: on a malformed or zero id the reply is 400 `invalid_id`. */
    method ParseIdParam(c: Context, idStr: string) returns (id: Option<nat>)
      modifies c
      ensures id == ParseId(idStr)
      ensures id.None? ==> c.reply == Some(ErrorReply(StatusBadRequest, "invalid_id"))
      ensures id.Some? ==> c.reply == old(c.reply)
      ensures c.keys == old(c.keys) && c.setCookies == old(c.setCookies)
    {
      id := ParseId(idStr);
      if id.None? {
        c.Respond(ErrorReply(StatusBadRequest, "invalid_id"));
      }
    }

    /** `Create`: 201 for a new category. The service refuses no request for its slug with
        `ErrSlugAlreadyExists`: a search that finds no free suffix, a slug a deleted category
        still holds, and a storage error all get 500. */
    method Create(c: Context, body: Bind<CreateRequest>)
      requires svc.db.Valid()
      modifies c, svc.db
      ensures svc.db.Valid()
      ensures old(svc.db.SlugsUnique()) ==> svc.db.SlugsUnique()
      ensures c.keys == old(c.keys) && c.setCookies == old(c.setCookies)
      ensures body.BindFailed? ==> c.reply == Some(ValidationReply(body.error, CategoryMessage)) && unchanged(svc.db)
      ensures body.Bound? && c.reply != Some(Success(StatusCreated)) ==>
                c.reply == Some(ErrorReply(StatusInternalServerError, "internal_error"))
                && svc.db.categories == old(svc.db.categories)
      ensures (body.Bound? && (CountCategoriesBySlug in old(svc.db.failing) || CreateCategory in old(svc.db.failing))) ==>
                c.reply == Some(ErrorReply(StatusInternalServerError, "internal_error"))
      ensures (body.Bound? && CountCategoriesBySlug !in old(svc.db.failing) && CreateCategory !in old(svc.db.failing)
               && old(svc.UniqueSlug(BaseSlug(body.value), 0)).Some?
               && old(svc.UniqueSlug(BaseSlug(body.value), 0)).value !in old(svc.db.deletedSlugs)) ==>
                c.reply == Some(Success(StatusCreated))
      ensures c.reply == Some(Success(StatusCreated)) ==>
                body.Bound?
                && exists id :: id !in old(svc.db.categories) && id in svc.db.categories
                                && svc.db.categories == old(svc.db.categories)[id := svc.db.categories[id]]
                                && svc.db.categories[id].name == TrimSpace(body.value.name)
      ensures c.reply != Some(Success(StatusCreated)) ==> svc.db.categories == old(svc.db.categories)
    {
      if body.BindFailed? {
        HandleValidationError(c, body.error);
        return;
      }
      var resp := svc.Create(body.value);
      var reply: Reply;
      if resp.Err? {
        CreateFailureIsInternal(resp.error);
        reply := HandleServiceError(resp.error);
      } else {
        reply := Success(StatusCreated);
      }
      c.Respond(reply);
    }

    /** `GetByID`. */
    method GetById(c: Context, idStr: string)
      modifies c
      ensures c.keys == old(c.keys) && c.setCookies == old(c.setCookies)
      ensures ParseId(idStr).None? ==> c.reply == Some(ErrorReply(StatusBadRequest, "invalid_id"))
      ensures ParseId(idStr).Some? ==> c.reply == Some(ServiceReply(svc.GetById(ParseId(idStr).value), StatusOK))
      ensures c.reply == Some(Success(StatusOK)) <==>
                ParseId(idStr).Some? && FindCategory !in svc.db.failing && ParseId(idStr).value in svc.db.categories
      ensures (ParseId(idStr).Some? && FindCategory !in svc.db.failing && ParseId(idStr).value !in svc.db.categories) ==>
                c.reply == Some(ErrorReply(StatusNotFound, "category_not_found"))
    {
      var id := ParseIdParam(c, idStr);
      if id.None? {
        return;
      }
      var resp := svc.GetById(id.value);
      c.Respond(ServiceReply(resp, StatusOK));
    }

    /** `Update`: the id, then the body, then the rule that at least one field is given; only
        then is the service asked. */
    method Update(c: Context, idStr: string, body: Bind<UpdateRequest>)
      requires svc.db.Valid()
      modifies c, svc.db
      ensures svc.db.Valid()
      ensures old(svc.db.SlugsUnique()) ==> svc.db.SlugsUnique()
      ensures c.keys == old(c.keys) && c.setCookies == old(c.setCookies)
      ensures ParseId(idStr).None? ==> c.reply == Some(ErrorReply(StatusBadRequest, "invalid_id")) && unchanged(svc.db)
      ensures ParseId(idStr).Some? && body.BindFailed? ==>
                c.reply == Some(ValidationReply(body.error, CategoryMessage)) && unchanged(svc.db)
      ensures ParseId(idStr).Some? && body.Bound? && IsEmptyUpdate(body.value) ==>
                c.reply == Some(ErrorReply(StatusBadRequest, "validation_error")) && unchanged(svc.db)
      ensures (ParseId(idStr).Some? && body.Bound? && !IsEmptyUpdate(body.value)
               && FindCategory !in old(svc.db.failing) && ParseId(idStr).value !in old(svc.db.categories)) ==>
                c.reply == Some(ErrorReply(StatusNotFound, "category_not_found")) && unchanged(svc.db)
      ensures (ParseId(idStr).Some? && body.Bound? && !IsEmptyUpdate(body.value)
               && FindCategory !in old(svc.db.failing) && CountCategoriesBySlug !in old(svc.db.failing)
               && old(svc.SlugConflicts(ParseId(idStr).value, body.value))) ==>
                c.reply == Some(ErrorReply(StatusConflict, "slug_exists")) && unchanged(svc.db)
      ensures c.reply != Some(Success(StatusOK)) ==> unchanged(svc.db)
      ensures c.reply == Some(Success(StatusOK)) ==>
                ParseId(idStr).Some? && body.Bound? && !IsEmptyUpdate(body.value)
                && ParseId(idStr).value in old(svc.db.categories)
                && svc.db.categories == old(svc.db.categories)[ParseId(idStr).value :=
                                          ApplyUpdate(old(svc.db.categories)[ParseId(idStr).value], body.value)]
    {
      var id := ParseIdParam(c, idStr);
      if id.None? {
        return;
      }
      if body.BindFailed? {
        HandleValidationError(c, body.error);
        return;
      }
      var req := body.value;
      if req.name.None? && req.slug.None? && req.description.None? && req.imageUrl.None?
         && req.sortOrder.None? && req.status.None? {
        c.Respond(ErrorReply(StatusBadRequest, "validation_error"));
        return;
      }
      UpdateExisting(c, id.value, req);
    }

    /** The last step of `Update`: the service applies a request that carries a field. */
    method UpdateExisting(c: Context, id: nat, req: UpdateRequest)
      requires svc.db.Valid()
      modifies c, svc.db
      ensures svc.db.Valid()
      ensures old(svc.db.SlugsUnique()) ==> svc.db.SlugsUnique()
      ensures c.keys == old(c.keys) && c.setCookies == old(c.setCookies)
      ensures FindCategory !in old(svc.db.failing) && id !in old(svc.db.categories) ==>
                c.reply == Some(ErrorReply(StatusNotFound, "category_not_found"))
      ensures (FindCategory !in old(svc.db.failing) && CountCategoriesBySlug !in old(svc.db.failing)
               && old(svc.SlugConflicts(id, req))) ==>
                c.reply == Some(ErrorReply(StatusConflict, "slug_exists"))
      ensures c.reply != Some(Success(StatusOK)) ==> unchanged(svc.db)
      ensures c.reply == Some(Success(StatusOK)) ==>
                id in old(svc.db.categories)
                && svc.db.categories == old(svc.db.categories)[id := ApplyUpdate(old(svc.db.categories)[id], req)]
    {
      var resp := svc.Update(id, req);
      c.Respond(ServiceReply(resp, StatusOK));
    }

    /** `Delete`: a soft delete; the category disappears from the store. */
    method Delete(c: Context, idStr: string)
      requires svc.db.Valid()
      modifies c, svc.db
      ensures svc.db.Valid()
      ensures old(svc.db.SlugsUnique()) ==> svc.db.SlugsUnique()
      ensures c.keys == old(c.keys) && c.setCookies == old(c.setCookies)
      ensures ParseId(idStr).None? ==> c.reply == Some(ErrorReply(StatusBadRequest, "invalid_id")) && unchanged(svc.db)
      ensures (ParseId(idStr).Some? && FindCategory !in old(svc.db.failing)
               && ParseId(idStr).value !in old(svc.db.categories)) ==>
                c.reply == Some(ErrorReply(StatusNotFound, "category_not_found"))
      ensures c.reply == Some(Success(StatusOK)) <==>
                ParseId(idStr).Some? && FindCategory !in old(svc.db.failing)
                && ParseId(idStr).value in old(svc.db.categories) && DeleteCategory !in old(svc.db.failing)
      ensures c.reply == Some(Success(StatusOK)) ==>
                svc.db.categories == old(svc.db.categories) - {ParseId(idStr).value}
      ensures c.reply != Some(Success(StatusOK)) ==> svc.db.categories == old(svc.db.categories)
    {
      var id := ParseIdParam(c, idStr);
      if id.None? {
        return;
      }
      var failed := svc.Delete(id.value);
      if failed.Some? {
        c.Respond(HandleServiceError(failed.value));
        return;
      }
      c.Respond(Success(StatusOK));
    }

    /** The defaults of `List`, set field by field on the bound request. */
    static method SetDefaults(req: ListRequest) returns (d: ListRequest)
      ensures d == WithDefaults(req)
    {
      d := req;
      if d.page == 0 {
        d := d.(page := 1);
      }
      if d.pageSize == 0 {
        d := d.(pageSize := 20);
      }
      if d.sortBy == "" {
        d := d.(sortBy := "sort_order");
      }
      if d.sortDir == "" {
        d := d.(sortDir := "asc");
      }
    }

    /** `List`: the defaults are filled in before the service builds the query; `query` is the
        repository's SQL. Binding refuses a negative page size, so the requirement on a bound
        request is what `ShouldBindQuery` guarantees. */
    method List(c: Context, body: Bind<ListRequest>, query: ListParams -> Result<RepoPage, Error>)
      requires body.Bound? ==> body.value.pageSize >= 0
      modifies c
      ensures c.keys == old(c.keys) && c.setCookies == old(c.setCookies)
      ensures body.BindFailed? ==> c.reply == Some(ValidationReply(body.error, CategoryMessage))
      ensures body.Bound? ==>
                (c.reply == Some(Success(StatusOK)) <==> query(ParamsFor(WithDefaults(body.value))).Ok?)
      ensures (body.Bound? && query(ParamsFor(WithDefaults(body.value))).Err?
               && !Is(query(ParamsFor(WithDefaults(body.value))).error, CategoryNotFound)
               && !Is(query(ParamsFor(WithDefaults(body.value))).error, SlugAlreadyExists)) ==>
                c.reply == Some(ErrorReply(StatusInternalServerError, "internal_error"))
    {
      if body.BindFailed? {
        HandleValidationError(c, body.error);
        return;
      }
      var req := SetDefaults(body.value);
      DefaultPageSizePositive(body.value);
      var resp := svc.List(req, query);
      c.Respond(ServiceReply(resp, StatusOK));
    }
  }
}
