/** The category service (internal/service/category_service.go): slugs derived from names, a
    bounded search for a free slug, creation, field-by-field update, deletion and paginated
    listing over the `categories` table. */
module CategoryService {
  import opened Base
  import opened Text
  import opened Decimal
  import opened Models
  import opened Errors
  import opened Store

  // ---------------------------------------------------------------------------------------
  // Slugs

  /** A character of the output alphabet `[a-z0-9-]`. */
  predicate IsSlugChar(c: char) {
    'a' <= c <= 'z' || '0' <= c <= '9' || c == '-'
  }

  predicate AllSlugChars(s: string) {
    forall i :: 0 <= i < |s| ==> IsSlugChar(s[i])
  }

  /** No two hyphens next to each other. */
  predicate NoDoubleHyphen(s: string) {
    forall i :: 0 <= i < |s| - 1 ==> !(s[i] == '-' && s[i + 1] == '-')
  }

  /** A well-formed slug: the output alphabet only, no `--`, no hyphen at either end. */
  predicate IsSlug(s: string) {
    AllSlugChars(s) && NoDoubleHyphen(s) && (s != [] ==> s[0] != '-' && s[|s| - 1] != '-')
  }

  /** `[^a-z0-9\-]+` replaced by nothing: every character outside the alphabet is dropped and
      every character inside it is kept. */
  function DropNonSlugChars(s: string): (r: string)
    ensures AllSlugChars(r)
    ensures forall c :: IsSlugChar(c) ==> multiset(r)[c] == multiset(s)[c]
    ensures forall c :: !IsSlugChar(c) ==> multiset(r)[c] == 0
    ensures AllSlugChars(s) ==> r == s
  {
    if s == [] then []
    else
      assert s == [s[0]] + s[1..];
      assert AllSlugChars(s) ==> AllSlugChars(s[1..]);
      if IsSlugChar(s[0]) then [s[0]] + DropNonSlugChars(s[1..]) else DropNonSlugChars(s[1..])
  }

  /** `-{2,}` replaced by `-`: each run of hyphens shrinks to one, and only hyphens go. */
  function CollapseHyphens(s: string): (r: string)
    ensures NoDoubleHyphen(r)
    ensures s != [] ==> r != [] && r[0] == s[0] && r[|r| - 1] == s[|s| - 1]
    ensures AllSlugChars(s) ==> AllSlugChars(r)
    ensures NoDoubleHyphen(s) ==> r == s
  {
    if |s| < 2 then s
    else
      assert s == [s[0]] + s[1..];
      assert NoDoubleHyphen(s) ==> NoDoubleHyphen(s[1..]);
      assert AllSlugChars(s) ==> AllSlugChars(s[1..]);
      if s[0] == '-' && s[1] == '-' then CollapseHyphens(s[1..])
      else
        var rest := CollapseHyphens(s[1..]);
        assert forall i :: 0 < i < |rest| + 1 ==> ([s[0]] + rest)[i] == rest[i - 1];
        [s[0]] + rest
  }

  /** Collapsing hyphen runs removes hyphens only: every other character keeps its count. */
  lemma {:induction false} CollapseHyphensKeepsOthers(s: string)
    ensures forall c :: c != '-' ==> multiset(CollapseHyphens(s))[c] == multiset(s)[c]
    decreases |s|
  {
    if |s| >= 2 {
      CollapseHyphensKeepsOthers(s[1..]);
      assert s == [s[0]] + s[1..];
    }
  }

  /** `generateSlug`: trim, lower-case, spaces and underscores to hyphens, drop everything
      outside `[a-z0-9-]`, collapse hyphen runs, trim hyphens. */
  function GenerateSlug(input: string): (slug: string)
    ensures IsSlug(slug)
  {
    var lowered := ToLower(TrimSpace(input));
    var hyphenated := ReplaceAll(ReplaceAll(lowered, ' ', '-'), '_', '-');
    var collapsed := CollapseHyphens(DropNonSlugChars(hyphenated));
    var slug := Trim(collapsed, '-');
    SliceKeepsShape(collapsed, slug);
    slug
  }

  /** A piece cut out of a string over the alphabet without `--` is one too. */
  lemma SliceKeepsShape(s: string, piece: string)
    requires AllSlugChars(s) && NoDoubleHyphen(s)
    requires exists i, j :: 0 <= i <= j <= |s| && piece == s[i..j]
    ensures AllSlugChars(piece) && NoDoubleHyphen(piece)
  {
    var i, j :| 0 <= i <= j <= |s| && piece == s[i..j];
    assert forall k :: 0 <= k < |piece| ==> piece[k] == s[i + k];
  }

  lemma TrimSpaceOfSlug(s: string)
    requires IsSlug(s)
    ensures TrimSpace(s) == s
  {
    if s != [] {
      SlugCharNotSpace(s[0]);
      SlugCharNotSpace(s[|s| - 1]);
    }
    TrimSpaceUnpadded(s);
  }

  lemma SlugCharNotSpace(c: char)
    requires IsSlugChar(c)
    ensures !IsSpace(c)
  {
  }

  lemma ToLowerOfSlug(s: string)
    requires AllSlugChars(s)
    ensures ToLower(s) == s
  {
    assert forall i :: 0 <= i < |s| ==> ToLower(s)[i] == s[i];
  }

  lemma ReplaceAllAbsent(s: string, from: char, to: char)
    requires forall i :: 0 <= i < |s| ==> s[i] != from
    ensures ReplaceAll(s, from, to) == s
  {
    assert forall i :: 0 <= i < |s| ==> ReplaceAll(s, from, to)[i] == s[i];
  }

  lemma TrimOfSlug(s: string)
    requires IsSlug(s)
    ensures Trim(s, '-') == s
  {
    assert TrimLeft(s, '-') == s;
    assert TrimRight(s, '-') == s;
  }

  /** A well-formed slug passes through every step of `GenerateSlug` unchanged. */
  lemma SlugIsFixedPoint(s: string)
    requires IsSlug(s)
    ensures GenerateSlug(s) == s
  {
    TrimSpaceOfSlug(s);
    ToLowerOfSlug(s);
    ReplaceAllAbsent(s, ' ', '-');
    ReplaceAllAbsent(s, '_', '-');
    assert DropNonSlugChars(s) == s;
    assert CollapseHyphens(s) == s;
    TrimOfSlug(s);
  }

  /** Slugging a slug changes nothing. */
  lemma GenerateSlugIdempotent(input: string)
    ensures GenerateSlug(GenerateSlug(input)) == GenerateSlug(input)
  {
    SlugIsFixedPoint(GenerateSlug(input));
  }

  /** A character of a plain name: an ASCII letter of either case, a digit or a space. */
  predicate IsPhraseChar(c: char) {
    'a' <= c <= 'z' || 'A' <= c <= 'Z' || '0' <= c <= '9' || c == ' '
  }

  /** Words of letters and digits separated by single spaces, with no space at either end. */
  predicate IsPhrase(s: string) {
    (forall i :: 0 <= i < |s| ==> IsPhraseChar(s[i]))
    && (forall i :: 0 <= i < |s| - 1 ==> !(s[i] == ' ' && s[i + 1] == ' '))
    && (s != [] ==> s[0] != ' ' && s[|s| - 1] != ' ')
  }

  /** A plain name keeps all its characters in order: the slug is the name lower-cased with
      each space turned into a hyphen ("Hot Drinks 2" becomes "hot-drinks-2"). */
  lemma GenerateSlugOfPhrase(s: string)
    requires IsPhrase(s)
    ensures GenerateSlug(s) == ReplaceAll(ToLower(s), ' ', '-')
  {
    TrimSpaceUnpadded(s);
    HyphenatedPhraseIsSlug(s);
    GenerateSlugOfSlugShaped(s);
  }

  /** Once trimming spaces changes nothing and the hyphenated text is a slug, the later steps
      of `GenerateSlug` change nothing either. */
  lemma GenerateSlugOfSlugShaped(s: string)
    requires TrimSpace(s) == s
    requires IsSlug(ReplaceAll(ToLower(s), ' ', '-'))
    ensures GenerateSlug(s) == ReplaceAll(ToLower(s), ' ', '-')
  {
    var h := ReplaceAll(ToLower(s), ' ', '-');
    ReplaceAllAbsent(h, '_', '-');
    assert DropNonSlugChars(h) == h;
    assert CollapseHyphens(h) == h;
    TrimOfSlug(h);
  }

  lemma HyphenatedPhraseIsSlug(s: string)
    requires IsPhrase(s)
    ensures IsSlug(ReplaceAll(ToLower(s), ' ', '-'))
  {
    var lowered := ToLower(s);
    var h := ReplaceAll(lowered, ' ', '-');
    forall i | 0 <= i < |s|
      ensures IsSlugChar(h[i]) && (h[i] == '-' <==> s[i] == ' ')
    {
      assert lowered[i] == LowerChar(s[i]);
    }
  }

  // ---------------------------------------------------------------------------------------
  // Requests and responses (internal/dto/category.go)

  /** `CreateCategoryRequest`: `None` is a field the client did not send. */
  datatype CreateRequest = CreateRequest(
    name: string,
    slug: Option<string>,
    description: Option<string>,
    imageUrl: Option<string>,
    sortOrder: Option<int>,
    status: Option<string>)

  /** `UpdateCategoryRequest`. */
  datatype UpdateRequest = UpdateRequest(
    name: Option<string>,
    slug: Option<string>,
    description: Option<string>,
    imageUrl: Option<string>,
    sortOrder: Option<int>,
    status: Option<string>)

  /** `CategoryResponse`, without the timestamps. */
  datatype CategoryResponse = CategoryResponse(
    id: nat,
    name: string,
    slug: string,
    description: Option<string>,
    imageUrl: Option<string>,
    sortOrder: int,
    status: string)

  /** `CategoryListRequest`. */
  datatype ListRequest = ListRequest(
    page: int, pageSize: int, status: string, search: string, sortBy: string, sortDir: string)

  /** `repository.CategoryListParams`. */
  datatype ListParams = ListParams(
    offset: int, limit: int, status: string, search: string, sortBy: string, sortDir: string)

  /** `PaginatedResponse` holding categories. */
  datatype PageResponse = PageResponse(
    items: seq<CategoryResponse>, total: nat, page: int, pageSize: int, totalPages: nat)

  /** `toCategoryResponse`: every stored field is copied unchanged. */
  function ToCategoryResponse(c: Category): (r: CategoryResponse)
    ensures r.id == c.id && r.slug == c.slug && r.status == c.status
    ensures r.name == c.name && r.description == c.description && r.imageUrl == c.imageUrl
    ensures r.sortOrder == c.sortOrder
  {
    CategoryResponse(c.id, c.name, c.slug, c.description, c.imageUrl, c.sortOrder, c.status)
  }

  /** The text an optional field is set to: its trimmed value, or nil when the field is absent
      or blank. */
  function NonBlank(o: Option<string>): (r: Option<string>)
    ensures r.Some? <==> o.Some? && TrimSpace(o.value) != ""
    ensures r.Some? ==> r.value == TrimSpace(o.value) && r.value != []
  {
    if o.Some? && TrimSpace(o.value) != "" then Some(TrimSpace(o.value)) else None
  }

  /** The slug a request asks for: its own `slug` when that is not blank. */
  function RequestedSlug(slug: Option<string>): (r: Option<string>)
    ensures r.Some? <==> slug.Some? && TrimSpace(slug.value) != ""
    ensures r.Some? ==> r.value == GenerateSlug(slug.value) && IsSlug(r.value)
  {
    if slug.Some? && TrimSpace(slug.value) != "" then Some(GenerateSlug(slug.value)) else None
  }

  /** The slug `Create` starts its search from. */
  function BaseSlug(req: CreateRequest): (slug: string)
    ensures IsSlug(slug)
    ensures RequestedSlug(req.slug).Some? ==> slug == RequestedSlug(req.slug).value
    ensures RequestedSlug(req.slug).None? ==> slug == GenerateSlug(req.name)
  {
    if req.slug.Some? && TrimSpace(req.slug.value) != "" then GenerateSlug(req.slug.value)
    else GenerateSlug(req.name)
  }

  // ---------------------------------------------------------------------------------------
  // The suffix search

  /** The highest suffix `ensureUniqueSlug` tries. */
  const MaxSlugSuffix: nat := 100

  /** The error of a search in which every suffix is taken. */
  const SlugExhausted: Error := Failure("could not generate unique slug")

  /** `fmt.Sprintf("%s-%d", slug, i)`. */
  function Candidate(slug: string, i: nat): (c: string)
    ensures |c| > |slug| + 1 && c[..|slug| + 1] == slug + "-"
  {
    slug + "-" + FormatUint(i)
  }

  /** Different suffixes give different candidates, so the search never asks twice. */
  lemma CandidatesDistinct(slug: string, i: nat, j: nat)
    requires Candidate(slug, i) == Candidate(slug, j)
    ensures i == j
  {
    assert FormatUint(i) == Candidate(slug, i)[|slug| + 1..];
    assert FormatUint(j) == Candidate(slug, j)[|slug| + 1..];
    FormatUintInjective(i, j);
  }

  // ---------------------------------------------------------------------------------------
  // Pagination

  /** `math.Ceil(float64(total) / float64(pageSize))`, in integers. */
  function CeilDiv(total: nat, pageSize: nat): (pages: nat)
    requires pageSize > 0
  {
    (total + pageSize - 1) / pageSize
  }

  /** The number of pages is the least count of `pageSize`-sized pages that holds every item. */
  lemma CeilDivBounds(total: nat, pageSize: nat)
    requires pageSize > 0
    ensures CeilDiv(total, pageSize) * pageSize >= total
    ensures CeilDiv(total, pageSize) == 0 || (CeilDiv(total, pageSize) - 1) * pageSize < total
  {
    var q := CeilDiv(total, pageSize);
    var m := (total + pageSize - 1) % pageSize;
    assert total + pageSize - 1 == q * pageSize + m;
    assert q * pageSize - pageSize == (q - 1) * pageSize;
  }

  /** The offset of page `page`: the items of the pages before it. */
  function Offset(page: int, pageSize: int): (offset: int)
  {
    (page - 1) * pageSize
  }

  /** The query `List` hands to the repository. */
  function ParamsFor(req: ListRequest): (p: ListParams)
    ensures p.offset == Offset(req.page, req.pageSize) && p.limit == req.pageSize
    ensures p.status == req.status && p.search == req.search
    ensures p.sortBy == req.sortBy && p.sortDir == req.sortDir
  {
    ListParams(Offset(req.page, req.pageSize), req.pageSize, req.status, req.search, req.sortBy,
               req.sortDir)
  }

  /** Every item position `k` below `total` lies on exactly one page, page `k / pageSize + 1`,
      and that page is one of the `totalPages` the response announces. */
  lemma EveryItemOnOnePage(total: nat, pageSize: nat, k: nat, page: int)
    requires pageSize > 0 && k < total
    ensures 1 <= k / pageSize + 1 <= CeilDiv(total, pageSize)
    ensures Offset(page, pageSize) <= k < Offset(page, pageSize) + pageSize <==> page == k / pageSize + 1
  {
    var p := k / pageSize + 1;
    var q := CeilDiv(total, pageSize);
    assert k == Offset(p, pageSize) + k % pageSize;
    NextOffset(p, pageSize);
    NextOffset(page, pageSize);
    CeilDivBounds(total, pageSize);
    if q < p {
      MultiplyMonotone(q, p - 1, pageSize);
    }
    if page < p {
      MultiplyMonotone(page, p - 1, pageSize);
    } else if page > p {
      MultiplyMonotone(p, page - 1, pageSize);
    }
  }

  /** Page `page + 1` starts where page `page` ends. */
  lemma NextOffset(page: int, pageSize: int)
    ensures Offset(page, pageSize) + pageSize == page * pageSize
  {
  }

  lemma MultiplyMonotone(a: int, b: int, n: nat)
    requires a <= b
    ensures a * n <= b * n
  {
  }

  // ---------------------------------------------------------------------------------------
  // Partial update

  /** The value an optional text field takes in an update: left as it was when the request
      does not carry it, cleared when it carries only blanks, its trimmed text otherwise. */
  function UpdatedText(current: Option<string>, requested: Option<string>): (r: Option<string>)
    ensures requested.None? ==> r == current
    ensures requested.Some? ==> r == NonBlank(requested)
  {
    if requested.None? then current
    else if TrimSpace(requested.value) == "" then None
    else Some(TrimSpace(requested.value))
  }

  /** Whether an update asks for a slug different from the category's current one. */
  predicate SlugChanges(c: Category, req: UpdateRequest) {
    RequestedSlug(req.slug).Some? && RequestedSlug(req.slug).value != c.slug
  }

  /** Whether an update is refused because the slug it asks for is held by another category;
      `takenElsewhere` is the answer to that question. */
  predicate SlugConflict(c: Category, req: UpdateRequest, takenElsewhere: bool) {
    SlugChanges(c, req) && takenElsewhere
  }

  /** The category after an update that was not refused: every field the request carries is
      applied, every other field is kept. */
  function ApplyUpdate(c: Category, req: UpdateRequest): (u: Category)
    ensures u.id == c.id
    ensures u.name == (if req.name.Some? then TrimSpace(req.name.value) else c.name)
    ensures u.slug == (if RequestedSlug(req.slug).Some? then RequestedSlug(req.slug).value else c.slug)
    ensures u.description == UpdatedText(c.description, req.description)
    ensures u.imageUrl == UpdatedText(c.imageUrl, req.imageUrl)
    ensures u.sortOrder == (if req.sortOrder.Some? then req.sortOrder.value else c.sortOrder)
    ensures u.status == (if req.status.Some? then req.status.value else c.status)
  {
    Category(c.id,
             if req.name.Some? then TrimSpace(req.name.value) else c.name,
             if req.slug.Some? && TrimSpace(req.slug.value) != "" then GenerateSlug(req.slug.value) else c.slug,
             UpdatedText(c.description, req.description),
             UpdatedText(c.imageUrl, req.imageUrl),
             if req.sortOrder.Some? then req.sortOrder.value else c.sortOrder,
             if req.status.Some? then req.status.value else c.status)
  }

  /** An update that carries no field leaves the category as it is. */
  lemma EmptyUpdateKeeps(c: Category)
    ensures ApplyUpdate(c, UpdateRequest(None, None, None, None, None, None)) == c
  {
  }

  /** Applying the same update twice gives what applying it once gives: every field an update
      sets depends on the request alone. */
  lemma ApplyUpdateIdempotent(c: Category, req: UpdateRequest)
    ensures ApplyUpdate(ApplyUpdate(c, req), req) == ApplyUpdate(c, req)
  {
  }

  /** A blank description or image URL in an update clears the field, whatever it held. */
  lemma BlankClears(c: Category, req: UpdateRequest)
    requires req.description.Some? && TrimSpace(req.description.value) == ""
    requires req.imageUrl.Some? && TrimSpace(req.imageUrl.value) == ""
    ensures ApplyUpdate(c, req).description.None? && ApplyUpdate(c, req).imageUrl.None?
  {
  }

  /** What the repository's `List` answers with: one page of rows and the number of rows that
      match the filter. */
  datatype RepoPage = RepoPage(rows: seq<Category>, total: nat)

  // ---------------------------------------------------------------------------------------
  // The service

  class CategoryService {
    const db: Database

    constructor (db: Database)
      ensures this.db == db
    {
      this.db := db;
    }

    /** Whether every candidate with a suffix from 2 up to, not including, `i` is taken. */
    ghost predicate TakenBelow(slug: string, excludeId: nat, i: nat)
      reads db
    {
      forall j :: 2 <= j < i ==> db.SlugTaken(Candidate(slug, j), excludeId)
    }

    /** The first `slug-j`, for `j` from `i` up to 100, that no category other than
        `excludeId` holds. */
    ghost function FirstFreeCandidate(slug: string, excludeId: nat, i: nat): (r: Option<string>)
      requires 2 <= i
      reads db
      ensures r.Some? ==>
        exists j :: i <= j <= MaxSlugSuffix && r.value == Candidate(slug, j) && !db.SlugTaken(r.value, excludeId)
                    && forall k :: i <= k < j ==> db.SlugTaken(Candidate(slug, k), excludeId)
      ensures r.None? <==> forall k :: i <= k <= MaxSlugSuffix ==> db.SlugTaken(Candidate(slug, k), excludeId)
      decreases MaxSlugSuffix + 1 - i
    {
      if i > MaxSlugSuffix then None
      else if !db.SlugTaken(Candidate(slug, i), excludeId) then Some(Candidate(slug, i))
      else FirstFreeCandidate(slug, excludeId, i + 1)
    }

    /** The slug `ensureUniqueSlug` settles on for the categories as they are now: `slug` when
        no category other than `excludeId` holds it, otherwise the first free `slug-i` with
        `i` from 2 to 100, and none when all of those are taken. */
    ghost function UniqueSlug(slug: string, excludeId: nat): (r: Option<string>)
      reads db
      ensures !db.SlugTaken(slug, excludeId) ==> r == Some(slug)
      ensures r.Some? ==> !db.SlugTaken(r.value, excludeId)
      ensures r.Some? && r.value != slug ==>
        exists i :: 2 <= i <= MaxSlugSuffix && r.value == Candidate(slug, i) && TakenBelow(slug, excludeId, i)
      ensures r.None? <==> db.SlugTaken(slug, excludeId) && TakenBelow(slug, excludeId, MaxSlugSuffix + 1)
    {
      if !db.SlugTaken(slug, excludeId) then Some(slug) else FirstFreeCandidate(slug, excludeId, 2)
    }

    /** `ensureUniqueSlug`: `slug` itself when it is free, otherwise `slug-i` for the least
        free `i` from 2 to 100; a failed query is passed on as it is. */
    method EnsureUniqueSlug(slug: string, excludeId: nat) returns (r: Result<string, Error>)
      ensures CountCategoriesBySlug in db.failing ==> r == Err(DatabaseError)
      ensures CountCategoriesBySlug !in db.failing ==>
        r == (if UniqueSlug(slug, excludeId).Some? then Ok(UniqueSlug(slug, excludeId).value) else Err(SlugExhausted))
      ensures r.Ok? ==> !db.SlugTaken(r.value, excludeId)
      ensures CountCategoriesBySlug !in db.failing && !db.SlugTaken(slug, excludeId) ==> r == Ok(slug)
      ensures r.Ok? && r.value != slug ==>
        db.SlugTaken(slug, excludeId)
        && exists i :: 2 <= i <= MaxSlugSuffix && r.value == Candidate(slug, i) && TakenBelow(slug, excludeId, i)
      ensures r.Err? && CountCategoriesBySlug !in db.failing ==>
        r == Err(SlugExhausted) && db.SlugTaken(slug, excludeId)
        && TakenBelow(slug, excludeId, MaxSlugSuffix + 1)
    {
      var exists_ := db.ExistsBySlug(slug, excludeId);
      if exists_.Err? {
        return Err(exists_.error);
      }
      if !exists_.value {
        return Ok(slug);
      }
      var i: nat := 2;
      while i <= MaxSlugSuffix
        invariant 2 <= i <= MaxSlugSuffix + 1
        invariant TakenBelow(slug, excludeId, i)
        invariant FirstFreeCandidate(slug, excludeId, 2) == FirstFreeCandidate(slug, excludeId, i)
      {
        var candidate := Candidate(slug, i);
        // `failing` is fixed for the whole call, so this query succeeds like the first one;
        // a query that fails only partway through the search is outside the model
        var taken := db.ExistsBySlug(candidate, excludeId);
        if !taken.value {
          return Ok(candidate);
        }
        i := i + 1;
      }
      return Err(SlugExhausted);
    }

    /** `GetByID`. */
    function GetById(id: nat): (r: Result<CategoryResponse, Error>)
      reads db
      ensures r.Ok? <==> FindCategory !in db.failing && id in db.categories
      ensures r.Ok? ==> r == Ok(ToCategoryResponse(db.categories[id]))
      ensures FindCategory !in db.failing && id !in db.categories ==> r == Err(CategoryNotFound)
      ensures FindCategory in db.failing ==> r == Err(Wrapped("failed to find category", DatabaseError))
    {
      match db.FindCategoryById(id)
      case Ok(c) => Ok(ToCategoryResponse(c))
      case Err(e) => if Is(e, RecordNotFound) then Err(CategoryNotFound)
                     else Err(Wrapped("failed to find category", e))
    }

    /** The row `Create` builds for a free slug, field by field. */
    static method NewCategory(req: CreateRequest, slug: string) returns (category: Category)
      ensures category.id == 0 && category.slug == slug && category.name == TrimSpace(req.name)
      ensures category.description == NonBlank(req.description)
      ensures category.imageUrl == NonBlank(req.imageUrl)
      ensures category.sortOrder == (if req.sortOrder.Some? then req.sortOrder.value else 0)
      ensures category.status == (if req.status.Some? then req.status.value else CategoryStatusActive)
    {
      category := Category(0, TrimSpace(req.name), slug, None, None, 0, CategoryStatusActive);
      if req.description.Some? {
        var trimmed := TrimSpace(req.description.value);
        if trimmed != "" {
          category := category.(description := Some(trimmed));
        }
      }
      if req.imageUrl.Some? {
        var trimmed := TrimSpace(req.imageUrl.value);
        if trimmed != "" {
          category := category.(imageUrl := Some(trimmed));
        }
      }
      if req.sortOrder.Some? {
        category := category.(sortOrder := req.sortOrder.value);
      }
      if req.status.Some? {
        category := category.(status := req.status.value);
      }
    }

    /** The first half of `Create`: the slug asked for, or derived from the name, made unique
        by the suffix search. */
    method ChooseSlug(req: CreateRequest) returns (r: Result<string, Error>)
      ensures CountCategoriesBySlug in db.failing ==> r == Err(DatabaseError)
      ensures r.Ok? ==>
        !db.SlugTaken(r.value, 0)
        && (r.value == BaseSlug(req)
            || exists i :: 2 <= i <= MaxSlugSuffix && r.value == Candidate(BaseSlug(req), i))
      ensures CountCategoriesBySlug !in db.failing && !db.SlugTaken(BaseSlug(req), 0) ==>
        r == Ok(BaseSlug(req))
      ensures r.Err? && CountCategoriesBySlug !in db.failing ==>
        r == Err(SlugExhausted) && TakenBelow(BaseSlug(req), 0, MaxSlugSuffix + 1)
      ensures CountCategoriesBySlug !in db.failing ==>
        r == (if UniqueSlug(BaseSlug(req), 0).Some? then Ok(UniqueSlug(BaseSlug(req), 0).value) else Err(SlugExhausted))
    {
      var slug := GenerateSlug(req.name);
      if req.slug.Some? && TrimSpace(req.slug.value) != "" {
        slug := GenerateSlug(req.slug.value);
      }
      r := EnsureUniqueSlug(slug, 0);
    }

    /** `Create`: the slug comes from `slug` when that is not blank and from the name otherwise,
        made unique by the suffix search; blank optional texts stay nil; the status defaults to
        active. */
    method Create(req: CreateRequest) returns (r: Result<CategoryResponse, Error>)
      requires db.Valid()
      modifies db
      ensures db.Valid()
      ensures db.users == old(db.users) && db.socials == old(db.socials) && db.failing == old(db.failing)
      ensures old(db.SlugsUnique()) ==> db.SlugsUnique()
      ensures db.deletedSlugs == old(db.deletedSlugs)
      ensures r.Err? ==> db.categories == old(db.categories)
      ensures r.Err? ==>
        r.error == Wrapped("failed to generate unique slug", DatabaseError)
        || r.error == Wrapped("failed to generate unique slug", SlugExhausted)
        || r.error == Wrapped("failed to create category", DatabaseError)
        || r.error == Wrapped("failed to create category", DuplicateEntry)
      ensures CountCategoriesBySlug in old(db.failing) ==>
        r == Err(Wrapped("failed to generate unique slug", DatabaseError))
      ensures CreateCategory in old(db.failing) ==> r.Err?
      ensures r.Ok? ==> r.value.id !in old(db.categories) && r.value.id in db.categories
      ensures r.Ok? ==> db.categories == old(db.categories)[r.value.id := db.categories[r.value.id]]
      ensures r.Ok? ==> r.value == ToCategoryResponse(db.categories[r.value.id])
      ensures r.Ok? ==>
        var row := db.categories[r.value.id];
        row.name == TrimSpace(req.name)
        && row.description == NonBlank(req.description) && row.imageUrl == NonBlank(req.imageUrl)
        && row.sortOrder == (if req.sortOrder.Some? then req.sortOrder.value else 0)
        && row.status == (if req.status.Some? && req.status.value != "" then req.status.value
                          else CategoryStatusActive)
      ensures r.Ok? ==>
        !old(db.SlugTaken(r.value.slug, 0))
        && (r.value.slug == BaseSlug(req)
            || exists i :: 2 <= i <= MaxSlugSuffix && r.value.slug == Candidate(BaseSlug(req), i))
      ensures CountCategoriesBySlug !in old(db.failing) && CreateCategory !in old(db.failing)
              && !old(db.SlugIndexed(BaseSlug(req), 0)) ==>
        r.Ok? && r.value.slug == BaseSlug(req)
      // every candidate taken
      ensures CountCategoriesBySlug !in old(db.failing) && old(UniqueSlug(BaseSlug(req), 0)).None? ==>
        r == Err(Wrapped("failed to generate unique slug", SlugExhausted))
      // the slug the suffix search settles on is inserted, unless a deleted category still holds it
      ensures CountCategoriesBySlug !in old(db.failing) && CreateCategory !in old(db.failing)
              && old(UniqueSlug(BaseSlug(req), 0)).Some? ==>
        var slug := old(UniqueSlug(BaseSlug(req), 0)).value;
        (slug !in old(db.deletedSlugs) ==> r.Ok? && r.value.slug == slug)
        && (slug in old(db.deletedSlugs) ==> r == Err(Wrapped("failed to create category", DuplicateEntry)))
    {
      var unique := ChooseSlug(req);
      if unique.Err? {
        return Err(Wrapped("failed to generate unique slug", unique.error));
      }
      var created := InsertNew(req, unique.value);
      if created.Err? {
        return Err(created.error);
      }
      r := Ok(ToCategoryResponse(created.value));
    }

    /** The second half of `Create`: the row for `req` under the free slug `slug` is inserted. */
    method InsertNew(req: CreateRequest, slug: string) returns (r: Result<Category, Error>)
      requires db.Valid()
      modifies db
      ensures db.Valid()
      ensures db.users == old(db.users) && db.socials == old(db.socials) && db.failing == old(db.failing)
      ensures old(db.SlugsUnique()) ==> db.SlugsUnique()
      ensures db.deletedSlugs == old(db.deletedSlugs)
      ensures CreateCategory in old(db.failing) ==>
        r == Err(Wrapped("failed to create category", DatabaseError)) && db.categories == old(db.categories)
      ensures CreateCategory !in old(db.failing) && old(db.SlugIndexed(slug, 0)) ==>
        r == Err(Wrapped("failed to create category", DuplicateEntry)) && db.categories == old(db.categories)
      ensures CreateCategory !in old(db.failing) && !old(db.SlugIndexed(slug, 0)) ==>
        r.Ok? && r.value.id !in old(db.categories) && db.categories == old(db.categories)[r.value.id := r.value]
        && r.value.slug == slug && r.value.name == TrimSpace(req.name)
        && r.value.description == NonBlank(req.description) && r.value.imageUrl == NonBlank(req.imageUrl)
        && r.value.sortOrder == (if req.sortOrder.Some? then req.sortOrder.value else 0)
        && r.value.status == (if req.status.Some? && req.status.value != "" then req.status.value
                              else CategoryStatusActive)
    {
      var category := NewCategory(req, slug);
      var created := db.InsertCategory(category);
      if created.Err? {
        return Err(Wrapped("failed to create category", created.error));
      }
      r := created;
    }

    /** Whether an update of category `id` is refused for its slug: the category exists, the
        update asks for a slug other than its current one, and another category holds it. */
    ghost predicate SlugConflicts(id: nat, req: UpdateRequest)
      reads db
    {
      id in db.categories && SlugChanges(db.categories[id], req)
      && db.SlugTaken(RequestedSlug(req.slug).value, id)
    }

    /** The fields `Update` sets after the slug, one after the other. */
    static method UpdateContent(category: Category, req: UpdateRequest) returns (c: Category)
      ensures c == category.(description := UpdatedText(category.description, req.description),
                             imageUrl := UpdatedText(category.imageUrl, req.imageUrl),
                             sortOrder := if req.sortOrder.Some? then req.sortOrder.value else category.sortOrder,
                             status := if req.status.Some? then req.status.value else category.status)
    {
      c := category;
      if req.description.Some? {
        var trimmed := TrimSpace(req.description.value);
        if trimmed == "" {
          c := c.(description := None);
        } else {
          c := c.(description := Some(trimmed));
        }
      }
      if req.imageUrl.Some? {
        var trimmed := TrimSpace(req.imageUrl.value);
        if trimmed == "" {
          c := c.(imageUrl := None);
        } else {
          c := c.(imageUrl := Some(trimmed));
        }
      }
      if req.sortOrder.Some? {
        c := c.(sortOrder := req.sortOrder.value);
      }
      if req.status.Some? {
        c := c.(status := req.status.value);
      }
    }

    /** The slug step of `Update`: a non-blank slug in the request is normalised and, when it
        differs from the current one, must not be held by another category than `id`. */
    method UpdateSlug(id: nat, category: Category, req: UpdateRequest) returns (r: Result<Category, Error>)
      ensures !SlugChanges(category, req) ==> r == Ok(category)
      ensures SlugChanges(category, req) && CountCategoriesBySlug in db.failing ==>
        r == Err(Wrapped("failed to check slug", DatabaseError))
      ensures SlugChanges(category, req) && CountCategoriesBySlug !in db.failing ==>
        if db.SlugTaken(RequestedSlug(req.slug).value, id) then r == Err(SlugAlreadyExists)
        else r == Ok(category.(slug := RequestedSlug(req.slug).value))
    {
      r := Ok(category);
      var requested := RequestedSlug(req.slug);
      if requested.Some? {
        var newSlug := requested.value;
        if newSlug != category.slug {
          var exists_ := db.ExistsBySlug(newSlug, id);
          if exists_.Err? {
            return Err(Wrapped("failed to check slug", exists_.error));
          }
          if exists_.value {
            return Err(SlugAlreadyExists);
          }
          r := Ok(category.(slug := newSlug));
        }
      }
    }

    /** `Update`: a missing category is `ErrCategoryNotFound`; a slug asked for that differs
        from the current one and is held by another category is `ErrSlugAlreadyExists`; in both
        cases nothing is saved. Otherwise each field the request carries is applied and the row
        is saved. */
    method Update(id: nat, req: UpdateRequest) returns (r: Result<CategoryResponse, Error>)
      requires db.Valid()
      modifies db
      ensures db.Valid()
      ensures db.users == old(db.users) && db.socials == old(db.socials) && db.failing == old(db.failing)
      ensures old(db.SlugsUnique()) ==> db.SlugsUnique()
      ensures db.deletedSlugs == old(db.deletedSlugs)
      ensures r.Err? ==> unchanged(db)
      ensures FindCategory !in old(db.failing) && id !in old(db.categories) ==> r == Err(CategoryNotFound)
      ensures (FindCategory !in old(db.failing) && CountCategoriesBySlug !in old(db.failing)
               && old(SlugConflicts(id, req))) ==> r == Err(SlugAlreadyExists)
      ensures r.Ok? ==> !old(SlugConflicts(id, req))
      ensures r.Err? ==>
        FindCategory in old(db.failing) || id !in old(db.categories) || SaveCategory in old(db.failing)
        || old(SlugConflicts(id, req))
        || (SlugChanges(old(db.categories)[id], req) && CountCategoriesBySlug in old(db.failing))
        || old(db.SlugIndexed(ApplyUpdate(db.categories[id], req).slug, id))
      // a slug no live category holds, but a deleted one still does, is refused by the index
      ensures FindCategory !in old(db.failing) && CountCategoriesBySlug !in old(db.failing)
              && SaveCategory !in old(db.failing) && id in old(db.categories) && !old(SlugConflicts(id, req))
              && ApplyUpdate(old(db.categories)[id], req).slug in old(db.deletedSlugs) ==>
        r == Err(Wrapped("failed to update category", DuplicateEntry))
      ensures r.Ok? ==>
        id in old(db.categories)
        && db.categories == old(db.categories)[id := ApplyUpdate(old(db.categories)[id], req)]
        && r.value == ToCategoryResponse(ApplyUpdate(old(db.categories)[id], req))
    {
      var found := db.FindCategoryById(id);
      if found.Err? {
        if Is(found.error, RecordNotFound) {
          return Err(CategoryNotFound);
        }
        return Err(Wrapped("failed to find category", found.error));
      }
      var category := found.value;
      ghost var before := category;

      if req.name.Some? {
        category := category.(name := TrimSpace(req.name.value));
      }
      var slugged := UpdateSlug(id, category, req);
      if slugged.Err? {
        return Err(slugged.error);
      }
      category := slugged.value;
      category := UpdateContent(category, req);
      assert category == ApplyUpdate(before, req);
      if db.SlugsUnique() && category.slug == before.slug {
        OwnSlugFree(db, id);
      }
      r := SaveUpdated(category);
    }

    /** The last step of `Update`: the row is saved, unless the unique index refuses its slug. */
    method SaveUpdated(category: Category) returns (r: Result<CategoryResponse, Error>)
      requires db.Valid() && category.id in db.categories
      modifies db
      ensures db.Valid()
      ensures db.users == old(db.users) && db.socials == old(db.socials) && db.failing == old(db.failing)
      ensures db.deletedSlugs == old(db.deletedSlugs)
      ensures old(db.SlugsUnique()) ==> db.SlugsUnique()
      ensures SaveCategory in old(db.failing) ==>
        r == Err(Wrapped("failed to update category", DatabaseError)) && unchanged(db)
      ensures SaveCategory !in old(db.failing) && old(db.SlugIndexed(category.slug, category.id)) ==>
        r == Err(Wrapped("failed to update category", DuplicateEntry)) && unchanged(db)
      ensures SaveCategory !in old(db.failing) && !old(db.SlugIndexed(category.slug, category.id)) ==>
        r == Ok(ToCategoryResponse(category)) && db.categories == old(db.categories)[category.id := category]
    {
      var saved := db.SaveCategoryRow(category);
      if saved.Some? {
        return Err(Wrapped("failed to update category", saved.value));
      }
      r := Ok(ToCategoryResponse(category));
    }

    /** `Delete`: a missing category is `ErrCategoryNotFound` and nothing is deleted. */
    method Delete(id: nat) returns (r: Option<Error>)
      requires db.Valid()
      modifies db
      ensures db.Valid()
      ensures db.users == old(db.users) && db.socials == old(db.socials) && db.failing == old(db.failing)
      ensures old(db.SlugsUnique()) ==> db.SlugsUnique()
      ensures FindCategory !in old(db.failing) && id !in old(db.categories) ==>
        r == Some(CategoryNotFound) && db.categories == old(db.categories)
      ensures FindCategory in old(db.failing) ==>
        r == Some(Wrapped("failed to find category", DatabaseError)) && unchanged(db)
      ensures FindCategory !in old(db.failing) && id in old(db.categories) && DeleteCategory in old(db.failing) ==>
        r == Some(Wrapped("failed to delete category", DatabaseError))
      ensures r.None? <==> FindCategory !in old(db.failing) && id in old(db.categories)
                           && DeleteCategory !in old(db.failing)
      ensures r.None? ==> db.categories == old(db.categories) - {id} && id !in db.categories
      ensures r.None? ==> db.deletedSlugs == old(db.deletedSlugs) + {old(db.categories)[id].slug}
      ensures r.Some? ==> db.categories == old(db.categories) && db.deletedSlugs == old(db.deletedSlugs)
    {
      var found := db.FindCategoryById(id);
      if found.Err? {
        if Is(found.error, RecordNotFound) {
          return Some(CategoryNotFound);
        }
        return Some(Wrapped("failed to find category", found.error));
      }
      var deleted := db.DeleteCategoryRow(id);
      if deleted.Some? {
        return Some(Wrapped("failed to delete category", deleted.value));
      }
      r := None;
    }

    /** `List`: the query for page `page` of size `pageSize`, then each row the repository
        answers with turned into a response, and the page count. The repository's filtering,
        ordering and paging (SQL) is `query`. A page size of at least 1 is what the handler's
        defaults and binding rules guarantee. */
    method List(req: ListRequest, query: ListParams -> Result<RepoPage, Error>)
      returns (r: Result<PageResponse, Error>)
      requires req.pageSize > 0
      ensures query(ParamsFor(req)).Err? <==> r.Err?
      ensures r.Err? ==> r.error == Wrapped("failed to list categories", query(ParamsFor(req)).error)
      ensures r.Ok? ==>
        var page := query(ParamsFor(req)).value;
        |r.value.items| == |page.rows|
        && (forall k :: 0 <= k < |page.rows| ==> r.value.items[k] == ToCategoryResponse(page.rows[k]))
        && r.value.total == page.total && r.value.page == req.page && r.value.pageSize == req.pageSize
        && r.value.totalPages * req.pageSize >= page.total
        && (r.value.totalPages == 0 || (r.value.totalPages - 1) * req.pageSize < page.total)
    {
      var params := ListParams(Offset(req.page, req.pageSize), req.pageSize, req.status, req.search,
                               req.sortBy, req.sortDir);
      var fetched := query(params);
      if fetched.Err? {
        return Err(Wrapped("failed to list categories", fetched.error));
      }
      var rows := fetched.value.rows;
      var items := new CategoryResponse[|rows|];
      var i := 0;
      while i < |rows|
        invariant 0 <= i <= |rows|
        invariant forall k :: 0 <= k < i ==> items[k] == ToCategoryResponse(rows[k])
      {
        items[i] := ToCategoryResponse(rows[i]);
        i := i + 1;
      }
      var totalPages := CeilDiv(fetched.value.total, req.pageSize);
      CeilDivBounds(fetched.value.total, req.pageSize);
      r := Ok(PageResponse(items[..], fetched.value.total, req.page, req.pageSize, totalPages));
    }
  }
}
