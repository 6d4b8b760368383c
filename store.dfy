/** The three tables the services read and write, with the repository operations they call.
    Each table is a map from primary key to row; keys are handed out by an auto-increment
    counter. Every operation named in `failing` answers with a database error instead of
    running, which is how the model reaches the services' storage-error paths. */
module Store {
  import opened Base
  import opened Models
  import opened Errors

  /** The repository operations that can fail. */
  datatype Op =
    | FindUser | FindUserByEmail | CountUsersByEmail | CreateUser | SaveUser
    | FindSocial | CreateSocial | UpdateTokens
    | FindCategory | CountCategoriesBySlug | CreateCategory | SaveCategory | DeleteCategory
    | Commit

  /** The error a failing operation returns. */
  const DatabaseError: Error := Failure("database error")

  /** The error MySQL answers with when a write would put a second row under a unique index
      (error 1062). */
  const DuplicateEntry: Error := Failure("duplicate entry")

  /** The rows a transaction can roll back. */
  datatype Snapshot = Snapshot(users: map<nat, User>, socials: map<nat, SocialAuth>)

  /** The lowest key of `m` whose row satisfies `matches`, looking only at keys from `k` on:
      the row gorm's `First` returns, since it orders by primary key. */
  function LowestMatch<T>(m: map<nat, T>, matches: T -> bool, k: nat, bound: nat): (r: Option<nat>)
    requires forall id :: id in m ==> id < bound
    ensures r.Some? ==> k <= r.value && r.value in m && matches(m[r.value])
    ensures r.Some? ==> forall id :: k <= id < r.value && id in m ==> !matches(m[id])
    ensures r.None? <==> forall id :: k <= id && id in m ==> !matches(m[id])
    decreases bound - k
  {
    if k >= bound then None
    else if k in m && matches(m[k]) then Some(k)
    else LowestMatch(m, matches, k + 1, bound)
  }

  class Database {
    var users: map<nat, User>
    var socials: map<nat, SocialAuth>
    var categories: map<nat, Category>
    var nextUserId: nat
    var nextSocialId: nat
    var nextCategoryId: nat
    /** The slugs of soft-deleted categories: the queries no longer see those rows, but the
        unique index on the slug column still holds them. */
    var deletedSlugs: set<string>
    /** The operations that currently fail. */
    var failing: set<Op>

    /** Keys are positive, below the counters, and equal to the id each row carries; every
        social link points at an existing user. */
    ghost predicate Valid()
      reads this
    {
      0 < nextUserId && 0 < nextSocialId && 0 < nextCategoryId
      && (forall id :: id in users ==> 0 < id < nextUserId && users[id].id == id)
      && (forall id :: id in socials ==> 0 < id < nextSocialId && socials[id].id == id)
      && (forall id :: id in categories ==> 0 < id < nextCategoryId && categories[id].id == id)
      && (forall id :: id in socials ==> socials[id].userId in users)
    }

    /** No two users share an e-mail address. */
    ghost predicate EmailsUnique()
      reads this
    {
      forall a, b :: a in users && b in users && users[a].email == users[b].email ==> a == b
    }

    /** The unique index on the slug column: no two categories share a slug, and none holds
        the slug of a deleted one. */
    ghost predicate SlugsUnique()
      reads this
    {
      (forall a, b :: a in categories && b in categories && categories[a].slug == categories[b].slug ==> a == b)
      && (forall id :: id in categories ==> categories[id].slug !in deletedSlugs)
    }

    /** An empty database. */
    constructor (failing: set<Op>)
      ensures Valid() && EmailsUnique() && SlugsUnique()
      ensures users == map[] && socials == map[] && categories == map[] && deletedSlugs == {}
      ensures this.failing == failing
    {
      users, socials, categories, deletedSlugs := map[], map[], map[], {};
      nextUserId, nextSocialId, nextCategoryId := 1, 1, 1;
      this.failing := failing;
    }

    // ---------------------------------------------------------------------------------------
    // users (internal/repository/user_repository.go)

    /** `UserRepository.FindByID`. */
    function FindUserById(id: nat): (r: Result<User, Error>)
      reads this
      ensures FindUser in failing ==> r == Err(DatabaseError)
      ensures FindUser !in failing ==> (r.Ok? <==> id in users) && (r.Ok? ==> r.value == users[id])
      ensures FindUser !in failing && id !in users ==> r == Err(RecordNotFound)
    {
      if FindUser in failing then Err(DatabaseError)
      else if id in users then Ok(users[id])
      else Err(RecordNotFound)
    }

    /** `UserRepository.FindByEmail`: the user with that address and the lowest id. */
    function UserByEmail(email: string): (r: Result<User, Error>)
      requires Valid()
      reads this
      ensures FindUserByEmail in failing ==> r == Err(DatabaseError)
      ensures FindUserByEmail !in failing ==>
        (r.Ok? <==> exists id :: id in users && users[id].email == email)
      ensures r.Ok? ==> r.value in users.Values && r.value.email == email
      ensures r.Ok? ==> forall id :: id in users && users[id].email == email ==> r.value.id <= id
      ensures FindUserByEmail !in failing && r.Err? ==> r.error == RecordNotFound
    {
      if FindUserByEmail in failing then Err(DatabaseError)
      else match LowestMatch(users, (u: User) => u.email == email, 0, nextUserId)
        case Some(id) => Ok(users[id])
        case None => Err(RecordNotFound)
    }

    /** `UserRepository.ExistsByEmail`. */
    function ExistsByEmail(email: string): (r: Result<bool, Error>)
      reads this
      ensures CountUsersByEmail in failing <==> r.Err?
      ensures r.Ok? ==> (r.value <==> exists id :: id in users && users[id].email == email)
    {
      if CountUsersByEmail in failing then Err(DatabaseError)
      else Ok(exists id :: id in users && users[id].email == email)
    }

    /** `UserRepository.Create`: the row gets the next id. */
    method InsertUser(u: User) returns (r: Result<User, Error>)
      requires Valid()
      modifies this
      ensures Valid()
      ensures CreateUser in old(failing) ==> r == Err(DatabaseError) && unchanged(this)
      ensures CreateUser !in old(failing) ==>
        r.Ok? && r.value == u.(id := old(nextUserId)) && old(nextUserId) !in old(users)
        && users == old(users)[r.value.id := r.value]
        && nextUserId == old(nextUserId) + 1
      ensures socials == old(socials) && categories == old(categories) && failing == old(failing)
      ensures deletedSlugs == old(deletedSlugs)
      ensures nextSocialId == old(nextSocialId) && nextCategoryId == old(nextCategoryId)
    {
      if CreateUser in failing {
        return Err(DatabaseError);
      }
      var row := u.(id := nextUserId);
      users := users[nextUserId := row];
      nextUserId := nextUserId + 1;
      r := Ok(row);
    }

    /** `UserRepository.Update` (gorm's `Save`): the row with the user's id is replaced. */
    method SaveUserRow(u: User) returns (r: Option<Error>)
      requires Valid() && u.id in users
      modifies this
      ensures Valid()
      ensures SaveUser in old(failing) ==> r == Some(DatabaseError) && unchanged(this)
      ensures SaveUser !in old(failing) ==> r == None && users == old(users)[u.id := u]
      ensures socials == old(socials) && categories == old(categories) && failing == old(failing)
      ensures deletedSlugs == old(deletedSlugs)
      ensures nextUserId == old(nextUserId) && nextSocialId == old(nextSocialId)
      ensures nextCategoryId == old(nextCategoryId)
    {
      if SaveUser in failing {
        return Some(DatabaseError);
      }
      users := users[u.id := u];
      r := None;
    }

    // ---------------------------------------------------------------------------------------
    // social links (internal/repository/social_auth_repository.go)

    /** `SocialAuthRepository.FindByProviderAndProviderUserID`: the link with the lowest id. */
    function FindSocialLink(provider: string, providerUserId: string): (r: Result<SocialAuth, Error>)
      requires Valid()
      reads this
      ensures FindSocial in failing ==> r == Err(DatabaseError)
      ensures FindSocial !in failing ==>
        (r.Ok? <==> exists id :: id in socials && socials[id].provider == provider
                                  && socials[id].providerUserId == providerUserId)
      ensures r.Ok? ==> r.value in socials.Values && r.value.provider == provider
                        && r.value.providerUserId == providerUserId
      ensures FindSocial !in failing && r.Err? ==> r.error == RecordNotFound
    {
      if FindSocial in failing then Err(DatabaseError)
      else match LowestMatch(socials, (a: SocialAuth) => a.provider == provider && a.providerUserId == providerUserId,
                             0, nextSocialId)
        case Some(id) => Ok(socials[id])
        case None => Err(RecordNotFound)
    }

    /** `SocialAuthRepository.Create`: the link gets the next id. */
    method InsertSocial(a: SocialAuth) returns (r: Result<SocialAuth, Error>)
      requires Valid() && a.userId in users
      modifies this
      ensures Valid()
      ensures CreateSocial in old(failing) ==> r == Err(DatabaseError) && unchanged(this)
      ensures CreateSocial !in old(failing) ==>
        r.Ok? && r.value == a.(id := old(nextSocialId)) && old(nextSocialId) !in old(socials)
        && socials == old(socials)[r.value.id := r.value]
        && nextSocialId == old(nextSocialId) + 1
      ensures users == old(users) && categories == old(categories) && failing == old(failing)
      ensures deletedSlugs == old(deletedSlugs)
      ensures nextUserId == old(nextUserId) && nextCategoryId == old(nextCategoryId)
    {
      if CreateSocial in failing {
        return Err(DatabaseError);
      }
      var row := a.(id := nextSocialId);
      socials := socials[nextSocialId := row];
      nextSocialId := nextSocialId + 1;
      r := Ok(row);
    }

    /** `SocialAuthRepository.UpdateTokens`: gorm's `Updates` with a map writes both columns,
        a nil pointer as NULL; no row with that id means nothing to update. */
    method UpdateLinkTokens(id: nat, accessToken: Option<string>, refreshToken: Option<string>)
      returns (r: Option<Error>)
      requires Valid()
      modifies this
      ensures Valid()
      ensures UpdateTokens in old(failing) ==> r == Some(DatabaseError) && unchanged(this)
      ensures UpdateTokens !in old(failing) ==> r == None
      ensures UpdateTokens !in old(failing) && id in old(socials) ==>
        socials == old(socials)[id := old(socials)[id].(accessToken := accessToken, refreshToken := refreshToken)]
      ensures UpdateTokens !in old(failing) && id !in old(socials) ==> socials == old(socials)
      ensures users == old(users) && categories == old(categories) && failing == old(failing)
      ensures deletedSlugs == old(deletedSlugs)
      ensures nextUserId == old(nextUserId) && nextSocialId == old(nextSocialId)
      ensures nextCategoryId == old(nextCategoryId)
    {
      if UpdateTokens in failing {
        return Some(DatabaseError);
      }
      if id in socials {
        socials := socials[id := socials[id].(accessToken := accessToken, refreshToken := refreshToken)];
      }
      r := None;
    }

    // ---------------------------------------------------------------------------------------
    // transactions (gorm's `DB.Transaction`)

    /** The rows a transaction started now would restore. */
    function Begin(): (s: Snapshot)
      reads this
      ensures s.users == users && s.socials == socials
    {
      Snapshot(users, socials)
    }

    /** Rolls the rows back to `s`. The auto-increment counters keep their values, as they do
        in MySQL. */
    method Rollback(s: Snapshot)
      requires Valid()
      requires forall id :: id in s.users ==> 0 < id < nextUserId && s.users[id].id == id
      requires forall id :: id in s.socials ==> 0 < id < nextSocialId && s.socials[id].id == id
      requires forall id :: id in s.socials ==> s.socials[id].userId in s.users
      modifies this
      ensures Valid()
      ensures users == s.users && socials == s.socials
      ensures categories == old(categories) && failing == old(failing) && deletedSlugs == old(deletedSlugs)
      ensures nextUserId == old(nextUserId) && nextSocialId == old(nextSocialId)
      ensures nextCategoryId == old(nextCategoryId)
    {
      users, socials := s.users, s.socials;
    }

    // ---------------------------------------------------------------------------------------
    // categories (internal/repository/category_repository.go)

    /** `CategoryRepository.FindByID`. */
    function FindCategoryById(id: nat): (r: Result<Category, Error>)
      reads this
      ensures FindCategory in failing ==> r == Err(DatabaseError)
      ensures FindCategory !in failing ==>
        (r.Ok? <==> id in categories) && (r.Ok? ==> r.value == categories[id])
      ensures FindCategory !in failing && id !in categories ==> r == Err(RecordNotFound)
    {
      if FindCategory in failing then Err(DatabaseError)
      else if id in categories then Ok(categories[id])
      else Err(RecordNotFound)
    }

    /** Whether a category other than `excludeId` holds `slug`; an `excludeId` of 0 excludes
        nothing. */
    ghost predicate SlugTaken(slug: string, excludeId: nat)
      reads this
    {
      exists id :: id in categories && categories[id].slug == slug && (excludeId == 0 || id != excludeId)
    }

    /** Whether the unique index refuses `slug` for a row with id `excludeId`: another live
        category or a deleted one holds it. */
    ghost predicate SlugIndexed(slug: string, excludeId: nat)
      reads this
    {
      slug in deletedSlugs || SlugTaken(slug, excludeId)
    }

    /** `CategoryRepository.ExistsBySlug`: gorm's default scope leaves deleted rows out. */
    function ExistsBySlug(slug: string, excludeId: nat): (r: Result<bool, Error>)
      reads this
      ensures CountCategoriesBySlug in failing <==> r.Err?
      ensures r.Ok? ==> (r.value <==> SlugTaken(slug, excludeId))
    {
      if CountCategoriesBySlug in failing then Err(DatabaseError)
      else Ok(exists id :: id in categories && categories[id].slug == slug && (excludeId == 0 || id != excludeId))
    }

    /** `CategoryRepository.Create`: the row, after gorm's `BeforeCreate` hook, gets the next
        id, unless the unique index already holds its slug. */
    method InsertCategory(c: Category) returns (r: Result<Category, Error>)
      requires Valid()
      modifies this
      ensures Valid()
      ensures CreateCategory in old(failing) ==> r == Err(DatabaseError) && unchanged(this)
      ensures CreateCategory !in old(failing) && old(SlugIndexed(c.slug, 0)) ==>
        r == Err(DuplicateEntry) && unchanged(this)
      ensures CreateCategory !in old(failing) && !old(SlugIndexed(c.slug, 0)) ==>
        r.Ok? && r.value == BeforeCreate(c).(id := old(nextCategoryId)) && old(nextCategoryId) !in old(categories)
        && categories == old(categories)[r.value.id := r.value]
        && nextCategoryId == old(nextCategoryId) + 1
      ensures old(SlugsUnique()) ==> SlugsUnique()
      ensures users == old(users) && socials == old(socials) && failing == old(failing)
      ensures deletedSlugs == old(deletedSlugs)
      ensures nextUserId == old(nextUserId) && nextSocialId == old(nextSocialId)
    {
      if CreateCategory in failing {
        return Err(DatabaseError);
      }
      if c.slug in deletedSlugs || exists id :: id in categories && categories[id].slug == c.slug {
        return Err(DuplicateEntry);
      }
      var row := BeforeCreate(c).(id := nextCategoryId);
      categories := categories[nextCategoryId := row];
      nextCategoryId := nextCategoryId + 1;
      r := Ok(row);
    }

    /** `CategoryRepository.Update` (gorm's `Save`), unless the unique index holds the new
        slug for another row. */
    method SaveCategoryRow(c: Category) returns (r: Option<Error>)
      requires Valid() && c.id in categories
      modifies this
      ensures Valid()
      ensures SaveCategory in old(failing) ==> r == Some(DatabaseError) && unchanged(this)
      ensures SaveCategory !in old(failing) && old(SlugIndexed(c.slug, c.id)) ==>
        r == Some(DuplicateEntry) && unchanged(this)
      ensures SaveCategory !in old(failing) && !old(SlugIndexed(c.slug, c.id)) ==>
        r == None && categories == old(categories)[c.id := c]
      ensures old(SlugsUnique()) ==> SlugsUnique()
      ensures users == old(users) && socials == old(socials) && failing == old(failing)
      ensures deletedSlugs == old(deletedSlugs)
      ensures nextUserId == old(nextUserId) && nextSocialId == old(nextSocialId)
      ensures nextCategoryId == old(nextCategoryId)
    {
      if SaveCategory in failing {
        return Some(DatabaseError);
      }
      if c.slug in deletedSlugs || exists id :: id in categories && categories[id].slug == c.slug && id != c.id {
        return Some(DuplicateEntry);
      }
      categories := categories[c.id := c];
      r := None;
    }

    /** `CategoryRepository.Delete`: a soft delete, after which no query sees the row, while
        the unique index keeps its slug. */
    method DeleteCategoryRow(id: nat) returns (r: Option<Error>)
      requires Valid()
      modifies this
      ensures Valid()
      ensures DeleteCategory in old(failing) ==> r == Some(DatabaseError) && unchanged(this)
      ensures DeleteCategory !in old(failing) ==> r == None && categories == old(categories) - {id}
      ensures DeleteCategory !in old(failing) && id in old(categories) ==>
        deletedSlugs == old(deletedSlugs) + {old(categories)[id].slug}
      ensures id !in old(categories) ==> deletedSlugs == old(deletedSlugs)
      ensures old(SlugsUnique()) ==> SlugsUnique()
      ensures users == old(users) && socials == old(socials) && failing == old(failing)
      ensures nextUserId == old(nextUserId) && nextSocialId == old(nextSocialId)
      ensures nextCategoryId == old(nextCategoryId)
    {
      if DeleteCategory in failing {
        return Some(DatabaseError);
      }
      if id in categories {
        deletedSlugs := deletedSlugs + {categories[id].slug};
      }
      categories := categories - {id};
      r := None;
    }
  }

  /** With the unique index intact, the index does not refuse a category's own slug. */
  lemma OwnSlugFree(db: Database, id: nat)
    requires db.Valid() && db.SlugsUnique() && id in db.categories
    ensures !db.SlugIndexed(db.categories[id].slug, id)
  {
  }
}
