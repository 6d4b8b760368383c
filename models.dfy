/** The stored records: users, their links to external identity providers, and product
    categories. Timestamps other than the e-mail verification time, soft-delete markers and the
    relationships gorm preloads are not part of this model. */
module Models {
  import opened Base

  const RoleUser: string := "user"
  const RoleAdmin: string := "admin"

  const UserStatusActive: string := "active"
  const UserStatusInactive: string := "inactive"
  const UserStatusBanned: string := "banned"

  const ProviderFacebook: string := "facebook"
  const ProviderTwitter: string := "twitter"
  const ProviderGoogle: string := "google"

  const CategoryStatusActive: string := "active"
  const CategoryStatusInactive: string := "inactive"

  /** A row of `users`. `passwordHash` is `None` for an account created through an identity
      provider; `emailVerifiedAt` is a time in seconds. */
  datatype User = User(
    id: nat,
    email: string,
    passwordHash: Option<string>,
    fullName: string,
    phone: Option<string>,
    address: Option<string>,
    avatarUrl: Option<string>,
    role: string,
    status: string,
    emailVerifiedAt: Option<int>)

  /** A row of `social_auths`: the account `userId` is known to `provider` as `providerUserId`. */
  datatype SocialAuth = SocialAuth(
    id: nat,
    userId: nat,
    provider: string,
    providerUserId: string,
    accessToken: Option<string>,
    refreshToken: Option<string>)

  /** A row of `categories`. */
  datatype Category = Category(
    id: nat,
    name: string,
    slug: string,
    description: Option<string>,
    imageUrl: Option<string>,
    sortOrder: int,
    status: string)

  /** gorm's `BeforeCreate` hook on a category: a row about to be inserted with no status is
      stored as active; every other field, and a status already set, is kept. */
  function BeforeCreate(c: Category): (d: Category)
    ensures c.status == "" ==> d.status == CategoryStatusActive
    ensures c.status != "" ==> d.status == c.status
    ensures d.status != ""
    ensures d.id == c.id && d.name == c.name && d.slug == c.slug && d.description == c.description
            && d.imageUrl == c.imageUrl && d.sortOrder == c.sortOrder
  {
    if c.status == "" then c.(status := CategoryStatusActive) else c
  }

  /** The user data every authentication response carries (`dto.ToUserResponse`). */
  datatype UserResponse = UserResponse(
    id: nat,
    email: string,
    fullName: string,
    phone: Option<string>,
    address: Option<string>,
    avatarUrl: Option<string>,
    role: string,
    status: string,
    emailVerifiedAt: Option<int>)

  /** `dto.ToUserResponse`: every field of the user except the password hash. */
  function ToUserResponse(u: User): (r: UserResponse)
    ensures r.id == u.id && r.email == u.email && r.fullName == u.fullName
    ensures r.phone == u.phone && r.address == u.address && r.avatarUrl == u.avatarUrl
    ensures r.role == u.role && r.status == u.status && r.emailVerifiedAt == u.emailVerifiedAt
  {
    UserResponse(u.id, u.email, u.fullName, u.phone, u.address, u.avatarUrl, u.role, u.status,
                 u.emailVerifiedAt)
  }

  /** The response never depends on the password hash, so it cannot leak it. */
  lemma ResponseHidesPasswordHash(u: User, h: Option<string>)
    ensures ToUserResponse(u.(passwordHash := h)) == ToUserResponse(u)
  {
  }
}
