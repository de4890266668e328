/**
 * The User entity, its DTO, and the UserRepository queries over the users
 * collection.
 *
 * The collection is a sequence of users. Mongo's unique indexes on email,
 * username and phone become the UniqueUsers invariant, which the
 * repository's save keeps by refusing a user that would share a value with
 * another one.
 */
module Users {
  import opened Base
  import SubscriptionTypes

  datatype UserRole = USER | ADMIN | PREMIUM
  datatype UserStatus = ACTIVE | INACTIVE | SUSPENDED

  /** The constant name of a role, as name() and valueOf spell it. */
  function RoleName(r: UserRole): string
  {
    match r
    case USER => "USER"
    case ADMIN => "ADMIN"
    case PREMIUM => "PREMIUM"
  }

  /** UserRole.valueOf: the role whose name is exactly s, if any. */
  function RoleValueOf(s: string): (r: Option<UserRole>)
    ensures r.Some? ==> RoleName(r.value) == s
    ensures r.None? ==> forall role: UserRole :: RoleName(role) != s
  {
    if s == "USER" then Some(USER)
    else if s == "ADMIN" then Some(ADMIN)
    else if s == "PREMIUM" then Some(PREMIUM)
    else None
  }

  lemma RoleNamesRoundTrip(r: UserRole)
    ensures RoleValueOf(RoleName(r)) == Some(r)
  {
  }

  /**
   * A stored user. Strings and timestamps the source may leave null are
   * options; email and passwordHash are always set by registration, and the
   * boxed flags are never null in the modelled flows.
   */
  datatype User = User(
    id: string,
    username: Option<string>,
    email: string,
    passwordHash: string,
    firstName: Option<string>,
    lastName: Option<string>,
    fullName: Option<string>,
    profileImageUrl: Option<string>,
    phone: Option<string>,
    dateOfBirth: Option<Instant>,
    country: Option<string>,
    timezone: Option<string>,
    googleId: Option<string>,
    phoneVerified: bool,
    emailVerified: bool,
    resetPasswordToken: Option<string>,
    resetPasswordExpiry: Option<Instant>,
    isBlocked: bool,
    blockedAt: Option<Instant>,
    blockedReason: Option<string>,
    blockedByAdminId: Option<string>,
    language: string,
    role: UserRole,
    status: UserStatus,
    isActive: bool,
    isVerified: bool,
    isAdmin: bool,
    isPremium: bool,
    premiumExpiresAt: Option<Instant>,
    lastLoginAt: Option<Instant>,
    createdAt: Instant,
    updatedAt: Instant)

  const DefaultLanguage := "en"

  /** User.builder() given an id, an email and a password hash at time now:
      every other field takes its builder default, or null when it has none. */
  function Built(id: string, email: string, passwordHash: string, now: Instant): (u: User)
    ensures u.id == id && u.email == email && u.passwordHash == passwordHash
    ensures u.language == DefaultLanguage && u.role == USER && u.status == ACTIVE
    ensures u.isActive && !u.isVerified && !u.isAdmin && !u.isPremium
    ensures !u.phoneVerified && !u.emailVerified && !u.isBlocked
    ensures u.username.None? && u.phone.None? && u.fullName.None?
    ensures u.resetPasswordToken.None? && u.resetPasswordExpiry.None?
    ensures u.premiumExpiresAt.None? && u.lastLoginAt.None?
    ensures u.createdAt == now && u.updatedAt == now
  {
    User(id, None, email, passwordHash, None, None, None, None, None, None, None, None, None,
         false, false, None, None, false, None, None, None,
         DefaultLanguage, USER, ACTIVE, true, false, false, false, None, None, now, now)
  }

  /** The one-time code slot shared by e-mail verification and password reset:
      it holds a code exactly when it holds an expiry. */
  predicate CodeSlotConsistent(u: User)
  {
    u.resetPasswordToken.Some? <==> u.resetPasswordExpiry.Some?
  }

  // ---------------------------------------------------------------------------
  // UserDTO
  // ---------------------------------------------------------------------------

  datatype UserDto = UserDto(
    id: string,
    email: string,
    fullName: Option<string>,
    profileImageUrl: Option<string>,
    phone: Option<string>,
    country: Option<string>,
    language: string,
    role: UserRole,
    status: UserStatus,
    isActive: bool,
    isVerified: bool,
    isPremium: bool,
    subscriptionType: SubscriptionTypes.SubscriptionType,
    premiumExpiresAt: Option<Instant>,
    lastLoginAt: Option<Instant>,
    createdAt: Instant)

  /** convertToUserDTO (the same in AuthServiceImpl and UserServiceImpl). */
  function ToUserDto(u: User): (d: UserDto)
    ensures d.id == u.id && d.email == u.email && d.isPremium == u.isPremium
    ensures d.subscriptionType == SubscriptionTypes.PREMIUM <==> u.isPremium
  {
    UserDto(u.id, u.email, u.fullName, u.profileImageUrl, u.phone, u.country, u.language,
            u.role, u.status, u.isActive, u.isVerified, u.isPremium,
            if u.isPremium then SubscriptionTypes.PREMIUM else SubscriptionTypes.FREE,
            u.premiumExpiresAt, u.lastLoginAt, u.createdAt)
  }

  /** The DTO exposes neither the password hash, nor the one-time code slot,
      nor the blocking fields: changing them does not change the DTO. */
  lemma DtoHidesSecrets(u: User, hash: string, token: Option<string>, expiry: Option<Instant>, blocked: bool)
    ensures ToUserDto(u) == ToUserDto(u.(passwordHash := hash, resetPasswordToken := token,
                                         resetPasswordExpiry := expiry, isBlocked := blocked))
  {
  }

  // ---------------------------------------------------------------------------
  // Uniqueness
  // ---------------------------------------------------------------------------

  /** Two users collide on a unique index: same email, or the same present
      username, or the same present phone. */
  predicate SharesUniqueValue(a: User, b: User)
  {
    a.email == b.email
    || (a.username.Some? && a.username == b.username)
    || (a.phone.Some? && a.phone == b.phone)
  }

  predicate UniqueUsers(users: seq<User>)
  {
    forall i, j :: 0 <= i < j < |users| ==>
      users[i].id != users[j].id && !SharesUniqueValue(users[i], users[j])
  }

  /** Saving u would break a unique index: some user with another id shares a value with it. */
  predicate Clashes(users: seq<User>, u: User)
  {
    exists i :: 0 <= i < |users| && users[i].id != u.id && SharesUniqueValue(users[i], u)
  }

  // ---------------------------------------------------------------------------
  // Finders
  // ---------------------------------------------------------------------------

  /** Under the unique indexes, the user found by a field value is the only
      user holding it. */
  lemma UniqueMatch(users: seq<User>, p: User -> bool, i: nat)
    requires i < |users| && p(users[i])
    requires forall j :: 0 <= j < |users| && j != i ==> !p(users[j])
    ensures IndexWhere(users, p) == Some(i)
  {
  }

  function FindById(users: seq<User>, id: string): Option<nat>
  {
    IndexWhere(users, (u: User) => u.id == id)
  }

  function FindByEmail(users: seq<User>, email: string): Option<nat>
  {
    IndexWhere(users, (u: User) => u.email == email)
  }

  function FindByUsername(users: seq<User>, username: string): Option<nat>
  {
    IndexWhere(users, (u: User) => u.username == Some(username))
  }

  function FindByPhone(users: seq<User>, phone: string): Option<nat>
  {
    IndexWhere(users, (u: User) => u.phone == Some(phone))
  }

  function FindByGoogleId(users: seq<User>, googleId: string): Option<nat>
  {
    IndexWhere(users, (u: User) => u.googleId == Some(googleId))
  }

  function FindByResetPasswordToken(users: seq<User>, token: string): Option<nat>
  {
    IndexWhere(users, (u: User) => u.resetPasswordToken == Some(token))
  }

  /** With unique values, each finder returns the user holding the value. */
  lemma FindersLocateUniqueUser(users: seq<User>, i: nat)
    requires UniqueUsers(users) && i < |users|
    ensures FindById(users, users[i].id) == Some(i)
    ensures FindByEmail(users, users[i].email) == Some(i)
    ensures users[i].username.Some? ==> FindByUsername(users, users[i].username.value) == Some(i)
    ensures users[i].phone.Some? ==> FindByPhone(users, users[i].phone.value) == Some(i)
  {
    var u := users[i];
    forall j | 0 <= j < |users| && j != i
      ensures users[j].id != u.id && users[j].email != u.email
      ensures u.username.Some? ==> users[j].username != u.username
      ensures u.phone.Some? ==> users[j].phone != u.phone
    {
      if j < i { assert !SharesUniqueValue(users[j], users[i]); }
      else { assert !SharesUniqueValue(users[i], users[j]); }
    }
    UniqueMatch(users, (x: User) => x.id == u.id, i);
    UniqueMatch(users, (x: User) => x.email == u.email, i);
    if u.username.Some? {
      UniqueMatch(users, (x: User) => x.username == Some(u.username.value), i);
    }
    if u.phone.Some? {
      UniqueMatch(users, (x: User) => x.phone == Some(u.phone.value), i);
    }
  }

  /** The any-identifier query: email, username or phone equals the identifier. */
  predicate MatchesIdentifier(u: User, identifier: string)
  {
    u.email == identifier || u.username == Some(identifier) || u.phone == Some(identifier)
  }

  /** findByEmailOrUsernameOrPhone: a single-result query, so it yields a user
      only when exactly one matches (several matches raise, like no match). */
  function FindByEmailOrUsernameOrPhone(users: seq<User>, identifier: string): (r: Option<nat>)
    ensures r.Some? ==> r.value < |users| && MatchesIdentifier(users[r.value], identifier)
    ensures r.Some? ==> forall j :: 0 <= j < |users| && MatchesIdentifier(users[j], identifier) ==> j == r.value
    ensures r.None? <==>
      (forall i :: 0 <= i < |users| ==> !MatchesIdentifier(users[i], identifier))
      || exists i, j :: 0 <= i < j < |users| && MatchesIdentifier(users[i], identifier)
                                            && MatchesIdentifier(users[j], identifier)
  {
    match IndexWhere(users, (u: User) => MatchesIdentifier(u, identifier))
    case None => None
    case Some(i) =>
      var rest := IndexWhere(users[i + 1..], (u: User) => MatchesIdentifier(u, identifier));
      if rest.None? then Some(i) else None
  }

  /** A second match makes the any-identifier query fail. */
  lemma AmbiguousIdentifierFindsNothing(users: seq<User>, identifier: string, i: nat, j: nat)
    requires i < j < |users|
    requires MatchesIdentifier(users[i], identifier) && MatchesIdentifier(users[j], identifier)
    ensures FindByEmailOrUsernameOrPhone(users, identifier).None?
  {
  }

  /** existsByEmail, existsByUsername, existsByPhone. */
  predicate ExistsByEmail(users: seq<User>, email: string)
  {
    FindByEmail(users, email).Some?
  }

  predicate ExistsByUsername(users: seq<User>, username: string)
  {
    FindByUsername(users, username).Some?
  }

  predicate ExistsByPhone(users: seq<User>, phone: string)
  {
    FindByPhone(users, phone).Some?
  }

  lemma ExistsMeansSomeUserHolds(users: seq<User>, value: string)
    ensures ExistsByEmail(users, value) <==> exists i :: 0 <= i < |users| && users[i].email == value
    ensures ExistsByUsername(users, value) <==> exists i :: 0 <= i < |users| && users[i].username == Some(value)
    ensures ExistsByPhone(users, value) <==> exists i :: 0 <= i < |users| && users[i].phone == Some(value)
  {
  }

  // ---------------------------------------------------------------------------
  // Filters and counts
  // ---------------------------------------------------------------------------

  /** The users satisfying p, in store order. */
  function Where(users: seq<User>, p: User -> bool): (r: seq<User>)
    ensures |r| <= |users|
    ensures forall x :: x in r <==> x in users && p(x)
  {
    if |users| == 0 then []
    else if p(users[0]) then [users[0]] + Where(users[1..], p)
    else Where(users[1..], p)
  }

  function FindByRole(users: seq<User>, role: UserRole): seq<User>
  {
    Where(users, (u: User) => u.role == role)
  }

  function FindByStatus(users: seq<User>, status: UserStatus): seq<User>
  {
    Where(users, (u: User) => u.status == status)
  }

  function FindByRoleAndStatus(users: seq<User>, role: UserRole, status: UserStatus): seq<User>
  {
    Where(users, (u: User) => u.role == role && u.status == status)
  }

  function FindByIsBlockedTrue(users: seq<User>): seq<User>
  {
    Where(users, (u: User) => u.isBlocked)
  }

  /** findByIsPremiumTrueAndPremiumExpiresAtBefore: a missing expiry never matches. */
  function FindPremiumExpiringBefore(users: seq<User>, t: Instant): seq<User>
  {
    Where(users, (u: User) => u.isPremium && u.premiumExpiresAt.Some? && u.premiumExpiresAt.value < t)
  }

  function CountByRole(users: seq<User>, role: UserRole): nat
  {
    |FindByRole(users, role)|
  }

  function CountByStatus(users: seq<User>, status: UserStatus): nat
  {
    |FindByStatus(users, status)|
  }

  function CountByIsPremium(users: seq<User>, isPremium: bool): nat
  {
    |Where(users, (u: User) => u.isPremium == isPremium)|
  }

  /** countByCreatedAtAfter: its query is $gte, so the bound itself is counted. */
  function CountByCreatedAtAfter(users: seq<User>, t: Instant): nat
  {
    |Where(users, (u: User) => u.createdAt >= t)|
  }

  /** countByCreatedAtBetween: the half-open range [start, end). */
  function CountByCreatedAtBetween(users: seq<User>, start: Instant, end: Instant): nat
  {
    |Where(users, (u: User) => start <= u.createdAt < end)|
  }

  /** countByLastLoginAtAfter: $gte on lastLoginAt; users never logged in do not count. */
  function CountByLastLoginAtAfter(users: seq<User>, t: Instant): nat
  {
    |Where(users, (u: User) => u.lastLoginAt.Some? && u.lastLoginAt.value >= t)|
  }

  /** The filter of findByRoleAndStatus is the conjunction of the two single filters. */
  lemma RoleAndStatusFilter(users: seq<User>, role: UserRole, status: UserStatus, x: User)
    ensures x in FindByRoleAndStatus(users, role, status) <==>
            x in FindByRole(users, role) && x in FindByStatus(users, status)
  {
  }

  /** The two count queries agree: users created from a on split at any later
      b into those created before b and those created from b. */
  lemma {:induction false} CreatedCountsSplit(users: seq<User>, a: Instant, b: Instant)
    requires a <= b
    ensures CountByCreatedAtBetween(users, a, b) + CountByCreatedAtAfter(users, b)
         == CountByCreatedAtAfter(users, a)
  {
    if |users| > 0 {
      CreatedCountsSplit(users[1..], a, b);
    }
  }

  /** Every user is either premium or not: the two premium counts add up to the collection. */
  lemma {:induction false} PremiumCountsPartition(users: seq<User>)
    ensures CountByIsPremium(users, true) + CountByIsPremium(users, false) == |users|
  {
    if |users| > 0 {
      PremiumCountsPartition(users[1..]);
    }
  }

  // ---------------------------------------------------------------------------
  // save
  // ---------------------------------------------------------------------------

  /** MongoRepository.save: replace the user with the same id, or append. */
  function Upsert(users: seq<User>, u: User): (r: seq<User>)
    ensures FindById(users, u.id).Some? ==> |r| == |users|
    ensures FindById(users, u.id).None? ==> |r| == |users| + 1
  {
    match FindById(users, u.id)
    case Some(i) => users[i := u]
    case None => users + [u]
  }

  /** After save, the saved user is stored, users with other ids are kept,
      and nothing else appears. */
  lemma UpsertContents(users: seq<User>, u: User)
    ensures u in Upsert(users, u)
    ensures forall x :: x in users && x.id != u.id ==> x in Upsert(users, u)
    ensures forall x :: x in Upsert(users, u) ==> x == u || x in users
  {
    var r := Upsert(users, u);
    match FindById(users, u.id)
    case Some(i) =>
      assert r[i] == u;
      forall x | x in users && x.id != u.id ensures x in r {
        var k :| 0 <= k < |users| && users[k] == x;
        assert k != i && r[k] == x;
      }
      forall x | x in r ensures x == u || x in users {
        var k :| 0 <= k < |r| && r[k] == x;
        if k != i { assert users[k] == x; }
      }
    case None =>
      assert r[|users|] == u;
      assert forall k :: 0 <= k < |users| ==> r[k] == users[k];
  }

  /** Saving a user that clashes with nobody keeps the unique indexes. */
  lemma UpsertKeepsUnique(users: seq<User>, u: User)
    requires UniqueUsers(users) && !Clashes(users, u)
    ensures UniqueUsers(Upsert(users, u))
  {
    var r := Upsert(users, u);
    match FindById(users, u.id)
    case Some(k) =>
      forall i, j | 0 <= i < j < |r|
        ensures r[i].id != r[j].id && !SharesUniqueValue(r[i], r[j])
      {
        if i == k {
          assert users[j].id != u.id;
        } else if j == k {
          assert users[i].id != u.id;
        }
      }
    case None =>
      forall i, j | 0 <= i < j < |r|
        ensures r[i].id != r[j].id && !SharesUniqueValue(r[i], r[j])
      {
        if j == |users| {
          assert users[i].id != u.id;
        }
      }
  }

  /** The values a unique index looks at are the same in a and b. */
  predicate SameUniqueValues(a: User, b: User)
  {
    a.id == b.id && a.email == b.email && a.username == b.username && a.phone == b.phone
  }

  /** Saving back a stored user whose unique values are unchanged never
      clashes, and replaces that user in place. */
  lemma ResaveInPlace(users: seq<User>, i: nat, u: User)
    requires UniqueUsers(users) && i < |users| && SameUniqueValues(u, users[i])
    ensures !Clashes(users, u)
    ensures Upsert(users, u) == users[i := u]
    ensures UniqueUsers(users[i := u])
  {
    FindersLocateUniqueUser(users, i);
    forall j | 0 <= j < |users| && users[j].id != u.id
      ensures !SharesUniqueValue(users[j], u)
    {
      if j < i {
        assert !SharesUniqueValue(users[j], users[i]);
      } else {
        assert !SharesUniqueValue(users[i], users[j]);
      }
    }
    UpsertKeepsUnique(users, u);
  }

  /** A finder whose condition does not look at the replaced fields finds
      the same index after the replacement. */
  lemma FindUnaffected(users: seq<User>, p: User -> bool, i: nat, v: User)
    requires i < |users| && p(v) == p(users[i])
    ensures IndexWhere(users[i := v], p) == IndexWhere(users, p)
  {
    assert forall k :: 0 <= k < |users| ==> p(users[i := v][k]) == p(users[k]);
  }

  class UserRepository {
    var users: seq<User>

    ghost predicate Valid()
      reads this
    {
      UniqueUsers(users)
    }

    constructor ()
      ensures Valid() && users == []
    {
      users := [];
    }

    /** save: a user that would break a unique index is refused (the driver's
        duplicate-key error) and nothing changes. */
    method Save(u: User) returns (saved: bool)
      requires Valid()
      modifies this
      ensures Valid()
      ensures saved <==> !Clashes(old(users), u)
      ensures users == if saved then Upsert(old(users), u) else old(users)
    {
      if exists i :: 0 <= i < |users| && users[i].id != u.id && SharesUniqueValue(users[i], u) {
        return false;
      }
      UpsertKeepsUnique(users, u);
      users := Upsert(users, u);
      return true;
    }
  }
}
