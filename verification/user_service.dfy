/**
 * UserServiceImpl: profile reads and partial updates, the admin status
 * change and soft delete, the filtered user listing and the statistics
 * counts.
 */
module UserService {
  import opened Base
  import opened ResponseDto
  import opened Users

  const UserNotFound := "USER_NOT_FOUND"
  const ProfileNotFoundText := "User profile not found"
  const UpdateFailed := "UPDATE_FAILED"
  const ProfileUpdateFailedText := "Failed to update profile"
  const ProfileUpdatedText := "Profile updated successfully"
  const StatusUpdateFailedText := "Failed to update user status"
  const StatusUpdatedText := "User status updated successfully"
  const DeleteFailed := "DELETE_FAILED"
  const DeleteFailedText := "Failed to delete user"
  const DeletedText := "User deleted successfully"

  /** The fields of the incoming UserDTO that updateUserProfile reads; None is a null field. */
  datatype ProfilePatch = ProfilePatch(
    fullName: Option<string>,
    phone: Option<string>,
    country: Option<string>,
    language: Option<string>,
    profileImageUrl: Option<string>)

  datatype Step<T> = Step(response: ResponseDto<T>, users: seq<User>)

  /** Take the incoming value when it is present. */
  function Overwrite<T>(current: T, incoming: Option<T>): (r: T)
    ensures incoming.Some? ==> r == incoming.value
    ensures incoming.None? ==> r == current
  {
    if incoming.Some? then incoming.value else current
  }

  /** The five profile fields, each overwritten only by a non-null incoming
      value, and the update time. */
  function ApplyPatch(u: User, patch: ProfilePatch, now: Instant): (v: User)
    ensures v == u.(fullName := v.fullName, phone := v.phone, country := v.country,
                    language := v.language, profileImageUrl := v.profileImageUrl, updatedAt := now)
    ensures v.fullName == (if patch.fullName.Some? then patch.fullName else u.fullName)
    ensures v.phone == (if patch.phone.Some? then patch.phone else u.phone)
    ensures v.country == (if patch.country.Some? then patch.country else u.country)
    ensures v.language == Overwrite(u.language, patch.language)
    ensures v.profileImageUrl == (if patch.profileImageUrl.Some? then patch.profileImageUrl else u.profileImageUrl)
  {
    u.(fullName := if patch.fullName.Some? then patch.fullName else u.fullName,
       phone := if patch.phone.Some? then patch.phone else u.phone,
       country := if patch.country.Some? then patch.country else u.country,
       language := Overwrite(u.language, patch.language),
       profileImageUrl := if patch.profileImageUrl.Some? then patch.profileImageUrl else u.profileImageUrl,
       updatedAt := now)
  }

  /** An empty patch only refreshes the update time. */
  lemma EmptyPatchTouchesOnlyUpdatedAt(u: User, now: Instant)
    ensures ApplyPatch(u, ProfilePatch(None, None, None, None, None), now) == u.(updatedAt := now)
  {
  }

  /** getUserProfile. */
  function GetUserProfile(users: seq<User>, email: string): (r: ResponseDto<UserDto>)
    ensures r.success <==> exists i :: 0 <= i < |users| && users[i].email == email
    ensures r.success ==> r.data.Some? && r.data.value.email == email
    ensures !r.success ==> r.error == Some(ErrorDetails(UserNotFound, ProfileNotFoundText, None))
  {
    match FindByEmail(users, email)
    case None => Error(UserNotFound, ProfileNotFoundText)
    case Some(i) => Success(ToUserDto(users[i]))
  }

  /** updateUserProfile: a patch that would give the user another user's phone
      fails on the unique index and changes nothing. */
  function UpdateUserProfileSpec(users: seq<User>, email: string, patch: ProfilePatch, now: Instant): Step<UserDto>
  {
    match FindByEmail(users, email)
    case None => Step(Error(UpdateFailed, ProfileUpdateFailedText), users)
    case Some(i) =>
      var u := ApplyPatch(users[i], patch, now);
      if Clashes(users, u) then Step(Error(UpdateFailed, ProfileUpdateFailedText), users)
      else Step(SuccessWithMessage(ProfileUpdatedText, Some(ToUserDto(u))), users[i := u])
  }

  /** A successful profile update changes the one user with that e-mail, as
      the patch says, and keeps the unique indexes; a failed one changes nothing. */
  lemma UpdateUserProfileEffect(users: seq<User>, email: string, patch: ProfilePatch, now: Instant)
    requires UniqueUsers(users)
    ensures var st := UpdateUserProfileSpec(users, email, patch, now);
      !st.response.success ==> st.users == users
    ensures var st := UpdateUserProfileSpec(users, email, patch, now);
      st.response.success ==>
        UniqueUsers(st.users)
        && (exists i :: 0 <= i < |users| && users[i].email == email
              && st.users == users[i := ApplyPatch(users[i], patch, now)])
  {
    var st := UpdateUserProfileSpec(users, email, patch, now);
    if st.response.success {
      var i := FindByEmail(users, email).value;
      var u := ApplyPatch(users[i], patch, now);
      UpsertInPlace(users, i, u);
    }
  }

  /** Saving a user with the id of user i, when it clashes with nobody,
      replaces user i and keeps the unique indexes. */
  lemma UpsertInPlace(users: seq<User>, i: nat, u: User)
    requires UniqueUsers(users) && i < |users| && u.id == users[i].id && !Clashes(users, u)
    ensures Upsert(users, u) == users[i := u] && UniqueUsers(users[i := u])
  {
    FindersLocateUniqueUser(users, i);
    UpsertKeepsUnique(users, u);
  }

  /** isActive follows status: a user is active exactly when its status is ACTIVE. */
  predicate ActivityAgrees(u: User)
  {
    u.isActive <==> u.status == ACTIVE
  }

  /** updateUserStatus. */
  function UpdateUserStatusSpec(users: seq<User>, userId: string, status: UserStatus, now: Instant): Step<string>
  {
    match FindById(users, userId)
    case None => Step(Error(UpdateFailed, StatusUpdateFailedText), users)
    case Some(i) =>
      var u := users[i].(status := status, isActive := status == ACTIVE, updatedAt := now);
      Step(Success(StatusUpdatedText), users[i := u])
  }

  /** deleteUser: a soft delete; the user stays in the collection. */
  function DeleteUserSpec(users: seq<User>, userId: string, now: Instant): Step<string>
  {
    match FindById(users, userId)
    case None => Step(Error(DeleteFailed, DeleteFailedText), users)
    case Some(i) =>
      var u := users[i].(status := INACTIVE, isActive := false, updatedAt := now);
      Step(Success(DeletedText), users[i := u])
  }

  /** Both admin operations keep every user's isActive in step with its
      status, fail without change for an unknown id, and never remove a user:
      after deleteUser the user is still found, INACTIVE and inactive. */
  lemma AdminOperationsKeepActivity(users: seq<User>, userId: string, status: UserStatus, now: Instant)
    requires forall i :: 0 <= i < |users| ==> ActivityAgrees(users[i])
    ensures var st := UpdateUserStatusSpec(users, userId, status, now);
      |st.users| == |users| && forall i :: 0 <= i < |st.users| ==> ActivityAgrees(st.users[i])
    ensures var st := DeleteUserSpec(users, userId, now);
      |st.users| == |users| && forall i :: 0 <= i < |st.users| ==> ActivityAgrees(st.users[i])
    ensures FindById(users, userId).None? ==>
      UpdateUserStatusSpec(users, userId, status, now).users == users
      && DeleteUserSpec(users, userId, now).users == users
    ensures var st := DeleteUserSpec(users, userId, now);
      st.response.success ==>
        exists i :: 0 <= i < |st.users| && st.users[i].id == userId
                    && st.users[i].status == INACTIVE && !st.users[i].isActive
  {
    var st := DeleteUserSpec(users, userId, now);
    if st.response.success {
      var i := FindById(users, userId).value;
      assert st.users[i].id == userId;
    }
  }

  /** updateUserStatus succeeds exactly for a stored id: that user gets the
      new status, isActive exactly when the status is ACTIVE, and updatedAt
      now, while every other user is kept; an unknown id answers
      UPDATE_FAILED and changes nothing. */
  lemma UpdateUserStatusEffect(users: seq<User>, userId: string, status: UserStatus, now: Instant)
    requires UniqueUsers(users)
    ensures var st := UpdateUserStatusSpec(users, userId, status, now);
      st.response.success <==> exists k :: 0 <= k < |users| && users[k].id == userId
    ensures var st := UpdateUserStatusSpec(users, userId, status, now);
      !st.response.success ==> CodeOf(st.response) == Some(UpdateFailed) && st.users == users
    ensures var st := UpdateUserStatusSpec(users, userId, status, now);
      forall k :: 0 <= k < |users| && users[k].id == userId ==>
        |st.users| == |users|
        && st.users[k] == users[k].(status := status, isActive := status == ACTIVE, updatedAt := now)
        && forall j :: 0 <= j < |users| && j != k ==> st.users[j] == users[j]
  {
    forall k | 0 <= k < |users| && users[k].id == userId
      ensures FindById(users, userId) == Some(k)
    {
      FindersLocateUniqueUser(users, k);
    }
  }

  /** deleteUser succeeds exactly for a stored id and keeps that user in the
      collection, now INACTIVE, not active, and updated now, while every
      other user is kept; an unknown id answers DELETE_FAILED and changes
      nothing. */
  lemma DeleteUserEffect(users: seq<User>, userId: string, now: Instant)
    requires UniqueUsers(users)
    ensures var st := DeleteUserSpec(users, userId, now);
      st.response.success <==> exists k :: 0 <= k < |users| && users[k].id == userId
    ensures var st := DeleteUserSpec(users, userId, now);
      !st.response.success ==> CodeOf(st.response) == Some(DeleteFailed) && st.users == users
    ensures var st := DeleteUserSpec(users, userId, now);
      forall k :: 0 <= k < |users| && users[k].id == userId ==>
        |st.users| == |users|
        && st.users[k] == users[k].(status := INACTIVE, isActive := false, updatedAt := now)
        && forall j :: 0 <= j < |users| && j != k ==> st.users[j] == users[j]
  {
    forall k | 0 <= k < |users| && users[k].id == userId
      ensures FindById(users, userId) == Some(k)
    {
      FindersLocateUniqueUser(users, k);
    }
  }

  /** getAllUsers: the repository query chosen by which filters are given. */
  function GetAllUsers(users: seq<User>, role: Option<UserRole>, status: Option<UserStatus>): seq<User>
  {
    if role.Some? && status.Some? then FindByRoleAndStatus(users, role.value, status.value)
    else if role.Some? then FindByRole(users, role.value)
    else if status.Some? then FindByStatus(users, status.value)
    else users
  }

  /** Whatever the combination, the listing holds exactly the users matching
      every filter that was given. */
  lemma GetAllUsersFilters(users: seq<User>, role: Option<UserRole>, status: Option<UserStatus>, x: User)
    ensures x in GetAllUsers(users, role, status) <==>
      x in users && (role.None? || x.role == role.value) && (status.None? || x.status == status.value)
  {
  }

  datatype Statistics = Statistics(
    totalUsers: nat,
    activeUsers: nat,
    premiumUsers: nat,
    freeUsers: nat,
    newUsersToday: nat,
    newUsersThisMonth: nat)

  /** getUserStatistics, given the start of today and of this month. */
  function GetUserStatistics(users: seq<User>, today: Instant, monthStart: Instant): (st: Statistics)
    ensures st.totalUsers == |users|
    ensures st.activeUsers <= st.totalUsers && st.newUsersToday <= st.totalUsers
  {
    Statistics(|users|, CountByStatus(users, ACTIVE), CountByIsPremium(users, true), CountByIsPremium(users, false),
               CountByCreatedAtAfter(users, today), CountByCreatedAtAfter(users, monthStart))
  }

  /** The statistics agree with each other: premium and free users make up
      all users, and the users new today are among those new this month. */
  lemma StatisticsConsistent(users: seq<User>, today: Instant, monthStart: Instant)
    requires monthStart <= today
    ensures var st := GetUserStatistics(users, today, monthStart);
      st.premiumUsers + st.freeUsers == st.totalUsers && st.newUsersToday <= st.newUsersThisMonth
  {
    PremiumCountsPartition(users);
    CreatedCountsSplit(users, monthStart, today);
  }

  class UserServiceImpl {
    const userRepository: UserRepository

    constructor (userRepository: UserRepository)
      ensures this.userRepository == userRepository
    {
      this.userRepository := userRepository;
    }

    /** updateUserProfile. */
    method UpdateUserProfile(email: string, patch: ProfilePatch, now: Instant) returns (response: ResponseDto<UserDto>)
      requires userRepository.Valid()
      modifies userRepository
      ensures userRepository.Valid()
      ensures Step(response, userRepository.users)
        == UpdateUserProfileSpec(old(userRepository.users), email, patch, now)
    {
      var found := FindByEmail(userRepository.users, email);
      if found.None? {
        return Error(UpdateFailed, ProfileUpdateFailedText);
      }
      var i := found.value;
      var user := ApplyPatch(userRepository.users[i], patch, now);
      if !Clashes(userRepository.users, user) {
        UpsertInPlace(userRepository.users, i, user);
      }
      var saved := userRepository.Save(user);
      if !saved {
        return Error(UpdateFailed, ProfileUpdateFailedText);
      }
      response := SuccessWithMessage(ProfileUpdatedText, Some(ToUserDto(user)));
    }

    /** updateUserStatus. */
    method UpdateUserStatus(userId: string, status: UserStatus, now: Instant) returns (response: ResponseDto<string>)
      requires userRepository.Valid()
      modifies userRepository
      ensures userRepository.Valid()
      ensures Step(response, userRepository.users)
        == UpdateUserStatusSpec(old(userRepository.users), userId, status, now)
    {
      var found := FindById(userRepository.users, userId);
      if found.None? {
        return Error(UpdateFailed, StatusUpdateFailedText);
      }
      var i := found.value;
      var user := userRepository.users[i].(status := status, isActive := status == ACTIVE, updatedAt := now);
      ResaveInPlace(userRepository.users, i, user);
      var saved := userRepository.Save(user);
      response := Success(StatusUpdatedText);
    }

    /** deleteUser. */
    method DeleteUser(userId: string, now: Instant) returns (response: ResponseDto<string>)
      requires userRepository.Valid()
      modifies userRepository
      ensures userRepository.Valid()
      ensures Step(response, userRepository.users) == DeleteUserSpec(old(userRepository.users), userId, now)
    {
      var found := FindById(userRepository.users, userId);
      if found.None? {
        return Error(DeleteFailed, DeleteFailedText);
      }
      var i := found.value;
      var user := userRepository.users[i].(status := INACTIVE, isActive := false, updatedAt := now);
      ResaveInPlace(userRepository.users, i, user);
      var saved := userRepository.Save(user);
      response := Success(DeletedText);
    }
  }
}
