/**
 * AuthServiceImpl: registration, the password and OTP logins, password
 * change and reset, and e-mail and phone verification, over the users
 * collection and the OTP ledger.
 *
 * Password hashing (PasswordEncoder), credential checking
 * (AuthenticationManager) and token minting and checking (JwtService) are
 * opaque: hashing and checking are function parameters, and a minted token
 * is represented by the request that was made for it (its subject and
 * claims). Each flow is a specification function over the stores; the
 * methods of AuthServiceImpl perform the same steps on the repositories
 * and are proved equal to it.
 */
module AuthService {
  import opened Base
  import Decimal
  import opened ResponseDto
  import opened Users
  import SubscriptionTypes
  import OtpStore
  import OtpService

  // Error codes and messages, as the flows return them.
  const EmailExists := "EMAIL_EXISTS"
  const EmailExistsText := "Email already registered"
  const UsernameExists := "USERNAME_EXISTS"
  const UsernameExistsText := "Username already taken"
  const PhoneExists := "PHONE_EXISTS"
  const PhoneExistsText := "Phone number already registered"
  const RegistrationFailed := "REGISTRATION_FAILED"
  const RegistrationFailedText := "Failed to register user"
  const RegisteredText := "User registered successfully. Verification OTP sent to email."
  const LoginFailed := "LOGIN_FAILED"
  const LoginFailedText := "Invalid email or password"
  const MultiLoginFailedText := "Invalid credentials"
  const OtpLoginFailedText := "Failed to login with OTP"
  const LoginSucceededText := "Login successful"
  const InvalidPassword := "INVALID_PASSWORD"
  const InvalidPasswordText := "Current password is incorrect"
  const PasswordChangeFailed := "PASSWORD_CHANGE_FAILED"
  const PasswordChangeFailedText := "Failed to change password"
  const PasswordChangedText := "Password changed successfully"
  const InvalidOtp := "INVALID_OTP"
  const OtpFailedText := "OTP verification failed"
  const PasswordResetFailed := "PASSWORD_RESET_FAILED"
  const PasswordResetFailedText := "Failed to reset password"
  const PasswordResetText := "Password reset successful"
  const UserNotFound := "USER_NOT_FOUND"
  const UserNotFoundText := "User not found"
  const PhoneVerifiedText := "Phone verified successfully"
  const OtpExpired := "OTP_EXPIRED"
  const OtpExpiredText := "OTP is expired or not present"
  const InvalidOtpText := "Invalid OTP provided"
  const EmailVerifiedText := "Email verified successfully"

  /** Lifetime of the e-mail verification code set at registration. */
  const VerificationCodeMinutes: int := 5
  /** The login type that switches multiLogin to OTP checking (compared ignoring case). */
  const OtpLoginType := "otp"

  datatype RegisterRequest = RegisterRequest(
    email: string,
    password: string,
    fullName: string,
    username: Option<string>,
    phone: Option<string>,
    role: string)

  /** The identity claims put into an access token. */
  datatype Claims = Claims(userId: string, role: UserRole, subscriptionType: string)

  /** A token minting request: the subject, and the extra claims (access
      tokens only; refresh tokens carry none). */
  datatype MintRequest = MintRequest(subject: string, claims: Option<Claims>)

  /** The body of a successful login: token, refresh token and the user. */
  datatype Grant = Grant(token: MintRequest, refreshToken: MintRequest, user: UserDto)

  /** The UserDetails handed to the token service. */
  datatype Principal = Principal(username: string, password: string, authority: string)

  /** The outcome of a flow that touches only the users collection. */
  datatype Step<T> = Step(response: ResponseDto<T>, users: seq<User>)

  /** The outcome of a flow that also verifies an OTP. */
  datatype OtpStep<T> = OtpStep(response: ResponseDto<T>, users: seq<User>, otps: seq<OtpStore.OtpVerification>)

  /** The subscriptionType claim. */
  function TierClaim(u: User): (tier: string)
    ensures tier == "PREMIUM" <==> u.isPremium
    ensures tier == SubscriptionTypes.Name(ToUserDto(u).subscriptionType)
  {
    if u.isPremium then "PREMIUM" else "FREE"
  }

  function ClaimsOf(u: User): Claims
  {
    Claims(u.id, u.role, TierClaim(u))
  }

  function PrincipalOf(u: User): Principal
  {
    Principal(u.email, u.passwordHash, "ROLE_" + RoleName(u.role))
  }

  /** What a login hands back for user u: both tokens have the user's e-mail as
      subject, only the access token carries the claims. */
  function GrantFor(u: User): (g: Grant)
    ensures g.token.subject == u.email && g.refreshToken.subject == u.email
    ensures g.token.claims == Some(Claims(u.id, u.role, TierClaim(u))) && g.refreshToken.claims.None?
    ensures g.user == ToUserDto(u)
  {
    Grant(MintRequest(u.email, Some(ClaimsOf(u))), MintRequest(u.email, None), ToUserDto(u))
  }

  // ---------------------------------------------------------------------------
  // register
  // ---------------------------------------------------------------------------

  /** A username is checked for uniqueness only when present and not blank. */
  predicate UsernameTaken(users: seq<User>, username: Option<string>)
  {
    username.Some? && !IsBlank(username.value) && ExistsByUsername(users, username.value)
  }

  /** A phone is checked for uniqueness only when present and not blank. */
  predicate PhoneTaken(users: seq<User>, phone: Option<string>)
  {
    phone.Some? && !IsBlank(phone.value) && ExistsByPhone(users, phone.value)
  }

  /** The user register builds, before the verification code is set. */
  function Registered(req: RegisterRequest, role: UserRole, id: string, imageUrl: Option<string>,
                      now: Instant, encode: string -> string): (u: User)
    ensures u.id == id && u.email == req.email && u.username == req.username && u.phone == req.phone
    ensures u.passwordHash == encode(req.password) && u.fullName == Some(req.fullName)
    ensures u.role == role && u.status == ACTIVE && u.isActive && !u.isVerified && !u.isPremium
    ensures u.createdAt == now && u.profileImageUrl == imageUrl
  {
    Built(id, req.email, encode(req.password), now).(
      username := req.username, phone := req.phone, fullName := Some(req.fullName),
      role := role, profileImageUrl := imageUrl)
  }

  /** The e-mail verification code for the draw (int)(Math.random() * 1000000),
      formatted with "%06d". */
  function VerificationCode(draw: int): (code: string)
    requires 0 <= draw < 1000000
    ensures |code| == 6 && Decimal.AllDigits(code) && Decimal.ValueOf(code) == draw
  {
    Decimal.SixDigitCode(draw);
    Decimal.ZeroPad(draw, 6)
  }

  /** Set the e-mail verification code and its expiry in the code slot. */
  function WithVerificationCode(u: User, draw: int, now: Instant): (v: User)
    requires 0 <= draw < 1000000
    ensures SameUniqueValues(v, u) && CodeSlotConsistent(v)
    ensures v.resetPasswordToken == Some(VerificationCode(draw))
    ensures v.resetPasswordExpiry == Some(now + VerificationCodeMinutes * SecondsPerMinute)
  {
    u.(resetPasswordToken := Some(VerificationCode(draw)),
       resetPasswordExpiry := Some(PlusMinutes(now, VerificationCodeMinutes)))
  }

  /** register. imageUrl is the upload's secure_url (None when there was no
      image or the upload failed); freshId is the id the store assigns. */
  function RegisterSpec(users: seq<User>, req: RegisterRequest, freshId: string, imageUrl: Option<string>,
                        draw: int, now: Instant, encode: string -> string): Step<UserDto>
    requires 0 <= draw < 1000000 && FindById(users, freshId).None?
  {
    if ExistsByEmail(users, req.email) then
      Step(Error(EmailExists, EmailExistsText), users)
    else if UsernameTaken(users, req.username) then
      Step(Error(UsernameExists, UsernameExistsText), users)
    else if PhoneTaken(users, req.phone) then
      Step(Error(PhoneExists, PhoneExistsText), users)
    else match RoleValueOf(ToUpper(req.role))
      case None => Step(Error(RegistrationFailed, RegistrationFailedText), users)
      case Some(role) =>
        var user := Registered(req, role, freshId, imageUrl, now, encode);
        if Clashes(users, user) then Step(Error(RegistrationFailed, RegistrationFailedText), users)
        else
          Step(SuccessWithMessage(RegisteredText, Some(ToUserDto(user))), users + [WithVerificationCode(user, draw, now)])
  }

  /** The checks run in order and the first collision decides the answer:
      a taken e-mail, then a taken non-blank username, then a taken non-blank
      phone, then a role name valueOf does not know; nothing is created
      unless registration succeeds. */
  lemma RegisterCollisions(users: seq<User>, req: RegisterRequest, freshId: string, imageUrl: Option<string>,
                           draw: int, now: Instant, encode: string -> string)
    requires 0 <= draw < 1000000 && FindById(users, freshId).None?
    ensures var st := RegisterSpec(users, req, freshId, imageUrl, draw, now, encode);
      (exists i :: 0 <= i < |users| && users[i].email == req.email) ==> CodeOf(st.response) == Some(EmailExists)
    ensures var st := RegisterSpec(users, req, freshId, imageUrl, draw, now, encode);
      (forall i :: 0 <= i < |users| ==> users[i].email != req.email)
      && req.username.Some? && !IsBlank(req.username.value)
      && (exists i :: 0 <= i < |users| && users[i].username == req.username)
      ==> CodeOf(st.response) == Some(UsernameExists)
    ensures var st := RegisterSpec(users, req, freshId, imageUrl, draw, now, encode);
      (forall i :: 0 <= i < |users| ==> users[i].email != req.email)
      && !UsernameTaken(users, req.username)
      && req.phone.Some? && !IsBlank(req.phone.value)
      && (exists i :: 0 <= i < |users| && users[i].phone == req.phone)
      ==> CodeOf(st.response) == Some(PhoneExists)
    ensures var st := RegisterSpec(users, req, freshId, imageUrl, draw, now, encode);
      (forall i :: 0 <= i < |users| ==> users[i].email != req.email)
      && !UsernameTaken(users, req.username) && !PhoneTaken(users, req.phone)
      && RoleValueOf(ToUpper(req.role)).None?
      ==> CodeOf(st.response) == Some(RegistrationFailed)
    ensures var st := RegisterSpec(users, req, freshId, imageUrl, draw, now, encode);
      !st.response.success ==> st.users == users
  {
    ExistsMeansSomeUserHolds(users, req.email);
    if req.username.Some? {
      ExistsMeansSomeUserHolds(users, req.username.value);
    }
    if req.phone.Some? {
      ExistsMeansSomeUserHolds(users, req.phone.value);
    }
  }

  /** Registration succeeds exactly when no stored user has the e-mail, the
      username and phone are free or blank, the role is known, and the new
      user breaks no unique index. */
  lemma RegisterSucceedsIff(users: seq<User>, req: RegisterRequest, freshId: string, imageUrl: Option<string>,
                            draw: int, now: Instant, encode: string -> string)
    requires 0 <= draw < 1000000 && FindById(users, freshId).None?
    ensures var st := RegisterSpec(users, req, freshId, imageUrl, draw, now, encode);
      st.response.success <==>
        (forall i :: 0 <= i < |users| ==> users[i].email != req.email)
        && !UsernameTaken(users, req.username) && !PhoneTaken(users, req.phone)
        && RoleValueOf(ToUpper(req.role)).Some?
        && !Clashes(users, Registered(req, RoleValueOf(ToUpper(req.role)).value, freshId, imageUrl, now, encode))
  {
    ExistsMeansSomeUserHolds(users, req.email);
  }

  /** A successful registration appends exactly one user: the new one, with
      the registration defaults, the role named by the request, and a fresh
      six-digit code that expires five minutes later. */
  lemma RegisteredUserShape(users: seq<User>, req: RegisterRequest, freshId: string, imageUrl: Option<string>,
                            draw: int, now: Instant, encode: string -> string)
    requires 0 <= draw < 1000000 && FindById(users, freshId).None?
    requires RegisterSpec(users, req, freshId, imageUrl, draw, now, encode).response.success
    ensures var st := RegisterSpec(users, req, freshId, imageUrl, draw, now, encode);
      |st.users| == |users| + 1 && st.users[..|users|] == users
      && var u := st.users[|users|];
      u.id == freshId && u.email == req.email && u.passwordHash == encode(req.password)
      && u.status == ACTIVE && u.isActive && !u.isVerified && !u.isPremium
      && RoleName(u.role) == ToUpper(req.role)
      && u.resetPasswordToken.Some? && |u.resetPasswordToken.value| == 6
      && Decimal.ValueOf(u.resetPasswordToken.value) == draw
      && u.resetPasswordExpiry == Some(now + 300)
      && st.response.data == Some(ToUserDto(u))
  {
    var role := RoleValueOf(ToUpper(req.role)).value;
    var user := Registered(req, role, freshId, imageUrl, now, encode);
    DtoHidesSecrets(user, user.passwordHash, Some(VerificationCode(draw)),
                    Some(PlusMinutes(now, VerificationCodeMinutes)), user.isBlocked);
  }

  // ---------------------------------------------------------------------------
  // login and multiLogin
  // ---------------------------------------------------------------------------

  /** login picks the lookup by the identifier: e-mail when it contains '@', else phone. */
  function LoginLookup(users: seq<User>, identifier: string): Option<nat>
  {
    if '@' in identifier then FindByEmail(users, identifier) else FindByPhone(users, identifier)
  }

  /** Stamp the login time on user i and hand back the grant. */
  function LoggedIn(users: seq<User>, i: nat, now: Instant): Step<Grant>
    requires i < |users|
  {
    var u := users[i].(lastLoginAt := Some(now));
    Step(SuccessWithMessage(LoginSucceededText, Some(GrantFor(u))), users[i := u])
  }

  /** login. authenticates(email, password) is the AuthenticationManager. */
  function LoginSpec(users: seq<User>, identifier: string, password: string, now: Instant,
                     authenticates: (string, string) -> bool): Step<Grant>
  {
    match LoginLookup(users, identifier)
    case None => Step(Error(LoginFailed, LoginFailedText), users)
    case Some(i) =>
      if authenticates(users[i].email, password) then LoggedIn(users, i, now)
      else Step(Error(LoginFailed, LoginFailedText), users)
  }

  /** login succeeds exactly for a user reached by the identifier's channel
      whose credentials authenticate; every failure is LOGIN_FAILED with no
      change and no token. */
  lemma LoginSucceedsIff(users: seq<User>, identifier: string, password: string, now: Instant,
                         authenticates: (string, string) -> bool)
    requires UniqueUsers(users)
    ensures var st := LoginSpec(users, identifier, password, now, authenticates);
      st.response.success <==>
        exists i :: 0 <= i < |users| && authenticates(users[i].email, password)
          && (if '@' in identifier then users[i].email == identifier else users[i].phone == Some(identifier))
    ensures var st := LoginSpec(users, identifier, password, now, authenticates);
      !st.response.success ==>
        st.users == users && st.response.data.None? && st.response.error.value.code == LoginFailed
  {
    var st := LoginSpec(users, identifier, password, now, authenticates);
    forall i | 0 <= i < |users| && authenticates(users[i].email, password)
      && (if '@' in identifier then users[i].email == identifier else users[i].phone == Some(identifier))
      ensures st.response.success
    {
      FindersLocateUniqueUser(users, i);
    }
  }

  /** login never reads isBlocked: blocking or unblocking a user changes
      neither the answer nor whom it logs in. */
  lemma LoginIgnoresBlocking(users: seq<User>, k: nat, blocked: bool, identifier: string, password: string,
                             now: Instant, authenticates: (string, string) -> bool)
    requires k < |users|
    ensures var flipped := users[k := users[k].(isBlocked := blocked)];
      LoginSpec(flipped, identifier, password, now, authenticates).response
        == LoginSpec(users, identifier, password, now, authenticates).response
  {
    var flipped := users[k := users[k].(isBlocked := blocked)];
    LookupIgnoresBlocking(users, k, blocked, identifier);
    var found := LoginLookup(users, identifier);
    if found.Some? {
      var i := found.value;
      if i == k {
        var stamped := users[k].(lastLoginAt := Some(now));
        GrantIgnoresBlocking(stamped, blocked);
        assert flipped[k].(lastLoginAt := Some(now)) == stamped.(isBlocked := blocked);
      } else {
        assert flipped[i] == users[i];
      }
    }
  }

  /** Blocking a user does not change whom login's lookup finds. */
  lemma LookupIgnoresBlocking(users: seq<User>, k: nat, blocked: bool, identifier: string)
    requires k < |users|
    ensures LoginLookup(users[k := users[k].(isBlocked := blocked)], identifier) == LoginLookup(users, identifier)
  {
    var v := users[k].(isBlocked := blocked);
    FindUnaffected(users, (u: User) => u.email == identifier, k, v);
    FindUnaffected(users, (u: User) => u.phone == Some(identifier), k, v);
  }

  /** Blocking a user does not change what a login of that user hands back. */
  lemma GrantIgnoresBlocking(u: User, blocked: bool)
    ensures GrantFor(u.(isBlocked := blocked)) == GrantFor(u)
  {
    DtoHidesSecrets(u, u.passwordHash, u.resetPasswordToken, u.resetPasswordExpiry, blocked);
    assert u.(passwordHash := u.passwordHash, resetPasswordToken := u.resetPasswordToken,
              resetPasswordExpiry := u.resetPasswordExpiry, isBlocked := blocked) == u.(isBlocked := blocked);
  }

  /** multiLogin. With loginType "otp" (any case) the password field carries a
      PHONE_VERIFICATION code and no password is checked; otherwise the user
      found by any identifier must authenticate. */
  function MultiLoginSpec(users: seq<User>, otps: seq<OtpStore.OtpVerification>, identifier: string,
                          password: string, loginType: Option<string>, now: Instant, maxAttempts: int,
                          authenticates: (string, string) -> bool): OtpStep<Grant>
  {
    if loginType.Some? && EqualsIgnoreCase(loginType.value, OtpLoginType) then
      var v := OtpService.VerifySpec(otps, identifier, password, OtpService.PhoneVerification, now, maxAttempts);
      if !v.ok then OtpStep(Error(InvalidOtp, OtpFailedText), users, v.store)
      else match FindByEmailOrUsernameOrPhone(users, identifier)
        case None => OtpStep(Error(LoginFailed, MultiLoginFailedText), users, v.store)
        case Some(i) => var st := LoggedIn(users, i, now); OtpStep(st.response, st.users, v.store)
    else match FindByEmailOrUsernameOrPhone(users, identifier)
      case None => OtpStep(Error(LoginFailed, MultiLoginFailedText), users, otps)
      case Some(i) =>
        if authenticates(users[i].email, password) then
          var st := LoggedIn(users, i, now); OtpStep(st.response, st.users, otps)
        else OtpStep(Error(LoginFailed, MultiLoginFailedText), users, otps)
  }

  /** In OTP mode multiLogin never consults the password check, and logs a
      user in only after a successful PHONE_VERIFICATION check; in password
      mode it leaves the OTP ledger alone. */
  lemma MultiLoginModes(users: seq<User>, otps: seq<OtpStore.OtpVerification>, identifier: string,
                        password: string, loginType: Option<string>, now: Instant, maxAttempts: int,
                        authenticates: (string, string) -> bool, other: (string, string) -> bool)
    ensures var st := MultiLoginSpec(users, otps, identifier, password, loginType, now, maxAttempts, authenticates);
      var v := OtpService.VerifySpec(otps, identifier, password, OtpService.PhoneVerification, now, maxAttempts);
      loginType.Some? && EqualsIgnoreCase(loginType.value, OtpLoginType) ==>
        st == MultiLoginSpec(users, otps, identifier, password, loginType, now, maxAttempts, other)
        && st.otps == v.store
        && (st.response.success ==> v.ok)
        && (!v.ok ==> st.users == users && st.response.error.value.code == InvalidOtp)
    ensures var st := MultiLoginSpec(users, otps, identifier, password, loginType, now, maxAttempts, authenticates);
      !(loginType.Some? && EqualsIgnoreCase(loginType.value, OtpLoginType)) ==> st.otps == otps
  {
  }

  /** OTP mode is selected by exactly the eight letter-case spellings of
      "otp", such as "OTP" and "Otp". */
  lemma OtpLoginTypeIgnoresCase(loginType: string)
    ensures EqualsIgnoreCase(loginType, OtpLoginType) <==>
      |loginType| == 3 && loginType[0] in "oO" && loginType[1] in "tT" && loginType[2] in "pP"
    ensures EqualsIgnoreCase("OTP", OtpLoginType) && EqualsIgnoreCase("Otp", OtpLoginType)
  {
    var target := ToUpper(OtpLoginType);
    assert target == "OTP";
    if |loginType| == 3 {
      if loginType[0] in "oO" && loginType[1] in "tT" && loginType[2] in "pP" {
        assert ToUpper(loginType) == target;
      }
      if ToUpper(loginType) == target {
        assert UpperAscii(loginType[0]) == 'O' && UpperAscii(loginType[1]) == 'T' && UpperAscii(loginType[2]) == 'P';
      }
    }
    assert ToUpper("OTP") == target == ToUpper("Otp");
  }

  // ---------------------------------------------------------------------------
  // changePassword and verifyEmail
  // ---------------------------------------------------------------------------

  /** changePassword. matches(raw, hash) and encode(raw) are the PasswordEncoder. */
  function ChangePasswordSpec(users: seq<User>, email: string, currentPassword: string, newPassword: string,
                              now: Instant, encode: string -> string, matches: (string, string) -> bool): Step<string>
  {
    match FindByEmail(users, email)
    case None => Step(Error(PasswordChangeFailed, PasswordChangeFailedText), users)
    case Some(i) =>
      if !matches(currentPassword, users[i].passwordHash) then Step(Error(InvalidPassword, InvalidPasswordText), users)
      else
        var u := users[i].(passwordHash := encode(newPassword), updatedAt := now);
        Step(Success(PasswordChangedText), users[i := u])
  }

  /** A wrong current password changes nothing; a right one changes the hash
      (and the update time) of that user only. */
  lemma ChangePasswordEffect(users: seq<User>, email: string, currentPassword: string, newPassword: string,
                             now: Instant, encode: string -> string, matches: (string, string) -> bool)
    requires UniqueUsers(users)
    ensures var st := ChangePasswordSpec(users, email, currentPassword, newPassword, now, encode, matches);
      st.response.success <==>
        exists i :: 0 <= i < |users| && users[i].email == email && matches(currentPassword, users[i].passwordHash)
    ensures var st := ChangePasswordSpec(users, email, currentPassword, newPassword, now, encode, matches);
      !st.response.success ==> st.users == users
    ensures var st := ChangePasswordSpec(users, email, currentPassword, newPassword, now, encode, matches);
      st.response.success ==> |st.users| == |users| && forall j :: 0 <= j < |users| ==>
        if users[j].email == email then st.users[j] == users[j].(passwordHash := encode(newPassword), updatedAt := now)
        else st.users[j] == users[j]
  {
    forall i | 0 <= i < |users| && users[i].email == email
      ensures FindByEmail(users, email) == Some(i)
    {
      FindersLocateUniqueUser(users, i);
    }
  }

  /** verifyEmail. */
  function VerifyEmailSpec(users: seq<User>, userId: string, otp: string, now: Instant): Step<string>
  {
    match FindById(users, userId)
    case None => Step(Error(UserNotFound, UserNotFoundText), users)
    case Some(i) =>
      var u := users[i];
      if u.resetPasswordToken.None? || u.resetPasswordExpiry.None? || now > u.resetPasswordExpiry.value then
        Step(Error(OtpExpired, OtpExpiredText), users)
      else if u.resetPasswordToken.value != otp then Step(Error(InvalidOtp, InvalidOtpText), users)
      else
        var verified := u.(isVerified := true, resetPasswordToken := None, resetPasswordExpiry := None);
        Step(Success(EmailVerifiedText), users[i := verified])
  }

  /** The code set by a successful registration verifies the new user's e-mail
      at any time up to its expiry; it is then cleared, so a second attempt
      answers OTP_EXPIRED. */
  lemma RegisterThenVerifyEmail(users: seq<User>, req: RegisterRequest, freshId: string, imageUrl: Option<string>,
                                draw: int, now: Instant, encode: string -> string, t: Instant, later: Instant)
    requires 0 <= draw < 1000000 && UniqueUsers(users) && FindById(users, freshId).None?
    requires RegisterSpec(users, req, freshId, imageUrl, draw, now, encode).response.success
    requires t <= now + 300
    ensures var registered := RegisterSpec(users, req, freshId, imageUrl, draw, now, encode).users;
      var first := VerifyEmailSpec(registered, freshId, VerificationCode(draw), t);
      first.response.success && first.users[|users|].isVerified
      && VerifyEmailSpec(first.users, freshId, VerificationCode(draw), later).response.error.value.code == OtpExpired
  {
    var role := RoleValueOf(ToUpper(req.role)).value;
    var user := Registered(req, role, freshId, imageUrl, now, encode);
    var registered := RegisterSpec(users, req, freshId, imageUrl, draw, now, encode).users;
    var k := |users|;
    assert registered[k].id == freshId;
    assert forall j :: 0 <= j < k ==> registered[j] == users[j];
    assert forall j :: 0 <= j < k ==> users[j].id != freshId;
    UniqueMatch(registered, (u: User) => u.id == freshId, k);
    var first := VerifyEmailSpec(registered, freshId, VerificationCode(draw), t).users;
    assert first[k].id == freshId;
    assert forall j :: 0 <= j < k ==> first[j] == users[j];
    UniqueMatch(first, (u: User) => u.id == freshId, k);
  }

  // ---------------------------------------------------------------------------
  // OTP-gated flows
  // ---------------------------------------------------------------------------

  /** resetPasswordWithOtp: a PASSWORD_RESET code, then the new password for
      the user found by any identifier. */
  function ResetPasswordWithOtpSpec(users: seq<User>, otps: seq<OtpStore.OtpVerification>, phoneOrEmail: string,
                                    otp: string, newPassword: string, now: Instant, maxAttempts: int,
                                    encode: string -> string): OtpStep<string>
  {
    var v := OtpService.VerifySpec(otps, phoneOrEmail, otp, OtpService.PasswordReset, now, maxAttempts);
    if !v.ok then OtpStep(Error(InvalidOtp, OtpFailedText), users, v.store)
    else match FindByEmailOrUsernameOrPhone(users, phoneOrEmail)
      case None => OtpStep(Error(PasswordResetFailed, PasswordResetFailedText), users, v.store)
      case Some(i) =>
        var u := users[i].(passwordHash := encode(newPassword), updatedAt := now);
        OtpStep(Success(PasswordResetText), users[i := u], v.store)
  }

  /** verifyPhoneNumber: a PHONE_VERIFICATION code sent to the user's phone.
      A user without a phone has no pending code, so the check fails. */
  function VerifyPhoneNumberSpec(users: seq<User>, otps: seq<OtpStore.OtpVerification>, userId: string,
                                 otp: string, now: Instant, maxAttempts: int): OtpStep<string>
  {
    match FindById(users, userId)
    case None => OtpStep(Error(UserNotFound, UserNotFoundText), users, otps)
    case Some(i) =>
      if users[i].phone.None? then OtpStep(Error(InvalidOtp, OtpFailedText), users, otps)
      else
        var v := OtpService.VerifySpec(otps, users[i].phone.value, otp, OtpService.PhoneVerification, now, maxAttempts);
        if !v.ok then OtpStep(Error(InvalidOtp, OtpFailedText), users, v.store)
        else OtpStep(Success(PhoneVerifiedText), users[i := users[i].(phoneVerified := true)], v.store)
  }

  /** loginWithOtp: a PHONE_VERIFICATION code, then a login of the user found
      by any identifier, without a password. */
  function LoginWithOtpSpec(users: seq<User>, otps: seq<OtpStore.OtpVerification>, phoneOrEmail: string,
                            otp: string, now: Instant, maxAttempts: int): OtpStep<Grant>
  {
    var v := OtpService.VerifySpec(otps, phoneOrEmail, otp, OtpService.PhoneVerification, now, maxAttempts);
    if !v.ok then OtpStep(Error(InvalidOtp, OtpFailedText), users, v.store)
    else match FindByEmailOrUsernameOrPhone(users, phoneOrEmail)
      case None => OtpStep(Error(LoginFailed, OtpLoginFailedText), users, v.store)
      case Some(i) => var st := LoggedIn(users, i, now); OtpStep(st.response, st.users, v.store)
  }

  /** The OTP-gated flows change no user unless the OTP check succeeds, and
      then answer INVALID_OTP. */
  lemma OtpGatedFlowsNeedVerifiedCode(users: seq<User>, otps: seq<OtpStore.OtpVerification>, id: string,
                                      otp: string, newPassword: string, now: Instant, maxAttempts: int,
                                      encode: string -> string)
    ensures !OtpService.VerifySpec(otps, id, otp, OtpService.PasswordReset, now, maxAttempts).ok ==>
      var st := ResetPasswordWithOtpSpec(users, otps, id, otp, newPassword, now, maxAttempts, encode);
      st.users == users && st.response.error.value.code == InvalidOtp
    ensures !OtpService.VerifySpec(otps, id, otp, OtpService.PhoneVerification, now, maxAttempts).ok ==>
      var st := LoginWithOtpSpec(users, otps, id, otp, now, maxAttempts);
      st.users == users && st.response.error.value.code == InvalidOtp
    ensures !OtpService.VerifySpec(otps, id, otp, OtpService.PhoneVerification, now, maxAttempts).ok ==>
      var st := MultiLoginSpec(users, otps, id, otp, Some(OtpLoginType), now, maxAttempts, (e: string, p: string) => false);
      st.users == users && st.response.error.value.code == InvalidOtp
    ensures var st := VerifyPhoneNumberSpec(users, otps, id, otp, now, maxAttempts);
      st.response.success ==>
        |st.users| == |users|
        && (exists i :: 0 <= i < |users| && users[i].id == id && users[i].phone.Some?
              && OtpService.VerifySpec(otps, users[i].phone.value, otp, OtpService.PhoneVerification, now, maxAttempts).ok
              && st.users == users[i := users[i].(phoneVerified := true)])
    ensures var st := VerifyPhoneNumberSpec(users, otps, id, otp, now, maxAttempts);
      !st.response.success ==> st.users == users
  {
    var st := VerifyPhoneNumberSpec(users, otps, id, otp, now, maxAttempts);
    if st.response.success {
      var i := FindById(users, id).value;
      assert users[i].id == id;
    }
  }

  /** The password a reset installs is the encoded new password, on the one
      user the identifier names. */
  lemma ResetInstallsNewPassword(users: seq<User>, otps: seq<OtpStore.OtpVerification>, phoneOrEmail: string,
                                 otp: string, newPassword: string, now: Instant, maxAttempts: int,
                                 encode: string -> string)
    ensures var st := ResetPasswordWithOtpSpec(users, otps, phoneOrEmail, otp, newPassword, now, maxAttempts, encode);
      st.response.success ==>
        OtpService.VerifySpec(otps, phoneOrEmail, otp, OtpService.PasswordReset, now, maxAttempts).ok
        && (exists i :: 0 <= i < |users| && MatchesIdentifier(users[i], phoneOrEmail)
              && st.users == users[i := users[i].(passwordHash := encode(newPassword), updatedAt := now)])
  {
    var st := ResetPasswordWithOtpSpec(users, otps, phoneOrEmail, otp, newPassword, now, maxAttempts, encode);
    if st.response.success {
      var i := FindByEmailOrUsernameOrPhone(users, phoneOrEmail).value;
      assert MatchesIdentifier(users[i], phoneOrEmail);
    }
  }

  // ---------------------------------------------------------------------------
  // validateToken and isUserBlocked
  // ---------------------------------------------------------------------------

  /** validateToken. subjectOf is the token's subject (None when it cannot be
      read) and tokenValid the signature and claims check against a principal. */
  function ValidateToken(users: seq<User>, token: string, subjectOf: string -> Option<string>,
                         tokenValid: (string, Principal) -> bool): (valid: bool)
    ensures valid ==> subjectOf(token).Some?
    ensures valid ==>
      exists i :: 0 <= i < |users| && users[i].email == subjectOf(token).value
                  && tokenValid(token, PrincipalOf(users[i]))
  {
    match subjectOf(token)
    case None => false
    case Some(email) =>
      match FindByEmail(users, email)
      case None => false
      case Some(i) => tokenValid(token, PrincipalOf(users[i]))
  }

  /** Under unique e-mails a token is valid exactly when its subject can be
      read, names a stored user, and the token checks against that user's
      principal. */
  lemma ValidateTokenExactly(users: seq<User>, token: string, subjectOf: string -> Option<string>,
                             tokenValid: (string, Principal) -> bool)
    requires UniqueUsers(users)
    ensures ValidateToken(users, token, subjectOf, tokenValid) <==>
      subjectOf(token).Some?
      && exists i :: 0 <= i < |users| && users[i].email == subjectOf(token).value
                     && tokenValid(token, PrincipalOf(users[i]))
  {
    if subjectOf(token).Some? {
      var email := subjectOf(token).value;
      if i :| 0 <= i < |users| && users[i].email == email && tokenValid(token, PrincipalOf(users[i])) {
        FindersLocateUniqueUser(users, i);
      }
    }
  }

  /** isUserBlocked: although its argument is called userId, the user is
      looked up by e-mail. */
  function IsUserBlocked(users: seq<User>, userId: string): (blocked: bool)
    ensures blocked ==> exists i :: 0 <= i < |users| && users[i].email == userId && users[i].isBlocked
  {
    match FindByEmail(users, userId)
    case None => false
    case Some(i) => users[i].isBlocked
  }

  /** A blocked user is reported blocked when asked by e-mail, and not when
      asked by an id that is nobody's e-mail. */
  lemma IsUserBlockedLooksUpEmail(users: seq<User>, i: nat)
    requires UniqueUsers(users) && i < |users|
    ensures IsUserBlocked(users, users[i].email) == users[i].isBlocked
    ensures (forall j :: 0 <= j < |users| ==> users[j].email != users[i].id) ==> !IsUserBlocked(users, users[i].id)
  {
    FindersLocateUniqueUser(users, i);
  }

  /** register's two saves: the new user is appended, and saving it again
      with the code set replaces it in place. */
  lemma AppendThenResave(users: seq<User>, user: User, withCode: User)
    requires UniqueUsers(users) && FindById(users, user.id).None? && SameUniqueValues(withCode, user)
    ensures !Clashes(users, user) ==> Upsert(users, user) == users + [user] && UniqueUsers(users + [user])
    ensures !Clashes(users, user) ==> !Clashes(users + [user], withCode)
    ensures !Clashes(users, user) ==> Upsert(users + [user], withCode) == users + [withCode]
  {
    if !Clashes(users, user) {
      UpsertKeepsUnique(users, user);
      var grown := users + [user];
      assert forall j :: 0 <= j < |users| ==> users[j].id != user.id;
      ResaveInPlace(grown, |users|, withCode);
      assert grown[|users| := withCode] == users + [withCode];
    }
  }

  // ---------------------------------------------------------------------------
  // The service object
  // ---------------------------------------------------------------------------

  class AuthServiceImpl {
    const userRepository: UserRepository
    const otpService: OtpService.OtpServiceImpl

    ghost predicate Valid()
      reads this, userRepository, otpService, otpService.repo
    {
      userRepository.Valid() && otpService.Valid()
    }

    constructor (userRepository: UserRepository, otpService: OtpService.OtpServiceImpl)
      requires userRepository.Valid() && otpService.Valid()
      ensures Valid()
      ensures this.userRepository == userRepository && this.otpService == otpService
    {
      this.userRepository := userRepository;
      this.otpService := otpService;
    }

    /** register. The verification e-mail is not modelled: its failure is
        ignored by the source. */
    method Register(req: RegisterRequest, freshId: string, imageUrl: Option<string>, draw: int, now: Instant,
                    encode: string -> string) returns (response: ResponseDto<UserDto>)
      requires Valid()
      requires 0 <= draw < 1000000
      requires FindById(userRepository.users, freshId).None?
      modifies userRepository
      ensures Valid()
      ensures Step(response, userRepository.users)
        == RegisterSpec(old(userRepository.users), req, freshId, imageUrl, draw, now, encode)
    {
      var users := userRepository.users;
      if ExistsByEmail(users, req.email) {
        return Error(EmailExists, EmailExistsText);
      }
      if UsernameTaken(users, req.username) {
        return Error(UsernameExists, UsernameExistsText);
      }
      if PhoneTaken(users, req.phone) {
        return Error(PhoneExists, PhoneExistsText);
      }
      var role := RoleValueOf(ToUpper(req.role));
      if role.None? {
        return Error(RegistrationFailed, RegistrationFailedText);
      }
      var user := Registered(req, role.value, freshId, imageUrl, now, encode);
      AppendThenResave(users, user, WithVerificationCode(user, draw, now));
      var saved := userRepository.Save(user);
      if !saved {
        return Error(RegistrationFailed, RegistrationFailedText);
      }
      var resaved := userRepository.Save(WithVerificationCode(user, draw, now));
      response := SuccessWithMessage(RegisteredText, Some(ToUserDto(user)));
    }

    /** The lookup, login stamp and save shared by the login flows. */
    method StampLogin(i: nat, now: Instant) returns (response: ResponseDto<Grant>)
      requires Valid() && i < |userRepository.users|
      modifies userRepository
      ensures Valid()
      ensures Step(response, userRepository.users) == LoggedIn(old(userRepository.users), i, now)
    {
      var user := userRepository.users[i].(lastLoginAt := Some(now));
      ResaveInPlace(userRepository.users, i, user);
      var saved := userRepository.Save(user);
      response := SuccessWithMessage(LoginSucceededText, Some(GrantFor(user)));
    }

    /** login. */
    method Login(identifier: string, password: string, now: Instant,
                 authenticates: (string, string) -> bool) returns (response: ResponseDto<Grant>)
      requires Valid()
      modifies userRepository
      ensures Valid()
      ensures Step(response, userRepository.users)
        == LoginSpec(old(userRepository.users), identifier, password, now, authenticates)
    {
      var found := LoginLookup(userRepository.users, identifier);
      if found.None? || !authenticates(userRepository.users[found.value].email, password) {
        return Error(LoginFailed, LoginFailedText);
      }
      response := StampLogin(found.value, now);
    }

    /** multiLogin. */
    method MultiLogin(identifier: string, password: string, loginType: Option<string>, now: Instant,
                      authenticates: (string, string) -> bool) returns (response: ResponseDto<Grant>)
      requires Valid()
      modifies userRepository, otpService.repo
      ensures Valid()
      ensures OtpStep(response, userRepository.users, otpService.repo.records)
        == MultiLoginSpec(old(userRepository.users), old(otpService.repo.records), identifier, password,
                          loginType, now, otpService.maxAttempts, authenticates)
    {
      if loginType.Some? && EqualsIgnoreCase(loginType.value, OtpLoginType) {
        var verified := otpService.VerifyOtp(identifier, password, OtpService.PhoneVerification, now);
        if !verified {
          return Error(InvalidOtp, OtpFailedText);
        }
        var found := FindByEmailOrUsernameOrPhone(userRepository.users, identifier);
        if found.None? {
          return Error(LoginFailed, MultiLoginFailedText);
        }
        response := StampLogin(found.value, now);
      } else {
        var found := FindByEmailOrUsernameOrPhone(userRepository.users, identifier);
        if found.None? || !authenticates(userRepository.users[found.value].email, password) {
          return Error(LoginFailed, MultiLoginFailedText);
        }
        response := StampLogin(found.value, now);
      }
    }

    /** changePassword. */
    method ChangePassword(email: string, currentPassword: string, newPassword: string, now: Instant,
                          encode: string -> string, matches: (string, string) -> bool)
      returns (response: ResponseDto<string>)
      requires Valid()
      modifies userRepository
      ensures Valid()
      ensures Step(response, userRepository.users)
        == ChangePasswordSpec(old(userRepository.users), email, currentPassword, newPassword, now, encode, matches)
    {
      var found := FindByEmail(userRepository.users, email);
      if found.None? {
        return Error(PasswordChangeFailed, PasswordChangeFailedText);
      }
      var i := found.value;
      if !matches(currentPassword, userRepository.users[i].passwordHash) {
        return Error(InvalidPassword, InvalidPasswordText);
      }
      var user := userRepository.users[i].(passwordHash := encode(newPassword), updatedAt := now);
      ResaveInPlace(userRepository.users, i, user);
      var saved := userRepository.Save(user);
      response := Success(PasswordChangedText);
    }

    /** verifyEmail. */
    method VerifyEmail(userId: string, otp: string, now: Instant) returns (response: ResponseDto<string>)
      requires Valid()
      modifies userRepository
      ensures Valid()
      ensures Step(response, userRepository.users) == VerifyEmailSpec(old(userRepository.users), userId, otp, now)
    {
      var found := FindById(userRepository.users, userId);
      if found.None? {
        return Error(UserNotFound, UserNotFoundText);
      }
      var i := found.value;
      var user := userRepository.users[i];
      if user.resetPasswordToken.None? || user.resetPasswordExpiry.None? || now > user.resetPasswordExpiry.value {
        return Error(OtpExpired, OtpExpiredText);
      }
      if user.resetPasswordToken.value != otp {
        return Error(InvalidOtp, InvalidOtpText);
      }
      user := user.(isVerified := true, resetPasswordToken := None, resetPasswordExpiry := None);
      ResaveInPlace(userRepository.users, i, user);
      var saved := userRepository.Save(user);
      response := Success(EmailVerifiedText);
    }

    /** resetPasswordWithOtp. */
    method ResetPasswordWithOtp(phoneOrEmail: string, otp: string, newPassword: string, now: Instant,
                                encode: string -> string) returns (response: ResponseDto<string>)
      requires Valid()
      modifies userRepository, otpService.repo
      ensures Valid()
      ensures OtpStep(response, userRepository.users, otpService.repo.records)
        == ResetPasswordWithOtpSpec(old(userRepository.users), old(otpService.repo.records), phoneOrEmail, otp,
                                    newPassword, now, otpService.maxAttempts, encode)
    {
      var verified := otpService.VerifyOtp(phoneOrEmail, otp, OtpService.PasswordReset, now);
      if !verified {
        return Error(InvalidOtp, OtpFailedText);
      }
      var found := FindByEmailOrUsernameOrPhone(userRepository.users, phoneOrEmail);
      if found.None? {
        return Error(PasswordResetFailed, PasswordResetFailedText);
      }
      var i := found.value;
      var user := userRepository.users[i].(passwordHash := encode(newPassword), updatedAt := now);
      ResaveInPlace(userRepository.users, i, user);
      var saved := userRepository.Save(user);
      response := Success(PasswordResetText);
    }

    /** verifyPhoneNumber. */
    method VerifyPhoneNumber(userId: string, otp: string, now: Instant) returns (response: ResponseDto<string>)
      requires Valid()
      modifies userRepository, otpService.repo
      ensures Valid()
      ensures OtpStep(response, userRepository.users, otpService.repo.records)
        == VerifyPhoneNumberSpec(old(userRepository.users), old(otpService.repo.records), userId, otp, now,
                                 otpService.maxAttempts)
    {
      var found := FindById(userRepository.users, userId);
      if found.None? {
        return Error(UserNotFound, UserNotFoundText);
      }
      var i := found.value;
      var phone := userRepository.users[i].phone;
      if phone.None? {
        return Error(InvalidOtp, OtpFailedText);
      }
      var verified := otpService.VerifyOtp(phone.value, otp, OtpService.PhoneVerification, now);
      if !verified {
        return Error(InvalidOtp, OtpFailedText);
      }
      var user := userRepository.users[i].(phoneVerified := true);
      ResaveInPlace(userRepository.users, i, user);
      var saved := userRepository.Save(user);
      response := Success(PhoneVerifiedText);
    }

    /** loginWithOtp. */
    method LoginWithOtp(phoneOrEmail: string, otp: string, now: Instant) returns (response: ResponseDto<Grant>)
      requires Valid()
      modifies userRepository, otpService.repo
      ensures Valid()
      ensures OtpStep(response, userRepository.users, otpService.repo.records)
        == LoginWithOtpSpec(old(userRepository.users), old(otpService.repo.records), phoneOrEmail, otp, now,
                            otpService.maxAttempts)
    {
      var verified := otpService.VerifyOtp(phoneOrEmail, otp, OtpService.PhoneVerification, now);
      if !verified {
        return Error(InvalidOtp, OtpFailedText);
      }
      var found := FindByEmailOrUsernameOrPhone(userRepository.users, phoneOrEmail);
      if found.None? {
        return Error(LoginFailed, OtpLoginFailedText);
      }
      response := StampLogin(found.value, now);
    }
  }
}
