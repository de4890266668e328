# IdeaSpark identity, OTP and subscription core in Dafny

This project models the core of the IdeaSpark Java backend (a Spring Boot
service over MongoDB) and proves properties of that model. It covers:

- **The OTP ledger.** `OtpVerification` records sit under a unique
  `(phoneOrEmail, purpose)` index. `OtpServiceImpl` issues codes (purge,
  draw, deliver, then record) and checks them: pending record, expiry,
  attempt limit, count, then compare. The expiry sweep is modelled too.
- **Identity flows.** From `AuthServiceImpl`:
  - registration, with the e-mail verification code kept in the user's
    reset-token slot;
  - password login, `multiLogin` (password or OTP mode) and `loginWithOtp`;
  - password change, OTP password reset, and e-mail and phone verification;
  - token validation and the blocked-user lookup.
- **User administration.** From `UserServiceImpl`: profile read and patch,
  status change, soft delete, filtered listing and statistics, over the
  `UserRepository` queries and the unique email, username and phone
  indexes.
- **Subscriptions.** `SubscriptionServiceImpl`: subscribe, cancel, status,
  history, upgrade, the validity check and the expiry sweep. The service
  keeps the invariant that no user has two active subscriptions.
- **Helpers.**
  - the `ResponseDTO` envelope;
  - the `ExceptionUtils` helpers;
  - the `GlobalExceptionHandler` table, with Spring's nearest-superclass
    handler choice;
  - Bearer-token extraction in `UserController`;
  - the `CloudinaryServiceImpl` helpers: public-id extraction, the
    content-type whitelist and the URL builders' guards;
  - the `PdfExportServiceImpl` logic: HTML escaping, template choice,
    date-range selection, and the complete-user export's limits and
    truncation.

How the model is built:

- **Repositories** are classes holding a `seq` of records. Their methods
  change that sequence in place, and each method is proved equal to a pure
  specification function.
- **Service flows** are methods on the service classes. Each one is proved
  equal to a specification function over the stores. The flows' properties
  (invariants kept, error paths, round trips) are lemmas about those
  functions.
- **Outside inputs become parameters.** This covers the clock (an `Instant`
  counted in seconds), `SecureRandom` and `Math.random` draws, and the
  generated Mongo ids. It also covers the collaborators:
  - the password encoder and the authentication manager;
  - the JWT service;
  - the e-mail and SMS gateways.
- **Null.** A Java `null` is `None`. A service `try`/`catch` that turns an
  exception into an error envelope is modelled as that envelope.

File layout: `base.dfy` and `decimal.dfy` hold shared string and number
helpers. Every other file models one source file or one closely related
group of files.

## Model

Paths are relative to the repository root.

| member | source | states |
|---|---|---|
| ResponseDto.Builder | ideaspark-shared/src/main/java/com/ideaspark/shared/dto/ResponseDTO.java:14-21 | a builder-made envelope reports success and carries no message and no data |
| ResponseDto.Success | ideaspark-shared/src/main/java/com/ideaspark/shared/dto/ResponseDTO.java:23-28 | a success envelope carries the data, no message, and is consistent (success exactly when no error) |
| ResponseDto.SuccessWithMessage | ideaspark-shared/src/main/java/com/ideaspark/shared/dto/ResponseDTO.java:30-36 | a success envelope with the message and the data, consistent |
| ResponseDto.Error | ideaspark-shared/src/main/java/com/ideaspark/shared/dto/ResponseDTO.java:38-46 | a failure envelope whose error details are the code and message, without details, message or data |
| ResponseDto.ErrorWithDetails | ideaspark-shared/src/main/java/com/ideaspark/shared/dto/ResponseDTO.java:48-57 | a failure envelope whose error details carry code, message and details |
| SubscriptionTypes.DisplayName | ideaspark-shared/src/main/java/com/ideaspark/shared/enums/SubscriptionType.java:4-17 | FREE is "Free Plan", PREMIUM is "Premium Plan" |
| SubscriptionTypes.Price | ideaspark-shared/src/main/java/com/ideaspark/shared/enums/SubscriptionType.java:4-21 | the price is never negative, zero exactly for FREE, 299 for PREMIUM |
| SubscriptionTypes.PlansAreDistinguishable | ideaspark-shared/src/main/java/com/ideaspark/shared/enums/SubscriptionType.java:3-21 | display name, price and constant name each identify the plan |
| Users.RoleValueOf | ideaspark-api/src/main/java/com/ideaspark/api/service/impl/AuthServiceImpl.java:74 | valueOf returns the role spelt exactly by the text, and fails exactly when no role is |
| Users.RoleNamesRoundTrip | ideaspark-api/src/main/java/com/ideaspark/api/service/impl/AuthServiceImpl.java:74 | valueOf of a role's name gives that role back |
| Users.Built | ideaspark-shared/src/main/java/com/ideaspark/shared/entity/User.java:74-103 | a builder-made user takes every builder default: USER, ACTIVE, active, unverified, not premium, not blocked, no code, created and updated now |
| Users.ToUserDto | ideaspark-api/src/main/java/com/ideaspark/api/service/impl/UserServiceImpl.java:243-264 | the DTO keeps id, email and premium flag, and reports PREMIUM exactly for premium users |
| Users.DtoHidesSecrets | ideaspark-api/src/main/java/com/ideaspark/api/service/impl/UserServiceImpl.java:243-264 | the DTO depends neither on the password hash, nor on the code slot, nor on the blocked flag |
| Users.FindersLocateUniqueUser | ideaspark-api/src/main/java/com/ideaspark/api/repository/UserRepository.java:19-23 | under the unique indexes, findById, findByEmail, findByUsername and findByPhone return the one user holding the value |
| Users.FindByEmailOrUsernameOrPhone | ideaspark-api/src/main/java/com/ideaspark/api/repository/UserRepository.java:28-29 | the any-identifier query yields a user exactly when one and only one user matches by email, username or phone |
| Users.AmbiguousIdentifierFindsNothing | ideaspark-api/src/main/java/com/ideaspark/api/repository/UserRepository.java:28-29 | two users matching the identifier make the single-result query fail |
| Users.ExistsMeansSomeUserHolds | ideaspark-api/src/main/java/com/ideaspark/api/repository/UserRepository.java:31-35 | existsByEmail, existsByUsername and existsByPhone hold exactly when some stored user has that value |
| Users.RoleAndStatusFilter | ideaspark-api/src/main/java/com/ideaspark/api/repository/UserRepository.java:37-41 | findByRoleAndStatus holds exactly the users found by both findByRole and findByStatus |
| Users.CreatedCountsSplit | ideaspark-api/src/main/java/com/ideaspark/api/repository/UserRepository.java:55-59 | users created from a split at any later b into those created in [a, b) and those created from b |
| Users.PremiumCountsPartition | ideaspark-api/src/main/java/com/ideaspark/api/repository/UserRepository.java:47 | countByIsPremium(true) and countByIsPremium(false) add up to all users |
| Users.Upsert | ideaspark-shared/src/main/java/com/ideaspark/shared/entity/User.java:28-46 | save replaces in place when the id is stored and grows the collection by one otherwise |
| Users.UpsertContents | ideaspark-shared/src/main/java/com/ideaspark/shared/entity/User.java:28-46 | after save the saved user is stored, users with other ids stay, and nothing else appears |
| Users.UpsertKeepsUnique | ideaspark-shared/src/main/java/com/ideaspark/shared/entity/User.java:28-46 | saving a user that clashes with nobody keeps the email, username and phone indexes unique |
| Users.ResaveInPlace | ideaspark-shared/src/main/java/com/ideaspark/shared/entity/User.java:28-46 | re-saving a stored user with unchanged unique values never clashes and replaces it in place |
| Users.UserRepository.Save | ideaspark-shared/src/main/java/com/ideaspark/shared/entity/User.java:28-46 | save succeeds exactly when no unique index is broken, then upserts; otherwise nothing changes |
| Identifiers.EmailRecogniserMatchesPattern | ideaspark-api/src/main/java/com/ideaspark/api/service/impl/OtpServiceImpl.java:33-34 | the left-to-right recogniser accepts exactly the strings the e-mail pattern matches |
| Identifiers.EmailRecogniserSound | ideaspark-api/src/main/java/com/ideaspark/api/service/impl/OtpServiceImpl.java:190-192 | every string isEmail accepts matches the e-mail pattern |
| Identifiers.EmailRecogniserComplete | ideaspark-api/src/main/java/com/ideaspark/api/service/impl/OtpServiceImpl.java:190-192 | every string the e-mail pattern matches is accepted by isEmail |
| Identifiers.StripNoise | ideaspark-api/src/main/java/com/ideaspark/api/service/impl/OtpServiceImpl.java:194-198 | the stripped text holds exactly the characters of the input that are not whitespace, '-', '(' or ')', and is no longer |
| Identifiers.StripNoiseChar | ideaspark-api/src/main/java/com/ideaspark/api/service/impl/OtpServiceImpl.java:194-198 | a single character is removed exactly when it is whitespace, '-', '(' or ')' |
| Identifiers.StripNoiseAppend | ideaspark-api/src/main/java/com/ideaspark/api/service/impl/OtpServiceImpl.java:194-198 | stripping a concatenation is the concatenation of the stripped parts, so the kept characters stay in order and each occurrence is kept |
| Identifiers.StripNoiseIdempotent | ideaspark-api/src/main/java/com/ideaspark/api/service/impl/OtpServiceImpl.java:194-198 | stripping an already stripped number changes nothing |
| Identifiers.PhoneShape | ideaspark-api/src/main/java/com/ideaspark/api/service/impl/OtpServiceImpl.java:36-37 | a phone number, once stripped, has 2 to 16 characters, all digits after an optional leading '+' |
| Identifiers.EmailAndPhoneDisjoint | ideaspark-api/src/main/java/com/ideaspark/api/service/impl/OtpServiceImpl.java:176-198 | no identifier is both an e-mail address and a phone number |
| OtpStore.Pending | ideaspark-shared/src/main/java/com/ideaspark/shared/entity/OtpVerification.java:25-44 | a new record is unverified, has no attempts and no verification time, under its key |
| OtpStore.FindPending | ideaspark-api/src/main/java/com/ideaspark/api/repository/OtpVerificationRepository.java:14-15 | returns an unverified record for the key, and none exactly when none exists |
| OtpStore.FindPendingWithCode | ideaspark-api/src/main/java/com/ideaspark/api/repository/OtpVerificationRepository.java:17-18 | as FindPending, with the code matching too |
| OtpStore.FindersAgree | ideaspark-shared/src/main/java/com/ideaspark/shared/entity/OtpVerification.java:16-18 | under the unique index, the finder with the code hits exactly when the pending record holds that code, and hits the same record |
| OtpStore.WithoutKey | ideaspark-api/src/main/java/com/ideaspark/api/repository/OtpVerificationRepository.java:22-23 | the delete removes every record for the key, verified or not, keeps every other one, and keeps keys unique |
| OtpStore.WithoutKeyIdempotent | ideaspark-api/src/main/java/com/ideaspark/api/repository/OtpVerificationRepository.java:22-23 | deleting a key twice equals deleting it once |
| OtpStore.WithoutKeyHasNoKey | ideaspark-api/src/main/java/com/ideaspark/api/repository/OtpVerificationRepository.java:22-23 | no record for the key survives the delete |
| OtpStore.ExpiringFrom | ideaspark-api/src/main/java/com/ideaspark/api/repository/OtpVerificationRepository.java:20 | deleteByExpiresAtBefore removes exactly the records expiring strictly before the time |
| OtpStore.RemoveAt | ideaspark-api/src/main/java/com/ideaspark/api/service/impl/OtpServiceImpl.java:138-149 | deleting one record shrinks the store by one and leaves no record with its key |
| OtpStore.RemoveAtKeepsOthers | ideaspark-api/src/main/java/com/ideaspark/api/service/impl/OtpServiceImpl.java:138-149 | deleting one record keeps every other record |
| OtpStore.OtpVerificationRepository.DeleteByPhoneOrEmailAndPurpose | ideaspark-api/src/main/java/com/ideaspark/api/repository/OtpVerificationRepository.java:22-23 | the stored records become WithoutKey of the old ones |
| OtpStore.OtpVerificationRepository.DeleteByExpiresAtBefore | ideaspark-api/src/main/java/com/ideaspark/api/repository/OtpVerificationRepository.java:20 | the stored records become ExpiringFrom of the old ones |
| OtpStore.OtpVerificationRepository.Delete | ideaspark-api/src/main/java/com/ideaspark/api/service/impl/OtpServiceImpl.java:138-149 | the one record goes |
| OtpStore.OtpVerificationRepository.Insert | ideaspark-shared/src/main/java/com/ideaspark/shared/entity/OtpVerification.java:16-18 | save of a new record succeeds exactly when its key is free, and only then appends it |
| OtpStore.OtpVerificationRepository.Replace | ideaspark-shared/src/main/java/com/ideaspark/shared/entity/OtpVerification.java:16-18 | save over a stored record succeeds exactly when no other record holds the new key |
| OtpService.GenerateOtp | ideaspark-api/src/main/java/com/ideaspark/api/service/impl/OtpServiceImpl.java:43-47 | the code is six decimal digits without a leading zero and denotes 100000 + draw |
| OtpService.DispatchFollowsIdentifier | ideaspark-api/src/main/java/com/ideaspark/api/service/impl/OtpServiceImpl.java:60-83 | a message goes out exactly for a valid identifier, to it and carrying the code; e-mail addresses get e-mail, phone numbers SMS, password resets a reset message |
| OtpService.OtpServiceImpl.SendOtp | ideaspark-api/src/main/java/com/ideaspark/api/service/impl/OtpServiceImpl.java:50-122 | the result and the new ledger are those of the send specification, and the ledger invariant holds |
| OtpService.OtpServiceImpl.VerifyOtp | ideaspark-api/src/main/java/com/ideaspark/api/service/impl/OtpServiceImpl.java:125-173 | the result and the new ledger are those of the verify specification, and the ledger invariant holds |
| OtpService.OtpServiceImpl.CleanupExpiredOtps | ideaspark-api/src/main/java/com/ideaspark/api/service/impl/OtpServiceImpl.java:181-188 | the ledger becomes the cleanup specification of the old one |
| OtpService.LedgerShrinks | ideaspark-api/src/main/java/com/ideaspark/api/service/impl/OtpServiceImpl.java:181-188 | dropping records keeps the ledger invariant |
| OtpService.RemoveAtKeepsLedger | ideaspark-api/src/main/java/com/ideaspark/api/service/impl/OtpServiceImpl.java:138-149 | deleting one record keeps the ledger invariant |
| OtpService.PendingIsFound | ideaspark-api/src/main/java/com/ideaspark/api/service/impl/OtpServiceImpl.java:127-133 | under the unique index an unverified record is the one the pending finder returns |
| OtpService.VerifiedIsNotFound | ideaspark-api/src/main/java/com/ideaspark/api/service/impl/OtpServiceImpl.java:127-133 | a verified record makes its key invisible to the pending finder |
| OtpService.SendKeepsLedger | ideaspark-api/src/main/java/com/ideaspark/api/service/impl/OtpServiceImpl.java:50-122 | every send keeps unique keys, bounded attempts and verification times set exactly on verified records |
| OtpService.VerifyKeepsLedger | ideaspark-api/src/main/java/com/ideaspark/api/service/impl/OtpServiceImpl.java:125-173 | every verification keeps the invariant; a stored attempt count never exceeds the maximum |
| OtpService.SendKeepsOtherKeys | ideaspark-api/src/main/java/com/ideaspark/api/service/impl/OtpServiceImpl.java:53 | a send never adds or removes a record of another key |
| OtpService.FailedSendLeavesNoCode | ideaspark-api/src/main/java/com/ideaspark/api/service/impl/OtpServiceImpl.java:84-87 | a failed send, and every send to an invalid identifier, leaves no record for the key |
| OtpService.SuccessfulSendStoresOneCode | ideaspark-api/src/main/java/com/ideaspark/api/service/impl/OtpServiceImpl.java:90-116 | after a successful send the key has one record: pending, untried, holding the generated code, expiring the configured minutes later |
| OtpService.VerifyWithoutPendingChangesNothing | ideaspark-api/src/main/java/com/ideaspark/api/service/impl/OtpServiceImpl.java:127-133 | without a pending record verification fails and changes nothing |
| OtpService.VerifySucceedsIff | ideaspark-api/src/main/java/com/ideaspark/api/service/impl/OtpServiceImpl.java:125-173 | verification succeeds exactly when an unverified record for the key is unexpired, has attempts left and holds the code |
| OtpService.StaleCodeIsDiscarded | ideaspark-api/src/main/java/com/ideaspark/api/service/impl/OtpServiceImpl.java:138-149 | an expired or exhausted record is deleted and the check fails, whatever code is offered |
| OtpService.WrongCodeIsCounted | ideaspark-api/src/main/java/com/ideaspark/api/service/impl/OtpServiceImpl.java:152-159 | a wrong code on a live record fails and increments only that record's attempts |
| OtpService.ThreeMissesThenLockout | ideaspark-api/src/main/java/com/ideaspark/api/service/impl/OtpServiceImpl.java:145-159 | with three attempts allowed, three wrong codes lock the record out: a fourth call fails even with the right code and deletes it |
| OtpService.SendThenVerifyOnce | ideaspark-api/src/main/java/com/ideaspark/api/service/impl/OtpServiceImpl.java:50-173 | a code just sent verifies at any time up to its expiry, and only once |
| OtpService.CleanupRemovesExactlyExpired | ideaspark-api/src/main/java/com/ideaspark/api/service/impl/OtpServiceImpl.java:181-188 | after cleanup no record has expired, and every unexpired record is still there |
| AuthService.TierClaim | ideaspark-api/src/main/java/com/ideaspark/api/service/impl/AuthServiceImpl.java:137-140 | the subscriptionType claim is "PREMIUM" exactly for premium users, and is the DTO's type name |
| AuthService.GrantFor | ideaspark-api/src/main/java/com/ideaspark/api/service/impl/AuthServiceImpl.java:137-153 | both tokens have the e-mail as subject, only the access token carries id, role and tier claims, and the user DTO comes along |
| AuthService.Registered | ideaspark-api/src/main/java/com/ideaspark/api/service/impl/AuthServiceImpl.java:68-81 | the new user has the request's fields, the encoded password, the chosen role, and is active, unverified and not premium |
| AuthService.VerificationCode | ideaspark-api/src/main/java/com/ideaspark/api/service/impl/AuthServiceImpl.java:89-90 | the code is six digits denoting the draw, zero-padded |
| AuthService.WithVerificationCode | ideaspark-api/src/main/java/com/ideaspark/api/service/impl/AuthServiceImpl.java:89-97 | the code slot holds the code and an expiry five minutes later, and no unique value changes |
| AuthService.RegisterCollisions | ideaspark-api/src/main/java/com/ideaspark/api/service/impl/AuthServiceImpl.java:44-106 | a taken e-mail answers EMAIL_EXISTS, then a taken non-blank username USERNAME_EXISTS, then a taken non-blank phone PHONE_EXISTS, then an unknown role REGISTRATION_FAILED; a failure changes nothing |
| AuthService.RegisterSucceedsIff | ideaspark-api/src/main/java/com/ideaspark/api/service/impl/AuthServiceImpl.java:44-106 | registration succeeds exactly when the e-mail is free, the username and phone are free or blank, the role is known and the new user clashes with no unique index |
| AuthService.RegisteredUserShape | ideaspark-api/src/main/java/com/ideaspark/api/service/impl/AuthServiceImpl.java:44-106 | a successful registration appends exactly one user, with the defaults, the upper-cased role and a six-digit code expiring in 300 seconds, and returns its DTO |
| AuthService.AuthServiceImpl.Register | ideaspark-api/src/main/java/com/ideaspark/api/service/impl/AuthServiceImpl.java:44-106 | the response and the new users are those of the register specification |
| AuthService.LoginSucceedsIff | ideaspark-api/src/main/java/com/ideaspark/api/service/impl/AuthServiceImpl.java:109-159 | login succeeds exactly for a user reached by e-mail (identifier with '@') or phone whose credentials authenticate; failures are LOGIN_FAILED with no change |
| AuthService.LoginIgnoresBlocking | ideaspark-api/src/main/java/com/ideaspark/api/service/impl/AuthServiceImpl.java:109-159 | changing a user's blocked flag changes neither login's answer nor its grant |
| AuthService.LookupIgnoresBlocking | ideaspark-api/src/main/java/com/ideaspark/api/service/impl/AuthServiceImpl.java:116-120 | the login lookup finds the same user whether or not one is blocked |
| AuthService.GrantIgnoresBlocking | ideaspark-api/src/main/java/com/ideaspark/api/service/impl/AuthServiceImpl.java:137-153 | the tokens and DTO handed back do not depend on the blocked flag |
| AuthService.AuthServiceImpl.StampLogin | ideaspark-api/src/main/java/com/ideaspark/api/service/impl/AuthServiceImpl.java:133-153 | the user's last login is stamped and saved, and the grant returned |
| AuthService.AuthServiceImpl.Login | ideaspark-api/src/main/java/com/ideaspark/api/service/impl/AuthServiceImpl.java:109-159 | the response and the new users are those of the login specification |
| AuthService.MultiLoginModes | ideaspark-api/src/main/java/com/ideaspark/api/service/impl/AuthServiceImpl.java:321-391 | in OTP mode no password is checked, success needs a verified PHONE_VERIFICATION code, and a failed check is INVALID_OTP without change; password mode leaves the ledger alone |
| AuthService.OtpLoginTypeIgnoresCase | ideaspark-api/src/main/java/com/ideaspark/api/service/impl/AuthServiceImpl.java:330 | OTP mode is selected exactly by the eight letter-case spellings of "otp" |
| AuthService.AuthServiceImpl.MultiLogin | ideaspark-api/src/main/java/com/ideaspark/api/service/impl/AuthServiceImpl.java:321-391 | the response, users and ledger are those of the multiLogin specification |
| AuthService.ChangePasswordEffect | ideaspark-api/src/main/java/com/ideaspark/api/service/impl/AuthServiceImpl.java:238-259 | the change succeeds exactly when the current password matches; then only that user's hash and update time change, otherwise nothing |
| AuthService.AuthServiceImpl.ChangePassword | ideaspark-api/src/main/java/com/ideaspark/api/service/impl/AuthServiceImpl.java:238-259 | the response and the new users are those of the change specification |
| AuthService.RegisterThenVerifyEmail | ideaspark-api/src/main/java/com/ideaspark/api/service/impl/AuthServiceImpl.java:529-560 | the code set at registration verifies the new user's e-mail up to its expiry, and a second use answers OTP_EXPIRED |
| AuthService.AuthServiceImpl.VerifyEmail | ideaspark-api/src/main/java/com/ideaspark/api/service/impl/AuthServiceImpl.java:529-560 | the response and the new users are those of the verifyEmail specification |
| AuthService.OtpGatedFlowsNeedVerifiedCode | ideaspark-api/src/main/java/com/ideaspark/api/service/impl/AuthServiceImpl.java:417-526 | reset, OTP login and OTP multiLogin change no user and answer INVALID_OTP unless the code verifies; phone verification sets only that user's phoneVerified, after its phone's code verifies |
| AuthService.ResetInstallsNewPassword | ideaspark-api/src/main/java/com/ideaspark/api/service/impl/AuthServiceImpl.java:417-441 | a successful reset verified a PASSWORD_RESET code and installs the encoded new password on the one user the identifier names |
| AuthService.AuthServiceImpl.ResetPasswordWithOtp | ideaspark-api/src/main/java/com/ideaspark/api/service/impl/AuthServiceImpl.java:417-441 | the response, users and ledger are those of the reset specification |
| AuthService.AuthServiceImpl.VerifyPhoneNumber | ideaspark-api/src/main/java/com/ideaspark/api/service/impl/AuthServiceImpl.java:468-484 | the response, users and ledger are those of the phone-verification specification |
| AuthService.AuthServiceImpl.LoginWithOtp | ideaspark-api/src/main/java/com/ideaspark/api/service/impl/AuthServiceImpl.java:487-526 | the response, users and ledger are those of the OTP-login specification |
| AuthService.ValidateToken | ideaspark-api/src/main/java/com/ideaspark/api/service/impl/AuthServiceImpl.java:262-278 | a valid token has a readable subject naming a stored user, against whom the token checks |
| AuthService.ValidateTokenExactly | ideaspark-api/src/main/java/com/ideaspark/api/service/impl/AuthServiceImpl.java:262-278 | with unique e-mails, a token is valid exactly when its subject is readable, names a stored user, and the token checks against that user's e-mail, password hash and ROLE_ authority |
| AuthService.IsUserBlocked | ideaspark-api/src/main/java/com/ideaspark/api/service/impl/AuthServiceImpl.java:286-294 | a user is reported blocked only when one with that e-mail is blocked |
| AuthService.IsUserBlockedLooksUpEmail | ideaspark-api/src/main/java/com/ideaspark/api/service/impl/AuthServiceImpl.java:286-294 | asked by e-mail the answer is the user's flag; asked by an id that is nobody's e-mail it is false |
| AuthService.AppendThenResave | ideaspark-api/src/main/java/com/ideaspark/api/service/impl/AuthServiceImpl.java:83-97 | register's first save appends the new user and its second save, with the code set, replaces it in place |
| UserService.Overwrite | ideaspark-api/src/main/java/com/ideaspark/api/service/impl/UserServiceImpl.java:54-68 | a present incoming value wins, an absent one keeps the current value |
| UserService.ApplyPatch | ideaspark-api/src/main/java/com/ideaspark/api/service/impl/UserServiceImpl.java:54-70 | each of the five profile fields changes only when the patch gives it, the update time is set, and nothing else changes |
| UserService.EmptyPatchTouchesOnlyUpdatedAt | ideaspark-api/src/main/java/com/ideaspark/api/service/impl/UserServiceImpl.java:54-70 | an empty patch changes only the update time |
| UserService.GetUserProfile | ideaspark-api/src/main/java/com/ideaspark/api/service/impl/UserServiceImpl.java:33-45 | the profile is found exactly when a user has the e-mail, and then has that e-mail; otherwise USER_NOT_FOUND |
| UserService.UpdateUserProfileEffect | ideaspark-api/src/main/java/com/ideaspark/api/service/impl/UserServiceImpl.java:48-82 | a successful update patches exactly the user with the e-mail and keeps the unique indexes; a failed one changes nothing |
| UserService.UpsertInPlace | ideaspark-api/src/main/java/com/ideaspark/api/service/impl/UserServiceImpl.java:71 | saving a non-clashing user with a stored id replaces it and keeps the indexes unique |
| UserService.UserServiceImpl.UpdateUserProfile | ideaspark-api/src/main/java/com/ideaspark/api/service/impl/UserServiceImpl.java:48-82 | the response and the new users are those of the update specification |
| UserService.AdminOperationsKeepActivity | ideaspark-api/src/main/java/com/ideaspark/api/service/impl/UserServiceImpl.java:117-157 | status change and delete keep isActive in step with status, change nothing for an unknown id, and never remove a user: a deleted one stays, INACTIVE |
| UserService.UpdateUserStatusEffect | ideaspark-api/src/main/java/com/ideaspark/api/service/impl/UserServiceImpl.java:117-135 | success exactly for a stored id; that user gets the new status, isActive exactly for ACTIVE and updatedAt now, every other user is kept; an unknown id answers UPDATE_FAILED and changes nothing |
| UserService.UserServiceImpl.UpdateUserStatus | ideaspark-api/src/main/java/com/ideaspark/api/service/impl/UserServiceImpl.java:117-135 | the response and the new users are those of the status specification, whose effect UpdateUserStatusEffect states |
| UserService.DeleteUserEffect | ideaspark-api/src/main/java/com/ideaspark/api/service/impl/UserServiceImpl.java:138-157 | success exactly for a stored id; that user stays, INACTIVE, not active and updated now, every other user is kept; an unknown id answers DELETE_FAILED and changes nothing |
| UserService.UserServiceImpl.DeleteUser | ideaspark-api/src/main/java/com/ideaspark/api/service/impl/UserServiceImpl.java:138-157 | the response and the new users are those of the soft-delete specification, whose effect DeleteUserEffect states |
| UserService.GetAllUsersFilters | ideaspark-api/src/main/java/com/ideaspark/api/service/impl/UserServiceImpl.java:85-114 | whichever query is chosen, the listing holds exactly the users matching every given filter |
| UserService.GetUserStatistics | ideaspark-api/src/main/java/com/ideaspark/api/service/impl/UserServiceImpl.java:160-179 | the total is the collection's size and bounds the active and new-today counts |
| UserService.StatisticsConsistent | ideaspark-api/src/main/java/com/ideaspark/api/service/impl/UserServiceImpl.java:160-179 | premium and free users make up the total, and users new today are among those new this month |
| UserController.ExtractToken | ideaspark-api/src/main/java/com/ideaspark/api/controller/UserController.java:177-183 | a token is read exactly when the header starts with "Bearer ", and the header is that prefix followed by the token |
| UserController.ExtractTokenRoundTrip | ideaspark-api/src/main/java/com/ideaspark/api/controller/UserController.java:177-183 | the text after the prefix comes back unchanged; the bare prefix gives the empty token |
| UserController.ExtractTokenIsStrict | ideaspark-api/src/main/java/com/ideaspark/api/controller/UserController.java:179 | lower-case "bearer ", "Bearer" without the space, "Basic " and a missing header give no token |
| UserController.WithToken | ideaspark-api/src/main/java/com/ideaspark/api/controller/UserController.java:41-44 | without a token the answer is 400 INVALID_TOKEN "Token required" with no data; with a token whose subject cannot be read it is the global handler's 500 RUNTIME_ERROR; otherwise 200 and the service's answer for the token's e-mail |
| UserController.UnreadableToken | ideaspark-api/src/main/java/com/ideaspark/api/controller/UserController.java:47 | the uncaught JWT failure is answered 500 RUNTIME_ERROR with the generic text and no data |
| UserController.UnreadableTokenIsRuntimeFailure | ideaspark-api/src/main/java/com/ideaspark/api/exception/GlobalExceptionHandler.java:300-307 | that answer is the one the RuntimeException handler gives, whatever the parser's message |
| UserController.NoSubjectIgnoresService | ideaspark-api/src/main/java/com/ideaspark/api/controller/UserController.java:41-48 | without a token, or with one whose subject cannot be read, the reply does not depend on the service |
| UserController.GetUserProfile | ideaspark-api/src/main/java/com/ideaspark/api/controller/UserController.java:39-49 | the profile endpoint guards the token, answers 500 when its subject cannot be read, and otherwise 200 with the profile of the token's e-mail |
| ExceptionUtils.Raise | ideaspark-api/src/main/java/com/ideaspark/api/exception/ExceptionUtils.java:18-154 | each helper throws; the blocked-user, unauthorized and validation helpers throw their class with the message built as written |
| ExceptionUtils.HelpersThrowUnchecked | ideaspark-api/src/main/java/com/ideaspark/api/exception/ExceptionUtils.java:18-154 | every helper throws a RuntimeException subclass |
| ExceptionUtils.ThrowIfNull | ideaspark-api/src/main/java/com/ideaspark/api/exception/ExceptionUtils.java:162-166 | throws a ValidationException with the message exactly when the value is null |
| ExceptionUtils.ThrowIfEmpty | ideaspark-api/src/main/java/com/ideaspark/api/exception/ExceptionUtils.java:168-172 | throws exactly when the value is null or all of it is at or below U+0020, with "<field> cannot be empty" |
| ExceptionUtils.ThrowIfBlank | ideaspark-api/src/main/java/com/ideaspark/api/exception/ExceptionUtils.java:174-178 | throws exactly when the value is null or all whitespace, with "<field> cannot be blank" |
| ExceptionUtils.ThrowIfTrue | ideaspark-api/src/main/java/com/ideaspark/api/exception/ExceptionUtils.java:180-184 | throws the message exactly when the condition holds |
| ExceptionUtils.ThrowIfFalse | ideaspark-api/src/main/java/com/ideaspark/api/exception/ExceptionUtils.java:186-190 | throws the message exactly when the condition fails |
| ExceptionUtils.TrimmedButNotBlank | ideaspark-api/src/main/java/com/ideaspark/api/exception/ExceptionUtils.java:168-178 | a control character below TAB is rejected by throwIfEmpty and accepted by throwIfBlank |
| ExceptionUtils.BlankButNotTrimmed | ideaspark-api/src/main/java/com/ideaspark/api/exception/ExceptionUtils.java:168-178 | the spaces U+2000 to U+2006 are rejected by throwIfBlank and accepted by throwIfEmpty |
| GlobalExceptionHandler.OwnHandler | ideaspark-api/src/main/java/com/ideaspark/api/exception/GlobalExceptionHandler.java:44-316 | a class's own handler exists exactly for the declared classes and answers a consistent 4xx or 5xx error envelope |
| GlobalExceptionHandler.Ancestry | ideaspark-api/src/main/java/com/ideaspark/api/exception/GlobalExceptionHandler.java:44-316 | the superclass chain starts at the class itself |
| GlobalExceptionHandler.NearestHandled | ideaspark-api/src/main/java/com/ideaspark/api/exception/GlobalExceptionHandler.java:44-316 | the chosen handler belongs to the first class on the chain that declares one |
| GlobalExceptionHandler.Handle | ideaspark-api/src/main/java/com/ideaspark/api/exception/GlobalExceptionHandler.java:44-316 | every exception is answered with a 4xx or 5xx failure envelope carrying no data |
| GlobalExceptionHandler.UserBlockedUsesMostSpecificHandler | ideaspark-api/src/main/java/com/ideaspark/api/exception/GlobalExceptionHandler.java:53-69 | a blocked user gets 403 USER_BLOCKED with its message, not the 401 of its superclass |
| GlobalExceptionHandler.InheritedHandlers | ideaspark-api/src/main/java/com/ideaspark/api/exception/GlobalExceptionHandler.java:80-316 | PDF failures get SERVICE_ERROR, number-format failures ILLEGAL_ARGUMENT, OTP, subscription, null-pointer and Jakarta `ValidationException` failures the generic 500 |
| GlobalExceptionHandler.IllegalArgumentAndStateHandlers | ideaspark-api/src/main/java/com/ideaspark/api/exception/GlobalExceptionHandler.java:282-298 | an IllegalArgumentException answers 400 ILLEGAL_ARGUMENT and an IllegalStateException 409 ILLEGAL_STATE, each with its own message |
| GlobalExceptionHandler.GatewayFailuresHideMessage | ideaspark-api/src/main/java/com/ideaspark/api/exception/GlobalExceptionHandler.java:89-117 | e-mail, SMS and image failures are 503 with a fixed text, independent of the message |
| GlobalExceptionHandler.FallbackHidesMessage | ideaspark-api/src/main/java/com/ideaspark/api/exception/GlobalExceptionHandler.java:300-316 | whatever reaches the runtime or generic handler is 500 with the same fixed text |
| GlobalExceptionHandler.NotFoundHelpersAnswer404 | ideaspark-api/src/main/java/com/ideaspark/api/exception/GlobalExceptionHandler.java:44-51 | the user-not-found helpers are answered 404 USER_NOT_FOUND |
| GlobalExceptionHandler.AuthenticationHelpersAnswer401Or403 | ideaspark-api/src/main/java/com/ideaspark/api/exception/GlobalExceptionHandler.java:53-69 | the credential and token helpers are answered 401 AUTHENTICATION_FAILED, the blocked-user helpers 403 USER_BLOCKED |
| GlobalExceptionHandler.ValidationHelpersAnswer400 | ideaspark-api/src/main/java/com/ideaspark/api/exception/GlobalExceptionHandler.java:71-78 | the validation helpers are answered 400 VALIDATION_FAILED with their own message |
| GlobalExceptionHandler.GatewayHelpersAnswer503 | ideaspark-api/src/main/java/com/ideaspark/api/exception/GlobalExceptionHandler.java:89-117 | the e-mail, SMS and image helpers, logged or not, are answered 503 |
| GlobalExceptionHandler.OtpAndSubscriptionHelpersAnswer500 | ideaspark-api/src/main/java/com/ideaspark/api/exception/GlobalExceptionHandler.java:300-307 | the OTP and subscription helpers are answered 500 RUNTIME_ERROR and their messages never reach the client |
| GlobalExceptionHandler.RuntimeSubclassAnswer500 | ideaspark-api/src/main/java/com/ideaspark/api/exception/GlobalExceptionHandler.java:300-307 | an OtpException or SubscriptionException is answered by the RuntimeException handler: 500 RUNTIME_ERROR with the generic text |
| Subscriptions.Built | ideaspark-shared/src/main/java/com/ideaspark/shared/entity/Subscription.java:20-53 | a builder-made subscription is FREE, active, not auto-renewing, without expiry, amount or currency, created now |
| Subscriptions.ActiveIsTheOnlyMatch | ideaspark-api/src/main/java/com/ideaspark/api/repository/SubscriptionRepository.java:17 | under the one-active invariant, the user's active subscription is the only match of the single-result query |
| Subscriptions.FindExpiredActiveSubscriptions | ideaspark-api/src/main/java/com/ideaspark/api/repository/SubscriptionRepository.java:31-32 | returns exactly the active subscriptions whose expiry is strictly before now |
| Subscriptions.FindExpiringSubscriptions | ideaspark-api/src/main/java/com/ideaspark/api/repository/SubscriptionRepository.java:34-35 | returns exactly the active subscriptions expiring in [start, end) |
| Subscriptions.ExpiredAndExpiringDisjoint | ideaspark-api/src/main/java/com/ideaspark/api/repository/SubscriptionRepository.java:31-35 | queried at the same instant, the expired and the expiring lists share no record |
| Subscriptions.ExpiredPositions | ideaspark-api/src/main/java/com/ideaspark/api/repository/SubscriptionRepository.java:31-32 | the positions the expiry query returns are exactly those of expired active records |
| Subscriptions.SortNewestFirst | ideaspark-api/src/main/java/com/ideaspark/api/repository/SubscriptionRepository.java:19 | the result is newest first and a permutation of the input |
| Subscriptions.FindByUserOrderByCreatedAtDesc | ideaspark-api/src/main/java/com/ideaspark/api/repository/SubscriptionRepository.java:19 | every subscription of the user, each once, newest first |
| Subscriptions.SaveSubscription | ideaspark-shared/src/main/java/com/ideaspark/shared/entity/Subscription.java:20-53 | save keeps the size for a stored id and appends a new one |
| Subscriptions.SaveInPlace | ideaspark-shared/src/main/java/com/ideaspark/shared/entity/Subscription.java:20-53 | re-saving a stored record replaces it in place and keeps ids unique |
| Subscriptions.SaveAppends | ideaspark-shared/src/main/java/com/ideaspark/shared/entity/Subscription.java:20-53 | saving a fresh id appends the record and keeps ids unique |
| Subscriptions.SameIdsSameLookup | ideaspark-shared/src/main/java/com/ideaspark/shared/entity/Subscription.java:20-53 | replacing a record by one with the same id keeps every lookup by id |
| Subscriptions.SubscriptionRepository.Save | ideaspark-shared/src/main/java/com/ideaspark/shared/entity/Subscription.java:20-53 | the collection becomes the upsert of the record |
| Subscriptions.FeaturesByType | ideaspark-api/src/main/java/com/ideaspark/api/service/impl/SubscriptionServiceImpl.java:321-327 | three features per plan; premium lists unlimited chat, free lists limited chat |
| Subscriptions.AvailablePlans | ideaspark-api/src/main/java/com/ideaspark/api/service/impl/SubscriptionServiceImpl.java:27-44 | two plans are offered |
| Subscriptions.PlanType | ideaspark-api/src/main/java/com/ideaspark/api/service/impl/SubscriptionServiceImpl.java:61 | plan 2 is PREMIUM and every other plan id FREE |
| Subscriptions.PlansAgreeWithTypes | ideaspark-api/src/main/java/com/ideaspark/api/service/impl/SubscriptionServiceImpl.java:27-44 | each listed plan's name and price are those of the type subscribe gives its id, and the listed features agree with the status query's |
| Subscriptions.SubscriptionIdAt | ideaspark-api/src/main/java/com/ideaspark/api/service/impl/SubscriptionServiceImpl.java:62 | the id is "sub_" followed by the decimal digits of the clock in milliseconds |
| Subscriptions.NewSubscription | ideaspark-api/src/main/java/com/ideaspark/api/service/impl/SubscriptionServiceImpl.java:64-75 | the new record is active with the plan's type and price in USD; it expires and auto-renews exactly for plan 2, at the month's end |
| Subscriptions.PremiumPriceIsPlanTwoAmount | ideaspark-api/src/main/java/com/ideaspark/api/service/impl/SubscriptionServiceImpl.java:72 | plan 2 is charged PREMIUM's price, the price the plan list shows |
| Subscriptions.CancelActive | ideaspark-api/src/main/java/com/ideaspark/api/service/impl/SubscriptionServiceImpl.java:53-58 | cancelling the current subscription keeps the collection's size |
| Subscriptions.CancelActiveEffect | ideaspark-api/src/main/java/com/ideaspark/api/service/impl/SubscriptionServiceImpl.java:53-58 | afterwards the user has no active subscription, others keep theirs, ids and owners are kept, and the invariant holds |
| Subscriptions.HasValidSubscriptionCases | ideaspark-api/src/main/java/com/ideaspark/api/service/impl/SubscriptionServiceImpl.java:247-265 | an unknown e-mail is never valid; FREE is valid for every stored user; another type is valid exactly when the user's active subscription has that type and no expiry or one after now |
| Subscriptions.SubscribeEffect | ideaspark-api/src/main/java/com/ideaspark/api/service/impl/SubscriptionServiceImpl.java:46-103 | subscribe keeps one active per user, stores one new active record that the active query finds, sets isPremium exactly for plan 2 with its expiry, and the plan is valid until the month's end |
| Subscriptions.SubscriptionServiceImpl.Subscribe | ideaspark-api/src/main/java/com/ideaspark/api/service/impl/SubscriptionServiceImpl.java:46-103 | the response and both collections are those of the subscribe specification |
| Subscriptions.DaysBetween | ideaspark-api/src/main/java/com/ideaspark/api/service/impl/SubscriptionServiceImpl.java:123 | whole days between two instants, truncated toward zero in both directions |
| Subscriptions.DaysRemaining | ideaspark-api/src/main/java/com/ideaspark/api/service/impl/SubscriptionServiceImpl.java:122-125 | never negative, zero within the last day, otherwise the whole days left |
| Subscriptions.GetSubscriptionStatus | ideaspark-api/src/main/java/com/ideaspark/api/service/impl/SubscriptionServiceImpl.java:105-145 | succeeds exactly for a known e-mail, always reporting ACTIVE, with non-negative days and the free features for the free plan |
| Subscriptions.StatusReportsActivePlan | ideaspark-api/src/main/java/com/ideaspark/api/service/impl/SubscriptionServiceImpl.java:111-139 | the reported plan and features are the active subscription's, with days exactly when it expires, or the Free Plan without days |
| Subscriptions.HistoryItemOf | ideaspark-api/src/main/java/com/ideaspark/api/service/impl/SubscriptionServiceImpl.java:200-211 | a history item shows the plan's display name, the upper-cased status and card payment |
| Subscriptions.GetSubscriptionHistory | ideaspark-api/src/main/java/com/ideaspark/api/service/impl/SubscriptionServiceImpl.java:192-220 | succeeds exactly for a known e-mail, with one item per subscription of the user, newest first |
| Subscriptions.Demote | ideaspark-api/src/main/java/com/ideaspark/api/service/impl/SubscriptionServiceImpl.java:279-282 | the user loses isPremium and its expiry and nothing else |
| Subscriptions.CancelledLeavesNoActive | ideaspark-api/src/main/java/com/ideaspark/api/service/impl/SubscriptionServiceImpl.java:153-159 | marking the user's only active record cancelled leaves that user no active subscription and keeps one active subscription per user |
| Subscriptions.CancelEffect | ideaspark-api/src/main/java/com/ideaspark/api/service/impl/SubscriptionServiceImpl.java:147-190 | a cancel leaves no active subscription and no premium access; it succeeds exactly with an active one; otherwise NO_ACTIVE_SUBSCRIPTION and no change; only an immediate cancel touches the user |
| Subscriptions.SubscriptionServiceImpl.CancelSubscription | ideaspark-api/src/main/java/com/ideaspark/api/service/impl/SubscriptionServiceImpl.java:147-190 | the response and both collections are those of the cancel specification |
| Subscriptions.Expire | ideaspark-api/src/main/java/com/ideaspark/api/service/impl/SubscriptionServiceImpl.java:274-275 | the record becomes expired, stamped now, with id and owner kept |
| Subscriptions.Sweep | ideaspark-api/src/main/java/com/ideaspark/api/service/impl/SubscriptionServiceImpl.java:273-285 | the sweep keeps the sizes of both collections |
| Subscriptions.SweepExpiresOnlyGiven | ideaspark-api/src/main/java/com/ideaspark/api/service/impl/SubscriptionServiceImpl.java:268-290 | even when it stops early, the sweep only expires records it was given |
| Subscriptions.SweepFrame | ideaspark-api/src/main/java/com/ideaspark/api/service/impl/SubscriptionServiceImpl.java:268-290 | even when it stops early, the sweep only demotes users that the given records refer to |
| Subscriptions.SweepExpiresGiven | ideaspark-api/src/main/java/com/ideaspark/api/service/impl/SubscriptionServiceImpl.java:268-290 | when every record has its user, exactly the given records are expired |
| Subscriptions.SweepEffect | ideaspark-api/src/main/java/com/ideaspark/api/service/impl/SubscriptionServiceImpl.java:268-290 | when every record has its user, exactly the users those records refer to are demoted |
| Subscriptions.ExpireKeepsOneActive | ideaspark-api/src/main/java/com/ideaspark/api/service/impl/SubscriptionServiceImpl.java:274-276 | expiring a record keeps one active subscription per user |
| Subscriptions.ProcessExpiredEffect | ideaspark-api/src/main/java/com/ideaspark/api/service/impl/SubscriptionServiceImpl.java:267-290 | afterwards no active subscription has expired, each one that had is expired, the rest are unchanged, and exactly their users lost premium |
| Subscriptions.SubscriptionServiceImpl.ProcessExpiredSubscriptions | ideaspark-api/src/main/java/com/ideaspark/api/service/impl/SubscriptionServiceImpl.java:267-290 | both collections become the sweep over the records the expiry query returned |
| Subscriptions.CancelAtPeriodEndKeepsPremiumFlag | ideaspark-api/src/main/java/com/ideaspark/api/service/impl/SubscriptionServiceImpl.java:155-169 | after a cancel at period end no later sweep touches the user, whose isPremium stays as before, although premium access is gone |
| Subscriptions.UpgradeReply | ideaspark-api/src/main/java/com/ideaspark/api/service/impl/SubscriptionServiceImpl.java:227-238 | a failed subscribe is passed through; a successful one answers with the new plan's name and 150 or 299 |
| Subscriptions.SubscriptionServiceImpl.UpgradeSubscription | ideaspark-api/src/main/java/com/ideaspark/api/service/impl/SubscriptionServiceImpl.java:222-244 | both collections change as subscribe changes them, and the reply is the upgrade reply to subscribe's |
| PdfExport.ReplacePassesEscape | ideaspark-api/src/main/java/com/ideaspark/api/service/impl/PdfExportServiceImpl.java:433-437 | the five chained replaces equal escaping each character on its own |
| PdfExport.EscapeHtml | ideaspark-api/src/main/java/com/ideaspark/api/service/impl/PdfExportServiceImpl.java:431-438 | null gives "", any other text its per-character escaping |
| PdfExport.EscapedIsInert | ideaspark-api/src/main/java/com/ideaspark/api/service/impl/PdfExportServiceImpl.java:431-438 | escaped text holds no '<', '>', '"' or '\'' |
| PdfExport.PlainTextUnchanged | ideaspark-api/src/main/java/com/ideaspark/api/service/impl/PdfExportServiceImpl.java:431-438 | text without special characters is copied unchanged |
| PdfExport.AmpersandsOpenEntities | ideaspark-api/src/main/java/com/ideaspark/api/service/impl/PdfExportServiceImpl.java:433-437 | every '&' of escaped text opens one of the five entities |
| PdfExport.UnescapeEscaped | ideaspark-api/src/main/java/com/ideaspark/api/service/impl/PdfExportServiceImpl.java:431-438 | decoding the entities undoes the escaping |
| PdfExport.CssClass | ideaspark-api/src/main/java/com/ideaspark/api/service/impl/PdfExportServiceImpl.java:357 | the body class is the style lower-cased (ASCII mapping), or "modern" without one |
| PdfExport.CssStyles | ideaspark-api/src/main/java/com/ideaspark/api/service/impl/PdfExportServiceImpl.java:374-383 | classic and minimal select their sheets by exact name, everything else the modern one |
| PdfExport.HtmlHeader | ideaspark-api/src/main/java/com/ideaspark/api/service/impl/PdfExportServiceImpl.java:356-365 | the title is escaped and decodes back to the given title; the sheet is chosen from the body class |
| PdfExport.TemplateChoice | ideaspark-api/src/main/java/com/ideaspark/api/service/impl/PdfExportServiceImpl.java:356-383 | for every style, classic and minimal are selected exactly by their names in any letter case, and every other style, or none, gives modern |
| PdfExport.StyleIsNotEscaped | ideaspark-api/src/main/java/com/ideaspark/api/service/impl/PdfExportServiceImpl.java:364 | every character of the requested style other than an upper-case letter, quotes included, reaches the class attribute unchanged |
| PdfExport.ParseWindow | ideaspark-api/src/main/java/com/ideaspark/api/service/impl/PdfExportServiceImpl.java:124-149 | the selection fails exactly when both dates are given and one does not parse; it selects everything exactly when a date is missing; otherwise its bounds are the parsed dates |
| PdfExport.IdeasByDateRange | ideaspark-api/src/main/java/com/ideaspark/api/service/impl/PdfExportServiceImpl.java:124-131 | exactly the user's ideas inside the parsed window, strictly between its dates |
| PdfExport.GenerationsByDateRange | ideaspark-api/src/main/java/com/ideaspark/api/service/impl/PdfExportServiceImpl.java:133-140 | exactly the user's generations inside the range |
| PdfExport.ActivitiesByDateRange | ideaspark-api/src/main/java/com/ideaspark/api/service/impl/PdfExportServiceImpl.java:142-149 | exactly the user's activities whose timestamp is from dateFrom inclusive to dateTo exclusive, or all of them when a date is missing |
| PdfExport.StartDateKeptOnlyForActivities | ideaspark-api/src/main/java/com/ideaspark/api/service/impl/PdfExportServiceImpl.java:124-149 | an activity stamped at dateFrom is exported, an idea created then is not, and an activity at dateTo is not |
| PdfExport.HalfRangeSelectsAll | ideaspark-api/src/main/java/com/ideaspark/api/service/impl/PdfExportServiceImpl.java:124-131 | with only one date given nothing is parsed and every idea of the user is selected |
| PdfExport.JavaString | ideaspark-api/src/main/java/com/ideaspark/api/service/impl/PdfExportServiceImpl.java:283 | a null concatenates as "null" |
| PdfExport.Truncate | ideaspark-api/src/main/java/com/ideaspark/api/service/impl/PdfExportServiceImpl.java:308-309 | a description over 200 characters keeps its first 200 and gains "...", a shorter one is kept (lengths in characters, not UTF-16 units) |
| PdfExport.IdeaItems | ideaspark-api/src/main/java/com/ideaspark/api/service/impl/PdfExportServiceImpl.java:305-311 | the first ten ideas become items; the loop fails exactly when one of them has no description |
| PdfExport.GenerationItems | ideaspark-api/src/main/java/com/ideaspark/api/service/impl/PdfExportServiceImpl.java:319-324 | the first ten generations become items, in order |
| PdfExport.GenerateCompleteUserHtml | ideaspark-api/src/main/java/com/ideaspark/api/service/impl/PdfExportServiceImpl.java:280-331 | fails exactly for a missing description among the first ten ideas; otherwise full counts, escaped name, and sections of at most ten items present exactly when non-empty |
| PdfExport.GenerateCompleteUserPdf | ideaspark-api/src/main/java/com/ideaspark/api/service/impl/PdfExportServiceImpl.java:93-111 | fails exactly when the user id is unknown, both dates are given and one does not parse, or one of the first ten selected ideas has no description; otherwise the name, the counts of the date-selected records, the template class and the idea and generation items of the selected records |
| Cloudinary.StripExtension | ideaspark-api/src/main/java/com/ideaspark/api/service/impl/CloudinaryServiceImpl.java:164 | the last segment keeps everything before its last '.', or all of it without a '.' |
| Cloudinary.ExtractPublicIdFromUrl | ideaspark-api/src/main/java/com/ideaspark/api/service/impl/CloudinaryServiceImpl.java:149-173 | null or blank gives null; a public id comes back exactly when split yields two segments, and it is the last two joined, without the extension |
| Cloudinary.NoSeparatorGivesNull | ideaspark-api/src/main/java/com/ideaspark/api/service/impl/CloudinaryServiceImpl.java:149-173 | a URL without '/' gives null |
| Cloudinary.StripLastExtension | ideaspark-api/src/main/java/com/ideaspark/api/service/impl/CloudinaryServiceImpl.java:164 | only the extension after the last '.' is dropped |
| Cloudinary.PublicIdOfSegments | ideaspark-api/src/main/java/com/ideaspark/api/service/impl/CloudinaryServiceImpl.java:158-166 | the public id is read off the last two segments |
| Cloudinary.PublicIdOfUploadUrl | ideaspark-api/src/main/java/com/ideaspark/api/service/impl/CloudinaryServiceImpl.java:149-173 | a URL ending in folder/name.ext gives folder/name, whatever precedes it |
| Cloudinary.TrailingSeparatorIgnored | ideaspark-api/src/main/java/com/ideaspark/api/service/impl/CloudinaryServiceImpl.java:149-173 | a trailing '/' does not change the public id |
| Cloudinary.IsValidImageFormat | ideaspark-api/src/main/java/com/ideaspark/api/service/impl/CloudinaryServiceImpl.java:128-142 | valid exactly for a present non-empty file whose content type is one of the five image types |
| Cloudinary.ContentTypeIsCaseSensitive | ideaspark-api/src/main/java/com/ideaspark/api/service/impl/CloudinaryServiceImpl.java:128-142 | an accepted file is non-empty and its content type has no upper-case letter; "IMAGE/PNG" is refused, "image/png" accepted |
| Cloudinary.MaxFileSize | ideaspark-api/src/main/java/com/ideaspark/api/service/impl/CloudinaryServiceImpl.java:144-147 | the limit is 5 MiB |
| Cloudinary.UploadImage | ideaspark-api/src/main/java/com/ideaspark/api/service/impl/CloudinaryServiceImpl.java:24-46 | an empty file is refused without any call; any other is uploaded once to the folder |
| Cloudinary.DeleteImage | ideaspark-api/src/main/java/com/ideaspark/api/service/impl/CloudinaryServiceImpl.java:48-64 | a null or blank id is refused without any call; any other is destroyed once |
| Cloudinary.UpdateImage | ideaspark-api/src/main/java/com/ideaspark/api/service/impl/CloudinaryServiceImpl.java:66-85 | with a client whose calls succeed, a usable old id is destroyed first, then the upload runs and decides the outcome |
| Cloudinary.EmptyUpdateStillDestroys | ideaspark-api/src/main/java/com/ideaspark/api/service/impl/CloudinaryServiceImpl.java:66-85 | an update with an empty file destroys the old image and is then refused |
| Cloudinary.GetImageUrl | ideaspark-api/src/main/java/com/ideaspark/api/service/impl/CloudinaryServiceImpl.java:87-94 | a URL is requested exactly for a usable id, without transformation |
| Cloudinary.GetOptimizedImageUrl | ideaspark-api/src/main/java/com/ideaspark/api/service/impl/CloudinaryServiceImpl.java:96-110 | a URL is requested exactly for a usable id, with an automatic format |
| Cloudinary.GenerateOptimizedUrl | ideaspark-api/src/main/java/com/ideaspark/api/service/impl/CloudinaryServiceImpl.java:112-126 | a URL is requested exactly for a usable id, in the given format or "auto" |
| Cloudinary.DefaultFormatMatchesOptimized | ideaspark-api/src/main/java/com/ideaspark/api/service/impl/CloudinaryServiceImpl.java:96-126 | without a format, generateOptimizedUrl requests what getOptimizedImageUrl requests |

## Left out

- `refreshToken`, `logout`, `resetPassword`, `googleLogin` and `forgotPassword` in `AuthServiceImpl` are not modelled. They work only through the JWT service, the Google client and the mail gateway.
- The `sendOtp` and `verifyOtp` wrappers in `AuthServiceImpl` are not modelled separately. `OtpServiceImpl` is modelled and they only forward to it.
- `getUserActivity` and `logUserActivity` in `UserServiceImpl` are not modelled. Activity logging swallows every failure and changes no state the model keeps.
- JWT minting and checking, password hashing and the authentication manager are function parameters. A minted token is represented by its subject and claims.
- The JWT service is not part of this model. A token whose subject cannot be read is taken to make `extractEmailFromToken` throw an unchecked exception that has no handler of its own (as jjwt's `JwtException` family is), so the controller's answer is the RuntimeException handler's.
- E-mail and SMS delivery is a parameter that reports whether the gateway accepted the message. Message texts and templates are not modelled. The verification e-mail at registration is not modelled, since the source ignores its failure.
- The Cloudinary client is not modelled: uploads, destroys and URL building are represented by the calls and requests they make. The URL text, signing and the upload result map are left out.
- PDF rendering by iText is not modelled. The other PDF generators (ideas, generations, chat history, activity, custom data) are not modelled either; the complete-user export stands for their shared helpers.
- Fixed HTML markup and CSS text are not modelled. The date in the export header and "Member Since" come from the clock and are left out.
- `sendExpirationNotifications` only queries and logs. Its query is modelled as `Subscriptions.FindExpiringSubscriptions`.
- Paging in `getAllUsers` is not modelled: the listing is the whole filtered collection.
- The calendar month is not computed: `plusMonths(1)` is the parameter `monthEnd`. Nor is the start of today or of the month.
- `Subscriptions.FindActive`: when several records match it returns the first one, whereas Spring Data raises. The service invariant proved here (`OneActivePerUser`) rules that case out.
- Concurrent requests are not modelled: each operation runs alone on the stores.
- Role names and `equalsIgnoreCase("otp")` use ASCII case mapping only.
- Boxed `Boolean` fields of `User` are never null in the modelled flows.
- `UserRole` and `UserStatus` are not part of this model as source files. Their constants are taken from their uses: USER, ADMIN, PREMIUM and ACTIVE, INACTIVE, SUSPENDED.
- New Mongo ids are parameters, required to be fresh. `System.currentTimeMillis()` is the parameter `millis`.
- Spring's request validation (`@Valid`) and the Spring Security filter chain are outside the model. Only the handlers' answers to the resulting exceptions are modelled.
- `Subscriptions.AvailablePlans`: only the number of plans is in its contract. Their names, prices and features are stated in `Subscriptions.PlansAgreeWithTypes`.
- ValidateToken: its own contract states only that a valid token names a stored user it checks against. The converse is `AuthService.ValidateTokenExactly`, which assumes unique e-mails. When several users share an e-mail, Spring Data's `findByEmail` raises and the source answers false, whereas the model checks the token against the first of them.
- Truncate: lengths and the cut at 200 count characters, whereas Java's `length()` and `substring` count UTF-16 code units. For text with characters outside the Basic Multilingual Plane the cut falls elsewhere, and Java can split a surrogate pair. For other text the two agree.
- CssClass: lower-casing is ASCII only. Java's `toLowerCase()` follows the default locale, so under a Turkish locale "CLASSIC" becomes "classıc" and gets the modern style sheet.
- HistoryItemOf: the status is upper-cased with ASCII case mapping. Java's `toUpperCase()` follows the default locale, so under a Turkish locale the stored "active" and "expired" are shown as "ACTİVE" and "EXPİRED".
- UpdateImage: the client's calls are taken to succeed. In the source a failed destroy becomes a `CloudinaryException` in `deleteImage`, which the `IOException` catch in `updateImage` does not catch, so the update stops before the upload.
- `LocalDateTime.parse` is the parameter `parse` of `PdfExport.ParseWindow`; its None stands for the `DateTimeParseException`. The ISO date-time format it accepts is not modelled.
- SharesUniqueValue: an absent username or phone never collides. The unique indexes on `User` are declared without the sparse option, so where they are created a second user without a username or phone has a duplicate null key and register answers REGISTRATION_FAILED. Whether the indexes are created is configuration, which is not part of this model.
