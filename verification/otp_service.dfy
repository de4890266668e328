/**
 * OtpServiceImpl: issuing and checking one-time codes over the OTP store.
 *
 * sendOTP purges the key, draws a code, delivers it by e-mail or SMS
 * according to the identifier, and stores a fresh pending record only if
 * delivery reported success. verifyOTP checks, in this order, that a
 * pending record exists, that it has not expired, and that its attempts are
 * not exhausted; it then counts the attempt and marks the record verified
 * when the code matches.
 *
 * The random draw, the clock and the e-mail/SMS gateways are parameters.
 */
module OtpService {
  import opened Base
  import Decimal
  import opened Identifiers
  import opened OtpStore

  const DefaultExpirationMinutes: int := 5
  const DefaultMaxAttempts: int := 3

  const PasswordReset := "PASSWORD_RESET"
  const EmailVerification := "EMAIL_VERIFICATION"
  const PhoneVerification := "PHONE_VERIFICATION"

  const GreetingName := "User"
  const CustomSubject := "OTP Verification"
  const CustomBodyPrefix := "Your OTP is: "

  /** generateOTP, given the SecureRandom draw nextInt(900000): a six-digit
      decimal string without a leading zero, denoting 100000 + draw. */
  function GenerateOtp(draw: int): (code: string)
    requires 0 <= draw < 900000
    ensures |code| == 6 && Decimal.AllDigits(code) && code[0] != '0'
    ensures Decimal.ValueOf(code) == 100000 + draw
    ensures 100000 <= Decimal.ValueOf(code) <= 999999
  {
    Decimal.DecimalLength(100000 + draw, 6);
    Decimal.ToDecimal(100000 + draw)
  }

  /** A message handed to the e-mail or SMS gateway. */
  datatype Dispatch =
    | PasswordResetEmail(to: string, otp: string, name: string)
    | VerificationEmail(to: string, otp: string, name: string)
    | CustomEmail(to: string, subject: string, body: string)
    | PasswordResetSms(to: string, otp: string)
    | PhoneVerificationSms(to: string, otp: string)
    | CustomSms(to: string, body: string)

  predicate ByEmail(d: Dispatch)
  {
    d.PasswordResetEmail? || d.VerificationEmail? || d.CustomEmail?
  }

  /** The message carries the code, either as its own field or at the end of its text. */
  predicate Carries(d: Dispatch, otp: string)
  {
    match d
    case CustomEmail(_, _, body) => body == CustomBodyPrefix + otp
    case CustomSms(_, body) => body == CustomBodyPrefix + otp
    case _ => d.otp == otp
  }

  /** The sender sendOTP calls: e-mail senders by purpose when the identifier is
      an e-mail address, else SMS senders by purpose when it is a phone number,
      else none (nothing is sent). */
  function ChooseDispatch(phoneOrEmail: string, purpose: string, otp: string): Option<Dispatch>
  {
    if IsEmail(phoneOrEmail) then
      Some(if purpose == PasswordReset then PasswordResetEmail(phoneOrEmail, otp, GreetingName)
           else if purpose == EmailVerification then VerificationEmail(phoneOrEmail, otp, GreetingName)
           else CustomEmail(phoneOrEmail, CustomSubject, CustomBodyPrefix + otp))
    else if IsPhone(phoneOrEmail) then
      Some(if purpose == PasswordReset then PasswordResetSms(phoneOrEmail, otp)
           else if purpose == PhoneVerification then PhoneVerificationSms(phoneOrEmail, otp)
           else CustomSms(phoneOrEmail, CustomBodyPrefix + otp))
    else None
  }

  /** A message goes out exactly for valid identifiers, to that identifier and
      carrying the code; e-mail addresses get e-mail and phone numbers SMS. */
  lemma DispatchFollowsIdentifier(phoneOrEmail: string, purpose: string, otp: string)
    ensures ChooseDispatch(phoneOrEmail, purpose, otp).Some? <==> IsValidPhoneOrEmail(phoneOrEmail)
    ensures var d := ChooseDispatch(phoneOrEmail, purpose, otp);
      d.Some? ==> d.value.to == phoneOrEmail && Carries(d.value, otp)
    ensures IsEmail(phoneOrEmail) ==> ByEmail(ChooseDispatch(phoneOrEmail, purpose, otp).value)
    ensures IsPhone(phoneOrEmail) ==> !ByEmail(ChooseDispatch(phoneOrEmail, purpose, otp).value)
    ensures var d := ChooseDispatch(phoneOrEmail, purpose, otp);
      d.Some? && purpose == PasswordReset ==> d.value.PasswordResetEmail? || d.value.PasswordResetSms?
  {
    if IsEmail(phoneOrEmail) {
      EmailAndPhoneDisjoint(phoneOrEmail);
    }
  }

  /** What the service keeps true of every stored record: attempts are counted
      from 0 and never pass maxAttempts, a verification time is set exactly on
      verified records, and a verified record was compared at least once. */
  predicate WellFormedRecord(r: OtpVerification, maxAttempts: int)
  {
    0 <= r.attempts && (r.attempts == 0 || r.attempts <= maxAttempts)
    && (r.verified <==> r.verifiedAt.Some?)
    && (r.verified ==> r.attempts >= 1)
  }

  predicate Ledger(s: seq<OtpVerification>, maxAttempts: int)
  {
    UniqueKeys(s) && forall i :: 0 <= i < |s| ==> WellFormedRecord(s[i], maxAttempts)
  }

  datatype Outcome = Outcome(ok: bool, store: seq<OtpVerification>)

  /** sendOTP against the store s. */
  function SendSpec(s: seq<OtpVerification>, phoneOrEmail: string, purpose: string, now: Instant,
                    draw: int, minutes: int, delivered: Dispatch -> bool): Outcome
    requires 0 <= draw < 900000
  {
    var purged := WithoutKey(s, Key(phoneOrEmail, purpose));
    var code := GenerateOtp(draw);
    var d := ChooseDispatch(phoneOrEmail, purpose, code);
    if d.Some? && delivered(d.value) then
      Outcome(true, purged + [Pending(phoneOrEmail, code, purpose, now, PlusMinutes(now, minutes))])
    else Outcome(false, purged)
  }

  /** verifyOTP against the store s. */
  function VerifySpec(s: seq<OtpVerification>, phoneOrEmail: string, otp: string, purpose: string,
                      now: Instant, maxAttempts: int): Outcome
  {
    match FindPending(s, phoneOrEmail, purpose)
    case None => Outcome(false, s)
    case Some(i) =>
      if now > s[i].expiresAt then Outcome(false, RemoveAt(s, i))
      else if s[i].attempts >= maxAttempts then Outcome(false, RemoveAt(s, i))
      else
        var counted := s[i].(attempts := s[i].attempts + 1);
        if otp != counted.otp then Outcome(false, s[i := counted])
        else Outcome(true, s[i := counted.(verified := true, verifiedAt := Some(now))])
  }

  /** cleanupExpiredOTPs against the store s. */
  function CleanupSpec(s: seq<OtpVerification>, now: Instant): seq<OtpVerification>
  {
    ExpiringFrom(s, now)
  }

  // ---------------------------------------------------------------------------
  // The service object
  // ---------------------------------------------------------------------------

  class OtpServiceImpl {
    const repo: OtpVerificationRepository
    const otpExpirationMinutes: int
    const maxAttempts: int

    ghost predicate Valid()
      reads this, repo
    {
      repo.Valid() && Ledger(repo.records, maxAttempts)
    }

    constructor (repo: OtpVerificationRepository, otpExpirationMinutes: int, maxAttempts: int)
      requires Ledger(repo.records, maxAttempts)
      ensures Valid()
      ensures this.repo == repo && this.otpExpirationMinutes == otpExpirationMinutes
      ensures this.maxAttempts == maxAttempts
    {
      this.repo := repo;
      this.otpExpirationMinutes := otpExpirationMinutes;
      this.maxAttempts := maxAttempts;
    }

    /** sendOTP. The draw is SecureRandom.nextInt(900000) and delivered(d)
        reports whether the gateway accepted message d (false also covers a
        gateway that threw). */
    method SendOtp(phoneOrEmail: string, purpose: string, now: Instant, draw: int,
                   delivered: Dispatch -> bool) returns (sent: bool)
      requires Valid()
      requires 0 <= draw < 900000
      modifies repo
      ensures Valid()
      ensures Outcome(sent, repo.records)
        == SendSpec(old(repo.records), phoneOrEmail, purpose, now, draw, otpExpirationMinutes, delivered)
    {
      var key := Key(phoneOrEmail, purpose);
      ghost var before := repo.records;
      repo.DeleteByPhoneOrEmailAndPurpose(phoneOrEmail, purpose);
      LedgerShrinks(before, repo.records, maxAttempts);
      var otp := GenerateOtp(draw);
      var message := ChooseDispatch(phoneOrEmail, purpose, otp);
      if message.None? || !delivered(message.value) {
        return false;
      }
      var record := Pending(phoneOrEmail, otp, purpose, now, PlusMinutes(now, otpExpirationMinutes));
      repo.DeleteByPhoneOrEmailAndPurpose(phoneOrEmail, purpose);
      WithoutKeyIdempotent(before, key);
      WithoutKeyHasNoKey(before, key);
      sent := repo.Insert(record);
    }

    /** verifyOTP. */
    method VerifyOtp(phoneOrEmail: string, otp: string, purpose: string, now: Instant) returns (verified: bool)
      requires Valid()
      modifies repo
      ensures Valid()
      ensures Outcome(verified, repo.records)
        == VerifySpec(old(repo.records), phoneOrEmail, otp, purpose, now, maxAttempts)
    {
      var found := FindPending(repo.records, phoneOrEmail, purpose);
      if found.None? {
        return false;
      }
      var i := found.value;
      var record := repo.records[i];
      if now > record.expiresAt {
        ghost var before := repo.records;
        repo.Delete(i);
        RemoveAtKeepsLedger(before, i, maxAttempts);
        return false;
      }
      if record.attempts >= maxAttempts {
        ghost var before := repo.records;
        repo.Delete(i);
        RemoveAtKeepsLedger(before, i, maxAttempts);
        return false;
      }
      record := record.(attempts := record.attempts + 1);
      if otp != record.otp {
        var saved := repo.Replace(i, record);
        return false;
      }
      record := record.(verified := true, verifiedAt := Some(now));
      verified := repo.Replace(i, record);
    }

    /** cleanupExpiredOTPs. */
    method CleanupExpiredOtps(now: Instant)
      requires Valid()
      modifies repo
      ensures Valid()
      ensures repo.records == CleanupSpec(old(repo.records), now)
    {
      ghost var before := repo.records;
      repo.DeleteByExpiresAtBefore(now);
      LedgerShrinks(before, repo.records, maxAttempts);
    }
  }

  // ---------------------------------------------------------------------------
  // The ledger invariant
  // ---------------------------------------------------------------------------

  /** Dropping records (by key or by expiry) keeps the ledger invariant. */
  lemma LedgerShrinks(s: seq<OtpVerification>, r: seq<OtpVerification>, maxAttempts: int)
    requires Ledger(s, maxAttempts) && UniqueKeys(r)
    requires forall x :: x in r ==> x in s
    ensures Ledger(r, maxAttempts)
  {
    forall i | 0 <= i < |r| ensures WellFormedRecord(r[i], maxAttempts) {
      assert r[i] in s;
    }
  }

  lemma RemoveAtKeepsLedger(s: seq<OtpVerification>, i: nat, maxAttempts: int)
    requires Ledger(s, maxAttempts) && i < |s|
    ensures Ledger(RemoveAt(s, i), maxAttempts)
  {
    RemoveAtKeepsOthers(s, i);
    LedgerShrinks(s, RemoveAt(s, i), maxAttempts);
  }

  /** Under the unique index, a pending record for the key is the one FindPending returns. */
  lemma PendingIsFound(s: seq<OtpVerification>, i: nat)
    requires UniqueKeys(s) && i < |s| && !s[i].verified
    ensures FindPending(s, s[i].phoneOrEmail, s[i].purpose) == Some(i)
  {
  }

  /** Under the unique index, a verified record for the key hides it from FindPending. */
  lemma VerifiedIsNotFound(s: seq<OtpVerification>, i: nat)
    requires UniqueKeys(s) && i < |s| && s[i].verified
    ensures FindPending(s, s[i].phoneOrEmail, s[i].purpose).None?
  {
  }

  /** Every send keeps the ledger invariant. */
  lemma SendKeepsLedger(s: seq<OtpVerification>, phoneOrEmail: string, purpose: string, now: Instant,
                        draw: int, minutes: int, delivered: Dispatch -> bool, maxAttempts: int)
    requires 0 <= draw < 900000 && Ledger(s, maxAttempts)
    ensures Ledger(SendSpec(s, phoneOrEmail, purpose, now, draw, minutes, delivered).store, maxAttempts)
  {
    var k := Key(phoneOrEmail, purpose);
    var purged := WithoutKey(s, k);
    LedgerShrinks(s, purged, maxAttempts);
    WithoutKeyHasNoKey(s, k);
    var o := SendSpec(s, phoneOrEmail, purpose, now, draw, minutes, delivered);
    if o.ok {
      assert o.store == purged + [o.store[|purged|]];
      assert KeyOf(o.store[|purged|]) == k;
    }
  }

  /** Every verification keeps the ledger invariant: in particular a stored
      attempt count never exceeds maxAttempts. */
  lemma VerifyKeepsLedger(s: seq<OtpVerification>, phoneOrEmail: string, otp: string, purpose: string,
                          now: Instant, maxAttempts: int)
    requires Ledger(s, maxAttempts)
    ensures Ledger(VerifySpec(s, phoneOrEmail, otp, purpose, now, maxAttempts).store, maxAttempts)
  {
    var found := FindPending(s, phoneOrEmail, purpose);
    if found.Some? {
      var i := found.value;
      if now > s[i].expiresAt || s[i].attempts >= maxAttempts {
        RemoveAtKeepsLedger(s, i, maxAttempts);
      }
    }
  }

  // ---------------------------------------------------------------------------
  // Properties of sendOTP
  // ---------------------------------------------------------------------------

  /** sendOTP never touches the records of other keys. */
  lemma SendKeepsOtherKeys(s: seq<OtpVerification>, phoneOrEmail: string, purpose: string, now: Instant,
                           draw: int, minutes: int, delivered: Dispatch -> bool, x: OtpVerification)
    requires 0 <= draw < 900000
    requires KeyOf(x) != Key(phoneOrEmail, purpose)
    ensures x in SendSpec(s, phoneOrEmail, purpose, now, draw, minutes, delivered).store <==> x in s
  {
  }

  /** A failed send, including one to an identifier that is neither an e-mail
      address nor a phone number, returns false and leaves no code at all for
      the key: the old one was purged before sending. */
  lemma FailedSendLeavesNoCode(s: seq<OtpVerification>, phoneOrEmail: string, purpose: string, now: Instant,
                               draw: int, minutes: int, delivered: Dispatch -> bool)
    requires 0 <= draw < 900000
    ensures var o := SendSpec(s, phoneOrEmail, purpose, now, draw, minutes, delivered);
      !o.ok ==> !HasKey(o.store, Key(phoneOrEmail, purpose))
    ensures !IsValidPhoneOrEmail(phoneOrEmail) ==> !SendSpec(s, phoneOrEmail, purpose, now, draw, minutes, delivered).ok
  {
    WithoutKeyHasNoKey(s, Key(phoneOrEmail, purpose));
    DispatchFollowsIdentifier(phoneOrEmail, purpose, GenerateOtp(draw));
  }

  /** After a successful send the key has exactly one record: pending, never
      tried, holding the generated code and expiring otpExpirationMinutes later. */
  lemma SuccessfulSendStoresOneCode(s: seq<OtpVerification>, phoneOrEmail: string, purpose: string,
                                    now: Instant, draw: int, minutes: int, delivered: Dispatch -> bool)
    requires 0 <= draw < 900000
    requires SendSpec(s, phoneOrEmail, purpose, now, draw, minutes, delivered).ok
    ensures var rs := RecordsFor(SendSpec(s, phoneOrEmail, purpose, now, draw, minutes, delivered).store,
                                 Key(phoneOrEmail, purpose));
      |rs| == 1 && !rs[0].verified && rs[0].attempts == 0 && rs[0].verifiedAt.None?
      && rs[0].otp == GenerateOtp(draw) && rs[0].createdAt == now
      && rs[0].expiresAt == now + minutes * SecondsPerMinute
  {
    var k := Key(phoneOrEmail, purpose);
    var purged := WithoutKey(s, k);
    var record := Pending(phoneOrEmail, GenerateOtp(draw), purpose, now, PlusMinutes(now, minutes));
    WithoutKeyHasNoKey(s, k);
    RecordsForAppend(purged, record, k);
    RecordsForAbsent(purged, k);
  }

  // ---------------------------------------------------------------------------
  // Properties of verifyOTP
  // ---------------------------------------------------------------------------

  /** Without a pending record for the key, verifyOTP returns false and changes nothing. */
  lemma VerifyWithoutPendingChangesNothing(s: seq<OtpVerification>, phoneOrEmail: string, otp: string,
                                           purpose: string, now: Instant, maxAttempts: int)
    requires forall i :: 0 <= i < |s| ==> !(KeyOf(s[i]) == Key(phoneOrEmail, purpose) && !s[i].verified)
    ensures VerifySpec(s, phoneOrEmail, otp, purpose, now, maxAttempts) == Outcome(false, s)
  {
  }

  /** verifyOTP succeeds exactly when some unverified record for the key is
      unexpired, has attempts left and holds the given code. */
  lemma VerifySucceedsIff(s: seq<OtpVerification>, phoneOrEmail: string, otp: string, purpose: string,
                          now: Instant, maxAttempts: int)
    requires UniqueKeys(s)
    ensures VerifySpec(s, phoneOrEmail, otp, purpose, now, maxAttempts).ok <==>
      exists i :: 0 <= i < |s| && KeyOf(s[i]) == Key(phoneOrEmail, purpose) && !s[i].verified
        && now <= s[i].expiresAt && s[i].attempts < maxAttempts && s[i].otp == otp
  {
    var found := FindPending(s, phoneOrEmail, purpose);
    if found.Some? {
      var i := found.value;
      if VerifySpec(s, phoneOrEmail, otp, purpose, now, maxAttempts).ok {
        assert now <= s[i].expiresAt && s[i].attempts < maxAttempts && s[i].otp == otp;
      }
    }
  }

  /** An expired or exhausted code is deleted and rejected, whatever code is offered. */
  lemma StaleCodeIsDiscarded(s: seq<OtpVerification>, i: nat, otp: string, now: Instant, maxAttempts: int)
    requires UniqueKeys(s) && i < |s| && !s[i].verified
    requires now > s[i].expiresAt || s[i].attempts >= maxAttempts
    ensures var o := VerifySpec(s, s[i].phoneOrEmail, otp, s[i].purpose, now, maxAttempts);
      !o.ok && !HasKey(o.store, KeyOf(s[i]))
  {
    PendingIsFound(s, i);
  }

  /** A wrong code, on a live record with attempts left, is rejected and counted. */
  lemma WrongCodeIsCounted(s: seq<OtpVerification>, i: nat, otp: string, now: Instant, maxAttempts: int)
    requires UniqueKeys(s) && i < |s| && !s[i].verified
    requires now <= s[i].expiresAt && s[i].attempts < maxAttempts && otp != s[i].otp
    ensures var o := VerifySpec(s, s[i].phoneOrEmail, otp, s[i].purpose, now, maxAttempts);
      !o.ok && o.store == s[i := s[i].(attempts := s[i].attempts + 1)]
  {
    PendingIsFound(s, i);
  }

  /** The attempt limit is checked before the attempt is counted: with
      maxAttempts = 3 a fresh record is compared three times, and the fourth
      call deletes it and fails even with the right code. */
  lemma ThreeMissesThenLockout(s0: seq<OtpVerification>, i: nat, w1: string, w2: string, w3: string,
                               t1: Instant, t2: Instant, t3: Instant, t4: Instant)
    requires UniqueKeys(s0) && i < |s0| && !s0[i].verified && s0[i].attempts == 0
    requires w1 != s0[i].otp && w2 != s0[i].otp && w3 != s0[i].otp
    requires t1 <= s0[i].expiresAt && t2 <= s0[i].expiresAt && t3 <= s0[i].expiresAt && t4 <= s0[i].expiresAt
    ensures
      var id, p := s0[i].phoneOrEmail, s0[i].purpose;
      var o1 := VerifySpec(s0, id, w1, p, t1, 3);
      var o2 := VerifySpec(o1.store, id, w2, p, t2, 3);
      var o3 := VerifySpec(o2.store, id, w3, p, t3, 3);
      var o4 := VerifySpec(o3.store, id, s0[i].otp, p, t4, 3);
      !o1.ok && !o2.ok && !o3.ok && !o4.ok && !HasKey(o4.store, KeyOf(s0[i]))
  {
    var id, p := s0[i].phoneOrEmail, s0[i].purpose;
    WrongCodeIsCounted(s0, i, w1, t1, 3);
    var s1 := VerifySpec(s0, id, w1, p, t1, 3).store;
    assert UniqueKeys(s1) by { assert forall j :: 0 <= j < |s1| ==> KeyOf(s1[j]) == KeyOf(s0[j]); }
    WrongCodeIsCounted(s1, i, w2, t2, 3);
    var s2 := VerifySpec(s1, id, w2, p, t2, 3).store;
    assert UniqueKeys(s2) by { assert forall j :: 0 <= j < |s2| ==> KeyOf(s2[j]) == KeyOf(s0[j]); }
    WrongCodeIsCounted(s2, i, w3, t3, 3);
    var s3 := VerifySpec(s2, id, w3, p, t3, 3).store;
    assert UniqueKeys(s3) by { assert forall j :: 0 <= j < |s3| ==> KeyOf(s3[j]) == KeyOf(s0[j]); }
    assert s3[i].attempts == 3;
    StaleCodeIsDiscarded(s3, i, s0[i].otp, t4, 3);
  }

  /** A code that was just sent verifies once, at any time up to its expiry,
      and a second verification of it fails: the record is no longer pending. */
  lemma SendThenVerifyOnce(s: seq<OtpVerification>, phoneOrEmail: string, purpose: string, now: Instant,
                           draw: int, minutes: int, delivered: Dispatch -> bool,
                           t: Instant, later: Instant, maxAttempts: int)
    requires 0 <= draw < 900000 && UniqueKeys(s)
    requires SendSpec(s, phoneOrEmail, purpose, now, draw, minutes, delivered).ok
    requires t <= now + minutes * SecondsPerMinute && maxAttempts >= 1
    ensures
      var sent := SendSpec(s, phoneOrEmail, purpose, now, draw, minutes, delivered).store;
      var first := VerifySpec(sent, phoneOrEmail, GenerateOtp(draw), purpose, t, maxAttempts);
      first.ok && !VerifySpec(first.store, phoneOrEmail, GenerateOtp(draw), purpose, later, maxAttempts).ok
  {
    var k := Key(phoneOrEmail, purpose);
    var purged := WithoutKey(s, k);
    WithoutKeyHasNoKey(s, k);
    var sent := SendSpec(s, phoneOrEmail, purpose, now, draw, minutes, delivered).store;
    var i := |purged|;
    assert sent[i] == Pending(phoneOrEmail, GenerateOtp(draw), purpose, now, PlusMinutes(now, minutes));
    assert UniqueKeys(sent);
    PendingIsFound(sent, i);
    var first := VerifySpec(sent, phoneOrEmail, GenerateOtp(draw), purpose, t, maxAttempts).store;
    assert UniqueKeys(first) by { assert forall j :: 0 <= j < |first| ==> KeyOf(first[j]) == KeyOf(sent[j]); }
    VerifiedIsNotFound(first, i);
  }

  /** After cleanup at time now, no record has expired strictly before now, and
      every record that had not is still there. */
  lemma CleanupRemovesExactlyExpired(s: seq<OtpVerification>, now: Instant)
    ensures forall x :: x in CleanupSpec(s, now) ==> now <= x.expiresAt
    ensures forall x :: x in s && now <= x.expiresAt ==> x in CleanupSpec(s, now)
  {
  }
}
