/**
 * The OTP ledger's store: OtpVerification records in the "otps" collection,
 * where a unique compound index on (phoneOrEmail, purpose) admits at most
 * one record per key, verified or not. The repository's finders are pure
 * filters over the stored records; its deletes and saves change the
 * collection in place.
 */
module OtpStore {
  import opened Base

  /** One stored code. purpose is a free string; "PASSWORD_RESET",
      "PHONE_VERIFICATION" and "EMAIL_VERIFICATION" are conventions only. */
  datatype OtpVerification = OtpVerification(
    phoneOrEmail: string,
    otp: string,
    purpose: string,
    verified: bool,
    attempts: int,
    createdAt: Instant,
    expiresAt: Instant,
    verifiedAt: Option<Instant>)

  datatype Key = Key(phoneOrEmail: string, purpose: string)

  function KeyOf(r: OtpVerification): Key
  {
    Key(r.phoneOrEmail, r.purpose)
  }

  /** The unique compound index: no two records share a key. */
  predicate UniqueKeys(s: seq<OtpVerification>)
  {
    forall i, j :: 0 <= i < |s| && 0 <= j < |s| && KeyOf(s[i]) == KeyOf(s[j]) ==> i == j
  }

  predicate HasKey(s: seq<OtpVerification>, k: Key)
  {
    exists i :: 0 <= i < |s| && KeyOf(s[i]) == k
  }

  /** A record built by the builder with the given fields: verified false,
      attempts 0, no verification time. */
  function Pending(phoneOrEmail: string, otp: string, purpose: string, createdAt: Instant, expiresAt: Instant): (r: OtpVerification)
    ensures !r.verified && r.attempts == 0 && r.verifiedAt.None?
    ensures KeyOf(r) == Key(phoneOrEmail, purpose)
  {
    OtpVerification(phoneOrEmail, otp, purpose, false, 0, createdAt, expiresAt, None)
  }

  /** findByPhoneOrEmailAndPurposeAndVerifiedFalse: the position of an
      unverified record for the key, if there is one. */
  function FindPending(s: seq<OtpVerification>, phoneOrEmail: string, purpose: string): (r: Option<nat>)
    ensures r.Some? ==> r.value < |s| && KeyOf(s[r.value]) == Key(phoneOrEmail, purpose) && !s[r.value].verified
    ensures r.None? <==> forall i :: 0 <= i < |s| ==> !(KeyOf(s[i]) == Key(phoneOrEmail, purpose) && !s[i].verified)
  {
    if s == [] then None
    else if KeyOf(s[0]) == Key(phoneOrEmail, purpose) && !s[0].verified then Some(0)
    else match FindPending(s[1..], phoneOrEmail, purpose)
      case None => None
      case Some(k) => Some(k + 1)
  }

  /** findByPhoneOrEmailAndOtpAndPurposeAndVerifiedFalse: as FindPending, and the code must match too. */
  function FindPendingWithCode(s: seq<OtpVerification>, phoneOrEmail: string, otp: string, purpose: string): (r: Option<nat>)
    ensures r.Some? ==>
      r.value < |s| && KeyOf(s[r.value]) == Key(phoneOrEmail, purpose) && !s[r.value].verified && s[r.value].otp == otp
    ensures r.None? <==> forall i :: 0 <= i < |s| ==>
      !(KeyOf(s[i]) == Key(phoneOrEmail, purpose) && !s[i].verified && s[i].otp == otp)
  {
    if s == [] then None
    else if KeyOf(s[0]) == Key(phoneOrEmail, purpose) && !s[0].verified && s[0].otp == otp then Some(0)
    else match FindPendingWithCode(s[1..], phoneOrEmail, otp, purpose)
      case None => None
      case Some(k) => Some(k + 1)
  }

  /** Under the unique index the two finders agree whenever the code matches:
      the record with the code is the one pending record for the key. */
  lemma FindersAgree(s: seq<OtpVerification>, phoneOrEmail: string, otp: string, purpose: string)
    requires UniqueKeys(s)
    ensures FindPendingWithCode(s, phoneOrEmail, otp, purpose).Some? <==>
      (FindPending(s, phoneOrEmail, purpose).Some? && s[FindPending(s, phoneOrEmail, purpose).value].otp == otp)
    ensures FindPendingWithCode(s, phoneOrEmail, otp, purpose).Some? ==>
      FindPendingWithCode(s, phoneOrEmail, otp, purpose) == FindPending(s, phoneOrEmail, purpose)
  {
    var p := FindPending(s, phoneOrEmail, purpose);
    var q := FindPendingWithCode(s, phoneOrEmail, otp, purpose);
    if q.Some? {
      assert p.Some?;
    }
  }

  /** deleteByPhoneOrEmailAndPurpose: every record for the key goes, verified
      or not; every other record stays, in order. */
  function WithoutKey(s: seq<OtpVerification>, k: Key): (r: seq<OtpVerification>)
    ensures |r| <= |s|
    ensures forall x :: x in r <==> x in s && KeyOf(x) != k
    ensures UniqueKeys(s) ==> UniqueKeys(r)
  {
    if s == [] then []
    else
      var rest := WithoutKey(s[1..], k);
      if KeyOf(s[0]) == k then rest
      else
        assert UniqueKeys(s) ==> forall y :: y in rest ==> KeyOf(y) != KeyOf(s[0]);
        [s[0]] + rest
  }

  /** deleteByExpiresAtBefore: exactly the records whose expiry lies strictly
      before the given time go. */
  function ExpiringFrom(s: seq<OtpVerification>, t: Instant): (r: seq<OtpVerification>)
    ensures |r| <= |s|
    ensures forall x :: x in r <==> x in s && !(x.expiresAt < t)
    ensures UniqueKeys(s) ==> UniqueKeys(r)
  {
    if s == [] then []
    else
      var rest := ExpiringFrom(s[1..], t);
      if s[0].expiresAt < t then rest
      else
        assert UniqueKeys(s) ==> forall y :: y in rest ==> KeyOf(y) != KeyOf(s[0]);
        [s[0]] + rest
  }

  /** delete(entity): the one record at position i goes. */
  function RemoveAt(s: seq<OtpVerification>, i: nat): (r: seq<OtpVerification>)
    requires i < |s|
    ensures |r| == |s| - 1
    ensures UniqueKeys(s) ==> UniqueKeys(r) && !HasKey(r, KeyOf(s[i]))
  {
    var r := s[..i] + s[i + 1..];
    assert forall j :: 0 <= j < |r| ==> r[j] == (if j < i then s[j] else s[j + 1]);
    r
  }

  /** delete(entity) removes that record and keeps every other one. */
  lemma RemoveAtKeepsOthers(s: seq<OtpVerification>, i: nat)
    requires i < |s| && UniqueKeys(s)
    ensures forall x :: x in RemoveAt(s, i) <==> x in s && x != s[i]
  {
    var r := RemoveAt(s, i);
    assert forall j :: 0 <= j < |r| ==> r[j] == (if j < i then s[j] else s[j + 1]);
    forall x | x in s && x != s[i] ensures x in r {
      var j :| 0 <= j < |s| && s[j] == x;
      if j < i {
        assert r[j] == x;
      } else {
        assert r[j - 1] == x;
      }
    }
  }

  /** Deleting a key twice is the same as deleting it once. */
  lemma WithoutKeyIdempotent(s: seq<OtpVerification>, k: Key)
    ensures WithoutKey(WithoutKey(s, k), k) == WithoutKey(s, k)
  {
    if s != [] {
      WithoutKeyIdempotent(s[1..], k);
    }
  }

  /** No record for a key survives its deletion. */
  lemma WithoutKeyHasNoKey(s: seq<OtpVerification>, k: Key)
    ensures !HasKey(WithoutKey(s, k), k)
  {
    var r := WithoutKey(s, k);
    forall i | 0 <= i < |r| ensures KeyOf(r[i]) != k {
      assert r[i] in r;
    }
  }

  /** The stored records for one key, in store order. */
  function RecordsFor(s: seq<OtpVerification>, k: Key): (r: seq<OtpVerification>)
    ensures forall x :: x in r <==> x in s && KeyOf(x) == k
  {
    if s == [] then []
    else if KeyOf(s[0]) == k then [s[0]] + RecordsFor(s[1..], k)
    else RecordsFor(s[1..], k)
  }

  lemma RecordsForAppend(s: seq<OtpVerification>, x: OtpVerification, k: Key)
    ensures RecordsFor(s + [x], k) == RecordsFor(s, k) + RecordsFor([x], k)
  {
    if s != [] {
      assert (s + [x])[1..] == s[1..] + [x];
      RecordsForAppend(s[1..], x, k);
    }
  }

  lemma RecordsForAbsent(s: seq<OtpVerification>, k: Key)
    requires !HasKey(s, k)
    ensures RecordsFor(s, k) == []
  {
    if s != [] {
      assert KeyOf(s[0]) != k;
      assert forall i :: 0 <= i < |s[1..]| ==> s[1..][i] == s[i + 1];
      RecordsForAbsent(s[1..], k);
    }
  }

  /** The repository over the "otps" collection. */
  class OtpVerificationRepository {
    var records: seq<OtpVerification>

    ghost predicate Valid()
      reads this
    {
      UniqueKeys(records)
    }

    constructor ()
      ensures Valid() && records == []
    {
      records := [];
    }

    method DeleteByPhoneOrEmailAndPurpose(phoneOrEmail: string, purpose: string)
      requires Valid()
      modifies this
      ensures Valid()
      ensures records == WithoutKey(old(records), Key(phoneOrEmail, purpose))
    {
      records := WithoutKey(records, Key(phoneOrEmail, purpose));
    }

    method DeleteByExpiresAtBefore(t: Instant)
      requires Valid()
      modifies this
      ensures Valid()
      ensures records == ExpiringFrom(old(records), t)
    {
      records := ExpiringFrom(records, t);
    }

    /** delete(entity) for the record at position i. */
    method Delete(i: nat)
      requires Valid() && i < |records|
      modifies this
      ensures Valid()
      ensures records == RemoveAt(old(records), i)
    {
      records := RemoveAt(records, i);
    }

    /** save of a new record: the unique index rejects it when its key is taken. */
    method Insert(r: OtpVerification) returns (ok: bool)
      requires Valid()
      modifies this
      ensures Valid()
      ensures ok <==> !HasKey(old(records), KeyOf(r))
      ensures records == if ok then old(records) + [r] else old(records)
    {
      if HasKey(records, KeyOf(r)) {
        ok := false;
      } else {
        records := records + [r];
        ok := true;
      }
    }

    /** save of the stored record at position i, replacing it; the unique index
        rejects a new key that another record already holds. */
    method Replace(i: nat, r: OtpVerification) returns (ok: bool)
      requires Valid() && i < |records|
      modifies this
      ensures Valid()
      ensures ok <==> forall j :: 0 <= j < |old(records)| && j != i ==> KeyOf(old(records)[j]) != KeyOf(r)
      ensures records == if ok then old(records)[i := r] else old(records)
    {
      ok := forall j :: 0 <= j < |records| && j != i ==> KeyOf(records[j]) != KeyOf(r);
      if ok {
        records := records[i := r];
      }
    }
  }
}
