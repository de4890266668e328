/**
 * Subscriptions: the Subscription record, the SubscriptionRepository queries
 * and SubscriptionServiceImpl.
 *
 * The subscriptions collection is a sequence of records. Each record refers
 * to its user by id (the source's @DBRef). The service keeps at most one
 * "active" subscription per user: subscribe cancels the current one before
 * it stores the new one. A subscription moves from "active" to "cancelled"
 * or "expired" and never back.
 */
module Subscriptions {
  import opened Base
  import opened ResponseDto
  import opened SubscriptionTypes
  import Decimal
  import Users

  const Active := "active"
  const Cancelled := "cancelled"
  const Expired := "expired"
  const Usd := "USD"
  const PremiumPlanId: int := 2
  const SubscriptionIdPrefix := "sub_"
  const ReportedActive := "ACTIVE"
  const ReportedCancelled := "CANCELLED"
  const CardPayment := "CARD"

  const SubscriptionFailed := "SUBSCRIPTION_FAILED"
  const ActivateFailedText := "Failed to activate subscription"
  const ActivatedText := "Subscription activated successfully"
  const StatusFetchFailed := "STATUS_FETCH_FAILED"
  const StatusFetchFailedText := "Failed to get subscription status"
  const NoActiveSubscription := "NO_ACTIVE_SUBSCRIPTION"
  const NoActiveText := "No active subscription found"
  const CancelFailed := "CANCEL_FAILED"
  const CancelFailedText := "Failed to cancel subscription"
  const CancelledText := "Subscription cancelled successfully"
  const UpgradedText := "Subscription upgraded successfully"
  const HistoryFetchFailed := "HISTORY_FETCH_FAILED"
  const HistoryFetchFailedText := "Failed to get subscription history"
  const ProratedAmount: int := 150

  const UnlimitedChat := "Unlimited AI Chat"
  const FakeNewsDetector := "News Fake Detector"
  const DataExport := "Data Export"
  const LimitedChat := "AI Chat (Limited)"
  const BasicTextTools := "Basic Text Tools"
  const DailyRequests := "5 Daily Requests"

  /**
   * A stored subscription. userId is the id of the referenced user;
   * expiresAt absent means the subscription never expires; amount and
   * currency have no builder default.
   */
  datatype Subscription = Subscription(
    id: string,
    userId: string,
    subscriptionId: string,
    subscriptionType: SubscriptionType,
    status: string,
    startsAt: Instant,
    expiresAt: Option<Instant>,
    autoRenew: bool,
    paymentMethodId: Option<string>,
    amount: Option<int>,
    currency: Option<string>,
    createdAt: Instant,
    updatedAt: Instant)

  /** Subscription.builder() with only id and user set: the builder defaults.
      The "USD" initializer on currency is not a builder default, so a
      builder-made subscription has no currency. */
  function Built(id: string, userId: string, subscriptionId: string, now: Instant): (s: Subscription)
    ensures s.subscriptionType == FREE && s.status == Active && !s.autoRenew
    ensures s.startsAt == now && s.createdAt == now && s.updatedAt == now
    ensures s.expiresAt.None? && s.amount.None? && s.currency.None?
    ensures s.id == id && s.userId == userId && s.subscriptionId == subscriptionId
  {
    Subscription(id, userId, subscriptionId, FREE, Active, now, None, false, None, None, None, now, now)
  }

  predicate IsActive(s: Subscription)
  {
    s.status == Active
  }

  /** The service invariant: no user has two active subscriptions. */
  predicate OneActivePerUser(subs: seq<Subscription>)
  {
    forall i, j ::
      (0 <= i < |subs| && 0 <= j < |subs| && IsActive(subs[i]) && IsActive(subs[j])
       && subs[i].userId == subs[j].userId) ==> i == j
  }

  predicate UniqueSubscriptionIds(subs: seq<Subscription>)
  {
    forall i, j :: 0 <= i < j < |subs| ==> subs[i].id != subs[j].id
  }

  // ---------------------------------------------------------------------------
  // Repository queries
  // ---------------------------------------------------------------------------

  /** findById. */
  function FindSubscription(subs: seq<Subscription>, id: string): Option<nat>
  {
    IndexWhere(subs, (s: Subscription) => s.id == id)
  }

  /** findByUserAndStatus(user, "active"). */
  function FindActive(subs: seq<Subscription>, userId: string): Option<nat>
  {
    IndexWhere(subs, (s: Subscription) => s.userId == userId && IsActive(s))
  }

  /** Under the service invariant the active subscription of a user is the
      only match, so the single-result query never meets several. */
  lemma ActiveIsTheOnlyMatch(subs: seq<Subscription>, userId: string, k: nat)
    requires OneActivePerUser(subs) && k < |subs|
    requires subs[k].userId == userId && IsActive(subs[k])
    ensures FindActive(subs, userId) == Some(k)
    ensures forall j :: 0 <= j < |subs| && j != k ==> !(subs[j].userId == userId && IsActive(subs[j]))
  {
  }

  /** The records of subs satisfying p, in stored order. */
  function Where(subs: seq<Subscription>, p: Subscription -> bool): (r: seq<Subscription>)
    ensures |r| <= |subs|
    ensures forall s :: s in r <==> s in subs && p(s)
  {
    if |subs| == 0 then []
    else (if p(subs[0]) then [subs[0]] else []) + Where(subs[1..], p)
  }

  /** The condition of findExpiredActiveSubscriptions: active, and an
      expiry strictly before now (a missing expiry never matches $lt). */
  predicate ExpiredActive(s: Subscription, now: Instant)
  {
    IsActive(s) && s.expiresAt.Some? && s.expiresAt.value < now
  }

  /** The condition of findExpiringSubscriptions: active, start <= expiry < end. */
  predicate Expiring(s: Subscription, start: Instant, end: Instant)
  {
    IsActive(s) && s.expiresAt.Some? && start <= s.expiresAt.value < end
  }

  function FindExpiredActiveSubscriptions(subs: seq<Subscription>, now: Instant): (r: seq<Subscription>)
    ensures forall s :: s in r <==> s in subs && ExpiredActive(s, now)
  {
    Where(subs, (s: Subscription) => ExpiredActive(s, now))
  }

  function FindExpiringSubscriptions(subs: seq<Subscription>, start: Instant, end: Instant): (r: seq<Subscription>)
    ensures forall s :: s in r <==> s in subs && Expiring(s, start, end)
  {
    Where(subs, (s: Subscription) => Expiring(s, start, end))
  }

  /** Queried at the same instant, the expired list and the expiring list
      from that instant on never share a record. */
  lemma ExpiredAndExpiringDisjoint(subs: seq<Subscription>, now: Instant, end: Instant)
    ensures forall s :: s in FindExpiredActiveSubscriptions(subs, now) ==> s !in FindExpiringSubscriptions(subs, now, end)
  {
  }

  /** Positions, from k on, of the records findExpiredActiveSubscriptions returns. */
  function ExpiredPositions(subs: seq<Subscription>, now: Instant, k: nat): (r: seq<nat>)
    requires k <= |subs|
    ensures forall j :: j in r <==> k <= j < |subs| && ExpiredActive(subs[j], now)
    decreases |subs| - k
  {
    if k == |subs| then []
    else (if ExpiredActive(subs[k], now) then [k] else []) + ExpiredPositions(subs, now, k + 1)
  }

  /** Newer-or-equal creation times first. */
  predicate NewestFirst(s: seq<Subscription>)
  {
    forall i, j :: 0 <= i < j < |s| ==> s[i].createdAt >= s[j].createdAt
  }

  /** The head of a newest-first sequence is at least as new as every element. */
  lemma HeadIsNewest(s: seq<Subscription>)
    requires NewestFirst(s) && |s| > 0
    ensures forall z :: z in s ==> z.createdAt <= s[0].createdAt
  {
    forall z | z in s ensures z.createdAt <= s[0].createdAt {
      var k :| 0 <= k < |s| && s[k] == z;
      if k > 0 { assert s[0].createdAt >= s[k].createdAt; }
    }
  }

  /** Prepending a record at least as new as every element keeps the order. */
  lemma PrependNewest(y: Subscription, rest: seq<Subscription>)
    requires NewestFirst(rest)
    requires forall z :: z in rest ==> z.createdAt <= y.createdAt
    ensures NewestFirst([y] + rest)
  {
    var r := [y] + rest;
    forall i, j | 0 <= i < j < |r| ensures r[i].createdAt >= r[j].createdAt {
      assert r[j] == rest[j - 1] && rest[j - 1] in rest;
      if i > 0 { assert r[i] == rest[i - 1]; }
    }
  }

  /** The head of a newest-first sequence, put in front of the rest with an
      older record inserted, keeps the order and the elements. */
  lemma InsertBehindHead(x: Subscription, s: seq<Subscription>, rest: seq<Subscription>)
    requires NewestFirst(s) && |s| > 0 && x.createdAt < s[0].createdAt
    requires NewestFirst(rest) && multiset(rest) == multiset(s[1..]) + multiset{x}
    ensures NewestFirst([s[0]] + rest)
    ensures multiset([s[0]] + rest) == multiset(s) + multiset{x}
  {
    HeadIsNewest(s);
    forall z | z in rest ensures z.createdAt <= s[0].createdAt {
      assert z in multiset(rest);
      if z != x {
        assert z in multiset(s[1..]);
        assert z in s;
      }
    }
    PrependNewest(s[0], rest);
    assert s == [s[0]] + s[1..];
  }

  /** Insertion into a newest-first sequence. */
  function InsertByCreatedAt(x: Subscription, s: seq<Subscription>): (r: seq<Subscription>)
    requires NewestFirst(s)
    ensures NewestFirst(r)
    ensures multiset(r) == multiset(s) + multiset{x}
  {
    if |s| == 0 then [x]
    else if x.createdAt >= s[0].createdAt then
      HeadIsNewest(s);
      PrependNewest(x, s);
      [x] + s
    else
      var rest := InsertByCreatedAt(x, s[1..]);
      InsertBehindHead(x, s, rest);
      [s[0]] + rest
  }

  /** The ordering of findByUserOrderByCreatedAtDesc. */
  function SortNewestFirst(s: seq<Subscription>): (r: seq<Subscription>)
    ensures NewestFirst(r)
    ensures multiset(r) == multiset(s)
  {
    if |s| == 0 then []
    else
      assert s == [s[0]] + s[1..];
      InsertByCreatedAt(s[0], SortNewestFirst(s[1..]))
  }

  /** findByUserOrderByCreatedAtDesc: every subscription of the user, each
      once, newest first. */
  function FindByUserOrderByCreatedAtDesc(subs: seq<Subscription>, userId: string): (r: seq<Subscription>)
    ensures NewestFirst(r)
    ensures multiset(r) == multiset(Where(subs, (s: Subscription) => s.userId == userId))
    ensures forall s :: s in r <==> s in subs && s.userId == userId
  {
    var mine := Where(subs, (s: Subscription) => s.userId == userId);
    var r := SortNewestFirst(mine);
    assert forall s :: s in r <==> s in mine by {
      forall s ensures s in r <==> s in mine {
        assert s in r <==> s in multiset(r);
      }
    }
    r
  }

  // ---------------------------------------------------------------------------
  // save, keyed by id
  // ---------------------------------------------------------------------------

  /** save: replace the record with the same id, or append a new one. */
  function SaveSubscription(subs: seq<Subscription>, s: Subscription): (r: seq<Subscription>)
    ensures FindSubscription(subs, s.id).Some? ==> |r| == |subs|
    ensures FindSubscription(subs, s.id).None? ==> r == subs + [s]
  {
    match FindSubscription(subs, s.id)
    case Some(k) => subs[k := s]
    case None => subs + [s]
  }

  /** Saving back a stored record replaces it in place and keeps ids unique. */
  lemma SaveInPlace(subs: seq<Subscription>, k: nat, s: Subscription)
    requires UniqueSubscriptionIds(subs) && k < |subs| && s.id == subs[k].id
    ensures SaveSubscription(subs, s) == subs[k := s]
    ensures UniqueSubscriptionIds(subs[k := s])
  {
    assert forall j :: 0 <= j < |subs| && j != k ==> subs[j].id != s.id;
  }

  /** Saving a record with a fresh id appends it and keeps ids unique. */
  lemma SaveAppends(subs: seq<Subscription>, s: Subscription)
    requires UniqueSubscriptionIds(subs) && FindSubscription(subs, s.id).None?
    ensures SaveSubscription(subs, s) == subs + [s]
    ensures UniqueSubscriptionIds(subs + [s])
  {
    assert forall j :: 0 <= j < |subs| ==> subs[j].id != s.id;
  }

  /** Replacing a record by one with the same id keeps every id lookup. */
  lemma SameIdsSameLookup(subs: seq<Subscription>, k: nat, s: Subscription, id: string)
    requires k < |subs| && s.id == subs[k].id
    ensures FindSubscription(subs[k := s], id) == FindSubscription(subs, id)
  {
    assert forall j :: 0 <= j < |subs| ==> subs[k := s][j].id == subs[j].id;
  }

  class SubscriptionRepository {
    var subscriptions: seq<Subscription>

    ghost predicate Valid()
      reads this
    {
      UniqueSubscriptionIds(subscriptions)
    }

    constructor ()
      ensures Valid() && subscriptions == []
    {
      subscriptions := [];
    }

    /** save: upsert by id. The collection has no other unique index. */
    method Save(s: Subscription)
      requires Valid()
      modifies this
      ensures Valid()
      ensures subscriptions == SaveSubscription(old(subscriptions), s)
    {
      match FindSubscription(subscriptions, s.id)
      case Some(k) =>
        SaveInPlace(subscriptions, k, s);
        subscriptions := subscriptions[k := s];
      case None =>
        SaveAppends(subscriptions, s);
        subscriptions := subscriptions + [s];
    }
  }

  // ---------------------------------------------------------------------------
  // Plans and features
  // ---------------------------------------------------------------------------

  /** getFeaturesByType. */
  function FeaturesByType(t: SubscriptionType): (features: seq<string>)
    ensures |features| == 3
    ensures t == PREMIUM ==> UnlimitedChat in features && LimitedChat !in features
    ensures t == FREE ==> LimitedChat in features && UnlimitedChat !in features
  {
    if t == PREMIUM then [UnlimitedChat, FakeNewsDetector, DataExport]
    else [LimitedChat, BasicTextTools, DailyRequests]
  }

  datatype Plan = Plan(id: int, name: string, price: int, duration: string, features: seq<string>)

  /** getAvailablePlans. */
  function AvailablePlans(): (plans: seq<Plan>)
    ensures |plans| == 2
  {
    [Plan(1, FreePlanName, 0, "UNLIMITED", [LimitedChat, BasicTextTools, DailyRequests]),
     Plan(2, PremiumPlanName, 299, "MONTHLY",
          [UnlimitedChat, FakeNewsDetector, "All Text Tools", "Image Generator",
           "Code Assistant", "Voice Tools", DataExport, "Priority Support"])]
  }

  /** subscribe's plan mapping: plan 2 is PREMIUM, every other id FREE. */
  function PlanType(planId: int): (t: SubscriptionType)
    ensures t == PREMIUM <==> planId == PremiumPlanId
  {
    if planId == PremiumPlanId then PREMIUM else FREE
  }

  /** The listed plans agree with the enum and with subscribe: each plan's
      id maps to the type whose display name and price it lists; the free
      plan lists the free features, and the premium plan lists every
      premium feature the status query reports. */
  lemma PlansAgreeWithTypes()
    ensures forall p :: p in AvailablePlans() ==>
      p.name == DisplayName(PlanType(p.id)) && p.price == Price(PlanType(p.id))
    ensures AvailablePlans()[0].features == FeaturesByType(FREE)
    ensures forall f :: f in FeaturesByType(PREMIUM) ==> f in AvailablePlans()[1].features
  {
    var plans := AvailablePlans();
    assert plans[1].features[0] == UnlimitedChat && plans[1].features[1] == FakeNewsDetector;
    assert plans[1].features[6] == DataExport;
  }

  // ---------------------------------------------------------------------------
  // subscribe
  // ---------------------------------------------------------------------------

  /** The replies the service puts in its response maps. */
  datatype SubscriptionReply =
    | Activated(subscriptionId: string, planName: string, startDate: Instant,
                endDate: Option<Instant>, amount: int, status: string)
    | Upgraded(newPlanName: string, proratedAmount: int, newEndDate: Instant)
    | StatusReport(reportedId: Option<string>, reportedPlan: string, reportedStatus: string,
                   reportedStart: Option<Instant>, reportedEnd: Option<Instant>,
                   daysRemaining: Option<int>, autoRenewal: Option<bool>, features: seq<string>)
    | CancelReceipt(cancelledId: string, cancelStatus: string, cancelEnd: Option<Instant>, refundAmount: int)

  datatype SubStep = SubStep(response: ResponseDto<SubscriptionReply>,
                             subs: seq<Subscription>, users: seq<Users.User>)

  /** The subscriptionId subscribe assigns: "sub_" and the clock in milliseconds. */
  function SubscriptionIdAt(millis: nat): (id: string)
    ensures |id| > |SubscriptionIdPrefix| && id[..|SubscriptionIdPrefix|] == SubscriptionIdPrefix
    ensures Decimal.AllDigits(id[|SubscriptionIdPrefix|..])
    ensures Decimal.ValueOf(id[|SubscriptionIdPrefix|..]) == millis
  {
    var digits := Decimal.ToDecimal(millis);
    assert (SubscriptionIdPrefix + digits)[|SubscriptionIdPrefix|..] == digits;
    SubscriptionIdPrefix + digits
  }

  /** The record subscribe builds: plan 2 is a paid, auto-renewing month;
      any other plan is free and never expires. The amount is the plan's
      price and the currency is always set. */
  function NewSubscription(id: string, userId: string, planId: int, millis: nat,
                           now: Instant, monthEnd: Instant): (s: Subscription)
    ensures s.subscriptionType == PlanType(planId) && IsActive(s) && s.userId == userId && s.id == id
    ensures s.amount == Some(Price(s.subscriptionType))
    ensures s.expiresAt.Some? <==> planId == PremiumPlanId
    ensures s.expiresAt.Some? ==> s.expiresAt.value == monthEnd
    ensures s.autoRenew <==> planId == PremiumPlanId
    ensures s.currency == Some(Usd)
    ensures s.startsAt == now && s.createdAt == now && s.updatedAt == now
  {
    var premium := planId == PremiumPlanId;
    Built(id, userId, SubscriptionIdAt(millis), now).(
      subscriptionType := PlanType(planId),
      status := Active,
      expiresAt := if premium then Some(monthEnd) else None,
      autoRenew := premium,
      amount := Some(if premium then 299 else 0),
      currency := Some(Usd))
  }

  /** PREMIUM's price is what subscribe charges for plan 2. */
  lemma PremiumPriceIsPlanTwoAmount(id: string, userId: string, millis: nat, now: Instant, monthEnd: Instant)
    ensures NewSubscription(id, userId, PremiumPlanId, millis, now, monthEnd).amount == Some(Price(PREMIUM))
    ensures Price(PREMIUM) == AvailablePlans()[1].price
  {
  }

  /** The user's current active subscription, if any, marked cancelled. */
  function CancelActive(subs: seq<Subscription>, userId: string, now: Instant): (r: seq<Subscription>)
    ensures |r| == |subs|
  {
    match FindActive(subs, userId)
    case None => subs
    case Some(k) => subs[k := subs[k].(status := Cancelled, updatedAt := now)]
  }

  /** After CancelActive the user's active subscription, if there was one,
      is "cancelled" and stamped now, the user has no active subscription,
      the others keep theirs, and the invariant holds. */
  lemma CancelActiveEffect(subs: seq<Subscription>, userId: string, now: Instant)
    requires OneActivePerUser(subs)
    ensures var r := CancelActive(subs, userId, now);
      forall k :: 0 <= k < |subs| && subs[k].userId == userId && IsActive(subs[k]) ==>
        r[k].status == Cancelled && r[k].updatedAt == now
    ensures var r := CancelActive(subs, userId, now);
      OneActivePerUser(r)
      && (forall j :: 0 <= j < |r| && r[j].userId == userId ==> !IsActive(r[j]))
      && (forall j :: 0 <= j < |r| && subs[j].userId != userId ==> r[j] == subs[j])
      && (forall j :: 0 <= j < |r| ==> r[j].id == subs[j].id && r[j].userId == subs[j].userId)
  {
    match FindActive(subs, userId)
    case None =>
    case Some(k) =>
      ActiveIsTheOnlyMatch(subs, userId, k);
      forall j | 0 <= j < |subs| && subs[j].userId == userId && IsActive(subs[j]) ensures j == k {
      }
  }

  /** subscribe, as a transition of both collections. */
  function SubscribeSpec(subs: seq<Subscription>, users: seq<Users.User>, email: string, planId: int,
                         now: Instant, monthEnd: Instant, millis: nat, freshId: string): SubStep
  {
    match Users.FindByEmail(users, email)
    case None => SubStep(Error(SubscriptionFailed, ActivateFailedText), subs, users)
    case Some(i) =>
      var user := users[i];
      var s := NewSubscription(freshId, user.id, planId, millis, now, monthEnd);
      var updated := user.(isPremium := planId == PremiumPlanId, premiumExpiresAt := s.expiresAt, updatedAt := now);
      var receipt := Activated(s.subscriptionId, DisplayName(s.subscriptionType), s.startsAt,
                               s.expiresAt, s.amount.value, ReportedActive);
      SubStep(SuccessWithMessage(ActivatedText, Some(receipt)),
              CancelActive(subs, user.id, now) + [s], users[i := updated])
  }

  /** hasValidSubscription. */
  function HasValidSubscription(users: seq<Users.User>, subs: seq<Subscription>, email: string,
                                required: SubscriptionType, now: Instant): bool
  {
    match Users.FindByEmail(users, email)
    case None => false
    case Some(i) =>
      if required == FREE then true
      else match FindActive(subs, users[i].id)
        case None => false
        case Some(k) =>
          subs[k].subscriptionType == required
          && (subs[k].expiresAt.None? || subs[k].expiresAt.value > now)
  }

  /** hasValidSubscription's cases: an unknown e-mail is never valid; FREE is
      valid for every stored user; any other type is valid exactly when the
      user's active subscription has that type and no expiry or one after
      now, so a user without an active subscription has none. */
  lemma HasValidSubscriptionCases(users: seq<Users.User>, subs: seq<Subscription>, email: string,
                                  required: SubscriptionType, now: Instant)
    requires Users.UniqueUsers(users) && OneActivePerUser(subs)
    ensures (forall i :: 0 <= i < |users| ==> users[i].email != email) ==>
      !HasValidSubscription(users, subs, email, required, now)
    ensures forall i :: 0 <= i < |users| && users[i].email == email ==>
      (required == FREE ==> HasValidSubscription(users, subs, email, required, now))
      && (required != FREE ==>
            (HasValidSubscription(users, subs, email, required, now) <==>
               exists k :: 0 <= k < |subs| && subs[k].userId == users[i].id && IsActive(subs[k])
                           && subs[k].subscriptionType == required
                           && (subs[k].expiresAt.None? || subs[k].expiresAt.value > now)))
  {
    forall i | 0 <= i < |users| && users[i].email == email
      ensures required != FREE ==>
            (HasValidSubscription(users, subs, email, required, now) <==>
               exists k :: 0 <= k < |subs| && subs[k].userId == users[i].id && IsActive(subs[k])
                           && subs[k].subscriptionType == required
                           && (subs[k].expiresAt.None? || subs[k].expiresAt.value > now))
      ensures Users.FindByEmail(users, email) == Some(i)
    {
      Users.FindersLocateUniqueUser(users, i);
      if k :| 0 <= k < |subs| && subs[k].userId == users[i].id && IsActive(subs[k]) {
        ActiveIsTheOnlyMatch(subs, users[i].id, k);
      }
    }
  }

  /** subscribe leaves the invariant in place, stores one new active
      subscription for the user, sets isPremium exactly for plan 2 with the
      subscription's expiry, and a premium subscription is valid until its
      month ends. */
  lemma SubscribeEffect(subs: seq<Subscription>, users: seq<Users.User>, email: string, planId: int,
                        now: Instant, monthEnd: Instant, millis: nat, freshId: string, i: nat)
    requires OneActivePerUser(subs) && Users.UniqueUsers(users)
    requires i < |users| && users[i].email == email
    ensures var r := SubscribeSpec(subs, users, email, planId, now, monthEnd, millis, freshId);
      var s := r.subs[|subs|];
      r.response.success && |r.subs| == |subs| + 1 && OneActivePerUser(r.subs)
      && s.id == freshId && s.userId == users[i].id && IsActive(s)
      && FindActive(r.subs, users[i].id) == Some(|subs|)
      && r.users[i].isPremium == (planId == PremiumPlanId)
      && r.users[i].premiumExpiresAt == s.expiresAt
      && (now < monthEnd ==> HasValidSubscription(r.users, r.subs, email, PlanType(planId), now))
  {
    Users.FindersLocateUniqueUser(users, i);
    var r := SubscribeSpec(subs, users, email, planId, now, monthEnd, millis, freshId);
    var c := CancelActive(subs, users[i].id, now);
    CancelActiveEffect(subs, users[i].id, now);
    var s := NewSubscription(freshId, users[i].id, planId, millis, now, monthEnd);
    assert r.subs == c + [s];
    assert forall a :: 0 <= a < |c| ==> r.subs[a] == c[a];
    ActiveIsTheOnlyMatch(r.subs, users[i].id, |subs|);
    var updated := r.users[i];
    Users.ResaveInPlace(users, i, updated);
    Users.FindersLocateUniqueUser(r.users, i);
  }

  // ---------------------------------------------------------------------------
  // getSubscriptionStatus and getSubscriptionHistory
  // ---------------------------------------------------------------------------

  /** ChronoUnit.DAYS.between: whole days from `from` to `to`, truncated
      toward zero. */
  function DaysBetween(from: Instant, to: Instant): (days: int)
    ensures to >= from ==> days >= 0 && days * SecondsPerDay <= to - from < (days + 1) * SecondsPerDay
    ensures to < from ==> days <= 0 && -days * SecondsPerDay <= from - to < (-days + 1) * SecondsPerDay
  {
    if to >= from then (to - from) / SecondsPerDay else -((from - to) / SecondsPerDay)
  }

  /** The daysRemaining the status query reports for an expiry. */
  function DaysRemaining(now: Instant, expiresAt: Instant): (days: int)
    ensures days >= 0
    ensures expiresAt < now + SecondsPerDay ==> days == 0
    ensures expiresAt >= now ==> days * SecondsPerDay <= expiresAt - now < (days + 1) * SecondsPerDay
  {
    Max(0, DaysBetween(now, expiresAt))
  }

  /** getSubscriptionStatus. */
  function GetSubscriptionStatus(users: seq<Users.User>, subs: seq<Subscription>, email: string, now: Instant)
    : (r: ResponseDto<SubscriptionReply>)
    ensures Consistent(r)
    ensures r.success <==> Users.FindByEmail(users, email).Some?
    ensures r.success ==> r.data.Some? && r.data.value.StatusReport?
    ensures r.success && r.data.Some? && r.data.value.StatusReport? ==>
      var report := r.data.value;
      report.reportedStatus == ReportedActive
      && (report.daysRemaining.Some? ==> report.daysRemaining.value >= 0)
      && (report.reportedPlan == DisplayName(FREE) ==> report.features == FeaturesByType(FREE))
  {
    match Users.FindByEmail(users, email)
    case None => Error(StatusFetchFailed, StatusFetchFailedText)
    case Some(i) =>
      match FindActive(subs, users[i].id)
      case Some(k) =>
        var sub := subs[k];
        Success(StatusReport(
          Some(sub.subscriptionId), DisplayName(sub.subscriptionType), ReportedActive,
          Some(sub.startsAt), sub.expiresAt,
          if sub.expiresAt.Some? then Some(DaysRemaining(now, sub.expiresAt.value)) else None,
          Some(sub.autoRenew), FeaturesByType(sub.subscriptionType)))
      case None =>
        Success(StatusReport(None, FreePlanName, ReportedActive, None, None, None, None, FeaturesByType(FREE)))
  }

  /** The plan the status query reports is the active subscription's type,
      or the free plan when there is none. */
  lemma StatusReportsActivePlan(users: seq<Users.User>, subs: seq<Subscription>, email: string, now: Instant, i: nat)
    requires Users.UniqueUsers(users) && i < |users| && users[i].email == email
    ensures var r := GetSubscriptionStatus(users, subs, email, now);
      r.data.Some? && r.data.value.StatusReport? &&
      match FindActive(subs, users[i].id)
      case None => r.data.value.reportedPlan == FreePlanName && r.data.value.daysRemaining.None?
      case Some(k) =>
        r.data.value.reportedPlan == DisplayName(subs[k].subscriptionType)
        && r.data.value.features == FeaturesByType(subs[k].subscriptionType)
        && (r.data.value.daysRemaining.Some? <==> subs[k].expiresAt.Some?)
  {
    Users.FindersLocateUniqueUser(users, i);
  }

  datatype HistoryItem = HistoryItem(subscriptionId: string, planName: string, startDate: Instant,
                                     endDate: Option<Instant>, amount: Option<int>, status: string,
                                     paymentMethod: string)

  function HistoryItemOf(s: Subscription): (item: HistoryItem)
    ensures item.planName == DisplayName(s.subscriptionType)
    ensures item.status == ToUpper(s.status) && item.paymentMethod == CardPayment
  {
    HistoryItem(s.subscriptionId, DisplayName(s.subscriptionType), s.startsAt, s.expiresAt,
                s.amount, ToUpper(s.status), CardPayment)
  }

  /** getSubscriptionHistory: one item per subscription of the user, newest first. */
  function GetSubscriptionHistory(users: seq<Users.User>, subs: seq<Subscription>, email: string)
    : (r: ResponseDto<seq<HistoryItem>>)
    ensures Consistent(r)
    ensures r.success <==> Users.FindByEmail(users, email).Some?
    ensures r.success ==> r.data.Some? && exists i :: (0 <= i < |users| && users[i].email == email
      && var mine := FindByUserOrderByCreatedAtDesc(subs, users[i].id);
         |r.data.value| == |mine|
         && forall k :: 0 <= k < |mine| ==> r.data.value[k] == HistoryItemOf(mine[k]))
  {
    match Users.FindByEmail(users, email)
    case None => Error(HistoryFetchFailed, HistoryFetchFailedText)
    case Some(i) =>
      var mine := FindByUserOrderByCreatedAtDesc(subs, users[i].id);
      Success(seq(|mine|, k requires 0 <= k < |mine| => HistoryItemOf(mine[k])))
  }

  // ---------------------------------------------------------------------------
  // cancelSubscription
  // ---------------------------------------------------------------------------

  /** What processExpiredSubscriptions and an immediate cancel do to the user. */
  function Demote(u: Users.User): (v: Users.User)
    ensures !v.isPremium && v.premiumExpiresAt.None?
    ensures v == u.(isPremium := false, premiumExpiresAt := None)
  {
    u.(isPremium := false, premiumExpiresAt := None)
  }

  /** cancelSubscription, as a transition of both collections. */
  function CancelSpec(subs: seq<Subscription>, users: seq<Users.User>, email: string,
                      cancelImmediately: bool, now: Instant): SubStep
  {
    match Users.FindByEmail(users, email)
    case None => SubStep(Error(CancelFailed, CancelFailedText), subs, users)
    case Some(i) =>
      match FindActive(subs, users[i].id)
      case None => SubStep(Error(NoActiveSubscription, NoActiveText), subs, users)
      case Some(k) =>
        var sub := subs[k].(status := Cancelled, autoRenew := false, updatedAt := now);
        var endDate := if cancelImmediately then Some(now) else subs[k].expiresAt;
        var users' := if cancelImmediately then users[i := Demote(users[i])] else users;
        SubStep(SuccessWithMessage(CancelledText, Some(CancelReceipt(sub.subscriptionId, ReportedCancelled, endDate, 0))),
                subs[k := sub], users')
  }

  /** Cancelling a user's only active record leaves the user none, and
      keeps one active subscription per user. */
  lemma CancelledLeavesNoActive(subs: seq<Subscription>, userId: string, k: nat, now: Instant)
    requires OneActivePerUser(subs) && k < |subs| && FindActive(subs, userId) == Some(k)
    ensures var r := subs[k := subs[k].(status := Cancelled, autoRenew := false, updatedAt := now)];
      OneActivePerUser(r) && FindActive(r, userId).None?
  {
    var r := subs[k := subs[k].(status := Cancelled, autoRenew := false, updatedAt := now)];
    ActiveIsTheOnlyMatch(subs, userId, k);
    assert forall j :: 0 <= j < |r| && r[j].userId == userId ==> !IsActive(r[j]);
    assert forall j :: 0 <= j < |r| && IsActive(r[j]) ==> j != k && r[j] == subs[j];
  }

  /** A successful cancel leaves the user with no active subscription, so no
      premium access, and keeps the invariant; without an active
      subscription it reports NO_ACTIVE_SUBSCRIPTION and changes nothing.
      An immediate cancel clears isPremium; a cancel at period end leaves
      the user record as it was. */
  lemma CancelEffect(subs: seq<Subscription>, users: seq<Users.User>, email: string,
                     cancelImmediately: bool, now: Instant, i: nat)
    requires OneActivePerUser(subs) && Users.UniqueUsers(users)
    requires i < |users| && users[i].email == email
    ensures var r := CancelSpec(subs, users, email, cancelImmediately, now);
      OneActivePerUser(r.subs)
      && FindActive(r.subs, users[i].id).None?
      && !HasValidSubscription(r.users, r.subs, email, PREMIUM, now)
      && (r.response.success <==> FindActive(subs, users[i].id).Some?)
      && (!r.response.success ==> CodeOf(r.response) == Some(NoActiveSubscription) && r.subs == subs && r.users == users)
      && (r.response.success && cancelImmediately ==> !r.users[i].isPremium && r.users[i].premiumExpiresAt.None?)
      && (!cancelImmediately ==> r.users == users)
  {
    Users.FindersLocateUniqueUser(users, i);
    var r := CancelSpec(subs, users, email, cancelImmediately, now);
    match FindActive(subs, users[i].id)
    case None =>
    case Some(k) =>
      ActiveIsTheOnlyMatch(subs, users[i].id, k);
      CancelledLeavesNoActive(subs, users[i].id, k, now);
      if cancelImmediately {
        Users.ResaveInPlace(users, i, Demote(users[i]));
        Users.FindersLocateUniqueUser(r.users, i);
      }
  }

  // ---------------------------------------------------------------------------
  // processExpiredSubscriptions
  // ---------------------------------------------------------------------------

  datatype SweepState = SweepState(subs: seq<Subscription>, users: seq<Users.User>)

  function Expire(s: Subscription, now: Instant): (e: Subscription)
    ensures e.status == Expired && e.id == s.id && e.userId == s.userId
    ensures e == s.(status := Expired, updatedAt := now)
  {
    s.(status := Expired, updatedAt := now)
  }

  /**
   * The loop of processExpiredSubscriptions over the positions still to do:
   * mark the record expired and save it, then demote its user and save that.
   * A record whose user no longer exists makes getUser() null; the exception
   * ends the loop, after that record was saved.
   */
  function Sweep(subs: seq<Subscription>, users: seq<Users.User>, todo: seq<nat>, now: Instant): (r: SweepState)
    requires forall j :: j in todo ==> j < |subs|
    ensures |r.subs| == |subs| && |r.users| == |users|
    decreases |todo|
  {
    if |todo| == 0 then SweepState(subs, users)
    else
      var j := todo[0];
      assert j in todo;
      assert forall m :: m in todo[1..] ==> m in todo;
      var subs' := subs[j := Expire(subs[j], now)];
      match Users.FindById(users, subs[j].userId)
      case None => SweepState(subs', users)
      case Some(i) => Sweep(subs', users[i := Demote(users[i])], todo[1..], now)
  }

  /** Some position still to do refers to the user with this id. */
  predicate Referenced(subs: seq<Subscription>, todo: seq<nat>, userId: string)
  {
    exists j :: j in todo && j < |subs| && subs[j].userId == userId
  }

  predicate HasUser(users: seq<Users.User>, id: string)
  {
    exists k :: 0 <= k < |users| && users[k].id == id
  }

  /** The sweep only expires records it was given, whether or not it stops
      early. */
  lemma {:induction false} SweepExpiresOnlyGiven(subs: seq<Subscription>, users: seq<Users.User>, todo: seq<nat>, now: Instant)
    requires forall j :: j in todo ==> j < |subs|
    ensures var r := Sweep(subs, users, todo, now);
      forall j :: 0 <= j < |subs| ==> r.subs[j] == subs[j] || (j in todo && r.subs[j] == Expire(subs[j], now))
    decreases |todo|
  {
    if |todo| > 0 {
      var j0 := todo[0];
      assert j0 in todo;
      assert forall m :: m in todo[1..] ==> m in todo;
      var subs' := subs[j0 := Expire(subs[j0], now)];
      match Users.FindById(users, subs[j0].userId)
      case None =>
      case Some(i0) =>
        var users' := users[i0 := Demote(users[i0])];
        SweepExpiresOnlyGiven(subs', users', todo[1..], now);
        assert Sweep(subs, users, todo, now) == Sweep(subs', users', todo[1..], now);
    }
  }

  /** The sweep only demotes users that the records it was given refer to,
      whether or not it stops early. */
  lemma {:induction false} SweepFrame(subs: seq<Subscription>, users: seq<Users.User>, todo: seq<nat>, now: Instant)
    requires forall j :: j in todo ==> j < |subs|
    ensures var r := Sweep(subs, users, todo, now);
      forall i :: 0 <= i < |users| ==>
        r.users[i] == users[i] || (Referenced(subs, todo, users[i].id) && r.users[i] == Demote(users[i]))
    decreases |todo|
  {
    if |todo| > 0 {
      var j0 := todo[0];
      assert j0 in todo;
      assert forall m :: m in todo[1..] ==> m in todo;
      var subs' := subs[j0 := Expire(subs[j0], now)];
      match Users.FindById(users, subs[j0].userId)
      case None =>
      case Some(i0) =>
        var users' := users[i0 := Demote(users[i0])];
        SweepFrame(subs', users', todo[1..], now);
        var r := Sweep(subs, users, todo, now);
        assert r == Sweep(subs', users', todo[1..], now);
        forall i | 0 <= i < |users|
          ensures r.users[i] == users[i] || (Referenced(subs, todo, users[i].id) && r.users[i] == Demote(users[i]))
        {
          if i == i0 {
            assert j0 in todo && subs[j0].userId == users[i].id;
          } else {
            ReferencedByRest(subs, todo, now, users[i].id);
          }
        }
    }
  }

  /** One step of the sweep when every record to do has its user: the
      first record's user is found, and the rest of the sweep starts from a
      state that again has unique users and a user for every record. */
  lemma SweepStep(subs: seq<Subscription>, users: seq<Users.User>, todo: seq<nat>, now: Instant)
    requires Users.UniqueUsers(users) && |todo| > 0
    requires forall j :: j in todo ==> j < |subs| && HasUser(users, subs[j].userId)
    ensures todo[0] < |subs| && Users.FindById(users, subs[todo[0]].userId).Some?
    ensures var i0 := Users.FindById(users, subs[todo[0]].userId).value;
      var subs' := subs[todo[0] := Expire(subs[todo[0]], now)];
      var users' := users[i0 := Demote(users[i0])];
      i0 < |users| && users[i0].id == subs[todo[0]].userId
      && Users.UniqueUsers(users')
      && (forall j :: j in todo[1..] ==> j < |subs'| && HasUser(users', subs'[j].userId))
      && Sweep(subs, users, todo, now) == Sweep(subs', users', todo[1..], now)
  {
    var j0 := todo[0];
    assert j0 in todo;
    assert forall m :: m in todo[1..] ==> m in todo;
    var subs' := subs[j0 := Expire(subs[j0], now)];
    var found := Users.FindById(users, subs[j0].userId);
    assert found.Some?;
    var i0 := found.value;
    var users' := users[i0 := Demote(users[i0])];
    Users.ResaveInPlace(users, i0, Demote(users[i0]));
    forall j | j in todo[1..] ensures j < |subs'| && HasUser(users', subs'[j].userId) {
      var k :| 0 <= k < |users| && users[k].id == subs[j].userId;
      assert users'[k].id == subs'[j].userId;
    }
  }

  /** When every record to do has its user, the sweep expires exactly those
      records. */
  lemma {:induction false} SweepExpiresGiven(subs: seq<Subscription>, users: seq<Users.User>, todo: seq<nat>, now: Instant)
    requires Users.UniqueUsers(users)
    requires forall j :: j in todo ==> j < |subs| && HasUser(users, subs[j].userId)
    ensures var r := Sweep(subs, users, todo, now);
      forall j :: 0 <= j < |subs| ==> r.subs[j] == if j in todo then Expire(subs[j], now) else subs[j]
    decreases |todo|
  {
    if |todo| > 0 {
      SweepStep(subs, users, todo, now);
      var j0 := todo[0];
      var i0 := Users.FindById(users, subs[j0].userId).value;
      var subs' := subs[j0 := Expire(subs[j0], now)];
      var users' := users[i0 := Demote(users[i0])];
      SweepExpiresGiven(subs', users', todo[1..], now);
      var r := Sweep(subs, users, todo, now);
      forall j | 0 <= j < |subs|
        ensures r.subs[j] == if j in todo then Expire(subs[j], now) else subs[j]
      {
        assert j in todo <==> j == j0 || j in todo[1..];
      }
    }
  }

  /** When every record to do has its user, the sweep demotes exactly the
      users those records refer to. */
  lemma {:induction false} SweepEffect(subs: seq<Subscription>, users: seq<Users.User>, todo: seq<nat>, now: Instant)
    requires Users.UniqueUsers(users)
    requires forall j :: j in todo ==> j < |subs| && HasUser(users, subs[j].userId)
    ensures var r := Sweep(subs, users, todo, now);
      forall i :: 0 <= i < |users| ==>
        r.users[i] == if Referenced(subs, todo, users[i].id) then Demote(users[i]) else users[i]
    decreases |todo|
  {
    if |todo| > 0 {
      SweepStep(subs, users, todo, now);
      var j0 := todo[0];
      var i0 := Users.FindById(users, subs[j0].userId).value;
      var subs' := subs[j0 := Expire(subs[j0], now)];
      var users' := users[i0 := Demote(users[i0])];
      SweepEffect(subs', users', todo[1..], now);
      var r := Sweep(subs, users, todo, now);
      forall i | 0 <= i < |users|
        ensures r.users[i] == if Referenced(subs, todo, users[i].id) then Demote(users[i]) else users[i]
      {
        if i == i0 {
          assert j0 in todo && subs[j0].userId == users[i].id;
        } else {
          assert users[i].id != users[i0].id by {
            if i < i0 { assert users[i].id != users[i0].id; }
          }
          ReferencedAfterStep(subs, todo, now, users[i].id);
        }
      }
    }
  }

  /** A user referenced by the rest after the first step was referenced by
      the records to do. */
  lemma ReferencedByRest(subs: seq<Subscription>, todo: seq<nat>, now: Instant, id: string)
    requires |todo| > 0 && todo[0] < |subs| && forall j :: j in todo ==> j < |subs|
    ensures Referenced(subs[todo[0] := Expire(subs[todo[0]], now)], todo[1..], id) ==> Referenced(subs, todo, id)
  {
    var subs' := subs[todo[0] := Expire(subs[todo[0]], now)];
    if Referenced(subs', todo[1..], id) {
      var j :| j in todo[1..] && j < |subs'| && subs'[j].userId == id;
      assert j in todo && subs[j].userId == id;
    }
  }

  /** A user other than the first record's is referenced by the records to
      do exactly when it is referenced by the rest after the first step. */
  lemma ReferencedAfterStep(subs: seq<Subscription>, todo: seq<nat>, now: Instant, id: string)
    requires |todo| > 0 && todo[0] < |subs| && forall j :: j in todo ==> j < |subs|
    requires id != subs[todo[0]].userId
    ensures Referenced(subs, todo, id) <==> Referenced(subs[todo[0] := Expire(subs[todo[0]], now)], todo[1..], id)
  {
    var subs' := subs[todo[0] := Expire(subs[todo[0]], now)];
    if Referenced(subs, todo, id) {
      var j :| j in todo && j < |subs| && subs[j].userId == id;
      assert todo == [todo[0]] + todo[1..];
      assert j in todo[1..] && subs'[j].userId == id;
    }
    ReferencedByRest(subs, todo, now, id);
  }

  /** Expiring records keeps the invariant: it only ends active subscriptions. */
  lemma ExpireKeepsOneActive(subs: seq<Subscription>, j: nat, now: Instant)
    requires OneActivePerUser(subs) && j < |subs|
    ensures OneActivePerUser(subs[j := Expire(subs[j], now)])
  {
    var r := subs[j := Expire(subs[j], now)];
    assert forall k :: 0 <= k < |r| && IsActive(r[k]) ==> k != j && r[k] == subs[k];
  }

  /** processExpiredSubscriptions, when every expired record's user exists:
      afterwards no active subscription has an expiry before now, every one
      that had is "expired", the other records are unchanged, and exactly
      the users of those records have lost isPremium and premiumExpiresAt. */
  lemma ProcessExpiredEffect(subs: seq<Subscription>, users: seq<Users.User>, now: Instant)
    requires Users.UniqueUsers(users)
    requires forall j :: 0 <= j < |subs| && ExpiredActive(subs[j], now) ==> HasUser(users, subs[j].userId)
    ensures var r := Sweep(subs, users, ExpiredPositions(subs, now, 0), now);
      (forall j :: 0 <= j < |subs| ==> !ExpiredActive(r.subs[j], now))
      && (forall j :: 0 <= j < |subs| && ExpiredActive(subs[j], now) ==> r.subs[j] == Expire(subs[j], now))
      && (forall j :: 0 <= j < |subs| && !ExpiredActive(subs[j], now) ==> r.subs[j] == subs[j])
      && (forall i :: 0 <= i < |users| ==>
            (r.users[i] == Demote(users[i]) || r.users[i] == users[i])
            && ((exists j :: 0 <= j < |subs| && ExpiredActive(subs[j], now) && subs[j].userId == users[i].id)
                  ==> !r.users[i].isPremium && r.users[i].premiumExpiresAt.None?))
  {
    var todo := ExpiredPositions(subs, now, 0);
    SweepExpiresGiven(subs, users, todo, now);
    SweepEffect(subs, users, todo, now);
  }

  /** A cancel at period end is never undone by the sweep: the cancelled
      record is no longer active, so a later sweep does not touch that user,
      whose isPremium stays as it was before the cancel. */
  lemma CancelAtPeriodEndKeepsPremiumFlag(subs: seq<Subscription>, users: seq<Users.User>, email: string,
                                          now: Instant, later: Instant, i: nat)
    requires OneActivePerUser(subs) && Users.UniqueUsers(users)
    requires i < |users| && users[i].email == email
    ensures var c := CancelSpec(subs, users, email, false, now);
      var r := Sweep(c.subs, c.users, ExpiredPositions(c.subs, later, 0), later);
      r.users[i] == users[i] && !HasValidSubscription(c.users, c.subs, email, PREMIUM, now)
  {
    CancelEffect(subs, users, email, false, now, i);
    var c := CancelSpec(subs, users, email, false, now);
    var todo := ExpiredPositions(c.subs, later, 0);
    SweepFrame(c.subs, c.users, todo, later);
    assert !Referenced(c.subs, todo, users[i].id) by {
      forall j | j in todo && j < |c.subs| ensures c.subs[j].userId != users[i].id {
        assert IsActive(c.subs[j]);
      }
    }
  }

  // ---------------------------------------------------------------------------
  // upgradeSubscription
  // ---------------------------------------------------------------------------

  /** upgradeSubscription's answer to subscribe's answer: on success the
      upgrade receipt, otherwise subscribe's error unchanged. */
  function UpgradeReply(subscribed: ResponseDto<SubscriptionReply>, newPlanId: int, prorated: bool,
                        monthEnd: Instant): (r: ResponseDto<SubscriptionReply>)
    ensures !subscribed.success ==> r == subscribed
    ensures subscribed.success ==> (r.success && r.data.Some? && r.data.value.Upgraded?
      && r.data.value.newPlanName == DisplayName(PlanType(newPlanId))
      && r.data.value.proratedAmount == (if prorated then ProratedAmount else Price(PREMIUM)))
  {
    if subscribed.success then
      SuccessWithMessage(UpgradedText, Some(Upgraded(
        if newPlanId == PremiumPlanId then PremiumPlanName else FreePlanName,
        if prorated then ProratedAmount else 299,
        monthEnd)))
    else subscribed
  }

  // ---------------------------------------------------------------------------
  // The service
  // ---------------------------------------------------------------------------

  class SubscriptionServiceImpl {
    const subscriptionRepository: SubscriptionRepository
    const userRepository: Users.UserRepository

    ghost predicate Valid()
      reads this, subscriptionRepository, userRepository
    {
      subscriptionRepository.Valid() && userRepository.Valid()
      && OneActivePerUser(subscriptionRepository.subscriptions)
    }

    constructor (subscriptionRepository: SubscriptionRepository, userRepository: Users.UserRepository)
      requires subscriptionRepository.Valid() && userRepository.Valid()
      requires OneActivePerUser(subscriptionRepository.subscriptions)
      ensures Valid()
      ensures this.subscriptionRepository == subscriptionRepository
      ensures this.userRepository == userRepository
    {
      this.subscriptionRepository := subscriptionRepository;
      this.userRepository := userRepository;
    }

    /** subscribe. The clock, the month's end and the driver's fresh id are parameters. */
    method Subscribe(userEmail: string, planId: int, now: Instant, monthEnd: Instant, millis: nat, freshId: string)
      returns (response: ResponseDto<SubscriptionReply>)
      requires Valid()
      requires FindSubscription(subscriptionRepository.subscriptions, freshId).None?
      modifies subscriptionRepository, userRepository
      ensures Valid()
      ensures SubStep(response, subscriptionRepository.subscriptions, userRepository.users)
        == SubscribeSpec(old(subscriptionRepository.subscriptions), old(userRepository.users),
                         userEmail, planId, now, monthEnd, millis, freshId)
    {
      var found := Users.FindByEmail(userRepository.users, userEmail);
      if found.None? {
        return Error(SubscriptionFailed, ActivateFailedText);
      }
      var i := found.value;
      var user := userRepository.users[i];
      ghost var subs0 := subscriptionRepository.subscriptions;
      CancelActiveEffect(subs0, user.id, now);
      var existing := FindActive(subscriptionRepository.subscriptions, user.id);
      if existing.Some? {
        var k := existing.value;
        var cancelled := subscriptionRepository.subscriptions[k].(status := Cancelled, updatedAt := now);
        SaveInPlace(subscriptionRepository.subscriptions, k, cancelled);
        SameIdsSameLookup(subscriptionRepository.subscriptions, k, cancelled, freshId);
        subscriptionRepository.Save(cancelled);
      }
      assert subscriptionRepository.subscriptions == CancelActive(subs0, user.id, now);
      var s := NewSubscription(freshId, user.id, planId, millis, now, monthEnd);
      SaveAppends(subscriptionRepository.subscriptions, s);
      SubscribeEffect(subs0, userRepository.users, userEmail, planId, now, monthEnd, millis, freshId, i);
      subscriptionRepository.Save(s);
      var updated := user.(isPremium := planId == PremiumPlanId, premiumExpiresAt := s.expiresAt, updatedAt := now);
      Users.ResaveInPlace(userRepository.users, i, updated);
      var saved := userRepository.Save(updated);
      response := SuccessWithMessage(ActivatedText, Some(Activated(s.subscriptionId, DisplayName(s.subscriptionType),
                                                                   s.startsAt, s.expiresAt, s.amount.value, ReportedActive)));
    }

    /** cancelSubscription. */
    method CancelSubscription(userEmail: string, cancelImmediately: bool, now: Instant)
      returns (response: ResponseDto<SubscriptionReply>)
      requires Valid()
      modifies subscriptionRepository, userRepository
      ensures Valid()
      ensures SubStep(response, subscriptionRepository.subscriptions, userRepository.users)
        == CancelSpec(old(subscriptionRepository.subscriptions), old(userRepository.users),
                      userEmail, cancelImmediately, now)
    {
      var found := Users.FindByEmail(userRepository.users, userEmail);
      if found.None? {
        return Error(CancelFailed, CancelFailedText);
      }
      var i := found.value;
      var user := userRepository.users[i];
      var active := FindActive(subscriptionRepository.subscriptions, user.id);
      if active.None? {
        return Error(NoActiveSubscription, NoActiveText);
      }
      var k := active.value;
      CancelEffect(subscriptionRepository.subscriptions, userRepository.users, userEmail, cancelImmediately, now, i);
      var sub := subscriptionRepository.subscriptions[k].(status := Cancelled, autoRenew := false, updatedAt := now);
      var endDate := subscriptionRepository.subscriptions[k].expiresAt;
      if cancelImmediately {
        endDate := Some(now);
        Users.ResaveInPlace(userRepository.users, i, Demote(user));
        var saved := userRepository.Save(Demote(user));
      }
      SaveInPlace(subscriptionRepository.subscriptions, k, sub);
      subscriptionRepository.Save(sub);
      response := SuccessWithMessage(CancelledText, Some(CancelReceipt(sub.subscriptionId, ReportedCancelled, endDate, 0)));
    }

    /** processExpiredSubscriptions: the query runs once, then each record
        it returned is expired and its user demoted, in order. */
    method ProcessExpiredSubscriptions(now: Instant)
      requires Valid()
      modifies subscriptionRepository, userRepository
      ensures Valid()
      ensures SweepState(subscriptionRepository.subscriptions, userRepository.users)
        == Sweep(old(subscriptionRepository.subscriptions), old(userRepository.users),
                 ExpiredPositions(old(subscriptionRepository.subscriptions), now, 0), now)
    {
      var todo := ExpiredPositions(subscriptionRepository.subscriptions, now, 0);
      ghost var goal := Sweep(subscriptionRepository.subscriptions, userRepository.users, todo, now);
      ghost var n := |subscriptionRepository.subscriptions|;
      var k := 0;
      while k < |todo|
        invariant 0 <= k <= |todo|
        invariant Valid()
        invariant |subscriptionRepository.subscriptions| == n
        invariant forall j :: j in todo ==> j < n
        invariant forall m :: m in todo[k..] ==> m in todo
        invariant Sweep(subscriptionRepository.subscriptions, userRepository.users, todo[k..], now) == goal
      {
        var j := todo[k];
        assert j in todo;
        assert forall m :: m in todo[k + 1..] ==> m in todo;
        assert todo[k..][0] == j && todo[k..][1..] == todo[k + 1..];
        var s := Expire(subscriptionRepository.subscriptions[j], now);
        SaveInPlace(subscriptionRepository.subscriptions, j, s);
        ExpireKeepsOneActive(subscriptionRepository.subscriptions, j, now);
        subscriptionRepository.Save(s);
        var found := Users.FindById(userRepository.users, s.userId);
        if found.None? {
          return;
        }
        var i := found.value;
        var demoted := Demote(userRepository.users[i]);
        Users.ResaveInPlace(userRepository.users, i, demoted);
        var saved := userRepository.Save(demoted);
        k := k + 1;
      }
    }

    /** upgradeSubscription: a new subscribe, answered with the upgrade receipt. */
    method UpgradeSubscription(userEmail: string, newPlanId: int, prorated: bool, now: Instant,
                               monthEnd: Instant, millis: nat, freshId: string)
      returns (response: ResponseDto<SubscriptionReply>)
      requires Valid()
      requires FindSubscription(subscriptionRepository.subscriptions, freshId).None?
      modifies subscriptionRepository, userRepository
      ensures Valid()
      ensures var step := SubscribeSpec(old(subscriptionRepository.subscriptions), old(userRepository.users),
                                        userEmail, newPlanId, now, monthEnd, millis, freshId);
        subscriptionRepository.subscriptions == step.subs && userRepository.users == step.users
        && response == UpgradeReply(step.response, newPlanId, prorated, monthEnd)
    {
      var result := Subscribe(userEmail, newPlanId, now, monthEnd, millis, freshId);
      if result.success {
        response := SuccessWithMessage(UpgradedText, Some(Upgraded(
          if newPlanId == PremiumPlanId then PremiumPlanName else FreePlanName,
          if prorated then ProratedAmount else 299,
          monthEnd)));
      } else {
        response := result;
      }
    }
  }
}
