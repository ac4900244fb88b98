/**
 * The subscription store behind `BillingService`: one row per shop, its four
 * statuses, the trial arithmetic and the expiry sweep.
 *
 * Times are integer milliseconds since the epoch and a day is a fixed
 * 86 400 000 ms. The price is the plan's constant, kept as 999 cents.
 */
module Billing {
  import opened Wrappers

  const DAY_MS: int := 86_400_000
  const TRIAL_DAYS: int := 3
  const PERIOD_DAYS: int := 30
  const PLAN_NAME: string := "Basic Plan"
  const PLAN_PRICE_CENTS: int := 999
  const PLAN_CURRENCY: string := "USD"
  const PLAN_INTERVAL: string := "EVERY_30_DAYS"

  datatype Status = Pending | Active | Cancelled | Expired

  /** A row of the subscription table (`SubscriptionData` without its generated id). */
  datatype Subscription = Subscription(
    shop: string,
    subscriptionId: Option<string>,
    status: Status,
    planName: string,
    priceCents: int,
    currency: string,
    billingCycle: string,
    trialDays: int,
    trialEndsAt: Option<int>,
    currentPeriodStart: Option<int>,
    currentPeriodEnd: Option<int>,
    createdAt: int,
    updatedAt: int)

  /** What the store throws: a duplicate shop on create, a missing row on update. */
  datatype StoreError = UniqueViolation | RecordNotFound

  /** The table is keyed by shop: the row stored under a shop belongs to that shop. */
  ghost predicate KeyedByShop(rows: map<string, Subscription>) {
    forall shop | shop in rows :: rows[shop].shop == shop
  }

  /** Two rows of a table keyed by shop that name the same shop are the same row. */
  lemma OneRowPerShop(rows: map<string, Subscription>, a: Subscription, b: Subscription)
    requires KeyedByShop(rows)
    requires a in rows.Values && b in rows.Values && a.shop == b.shop
    ensures a == b
  {
    var ka :| ka in rows && rows[ka] == a;
    var kb :| kb in rows && rows[kb] == b;
  }

  /** The row `createSubscription` inserts: pending, with a three-day trial from `now`. */
  function Created(shop: string, now: int): Subscription {
    Subscription(shop, None, Pending, PLAN_NAME, PLAN_PRICE_CENTS, PLAN_CURRENCY, PLAN_INTERVAL,
                 TRIAL_DAYS, Some(now + TRIAL_DAYS * DAY_MS), None, None, now, now)
  }

  /** The result of `updateSubscriptionStatus(shop, status, subscriptionId)` on row `s`. */
  function WithStatus(s: Subscription, status: Status, subscriptionId: Option<string>, now: int): (r: Subscription)
    ensures r.status == status && r.updatedAt == now
    ensures r.subscriptionId == if Truthy(subscriptionId) then subscriptionId else s.subscriptionId
    ensures status == Active ==> r.currentPeriodStart == Some(now) && r.currentPeriodEnd == Some(now + PERIOD_DAYS * DAY_MS)
    ensures status != Active ==> r.currentPeriodStart == s.currentPeriodStart && r.currentPeriodEnd == s.currentPeriodEnd
    ensures r.trialEndsAt == s.trialEndsAt && r.trialDays == s.trialDays
    ensures r.shop == s.shop && r.createdAt == s.createdAt && r.planName == s.planName
    ensures r.priceCents == s.priceCents && r.currency == s.currency && r.billingCycle == s.billingCycle
  {
    var data := s.(status := status, updatedAt := now);
    var data := if Truthy(subscriptionId) then data.(subscriptionId := subscriptionId) else data;
    if status == Active then
      data.(currentPeriodStart := Some(now), currentPeriodEnd := Some(now + PERIOD_DAYS * DAY_MS))
    else data
  }

  /** The row after `cancelSubscription` (and after the uninstall webhook's `updateMany`). */
  function CancelledRow(s: Subscription, now: int): Subscription {
    s.(status := Cancelled, updatedAt := now)
  }

  /** `isSubscriptionActive` on the row `getSubscription` returned. */
  predicate IsSubscriptionActive(sub: Option<Subscription>) {
    sub.Some? && sub.value.status == Active
  }

  /** `isInTrialPeriod`: the row has a trial end and `now` is strictly before it, whatever its status. */
  predicate IsInTrialPeriod(sub: Option<Subscription>, now: int) {
    sub.Some? && sub.value.trialEndsAt.Some? && now < sub.value.trialEndsAt.value
  }

  /** `Math.ceil(n / d)` for a positive divisor. */
  function CeilDiv(n: int, d: int): int
    requires d > 0
  {
    (n + d - 1) / d
  }

  /**
   * `getTrialDaysRemaining`: zero outside the trial; inside it, the number of
   * started days left, that is the least `days` with `days * DAY_MS` at
   * least the time left.
   */
  function TrialDaysRemaining(sub: Option<Subscription>, now: int): (days: nat)
    ensures days > 0 <==> IsInTrialPeriod(sub, now)
    ensures IsInTrialPeriod(sub, now) ==>
              (days - 1) * DAY_MS < sub.value.trialEndsAt.value - now <= days * DAY_MS
  {
    if sub.None? || sub.value.trialEndsAt.None? then 0
    else
      var trialEnd := sub.value.trialEndsAt.value;
      if now >= trialEnd then 0
      else
        var diffDays := CeilDiv(trialEnd - now, DAY_MS);
        assert DAY_MS * diffDays <= trialEnd - now + DAY_MS - 1 < DAY_MS * diffDays + DAY_MS;
        if diffDays < 0 then 0 else diffDays
  }

  /** Trial days never grow as time passes. */
  lemma TrialDaysNonIncreasing(sub: Option<Subscription>, earlier: int, later: int)
    requires earlier <= later
    ensures TrialDaysRemaining(sub, later) <= TrialDaysRemaining(sub, earlier)
  {
    var d1, d2 := TrialDaysRemaining(sub, earlier), TrialDaysRemaining(sub, later);
    if d2 > 0 {
      var end := sub.value.trialEndsAt.value;
      assert (d2 - 1) * DAY_MS < end - later <= end - earlier <= d1 * DAY_MS;
    }
  }

  /**
   * The authorisation rule of the subscription state machine: an active row,
   * or a pending row whose trial has not yet ended.
   */
  predicate IsAuthorized(sub: Option<Subscription>, now: int) {
    sub.Some? && (sub.value.status == Active || (sub.value.status == Pending && IsInTrialPeriod(sub, now)))
  }

  /** The sweep's `where`: pending with a trial end strictly before `now`. */
  predicate TrialLapsed(s: Subscription, now: int) {
    s.status == Pending && s.trialEndsAt.Some? && s.trialEndsAt.value < now
  }

  function SweptRow(s: Subscription, now: int): Subscription {
    if TrialLapsed(s, now) then s.(status := Expired, updatedAt := now) else s
  }

  /**
   * `cleanupExpiredSubscriptions` at time `now`: every lapsed pending row
   * becomes expired, every other row is left as it was.
   */
  function Swept(rows: map<string, Subscription>, now: int): (r: map<string, Subscription>)
    ensures r.Keys == rows.Keys
    ensures forall k | k in rows && TrialLapsed(rows[k], now) ::
              r[k] == rows[k].(status := Expired, updatedAt := now)
    ensures forall k | k in rows && !TrialLapsed(rows[k], now) :: r[k] == rows[k]
  {
    map k | k in rows :: SweptRow(rows[k], now)
  }

  /** Sweeping twice at the same time is sweeping once. */
  lemma SweepIdempotent(rows: map<string, Subscription>, now: int)
    ensures Swept(Swept(rows, now), now) == Swept(rows, now)
  {
    var once := Swept(rows, now);
    var twice := Swept(once, now);
    forall k | k in rows ensures twice[k] == once[k] {
      assert !TrialLapsed(once[k], now);
    }
  }

  /**
   * A later sweep leaves the statuses exactly as one sweep at the later time
   * would: an earlier sweep never expires a row the later one would keep.
   */
  lemma SweepThenLaterSweep(rows: map<string, Subscription>, earlier: int, later: int)
    requires earlier <= later
    ensures Swept(Swept(rows, earlier), later).Keys == rows.Keys
    ensures forall k | k in rows :: Swept(Swept(rows, earlier), later)[k].status == Swept(rows, later)[k].status
  {
    var first := Swept(rows, earlier);
    forall k | k in rows
      ensures Swept(first, later)[k].status == Swept(rows, later)[k].status
    {
      if TrialLapsed(rows[k], earlier) {
        assert TrialLapsed(rows[k], later);
      }
    }
  }

  /** The sweep never changes what the authorisation rule says about any shop at the sweep's time. */
  lemma SweepPreservesAuthorization(rows: map<string, Subscription>, now: int)
    ensures forall k | k in rows :: IsAuthorized(Some(Swept(rows, now)[k]), now) == IsAuthorized(Some(rows[k]), now)
  {
  }

  /**
   * At the very instant the trial ends, a pending row is no longer in its
   * trial and is not yet swept: both comparisons are strict.
   */
  lemma TrialEndInstant(s: Subscription, now: int)
    requires s.status == Pending && s.trialEndsAt == Some(now)
    ensures !IsInTrialPeriod(Some(s), now) && TrialDaysRemaining(Some(s), now) == 0
    ensures SweptRow(s, now) == s && !IsAuthorized(Some(s), now)
  {
  }

  /** The subscription table, keyed by shop. */
  class SubscriptionTable {
    var rows: map<string, Subscription>

    ghost predicate Valid()
      reads this
    {
      KeyedByShop(rows)
    }

    constructor ()
      ensures Valid() && rows == map[]
    {
      rows := map[];
    }

    /** `getSubscription(shop)`: `findUnique` by shop. */
    function Get(shop: string): (sub: Option<Subscription>)
      reads this
    {
      if shop in rows then Some(rows[shop]) else None
    }

    /** `createSubscription(shop)`: inserts a pending row with a three-day trial. */
    method CreateSubscription(shop: string, now: int) returns (r: Result<Subscription, StoreError>)
      requires Valid()
      modifies this
      ensures Valid()
      ensures shop in old(rows) ==> r == Err(UniqueViolation) && rows == old(rows)
      ensures shop !in old(rows) ==> r == Ok(Created(shop, now)) && rows == old(rows)[shop := Created(shop, now)]
      ensures r.Ok? ==> && r.value.shop == shop && r.value.status == Pending
                        && r.value.trialDays == TRIAL_DAYS
                        && r.value.trialEndsAt == Some(now + TRIAL_DAYS * DAY_MS)
                        && r.value.currentPeriodStart.None? && r.value.currentPeriodEnd.None?
                        && r.value.subscriptionId.None?
    {
      if shop in rows {
        return Err(UniqueViolation);
      }
      var row := Created(shop, now);
      rows := rows[shop := row];
      r := Ok(row);
    }

    /** `updateSubscriptionStatus(shop, status, subscriptionId)`: `update` by shop. */
    method UpdateSubscriptionStatus(shop: string, status: Status, subscriptionId: Option<string>, now: int)
      returns (r: Result<Subscription, StoreError>)
      requires Valid()
      modifies this
      ensures Valid()
      ensures shop !in old(rows) ==> r == Err(RecordNotFound) && rows == old(rows)
      ensures shop in old(rows) ==>
                && r == Ok(WithStatus(old(rows)[shop], status, subscriptionId, now))
                && rows == old(rows)[shop := r.value]
    {
      if shop !in rows {
        return Err(RecordNotFound);
      }
      var row := WithStatus(rows[shop], status, subscriptionId, now);
      rows := rows[shop := row];
      r := Ok(row);
    }

    /** `cancelSubscription(shop)`: only the status and `updatedAt` change. */
    method CancelSubscription(shop: string, now: int) returns (r: Result<Subscription, StoreError>)
      requires Valid()
      modifies this
      ensures Valid()
      ensures shop !in old(rows) ==> r == Err(RecordNotFound) && rows == old(rows)
      ensures shop in old(rows) ==>
                && r == Ok(old(rows)[shop].(status := Cancelled, updatedAt := now))
                && rows == old(rows)[shop := r.value]
    {
      if shop !in rows {
        return Err(RecordNotFound);
      }
      var row := CancelledRow(rows[shop], now);
      rows := rows[shop := row];
      r := Ok(row);
    }

    /** `cleanupExpiredSubscriptions()`: one `updateMany` over the lapsed pending rows. */
    method CleanupExpiredSubscriptions(now: int)
      requires Valid()
      modifies this
      ensures Valid()
      ensures rows == Swept(old(rows), now)
    {
      rows := Swept(rows, now);
    }

    /** `updateMany({ where: { shop }, data: { status: "cancelled" } })`; returns the count. */
    method CancelAllForShop(shop: string, now: int) returns (count: nat)
      requires Valid()
      modifies this
      ensures Valid()
      ensures shop in old(rows) ==> count == 1 && rows == old(rows)[shop := old(rows)[shop].(status := Cancelled, updatedAt := now)]
      ensures shop !in old(rows) ==> count == 0 && rows == old(rows)
    {
      if shop in rows {
        rows := rows[shop := CancelledRow(rows[shop], now)];
        count := 1;
      } else {
        count := 0;
      }
    }

    /** `deleteMany({ where: {} })`: every row goes; returns how many there were. */
    method DeleteEvery() returns (count: nat)
      requires Valid()
      modifies this
      ensures Valid()
      ensures rows == map[] && count == |old(rows).Keys|
    {
      count := |rows.Keys|;
      rows := map[];
    }

    /** `deleteMany({ where: { shop } })`; returns the number of rows removed. */
    method DeleteAllForShop(shop: string) returns (count: nat)
      requires Valid()
      modifies this
      ensures Valid()
      ensures rows == old(rows) - {shop}
      ensures count == |old(rows).Keys| - |rows.Keys|
      ensures count == if shop in old(rows) then 1 else 0
    {
      count := if shop in rows then 1 else 0;
      rows := rows - {shop};
    }
  }
}
