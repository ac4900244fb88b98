/**
 * The route guard `requireSubscription` and the summary
 * `checkSubscriptionStatus`. Both only read the subscription row; the row is
 * passed in, as one snapshot taken at time `now`.
 */
module SubscriptionGuard {
  import opened Wrappers
  import opened Billing

  const BILLING_PATH: string := "/app/billing"

  /** `SubscriptionGuardOptions`; an absent field takes its default. */
  datatype GuardOptions = GuardOptions(requireActive: Option<bool>, allowTrial: Option<bool>, redirectTo: Option<string>)

  /** The guard called with `{}`. */
  const DefaultOptions: GuardOptions := GuardOptions(None, None, None)

  /** The guard returns normally or throws a redirect. */
  datatype GuardOutcome = Proceed | Redirect(location: string)

  /**
   * `requireSubscription`: without a row, always redirect; with the default
   * options, proceed exactly when the authorisation rule holds.
   */
  function RequireSubscription(sub: Option<Subscription>, options: GuardOptions, now: int): (r: GuardOutcome)
    ensures sub.None? ==> r == Redirect(options.redirectTo.GetOr(BILLING_PATH))
    ensures r.Redirect? ==> r.location == options.redirectTo.GetOr(BILLING_PATH)
    ensures options.requireActive.GetOr(true) && options.allowTrial.GetOr(true) ==>
              (r == Proceed <==> IsAuthorized(sub, now))
  {
    var requireActive := options.requireActive.GetOr(true);
    var allowTrial := options.allowTrial.GetOr(true);
    var redirectTo := options.redirectTo.GetOr(BILLING_PATH);
    if sub.None? then Redirect(redirectTo)
    else if requireActive && sub.value.status != Active then
      if allowTrial && sub.value.status == Pending then
        if !IsInTrialPeriod(sub, now) then Redirect(redirectTo) else Proceed
      else Redirect(redirectTo)
    else Proceed
  }

  /** With `requireActive: false`, any existing row lets the request through. */
  lemma AnyRowPassesWithoutRequireActive(sub: Option<Subscription>, options: GuardOptions, now: int)
    requires options.requireActive == Some(false)
    ensures RequireSubscription(sub, options, now) == Proceed <==> sub.Some?
  {
  }

  /** With `allowTrial: false` (and `requireActive` in force), only an active row passes. */
  lemma NoTrialGrace(sub: Option<Subscription>, options: GuardOptions, now: int)
    requires options.requireActive.GetOr(true) && options.allowTrial == Some(false)
    ensures RequireSubscription(sub, options, now) == Proceed <==> IsSubscriptionActive(sub)
  {
  }

  /** Cancelled and expired rows never pass while `requireActive` is in force. */
  lemma CancelledOrExpiredDenied(sub: Option<Subscription>, options: GuardOptions, now: int)
    requires sub.Some? && sub.value.status in {Cancelled, Expired}
    requires options.requireActive.GetOr(true)
    ensures RequireSubscription(sub, options, now).Redirect?
  {
  }

  /** The object `checkSubscriptionStatus` returns. */
  datatype StatusSummary = StatusSummary(
    hasSubscription: bool,
    isActive: bool,
    isInTrial: bool,
    trialDaysRemaining: nat,
    subscription: Option<Subscription>)

  /**
   * `checkSubscriptionStatus`: all-false and zero days without a row;
   * otherwise active exactly when the status is `active`, and in trial
   * exactly when some trial day remains.
   */
  function CheckSubscriptionStatus(sub: Option<Subscription>, now: int): (r: StatusSummary)
    ensures sub.None? ==> r == StatusSummary(false, false, false, 0, None)
    ensures r.hasSubscription <==> sub.Some?
    ensures r.subscription == sub
    ensures r.isActive <==> sub.Some? && sub.value.status == Active
    ensures r.isInTrial <==> r.trialDaysRemaining > 0
    ensures r.isInTrial ==> sub.Some? && now < sub.value.trialEndsAt.GetOr(now)
  {
    if sub.None? then StatusSummary(false, false, false, 0, None)
    else StatusSummary(true, IsSubscriptionActive(sub), IsInTrialPeriod(sub, now), TrialDaysRemaining(sub, now), sub)
  }
}
