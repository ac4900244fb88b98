/**
 * The billing page: its `action` (subscribe / cancel) as a sequence of writes
 * to the subscription table, and the panels its view shows.
 *
 * The billing provider is an abstract outcome: `billing.require` either
 * returns (with zero or more app subscriptions), or finds no payment and calls
 * `onFailure`, or throws.
 */
module BillingRoute {
  import opened Wrappers
  import opened Billing
  import opened SubscriptionGuard

  datatype BillingOutcome =
    | HasPayment(appSubscriptionIds: seq<string>)
    | NoPayment
    | BillingError

  datatype ActionResponse =
    | RedirectTo(location: string)
    | JsonSuccess(message: string, warning: Option<string>)
    | JsonError(status: int, error: string)

  const APP_PATH: string := "/app"
  const TRIAL_STARTED: string := "Free trial started! Billing will be set up automatically."
  const DEV_WARNING: string := "Note: This is a development environment. In production, payment processing will be handled by Shopify."
  const CANCELLED_OK: string := "Subscription cancelled successfully"
  const INVALID_ACTION: string := "Invalid action"
  const GENERIC_ERROR: string := "An error occurred while processing your request"

  /** `billingCheck.appSubscriptions[0].id` when there is one. */
  function FirstId(ids: seq<string>): Option<string> {
    if |ids| > 0 then Some(ids[0]) else None
  }

  /** The row just before the billing request: created if missing, reset to pending if cancelled or expired. */
  function Primed(prior: Option<Subscription>, shop: string, now: int): Subscription {
    if prior.None? then Created(shop, now)
    else if prior.value.status == Cancelled || prior.value.status == Expired then WithStatus(prior.value, Pending, None, now)
    else prior.value
  }

  /** The row a subscribe request leaves, following every status write on its path. */
  function Subscribed(prior: Option<Subscription>, shop: string, billing: BillingOutcome, now: int): Subscription {
    var row := Primed(prior, shop, now);
    match billing
    case HasPayment(ids) => WithStatus(row, Active, FirstId(ids), now)
    case NoPayment => WithStatus(WithStatus(row, Cancelled, None, now), Active, None, now)
    case BillingError => WithStatus(row, Active, None, now)
  }

  /**
   * Every subscribe request ends with an active row whose billing period
   * starts now, whatever the provider did, and the guard then lets the shop in.
   */
  lemma SubscribeEndsActive(prior: Option<Subscription>, shop: string, billing: BillingOutcome, now: int)
    ensures Subscribed(prior, shop, billing, now).status == Active
    ensures Subscribed(prior, shop, billing, now).currentPeriodStart == Some(now)
    ensures Subscribed(prior, shop, billing, now).currentPeriodEnd == Some(now + PERIOD_DAYS * DAY_MS)
    ensures RequireSubscription(Some(Subscribed(prior, shop, billing, now)), DefaultOptions, now) == Proceed
  {
  }

  /**
   * The `cancelled` write in `onFailure` leaves no trace: the path through it
   * ends in the same row as a provider that throws.
   */
  lemma OnFailureSameAsError(prior: Option<Subscription>, shop: string, now: int)
    ensures Subscribed(prior, shop, NoPayment, now) == Subscribed(prior, shop, BillingError, now)
  {
    var row := Primed(prior, shop, now);
    var viaCancel := WithStatus(WithStatus(row, Cancelled, None, now), Active, None, now);
    var direct := WithStatus(row, Active, None, now);
    assert viaCancel.subscriptionId == direct.subscriptionId;
  }

  /**
   * Subscribing again does not renew the trial: an existing row keeps its
   * trial end; only a first subscription gets three days from now.
   */
  lemma ResubscribeKeepsTrialEnd(prior: Option<Subscription>, shop: string, billing: BillingOutcome, now: int)
    ensures prior.Some? ==> Subscribed(prior, shop, billing, now).trialEndsAt == prior.value.trialEndsAt
    ensures prior.None? ==> Subscribed(prior, shop, billing, now).trialEndsAt == Some(now + TRIAL_DAYS * DAY_MS)
  {
  }

  /**
   * The billing page's `action`. Subscribe writes the row `Subscribed`
   * describes; cancel cancels an existing row and fails with 500 without one;
   * any other action is rejected with 400 and writes nothing. Other shops'
   * rows never change.
   */
  method Action(table: SubscriptionTable, shop: string, action: string, billing: BillingOutcome, now: int)
    returns (res: ActionResponse)
    requires table.Valid()
    modifies table
    ensures table.Valid()
    ensures action == "subscribe" ==>
              && table.rows == old(table.rows)[shop := Subscribed(old(table.Get(shop)), shop, billing, now)]
              && res == if billing.HasPayment? then RedirectTo(APP_PATH) else JsonSuccess(TRIAL_STARTED, Some(DEV_WARNING))
    ensures action == "cancel" && shop in old(table.rows) ==>
              && table.rows == old(table.rows)[shop := CancelledRow(old(table.rows)[shop], now)]
              && res == JsonSuccess(CANCELLED_OK, None)
    ensures action == "cancel" && shop !in old(table.rows) ==>
              table.rows == old(table.rows) && res == JsonError(500, GENERIC_ERROR)
    ensures action != "subscribe" && action != "cancel" ==>
              table.rows == old(table.rows) && res == JsonError(400, INVALID_ACTION)
  {
    if action == "subscribe" {
      var subscription := table.Get(shop);
      if subscription.None? {
        var created := table.CreateSubscription(shop, now);
        if created.Err? {
          return JsonError(500, GENERIC_ERROR);
        }
      } else if subscription.value.status == Cancelled || subscription.value.status == Expired {
        var reset := table.UpdateSubscriptionStatus(shop, Pending, None, now);
        if reset.Err? {
          return JsonError(500, GENERIC_ERROR);
        }
      }
      assert table.rows == old(table.rows)[shop := Primed(subscription, shop, now)];
      // The inner try: the billing request and the write that follows it.
      match billing {
        case HasPayment(ids) =>
          var activated := table.UpdateSubscriptionStatus(shop, Active, FirstId(ids), now);
          if activated.Ok? {
            return RedirectTo(APP_PATH);
          }
        case NoPayment =>
          // onFailure writes `cancelled`, then throws a 402 response.
          var failed := table.UpdateSubscriptionStatus(shop, Cancelled, None, now);
        case BillingError =>
      }
      // The inner catch: the trial is allowed anyway.
      var fallback := table.UpdateSubscriptionStatus(shop, Active, None, now);
      if fallback.Err? {
        return JsonError(500, GENERIC_ERROR);
      }
      return JsonSuccess(TRIAL_STARTED, Some(DEV_WARNING));
    }
    if action == "cancel" {
      var cancelled := table.CancelSubscription(shop, now);
      if cancelled.Err? {
        return JsonError(500, GENERIC_ERROR);
      }
      return JsonSuccess(CANCELLED_OK, None);
    }
    return JsonError(400, INVALID_ACTION);
  }

  /** The three panels of the billing page. */
  datatype BillingView = BillingView(showSubscribeForm: bool, showTrialExpired: bool, showCancel: bool)

  /** `isSubscribed`, `isPending` and `isCancelled`, and the panels that depend on them. */
  function View(summary: StatusSummary): BillingView {
    var isSubscribed := summary.isActive;
    var isPending := summary.subscription.Some? && summary.subscription.value.status == Pending;
    var isCancelled := summary.subscription.Some? &&
                       (summary.subscription.value.status == Cancelled || summary.subscription.value.status == Expired);
    BillingView(!summary.hasSubscription || isCancelled, isPending && !summary.isInTrial, isSubscribed)
  }

  /**
   * On the page the loader builds: the subscribe form shows without a row or
   * for a cancelled or expired one, the "trial expired" prompt for a pending
   * row past its trial, the cancel button for an active row. At most one shows,
   * none shows only for a pending row inside its trial, and a way to subscribe
   * is offered exactly when the guard would turn the shop away.
   */
  lemma ViewMatchesGuard(sub: Option<Subscription>, now: int)
    ensures var v := View(CheckSubscriptionStatus(sub, now));
      && (v.showSubscribeForm <==> sub.None? || sub.value.status == Cancelled || sub.value.status == Expired)
      && (v.showTrialExpired <==> sub.Some? && sub.value.status == Pending && !IsInTrialPeriod(sub, now))
      && (v.showCancel <==> sub.Some? && sub.value.status == Active)
      && !(v.showSubscribeForm && v.showTrialExpired) && !(v.showSubscribeForm && v.showCancel)
      && !(v.showTrialExpired && v.showCancel)
      && (!v.showSubscribeForm && !v.showTrialExpired && !v.showCancel <==>
            sub.Some? && sub.value.status == Pending && IsInTrialPeriod(sub, now))
      && (v.showSubscribeForm || v.showTrialExpired <==> RequireSubscription(sub, DefaultOptions, now).Redirect?)
  {
  }
}
