/**
 * The `app/uninstalled` webhook: it cancels the shop's subscription rows.
 * Every way out of the handler throws a `Response`; the model returns the
 * status that response carries.
 */
module AppUninstalled {
  import opened Wrappers
  import opened Billing
  import opened SubscriptionGuard

  const APP_UNINSTALLED: string := "APP_UNINSTALLED"

  /** The thrown response: the empty one (200) or "Unhandled webhook topic" (404). */
  datatype WebhookReply = Empty | NotFound

  /**
   * The webhook `action` for `shop` at time `now`. Without an admin context
   * nothing changes. `APP_UNINSTALLED` with a session cancels the shop's row
   * (status and `updatedAt` only); without a session nothing changes. Any
   * other topic is a 404 with no change. Other shops' rows never change.
   */
  method Action(table: SubscriptionTable, topic: string, shop: string, hasSession: bool, hasAdmin: bool, now: int)
    returns (reply: WebhookReply)
    requires table.Valid()
    modifies table
    ensures table.Valid()
    ensures !hasAdmin ==> reply == Empty && table.rows == old(table.rows)
    ensures hasAdmin && topic != APP_UNINSTALLED ==> reply == NotFound && table.rows == old(table.rows)
    ensures hasAdmin && topic == APP_UNINSTALLED && !hasSession ==> reply == Empty && table.rows == old(table.rows)
    ensures hasAdmin && topic == APP_UNINSTALLED && hasSession ==>
              && reply == Empty
              && (shop in old(table.rows) ==>
                    table.rows == old(table.rows)[shop := old(table.rows)[shop].(status := Cancelled, updatedAt := now)])
              && (shop !in old(table.rows) ==> table.rows == old(table.rows))
    ensures forall other | other != shop && other in old(table.rows) :: other in table.rows && table.rows[other] == old(table.rows)[other]
    ensures table.rows.Keys == old(table.rows).Keys
  {
    if !hasAdmin {
      return Empty;
    }
    if topic == APP_UNINSTALLED {
      if hasSession {
        var count := table.CancelAllForShop(shop, now);
      }
      return Empty;
    }
    return NotFound;
  }

  /**
   * Once uninstalled, a shop with a row is turned away by the guard under
   * any options that require an active subscription, trial or not.
   */
  lemma UninstalledShopIsLockedOut(rows: map<string, Subscription>, shop: string, options: GuardOptions, now: int)
    requires shop in rows
    requires options.requireActive.GetOr(true)
    ensures var after := rows[shop := rows[shop].(status := Cancelled, updatedAt := now)];
      RequireSubscription(Some(after[shop]), options, now).Redirect?
  {
    var after := rows[shop := rows[shop].(status := Cancelled, updatedAt := now)];
    CancelledOrExpiredDenied(Some(after[shop]), options, now);
  }
}
