/**
 * The `shop/redact` webhook: it deletes the subscription and session rows of
 * the shop named in the payload and reports how many rows went.
 *
 * Authentication is not modelled: the handler starts from the topic and the
 * decoded body. A domain missing from the payload reaches the store as an
 * absent condition, which the store drops, so the delete matches every row.
 */
module ShopRedact {
  import opened Wrappers
  import opened Seqs
  import opened Billing

  const SHOP_REDACT: string := "SHOP_REDACT"
  const REDACTION_FAILED: string := "Failed to process shop data redaction"
  const WEBHOOK_FAILED: string := "Failed to process webhook"

  /** A stored session (only its shop matters here). */
  datatype SessionRow = SessionRow(id: string, shop: string)

  /** The fields of the payload the handler reads; `payload.data_request` only feeds the log. */
  datatype Payload = Payload(shopId: Option<int>, shopDomain: Option<string>)

  /** Which store call throws, if any. */
  datatype Fault = NoFault | SubscriptionDeleteFails | SessionDeleteFails

  datatype RedactReply =
    | Redacted(subscriptions: nat, sessions: nat)
    | Failure(status: int, error: string)

  /**
   * `where: { shop: shopDomain }` as the store applies it: an absent value
   * is no condition at all.
   */
  predicate MatchesAsWritten(domain: Option<string>, shop: string) {
    domain.None? || domain.value == shop
  }

  function KeepAsWritten(domain: Option<string>): SessionRow -> bool {
    (s: SessionRow) => !MatchesAsWritten(domain, s.shop)
  }

  /** The session rows left by `deleteMany({ where: { shop: shopDomain } })`. */
  function RemainingSessions(rows: seq<SessionRow>, domain: Option<string>): (r: seq<SessionRow>)
    ensures IsSubsequence(r, rows)
    ensures forall s | s in r :: !MatchesAsWritten(domain, s.shop)
    ensures forall s | s in rows && !MatchesAsWritten(domain, s.shop) :: s in r
  {
    Filter(rows, KeepAsWritten(domain))
  }

  /** A missing `shop_domain` deletes the sessions of every shop. */
  lemma MissingDomainRedactsAllShops(rows: seq<SessionRow>)
    ensures RemainingSessions(rows, None) == []
  {
    FilterKeepsNone(rows, KeepAsWritten(None));
  }

  /** The intended condition: only rows of the named shop match, and nothing matches without a name. */
  predicate MatchesIntended(domain: Option<string>, shop: string) {
    domain.Some? && domain.value == shop
  }

  function KeepIntended(domain: Option<string>): SessionRow -> bool {
    (s: SessionRow) => !MatchesIntended(domain, s.shop)
  }

  /**
   * The intended redaction: exactly the named shop's rows go, the rows of
   * every other shop stay in order, and a missing name deletes nothing.
   */
  function RemainingSessionsIntended(rows: seq<SessionRow>, domain: Option<string>): (r: seq<SessionRow>)
    ensures IsSubsequence(r, rows)
    ensures forall s | s in r :: domain.None? || s.shop != domain.value
    ensures forall s | s in rows && (domain.None? || s.shop != domain.value) :: s in r
    ensures domain.None? ==> r == rows
  {
    var r := Filter(rows, KeepIntended(domain));
    assert domain.None? ==> r == rows by {
      if domain.None? {
        FilterKeepsAll(rows, KeepIntended(domain));
      }
    }
    r
  }

  /** The two conditions agree whenever the payload names a shop. */
  lemma NamedDomainAgrees(rows: seq<SessionRow>, domain: string)
    ensures RemainingSessions(rows, Some(domain)) == RemainingSessionsIntended(rows, Some(domain))
  {
    FilterSameTest(rows, KeepAsWritten(Some(domain)), KeepIntended(Some(domain)));
  }

  /** The session table. */
  class SessionTable {
    var rows: seq<SessionRow>

    constructor (rows: seq<SessionRow>)
      ensures this.rows == rows
    {
      this.rows := rows;
    }

    /** `session.deleteMany({ where: { shop: domain } })`; returns the count removed. */
    method DeleteMany(domain: Option<string>) returns (count: nat)
      modifies this
      ensures rows == RemainingSessions(old(rows), domain)
      ensures count == |old(rows)| - |rows|
    {
      var before := |rows|;
      rows := RemainingSessions(rows, domain);
      count := before - |rows|;
    }
  }

  /**
   * The webhook `action`. Another topic is refused with 500 (its 422 is
   * caught by the outer handler); so is a body that does not decode. A
   * failing delete replies 500 after the deletes before it. On success the
   * reply counts exactly the rows each table lost.
   */
  method Action(subscriptions: SubscriptionTable, sessions: SessionTable, topic: string, payload: Option<Payload>,
                fault: Fault)
    returns (reply: RedactReply)
    requires subscriptions.Valid()
    modifies subscriptions, sessions
    ensures subscriptions.Valid()
    ensures topic != SHOP_REDACT || payload.None? ==>
              && reply == Failure(500, WEBHOOK_FAILED)
              && subscriptions.rows == old(subscriptions.rows) && sessions.rows == old(sessions.rows)
    ensures topic == SHOP_REDACT && payload.Some? ==>
              var domain := payload.value.shopDomain;
              && (fault == SubscriptionDeleteFails ==>
                    && reply == Failure(500, REDACTION_FAILED)
                    && subscriptions.rows == old(subscriptions.rows) && sessions.rows == old(sessions.rows))
              && (fault != SubscriptionDeleteFails ==>
                    && (domain.Some? ==> subscriptions.rows == old(subscriptions.rows) - {domain.value})
                    && (domain.None? ==> subscriptions.rows == map[]))
              && (fault == SessionDeleteFails ==>
                    reply == Failure(500, REDACTION_FAILED) && sessions.rows == old(sessions.rows))
              && (fault == NoFault ==>
                    && sessions.rows == RemainingSessions(old(sessions.rows), domain)
                    && reply == Redacted(|old(subscriptions.rows).Keys| - |subscriptions.rows.Keys|,
                                         |old(sessions.rows)| - |sessions.rows|))
    ensures topic == SHOP_REDACT && payload.Some? && payload.value.shopDomain.Some? && fault == NoFault ==>
              var domain := payload.value.shopDomain.value;
              && domain !in subscriptions.rows
              && (forall shop | shop in old(subscriptions.rows) && shop != domain ::
                    shop in subscriptions.rows && subscriptions.rows[shop] == old(subscriptions.rows)[shop])
              && (forall s | s in sessions.rows :: s.shop != domain)
              && (forall s | s in old(sessions.rows) && s.shop != domain :: s in sessions.rows)
  {
    if topic != SHOP_REDACT || payload.None? {
      return Failure(500, WEBHOOK_FAILED);
    }
    var domain := payload.value.shopDomain;
    if fault == SubscriptionDeleteFails {
      return Failure(500, REDACTION_FAILED);
    }
    var deletedSubscriptions: nat;
    if domain.Some? {
      deletedSubscriptions := subscriptions.DeleteAllForShop(domain.value);
    } else {
      deletedSubscriptions := subscriptions.DeleteEvery();
    }
    if fault == SessionDeleteFails {
      return Failure(500, REDACTION_FAILED);
    }
    var deletedSessions := sessions.DeleteMany(domain);
    reply := Redacted(deletedSubscriptions, deletedSessions);
  }
}
