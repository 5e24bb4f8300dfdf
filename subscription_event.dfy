/**
  The event ledger record: one entry per platform notification, keyed by
  notification_uuid, with its validations, `processed?` and the
  `for_transaction` scope.
 */
module SubscriptionEvents {
  import opened Wrappers
  import opened Presence
  import opened Subscriptions
  import Rows

  const PURCHASE: string := "PURCHASE"
  const RENEW: string := "RENEW"
  const CANCEL: string := "CANCEL"

  const EVENT_TYPES: seq<string> := [PURCHASE, RENEW, CANCEL]

  /**
    A ledger entry. transaction_id refers to a subscription by value only:
    the association is optional, so the subscription may be absent.
   */
  datatype SubscriptionEvent = SubscriptionEvent(
    notificationUuid: string,
    transactionId: string,
    eventType: string,
    productId: Option<string>,
    amount: Option<Amount>,
    currency: Option<string>,
    purchaseDate: Option<Timestamp>,
    expiresDate: Option<Timestamp>,
    processedAt: Option<Timestamp>)

  /**
    The record's validations: notification_uuid present and not among the
    uuids the table already holds, transaction_id present, event_type
    present and one of EVENT_TYPES.
   */
  predicate IsValid(e: SubscriptionEvent, takenUuids: set<string>)
  {
    && IsPresent(e.notificationUuid)
    && e.notificationUuid !in takenUuids
    && IsPresent(e.transactionId)
    && IsPresent(e.eventType)
    && e.eventType in EVENT_TYPES
  }

  /** `processed?`: processed_at is present. */
  predicate IsProcessed(e: SubscriptionEvent)
  {
    e.processedAt.Some?
  }

  /** A valid entry carries one of the three known types, and any of the three passes the presence check. */
  lemma ValidTypes(e: SubscriptionEvent, takenUuids: set<string>)
    ensures IsValid(e, takenUuids) ==> e.eventType == PURCHASE || e.eventType == RENEW || e.eventType == CANCEL
    ensures (e.eventType in EVENT_TYPES && IsPresent(e.notificationUuid) && e.notificationUuid !in takenUuids
             && IsPresent(e.transactionId)) ==> IsValid(e, takenUuids)
  {
    PresentByFirst(PURCHASE);
    PresentByFirst(RENEW);
    PresentByFirst(CANCEL);
  }

  /** `for_transaction(t)`: exactly the entries whose transaction_id is `t`, each as often as scanned. */
  function ForTransaction(rows: seq<SubscriptionEvent>, transactionId: string): (r: seq<SubscriptionEvent>)
    ensures forall e :: multiset(r)[e] == if e.transactionId == transactionId then multiset(rows)[e] else 0
    ensures forall e :: e in r <==> e in rows && e.transactionId == transactionId
  {
    var r := Rows.Where(rows, (e: SubscriptionEvent) => e.transactionId == transactionId);
    assert forall e :: e in r <==> e in multiset(r);
    r
  }
}
