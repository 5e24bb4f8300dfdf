/**
  The durable store: the subscriptions table keyed by transaction_id, the
  event ledger keyed by notification_uuid, and the next surrogate id. The
  two unique indexes become the map keys; the rest of each table's
  validations become the invariant `Consistent`.
 */
module Store {
  import opened Subscriptions
  import opened SubscriptionEvents

  /**
    How a concurrent request carrying the same unique key interleaved with
    this one. The rival's row was committed after this request's lookup
    found nothing, either before this request's uniqueness validation read
    the table, or between that read and this request's INSERT. The rival's
    own write belongs to the rival's call, not to this one.
   */
  datatype Rival = NoRival | CommittedBeforeValidation | CommittedBeforeInsert

  /** The contents of both tables at one moment. */
  datatype Tables = Tables(
    subscriptions: map<string, Subscription>,
    events: map<string, SubscriptionEvent>,
    nextId: nat)

  /**
    Each key is its record's own unique column, each record passes its
    validations, and surrogate ids are distinct and below the next id.
   */
  ghost predicate Consistent(t: Tables)
  {
    && (forall k :: k in t.subscriptions ==>
          && t.subscriptions[k].transactionId == k
          && IsValidRecord(t.subscriptions[k])
          && t.subscriptions[k].id < t.nextId)
    && (forall k1, k2 :: k1 in t.subscriptions && k2 in t.subscriptions && k1 != k2 ==>
          t.subscriptions[k1].id != t.subscriptions[k2].id)
    && (forall k :: k in t.events ==>
          t.events[k].notificationUuid == k && IsValid(t.events[k], {}))
  }

  class Database {
    var subscriptions: map<string, Subscription>
    var events: map<string, SubscriptionEvent>
    var nextId: nat

    function Snapshot(): Tables
      reads this
    {
      Tables(subscriptions, events, nextId)
    }

    ghost predicate Valid()
      reads this
    {
      Consistent(Snapshot())
    }

    /** An empty database; auto-increment ids start at 1. */
    constructor ()
      ensures Valid()
      ensures Snapshot() == Tables(map[], map[], 1)
    {
      subscriptions := map[];
      events := map[];
      nextId := 1;
    }
  }
}
