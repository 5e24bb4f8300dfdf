/**
  The end-to-end request sequence of the system's own request specs,
  stated as lemmas about the model: provision, provision again, PURCHASE, the same
  notification again, CANCEL with its grace period, and a notification
  for a transaction nobody provisioned. Times are Unix seconds;
  2025-11-01T12:00:00Z is 1761998400.
 */
module Scenarios {
  import opened Wrappers
  import opened Presence
  import opened Subscriptions
  import opened SubscriptionEvents
  import opened Store
  import opened WebhooksController
  import opened SubscriptionsController

  const USER: string := "user_123"
  const TXN: string := "txn_new"
  const PRODUCT: string := "com.samansa.subscription.monthly"
  const PURCHASED_AT: Timestamp := 1759320000
  const EXPIRES_AT: Timestamp := 1761998400

  lemma LiteralsArePresent()
    ensures IsPresent(USER) && IsPresent(TXN) && IsPresent(PRODUCT)
    ensures IsPresent("notif_1") && IsPresent("notif_2") && IsPresent("notif_3")
  {
    PresentByFirst(USER);
    PresentByFirst(TXN);
    PresentByFirst(PRODUCT);
    PresentByFirst("notif_1");
    PresentByFirst("notif_2");
    PresentByFirst("notif_3");
  }

  /** Provisioning creates a pending, non-viewable subscription; provisioning again returns it unchanged. */
  lemma ProvisionScenario(now: Timestamp, later: Timestamp)
    ensures var (t1, o1) := Provision(Tables(map[], map[], 1), USER, TXN, PRODUCT, now, NoRival);
      && o1.Created? && o1.subscription.status == PENDING && !Serialize(o1.subscription, now).viewable
      && Provision(t1, "user_999", TXN, "other.product", later, NoRival) == (t1, Existed(o1.subscription))
  {
    LiteralsArePresent();
    NewIsCreated(Tables(map[], map[], 1), USER, TXN, PRODUCT, now);
  }

  /**
    From the provisioned store: PURCHASE activates and makes the
    subscription viewable; the same notification again is already
    processed and changes nothing; CANCEL keeps it viewable until
    expires_date and not from then on; an unknown transaction is not found.
   */
  lemma WebhookScenario(created: Timestamp, t0: Timestamp, t1: Timestamp, t2: Timestamp)
    ensures
      var pending := NewSubscription(1, USER, TXN, PRODUCT, created);
      var store := Tables(map[TXN := pending], map[], 2);
      var purchase := Notification("notif_1", PURCHASE, TXN, Some(PRODUCT), None, None, Some(PURCHASED_AT), Some(EXPIRES_AT));
      var (afterPurchase, o1) := Receive(store, purchase, t0, NoRival);
      var (afterResend, o2) := Receive(afterPurchase, purchase, t1, NoRival);
      var cancel := Notification("notif_2", CANCEL, TXN, Some(PRODUCT), None, None, Some(PURCHASED_AT), Some(EXPIRES_AT));
      var (afterCancel, o3) := Receive(afterResend, cancel, t2, NoRival);
      var missing := Notification("notif_3", PURCHASE, "txn_missing", Some(PRODUCT), None, None, None, None);
      && o1 == Processed
      && IsActive(afterPurchase.subscriptions[TXN]) && Viewable(afterPurchase.subscriptions[TXN], t0)
      && o2 == AlreadyProcessed && afterResend == afterPurchase
      && o3 == Processed && IsCancelled(afterCancel.subscriptions[TXN])
      && Viewable(afterCancel.subscriptions[TXN], EXPIRES_AT - 1)
      && !Viewable(afterCancel.subscriptions[TXN], EXPIRES_AT)
      && !Viewable(afterCancel.subscriptions[TXN], EXPIRES_AT + 1)
      && Receive(afterCancel, missing, t2, NoRival) == (afterCancel, NotFound)
  {
    LiteralsArePresent();
    var pending := NewSubscription(1, USER, TXN, PRODUCT, created);
    var store := Tables(map[TXN := pending], map[], 2);
    PresentIsValidPending(USER, TXN, PRODUCT, 1, created);
    var purchase := Notification("notif_1", PURCHASE, TXN, Some(PRODUCT), None, None, Some(PURCHASED_AT), Some(EXPIRES_AT));
    assert IsValid(LedgerEntry(purchase, t0), store.events.Keys) by {
      ValidTypes(LedgerEntry(purchase, t0), store.events.Keys);
    }
    var (afterPurchase, o1) := Receive(store, purchase, t0, NoRival);
    assert o1 == Processed;
    var cancel := Notification("notif_2", CANCEL, TXN, Some(PRODUCT), None, None, Some(PURCHASED_AT), Some(EXPIRES_AT));
    assert "notif_2" != "notif_1";
    assert IsValid(LedgerEntry(cancel, t2), afterPurchase.events.Keys) by {
      ValidTypes(LedgerEntry(cancel, t2), afterPurchase.events.Keys);
    }
    assert "txn_missing" != TXN;
  }

  /**
    Nothing keeps the dates non-null once a subscription leaves pending: a
    PURCHASE that carries no dates activates the subscription with a nil period.
   */
  lemma PurchaseWithoutDates(created: Timestamp, now: Timestamp)
    ensures
      var store := Tables(map[TXN := NewSubscription(1, USER, TXN, PRODUCT, created)], map[], 2);
      var bare := Notification("notif_1", PURCHASE, TXN, None, None, None, None, None);
      var (after, o) := Receive(store, bare, now, NoRival);
      && o == Processed
      && IsActive(after.subscriptions[TXN])
      && after.subscriptions[TXN].purchaseDate.None? && after.subscriptions[TXN].expiresDate.None?
  {
    LiteralsArePresent();
    PresentIsValidPending(USER, TXN, PRODUCT, 1, created);
    var bare := Notification("notif_1", PURCHASE, TXN, None, None, None, None, None);
    ValidTypes(LedgerEntry(bare, now), {});
  }

  /**
    A delivery raced by a rival that wins at the INSERT is already
    processed; the rival's rows stay, so a later unraced redelivery of the
    same notification is already processed too: the notification is
    applied once, by the rival.
   */
  lemma RacedRedelivery(created: Timestamp)
    ensures
      var store := Tables(map[TXN := NewSubscription(1, USER, TXN, PRODUCT, created)], map[], 2);
      var purchase := Notification("notif_1", PURCHASE, TXN, Some(PRODUCT), None, None, Some(PURCHASED_AT), Some(EXPIRES_AT));
      var (final, os, applied) := DeliverAll(store, purchase, [Delivery(10, CommittedBeforeInsert), Delivery(20, NoRival)]);
      && os == [AlreadyProcessed, AlreadyProcessed]
      && applied == [true, false]
      && final == Receive(store, purchase, 10, NoRival).0
      && IsActive(final.subscriptions[TXN])
  {
    LiteralsArePresent();
    PresentIsValidPending(USER, TXN, PRODUCT, 1, created);
    var store := Tables(map[TXN := NewSubscription(1, USER, TXN, PRODUCT, created)], map[], 2);
    var purchase := Notification("notif_1", PURCHASE, TXN, Some(PRODUCT), None, None, Some(PURCHASED_AT), Some(EXPIRES_AT));
    ValidTypes(LedgerEntry(purchase, 10), {});
    var ds := [Delivery(10, CommittedBeforeInsert), Delivery(20, NoRival)];
    var (t1, o1, a1) := Step(store, purchase, ds[0]);
    assert o1 == AlreadyProcessed && a1;
    assert ds[1..] == [Delivery(20, NoRival)];
    RedeliveryIsAlreadyProcessed(t1, purchase, 20, NoRival);
    assert DeliverAll(t1, purchase, ds[1..][1..]) == (t1, [], []);
  }
}
