/**
  Webhook ingestion (`apple`): deduplicate by notification_uuid, resolve
  the subscription by transaction_id, then in one transaction insert the
  ledger entry and apply the transition; a uniqueness conflict on the
  insert is reported as already processed.
 */
module WebhooksController {
  import opened Wrappers
  import opened Subscriptions
  import opened SubscriptionEvents
  import opened Store
  import Presence

  /**
    The permitted webhook parameters. A missing string parameter is "";
    a missing optional value is None. A date that does not parse casts to
    nil, so it is None too; amount is kept as already cast.
   */
  datatype Notification = Notification(
    notificationUuid: string,
    eventType: string,
    transactionId: string,
    productId: Option<string>,
    amount: Option<Amount>,
    currency: Option<string>,
    purchaseDate: Option<Timestamp>,
    expiresDate: Option<Timestamp>)

  /** The response: processed, already_processed, 404, or a validation error with nothing committed. */
  datatype WebhookOutcome = Processed | AlreadyProcessed | NotFound | Invalid

  /** The ledger row `create!` builds from the notification, stamped processed now. */
  function LedgerEntry(n: Notification, now: Timestamp): SubscriptionEvent
  {
    SubscriptionEvent(n.notificationUuid, n.transactionId, n.eventType, n.productId,
                      n.amount, n.currency, n.purchaseDate, n.expiresDate, Some(now))
  }

  /** The `case` on the event type; None is the `raise` for an unknown type. */
  function Transition(s: Subscription, n: Notification, now: Timestamp): (r: Option<Subscription>)
    ensures r.Some? <==> n.eventType in EVENT_TYPES
    ensures r.Some? ==> SameIdentity(s, r.value) && (IsValidRecord(s) ==> IsValidRecord(r.value))
  {
    if n.eventType == PURCHASE then Some(Activate(s, n.purchaseDate, n.expiresDate, n.amount, n.currency, now))
    else if n.eventType == RENEW then Some(Renew(s, n.purchaseDate, n.expiresDate, n.amount, n.currency, now))
    else if n.eventType == CANCEL then Some(Cancel(s, now))
    else None
  }

  /** The uuids the uniqueness validation of `create!` sees. */
  function TakenAtValidation(t: Tables, n: Notification, rival: Rival): set<string>
  {
    t.events.Keys + (if rival == CommittedBeforeValidation then {n.notificationUuid} else {})
  }

  /** The effect of one `apple` request on the two tables, and its outcome. */
  function Receive(t: Tables, n: Notification, now: Timestamp, rival: Rival): (Tables, WebhookOutcome)
  {
    if n.notificationUuid in t.events then (t, AlreadyProcessed)
    else if n.transactionId !in t.subscriptions then (t, NotFound)
    else
      var entry := LedgerEntry(n, now);
      if !IsValid(entry, TakenAtValidation(t, n, rival)) then (t, Invalid)
      else if rival == CommittedBeforeInsert then (t, AlreadyProcessed)
      else
        match Transition(t.subscriptions[n.transactionId], n, now)
        case None => (t, Invalid)
        case Some(updated) =>
          if !IsValidRecord(updated) then (t, Invalid)
          else (Tables(t.subscriptions[n.transactionId := updated],
                       t.events[n.notificationUuid := entry], t.nextId), Processed)
  }

  /** A notification whose uuid the ledger holds is already processed, and nothing changes. */
  lemma RedeliveryIsAlreadyProcessed(t: Tables, n: Notification, now: Timestamp, rival: Rival)
    requires n.notificationUuid in t.events
    ensures Receive(t, n, now, rival) == (t, AlreadyProcessed)
  {
  }

  /** A notification for an unknown transaction is not found, and nothing changes. */
  lemma UnknownTransactionIsNotFound(t: Tables, n: Notification, now: Timestamp, rival: Rival)
    requires n.notificationUuid !in t.events && n.transactionId !in t.subscriptions
    ensures Receive(t, n, now, rival) == (t, NotFound)
  {
  }

  /** All or nothing: every outcome but Processed leaves both tables as they were. */
  lemma OnlyProcessedCommits(t: Tables, n: Notification, now: Timestamp, rival: Rival)
    ensures Receive(t, n, now, rival).1 != Processed ==> Receive(t, n, now, rival).0 == t
  {
  }

  /** The `raise` for an unknown type is unreachable: the ledger validation has already failed. */
  lemma ValidationCatchesUnknownType(s: Subscription, n: Notification, now: Timestamp, taken: set<string>)
    requires IsValid(LedgerEntry(n, now), taken)
    ensures Transition(s, n, now).Some?
  {
  }

  /** An unknown event type commits nothing; once past the lookups it is a validation error. */
  lemma UnknownTypeCommitsNothing(t: Tables, n: Notification, now: Timestamp, rival: Rival)
    requires n.eventType !in EVENT_TYPES
    ensures Receive(t, n, now, rival).0 == t
    ensures n.notificationUuid !in t.events && n.transactionId in t.subscriptions ==>
              Receive(t, n, now, rival).1 == Invalid
  {
  }

  /**
    A rival delivery of the same notification commits nothing of this
    call's. Caught at the INSERT (RecordNotUnique) it is already processed;
    caught by the uniqueness validation (RecordInvalid, not rescued) it is
    a validation error.
   */
  lemma RaceOutcome(t: Tables, n: Notification, now: Timestamp, rival: Rival)
    requires n.notificationUuid !in t.events && n.transactionId in t.subscriptions
    requires rival != NoRival
    ensures Receive(t, n, now, rival).0 == t
    ensures Receive(t, n, now, rival).1 ==
              if rival == CommittedBeforeInsert && IsValid(LedgerEntry(n, now), t.events.Keys)
              then AlreadyProcessed else Invalid
  {
  }

  /** On a consistent store a notification is processed exactly when it is new, its subscription exists, its uuid is present, its type is known and no rival interfered. */
  lemma ProcessedIff(t: Tables, n: Notification, now: Timestamp, rival: Rival)
    requires Consistent(t)
    ensures Receive(t, n, now, rival).1 == Processed <==>
              && n.notificationUuid !in t.events
              && n.transactionId in t.subscriptions
              && Presence.IsPresent(n.notificationUuid)
              && n.eventType in EVENT_TYPES
              && rival == NoRival
  {
    if && n.notificationUuid !in t.events && n.transactionId in t.subscriptions
       && Presence.IsPresent(n.notificationUuid) && n.eventType in EVENT_TYPES && rival == NoRival
    {
      ValidTypes(LedgerEntry(n, now), t.events.Keys);
    }
  }

  /**
    A processed notification adds exactly one ledger entry, keyed by its
    uuid, carrying its fields and processed_at = now, and transforms only
    its own subscription: PURCHASE by `activate!`, RENEW by `renew!`,
    CANCEL by `cancel!`.
   */
  lemma ProcessedEffect(t: Tables, n: Notification, now: Timestamp, rival: Rival)
    requires Receive(t, n, now, rival).1 == Processed
    ensures var t' := Receive(t, n, now, rival).0;
      && n.notificationUuid !in t.events
      && t'.events == t.events[n.notificationUuid := LedgerEntry(n, now)]
      && |t'.events| == |t.events| + 1
      && IsProcessed(t'.events[n.notificationUuid])
      && t'.events[n.notificationUuid].processedAt == Some(now)
      && n.transactionId in t.subscriptions
      && n.eventType in EVENT_TYPES
      && t'.subscriptions.Keys == t.subscriptions.Keys
      && (forall k :: k in t.subscriptions && k != n.transactionId ==> t'.subscriptions[k] == t.subscriptions[k])
      && t'.nextId == t.nextId
      && var s := t.subscriptions[n.transactionId];
         t'.subscriptions[n.transactionId] ==
           if n.eventType == PURCHASE then Activate(s, n.purchaseDate, n.expiresDate, n.amount, n.currency, now)
           else if n.eventType == RENEW then Renew(s, n.purchaseDate, n.expiresDate, n.amount, n.currency, now)
           else Cancel(s, now)
  {
    assert n.notificationUuid !in t.events;
  }

  /**
    Nothing is ever lost: existing ledger entries stay as they were, no
    subscription disappears and none changes its identity fields.
   */
  lemma LedgerAppendOnly(t: Tables, n: Notification, now: Timestamp, rival: Rival)
    ensures var t' := Receive(t, n, now, rival).0;
      && (forall k :: k in t.events ==> k in t'.events && t'.events[k] == t.events[k])
      && t'.subscriptions.Keys == t.subscriptions.Keys
      && (forall k :: k in t.subscriptions ==> SameIdentity(t.subscriptions[k], t'.subscriptions[k]))
  {
  }

  /** Replacing one subscription by a valid record with the same identity, and adding one valid ledger entry under its own uuid, keeps the store consistent. */
  lemma CommitPreservesConsistency(t: Tables, s: Subscription, e: SubscriptionEvent)
    requires Consistent(t)
    requires s.transactionId in t.subscriptions && SameIdentity(t.subscriptions[s.transactionId], s)
    requires IsValidRecord(s) && IsValid(e, {})
    ensures Consistent(Tables(t.subscriptions[s.transactionId := s], t.events[e.notificationUuid := e], t.nextId))
  {
    var subs := t.subscriptions[s.transactionId := s];
    forall k | k in subs
      ensures subs[k].transactionId == k && IsValidRecord(subs[k]) && subs[k].id < t.nextId
    {
    }
    forall k1, k2 | k1 in subs && k2 in subs && k1 != k2
      ensures subs[k1].id != subs[k2].id
    {
      assert subs[k1].id == t.subscriptions[k1].id;
      assert subs[k2].id == t.subscriptions[k2].id;
    }
  }

  /** The store invariant survives every request. */
  lemma ReceivePreservesConsistency(t: Tables, n: Notification, now: Timestamp, rival: Rival)
    requires Consistent(t)
    ensures Consistent(Receive(t, n, now, rival).0)
  {
    if Receive(t, n, now, rival).1 == Processed {
      var s := t.subscriptions[n.transactionId];
      var updated := Transition(s, n, now);
      assert updated.Some? && IsValidRecord(updated.value);
      CommitPreservesConsistency(t, updated.value, LedgerEntry(n, now));
    }
  }

  /** One delivery attempt of a notification: when it arrives and how a rival interleaved. */
  datatype Delivery = Delivery(now: Timestamp, rival: Rival)

  /**
    One delivery attempt, together with the rival that raced it. A rival is
    another delivery of the same notification that committed after this
    one's pre-check, so from then on the store holds the rival's rows: the
    notification processed as if unraced. The result is the store after
    both, this attempt's outcome, and whether the notification was applied
    at this step (by this attempt or by its rival).
   */
  function Step(t: Tables, n: Notification, d: Delivery): (r: (Tables, WebhookOutcome, bool))
    ensures r.1 == Receive(t, n, d.now, d.rival).1
    ensures r.1 == Processed ==> r.2
    ensures r.2 <==> Receive(t, n, d.now, NoRival).1 == Processed
    ensures r.2 ==> r.0 == Receive(t, n, d.now, NoRival).0 && n.notificationUuid !in t.events
                    && n.notificationUuid in r.0.events
    ensures !r.2 ==> r.0 == t
  {
    var (mine, outcome) := Receive(t, n, d.now, d.rival);
    if d.rival == NoRival then (mine, outcome, outcome == Processed)
    else
      var (theirs, rivalOutcome) := Receive(t, n, d.now, NoRival);
      (theirs, outcome, rivalOutcome == Processed)
  }

  /**
    Delivering the same notification twice leaves the store as delivering
    it once: once the first attempt or its rival applied the notification,
    the second attempt reports already processed and changes nothing;
    otherwise the first left the store untouched.
   */
  lemma ReceiveTwice(t: Tables, n: Notification, d1: Delivery, d2: Delivery)
    ensures var (t1, o1, applied1) := Step(t, n, d1);
      && (applied1 ==> Receive(t1, n, d2.now, d2.rival) == (t1, AlreadyProcessed))
      && (!applied1 ==> t1 == t && Receive(t1, n, d2.now, d2.rival) == Receive(t, n, d2.now, d2.rival))
  {
    var (t1, o1, applied1) := Step(t, n, d1);
    if applied1 {
      RedeliveryIsAlreadyProcessed(t1, n, d2.now, d2.rival);
    }
  }

  /** Delivering the same notification once per attempt, in order, with each rival's commit carried forward. */
  function DeliverAll(t: Tables, n: Notification, ds: seq<Delivery>): (r: (Tables, seq<WebhookOutcome>, seq<bool>))
    ensures |r.1| == |ds| && |r.2| == |ds|
    decreases |ds|
  {
    if ds == [] then (t, [], [])
    else
      var (t1, o1, a1) := Step(t, n, ds[0]);
      var (final, os, applied) := DeliverAll(t1, n, ds[1..]);
      (final, [o1] + os, [a1] + applied)
  }

  /** How many steps applied the notification. */
  function CountApplied(applied: seq<bool>): nat
  {
    if applied == [] then 0 else (if applied[0] then 1 else 0) + CountApplied(applied[1..])
  }

  /** Once the ledger holds the uuid, every further delivery is already processed, applies nothing and changes nothing. */
  lemma {:induction false} DeliveriesAfterProcessing(t: Tables, n: Notification, ds: seq<Delivery>)
    requires n.notificationUuid in t.events
    ensures DeliverAll(t, n, ds).0 == t
    ensures forall i :: 0 <= i < |ds| ==> DeliverAll(t, n, ds).1[i] == AlreadyProcessed && !DeliverAll(t, n, ds).2[i]
    ensures CountApplied(DeliverAll(t, n, ds).2) == 0
  {
    if ds != [] {
      RedeliveryIsAlreadyProcessed(t, n, ds[0].now, ds[0].rival);
      RedeliveryIsAlreadyProcessed(t, n, ds[0].now, NoRival);
      DeliveriesAfterProcessing(t, n, ds[1..]);
    }
  }

  /**
    However often and however raced a notification is delivered, it is
    applied at most once, counting the applications of rivals; every
    delivery processed is that application; every later delivery is
    already processed; and the final store is the initial store with the
    notification applied once (or the initial store, when it never was).
   */
  lemma {:induction false} AppliedAtMostOnce(t: Tables, n: Notification, ds: seq<Delivery>)
    ensures var (final, os, applied) := DeliverAll(t, n, ds);
      && CountApplied(applied) <= 1
      && (forall i :: 0 <= i < |ds| && os[i] == Processed ==> applied[i])
      && (forall i, j :: 0 <= i < j < |ds| && applied[i] ==> os[j] == AlreadyProcessed)
      && (forall i :: 0 <= i < |ds| && applied[i] ==> final == Receive(t, n, ds[i].now, NoRival).0)
      && (CountApplied(applied) == 0 ==> final == t)
  {
    if ds != [] {
      var (t1, o1, a1) := Step(t, n, ds[0]);
      var (final, os, applied) := DeliverAll(t, n, ds);
      var (final', rest, applied') := DeliverAll(t1, n, ds[1..]);
      assert final == final' && os == [o1] + rest && applied == [a1] + applied';
      if a1 {
        DeliveriesAfterProcessing(t1, n, ds[1..]);
        assert forall k :: 1 <= k < |os| ==> os[k] == rest[k - 1] == AlreadyProcessed;
        assert forall k :: 1 <= k < |os| ==> applied[k] == applied'[k - 1] == false;
        assert applied[1..] == applied';
      } else {
        AppliedAtMostOnce(t, n, ds[1..]);
        assert applied[1..] == applied';
        forall i | 0 <= i < |ds| && os[i] == Processed
          ensures applied[i]
        {
          assert os[i] == rest[i - 1] && applied[i] == applied'[i - 1];
        }
        forall i, j | 0 <= i < j < |ds| && applied[i]
          ensures os[j] == AlreadyProcessed
        {
          assert applied[i] == applied'[i - 1] && os[j] == rest[j - 1];
        }
        forall i | 0 <= i < |ds| && applied[i]
          ensures final == Receive(t, n, ds[i].now, NoRival).0
        {
          assert applied[i] == applied'[i - 1];
          assert ds[i] == ds[1..][i - 1];
        }
      }
    }
  }

  /** `apple`: the request against the database, with the current time and the interleaving passed in. */
  method Apple(db: Database, n: Notification, now: Timestamp, rival: Rival) returns (outcome: WebhookOutcome)
    requires db.Valid()
    modifies db
    ensures db.Valid()
    ensures (db.Snapshot(), outcome) == Receive(old(db.Snapshot()), n, now, rival)
  {
    ReceivePreservesConsistency(db.Snapshot(), n, now, rival);
    if n.notificationUuid in db.events {
      return AlreadyProcessed;
    }
    if n.transactionId !in db.subscriptions {
      return NotFound;
    }
    var subscription := db.subscriptions[n.transactionId];
    // One transaction: both rows are written together or not at all.
    var entry := LedgerEntry(n, now);
    if !IsValid(entry, TakenAtValidation(db.Snapshot(), n, rival)) {
      return Invalid;  // create! raises RecordInvalid; the transaction rolls back
    }
    if rival == CommittedBeforeInsert {
      return AlreadyProcessed;  // the INSERT raises RecordNotUnique, which is rescued
    }
    var updated := Transition(subscription, n, now);
    if updated.None? || !IsValidRecord(updated.value) {
      return Invalid;  // the raise for an unknown type, or update! failing its validations
    }
    db.events := db.events[n.notificationUuid := entry];
    db.subscriptions := db.subscriptions[n.transactionId := updated.value];
    outcome := Processed;
  }
}
