/**
  Provisional intake and listing: `create` is an idempotent create-or-fetch
  keyed by transaction_id, `show` lists one user's subscriptions newest
  first, and `serialize` is the projection both render.
 */
module SubscriptionsController {
  import opened Wrappers
  import opened Presence
  import opened Subscriptions
  import opened Store
  import Rows

  /** The projection `serialize` renders; None is a JSON null. */
  datatype SerializedSubscription = SerializedSubscription(
    id: nat,
    userId: string,
    transactionId: string,
    productId: string,
    status: string,
    viewable: bool,
    purchaseDate: Option<Timestamp>,
    expiresDate: Option<Timestamp>,
    createdAt: Timestamp,
    updatedAt: Timestamp)

  function Serialize(s: Subscription, now: Timestamp): SerializedSubscription
  {
    SerializedSubscription(s.id, s.userId, s.transactionId, s.productId, s.status, Viewable(s, now),
                           s.purchaseDate, s.expiresDate, s.createdAt, s.updatedAt)
  }

  /** The rendered `viewable` is `viewable?` at the same time, and absent dates render as null. */
  lemma SerializeFields(s: Subscription, now: Timestamp)
    ensures Serialize(s, now).viewable == Viewable(s, now)
    ensures Serialize(s, now).purchaseDate.None? <==> s.purchaseDate.None?
    ensures Serialize(s, now).expiresDate.None? <==> s.expiresDate.None?
  {
  }

  /** The projection loses exactly amount and currency: two records render alike iff they differ in nothing else. */
  lemma SerializeLosesOnlyCharge(a: Subscription, b: Subscription, now: Timestamp)
    ensures Serialize(a, now) == Serialize(b, now) <==> a.(amount := b.amount, currency := b.currency) == b
  {
  }

  /** `create`'s outcomes: 201, 200, or an exception with nothing written (failed validation, or a duplicate key at the INSERT). */
  datatype ProvisionOutcome =
    | Created(subscription: Subscription)
    | Existed(subscription: Subscription)
    | Invalid
    | Conflict

  /** The row `create!` builds: pending, no period, no charge, both timestamps now. */
  function NewSubscription(id: nat, userId: string, transactionId: string, productId: string, now: Timestamp): Subscription
  {
    Subscription(id, userId, transactionId, productId, PENDING, None, None, None, None, now, now)
  }

  /** The effect of one `create` request on the tables, and its outcome. */
  function Provision(t: Tables, userId: string, transactionId: string, productId: string,
                     now: Timestamp, rival: Rival): (Tables, ProvisionOutcome)
  {
    if transactionId in t.subscriptions then (t, Existed(t.subscriptions[transactionId]))
    else
      var s := NewSubscription(t.nextId, userId, transactionId, productId, now);
      if !IsValidRecord(s) || rival == CommittedBeforeValidation then (t, Invalid)
      else if rival == CommittedBeforeInsert then (t, Conflict)
      else (Tables(t.subscriptions[transactionId := s], t.events, t.nextId + 1), Created(s))
  }

  /** An existing transaction is returned unchanged, whatever user and product the request names. */
  lemma ExistingIsReturned(t: Tables, userId: string, transactionId: string, productId: string,
                           now: Timestamp, rival: Rival)
    requires transactionId in t.subscriptions
    ensures Provision(t, userId, transactionId, productId, now, rival) == (t, Existed(t.subscriptions[transactionId]))
  {
  }

  /**
    A new transaction with all three parameters present and no rival adds
    exactly one subscription: the given ids, pending, nil period and charge,
    the next surrogate id; nothing else changes.
   */
  lemma NewIsCreated(t: Tables, userId: string, transactionId: string, productId: string, now: Timestamp)
    requires transactionId !in t.subscriptions
    requires IsPresent(userId) && IsPresent(transactionId) && IsPresent(productId)
    ensures var (t', o) := Provision(t, userId, transactionId, productId, now, NoRival);
      && o.Created?
      && o.subscription.userId == userId && o.subscription.transactionId == transactionId
      && o.subscription.productId == productId && o.subscription.id == t.nextId
      && IsPending(o.subscription)
      && o.subscription.purchaseDate.None? && o.subscription.expiresDate.None?
      && o.subscription.amount.None? && o.subscription.currency.None?
      && t'.subscriptions == t.subscriptions[transactionId := o.subscription]
      && |t'.subscriptions| == |t.subscriptions| + 1
      && t'.events == t.events
  {
    PresentIsValidPending(userId, transactionId, productId, t.nextId, now);
  }

  lemma PresentIsValidPending(userId: string, transactionId: string, productId: string, id: nat, now: Timestamp)
    requires IsPresent(userId) && IsPresent(transactionId) && IsPresent(productId)
    ensures IsValidRecord(NewSubscription(id, userId, transactionId, productId, now))
  {
  }

  /** A subscription is created exactly when the transaction is new, all three parameters are present and no rival interfered. */
  lemma CreatedIff(t: Tables, userId: string, transactionId: string, productId: string, now: Timestamp, rival: Rival)
    ensures Provision(t, userId, transactionId, productId, now, rival).1.Created? <==>
              && transactionId !in t.subscriptions
              && IsPresent(userId) && IsPresent(transactionId) && IsPresent(productId)
              && rival == NoRival
  {
  }

  /**
    After a successful `create` exactly one subscription has the
    transaction_id (the table is keyed by it), and every other subscription
    and the whole ledger are untouched; a failed one changes nothing.
   */
  lemma ProvisionFrame(t: Tables, userId: string, transactionId: string, productId: string,
                       now: Timestamp, rival: Rival)
    ensures var (t', o) := Provision(t, userId, transactionId, productId, now, rival);
      && (o.Created? || o.Existed? ==> transactionId in t'.subscriptions && t'.subscriptions[transactionId] == o.subscription)
      && (!o.Created? ==> t' == t)
      && t'.events == t.events
      && (forall k :: k in t.subscriptions ==> k in t'.subscriptions && t'.subscriptions[k] == t.subscriptions[k])
      && t'.subscriptions.Keys <= t.subscriptions.Keys + {transactionId}
  {
  }

  /**
    Calling `create` twice with the same transaction_id: the second call,
    whatever user and product it names, returns the record the first one
    created or found, and the store is as after the first call.
   */
  lemma ProvisionTwice(t: Tables, transactionId: string,
                       userId1: string, productId1: string, now1: Timestamp, rival1: Rival,
                       userId2: string, productId2: string, now2: Timestamp, rival2: Rival)
    ensures var (t1, o1) := Provision(t, userId1, transactionId, productId1, now1, rival1);
      o1.Created? || o1.Existed? ==>
        Provision(t1, userId2, transactionId, productId2, now2, rival2) == (t1, Existed(o1.subscription))
  {
  }

  /** A freshly created subscription renders as pending and not viewable, with null dates, at every time. */
  lemma FreshIsNotViewable(t: Tables, userId: string, transactionId: string, productId: string,
                           now: Timestamp, rival: Rival, later: Timestamp)
    ensures var o := Provision(t, userId, transactionId, productId, now, rival).1;
      o.Created? ==>
        && Serialize(o.subscription, later).status == PENDING
        && !Serialize(o.subscription, later).viewable
        && Serialize(o.subscription, later).purchaseDate.None?
        && Serialize(o.subscription, later).expiresDate.None?
  {
  }

  /** The store invariant survives every `create`. */
  lemma ProvisionPreservesConsistency(t: Tables, userId: string, transactionId: string, productId: string,
                                      now: Timestamp, rival: Rival)
    requires Consistent(t)
    ensures Consistent(Provision(t, userId, transactionId, productId, now, rival).0)
  {
  }

  /** `create`: look the transaction up, return it if found, otherwise insert a pending subscription. */
  method Create(db: Database, userId: string, transactionId: string, productId: string,
                now: Timestamp, rival: Rival) returns (outcome: ProvisionOutcome)
    requires db.Valid()
    modifies db
    ensures db.Valid()
    ensures (db.Snapshot(), outcome) == Provision(old(db.Snapshot()), userId, transactionId, productId, now, rival)
  {
    ProvisionPreservesConsistency(db.Snapshot(), userId, transactionId, productId, now, rival);
    if transactionId in db.subscriptions {
      return Existed(db.subscriptions[transactionId]);
    }
    var subscription := NewSubscription(db.nextId, userId, transactionId, productId, now);
    if !IsValidRecord(subscription) || rival == CommittedBeforeValidation {
      return Invalid;  // create! raises RecordInvalid
    }
    if rival == CommittedBeforeInsert {
      return Conflict;  // the INSERT raises RecordNotUnique, which create does not rescue
    }
    db.subscriptions := db.subscriptions[transactionId := subscription];
    db.nextId := db.nextId + 1;
    outcome := Created(subscription);
  }

  /** `show`'s body: the user id and the rendered subscriptions. */
  datatype ShowResponse = ShowResponse(userId: string, subscriptions: seq<SerializedSubscription>)

  function TransactionIds(rs: seq<SerializedSubscription>): seq<string>
  {
    seq(|rs|, i requires 0 <= i < |rs| => rs[i].transactionId)
  }

  function KeysOf(rows: seq<Subscription>): seq<string>
  {
    seq(|rows|, i requires 0 <= i < |rows| => rows[i].transactionId)
  }

  /** For rows drawn from a table keyed by transaction_id, a key occurs as often as its record does. */
  lemma {:induction false} KeysOfCounts(rows: seq<Subscription>, table: map<string, Subscription>)
    requires forall t :: t in table ==> table[t].transactionId == t
    requires forall i :: 0 <= i < |rows| ==> rows[i].transactionId in table && table[rows[i].transactionId] == rows[i]
    ensures forall t :: multiset(KeysOf(rows))[t] == if t in table then multiset(rows)[table[t]] else 0
  {
    if rows != [] {
      KeysOfCounts(rows[1..], table);
      assert KeysOf(rows) == [rows[0].transactionId] + KeysOf(rows[1..]);
      assert rows == [rows[0]] + rows[1..];
    }
  }

  /** The table scan: every row exactly once, in an order the database chooses. */
  method Scan(table: map<string, Subscription>) returns (rows: seq<Subscription>)
    requires forall t :: t in table ==> table[t].transactionId == t
    ensures forall s :: multiset(rows)[s] ==
              if s.transactionId in table && table[s.transactionId] == s then 1 else 0
  {
    var pending := table.Keys;
    rows := [];
    while pending != {}
      invariant pending <= table.Keys
      invariant forall s :: multiset(rows)[s] ==
                  if s.transactionId in table && s.transactionId !in pending && table[s.transactionId] == s then 1 else 0
      decreases |pending|
    {
      var k :| k in pending;
      rows := rows + [table[k]];
      pending := pending - {k};
    }
  }

  function Render(userId: string, rows: seq<Subscription>, now: Timestamp): ShowResponse
  {
    ShowResponse(userId, seq(|rows|, i requires 0 <= i < |rows| => Serialize(rows[i], now)))
  }

  /** Rendering the user's rows, sorted newest first, gives each of the user's subscriptions once, newest first. */
  lemma RenderUserRows(table: map<string, Subscription>, userId: string, ordered: seq<Subscription>, now: Timestamp)
    requires forall t :: t in table ==> table[t].transactionId == t
    requires forall s :: multiset(ordered)[s] ==
               if s.userId == userId && s.transactionId in table && table[s.transactionId] == s then 1 else 0
    requires Rows.SortedByDesc(ordered, (s: Subscription) => s.createdAt)
    ensures var rs := Render(userId, ordered, now).subscriptions;
      && (forall i :: 0 <= i < |rs| ==>
            var t := rs[i].transactionId;
            t in table && table[t].userId == userId && rs[i] == Serialize(table[t], now))
      && (forall t :: multiset(TransactionIds(rs))[t] == if t in table && table[t].userId == userId then 1 else 0)
      && (forall i, j :: 0 <= i < j < |rs| ==> rs[i].createdAt >= rs[j].createdAt)
  {
    var rs := Render(userId, ordered, now).subscriptions;
    forall i | 0 <= i < |ordered|
      ensures ordered[i].transactionId in table && table[ordered[i].transactionId] == ordered[i]
      ensures ordered[i].userId == userId
    {
      assert ordered[i] in multiset(ordered);
    }
    assert TransactionIds(rs) == KeysOf(ordered);
    KeysOfCounts(ordered, table);
    forall i, j | 0 <= i < j < |rs|
      ensures rs[i].createdAt >= rs[j].createdAt
    {
      assert rs[i].createdAt == ordered[i].createdAt && rs[j].createdAt == ordered[j].createdAt;
    }
  }

  /**
    `show`: every stored subscription of the user, each exactly once, each
    rendered as it is stored and as viewable at `now`, newest first.
   */
  method Show(db: Database, userId: string, now: Timestamp) returns (resp: ShowResponse)
    requires db.Valid()
    ensures resp.userId == userId
    ensures forall i :: 0 <= i < |resp.subscriptions| ==>
              var t := resp.subscriptions[i].transactionId;
              && t in db.subscriptions
              && db.subscriptions[t].userId == userId
              && resp.subscriptions[i] == Serialize(db.subscriptions[t], now)
    ensures forall t :: multiset(TransactionIds(resp.subscriptions))[t] ==
              if t in db.subscriptions && db.subscriptions[t].userId == userId then 1 else 0
    ensures forall i, j :: 0 <= i < j < |resp.subscriptions| ==>
              resp.subscriptions[i].createdAt >= resp.subscriptions[j].createdAt
  {
    var table := db.subscriptions;
    var scanned := Scan(table);
    var mine := ForUser(scanned, userId);
    var ordered := Rows.SortByDesc(mine, (s: Subscription) => s.createdAt);
    RenderUserRows(table, userId, ordered, now);
    resp := Render(userId, ordered, now);
  }
}
