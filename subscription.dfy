/**
  The Subscription record and its state machine: three statuses, the
  status predicates, the time-dependent `viewable?` test with its grace
  period, the three transitions `activate!`, `renew!` and `cancel!`, and
  the `for_user` and `active_or_grace` scopes.
 */
module Subscriptions {
  import opened Wrappers
  import opened Presence
  import Rows

  /** A point in time, in seconds; the current time is always passed in. */
  type Timestamp = int

  /** A decimal(10,2) charge, in hundredths; the model does no arithmetic on it. */
  type Amount = int

  const PENDING: string := "pending"
  const ACTIVE: string := "active"
  const CANCELLED: string := "cancelled"

  const STATUSES: seq<string> := [PENDING, ACTIVE, CANCELLED]

  datatype Subscription = Subscription(
    id: nat,
    userId: string,
    transactionId: string,
    productId: string,
    status: string,
    purchaseDate: Option<Timestamp>,
    expiresDate: Option<Timestamp>,
    amount: Option<Amount>,
    currency: Option<string>,
    createdAt: Timestamp,
    updatedAt: Timestamp)

  /**
    The record's validations: user_id, transaction_id and product_id are
    present and status is one of STATUSES. Uniqueness of transaction_id is
    a property of the table, not of one record (see Store.Consistent).
   */
  predicate IsValidRecord(s: Subscription)
  {
    && IsPresent(s.userId)
    && IsPresent(s.transactionId)
    && IsPresent(s.productId)
    && s.status in STATUSES
  }

  predicate IsActive(s: Subscription)
  {
    s.status == ACTIVE
  }

  predicate IsPending(s: Subscription)
  {
    s.status == PENDING
  }

  predicate IsCancelled(s: Subscription)
  {
    s.status == CANCELLED
  }

  /** `viewable?`: active, or cancelled with an expiry date still in the future. */
  predicate Viewable(s: Subscription, now: Timestamp)
  {
    IsActive(s) || (IsCancelled(s) && s.expiresDate.Some? && s.expiresDate.value > now)
  }

  /** A status allowed by the validation makes exactly one of the three status predicates true. */
  lemma ExactlyOneStatus(s: Subscription)
    requires s.status in STATUSES
    ensures (if IsActive(s) then 1 else 0) + (if IsPending(s) then 1 else 0) + (if IsCancelled(s) then 1 else 0) == 1
  {
  }

  /** What `viewable?` means for each status. */
  lemma ViewableByStatus(s: Subscription, now: Timestamp)
    ensures IsPending(s) ==> !Viewable(s, now)
    ensures IsActive(s) ==> Viewable(s, now)
    ensures IsCancelled(s) ==> (Viewable(s, now) <==> s.expiresDate.Some? && now < s.expiresDate.value)
    ensures s.status !in STATUSES ==> !Viewable(s, now)
  {
  }

  /** Access never comes back by waiting: viewable at a later time implies viewable at every earlier one. */
  lemma ViewableOnlyLapses(s: Subscription, earlier: Timestamp, later: Timestamp)
    requires earlier <= later && Viewable(s, later)
    ensures Viewable(s, earlier)
  {
  }

  /** The fields a transition never touches. */
  predicate SameIdentity(before: Subscription, after: Subscription)
  {
    && after.id == before.id
    && after.userId == before.userId
    && after.transactionId == before.transactionId
    && after.productId == before.productId
    && after.createdAt == before.createdAt
  }

  /** updated_at is stamped with `now` exactly when some other attribute changed. */
  predicate StampedIffChanged(before: Subscription, after: Subscription, now: Timestamp)
  {
    after.updatedAt == if after.(updatedAt := before.updatedAt) == before then before.updatedAt else now
  }

  /**
    `update!` with the new attribute values in `after`: a save happens, and
    stamps updated_at, only when some attribute differs from `before`.
   */
  function Save(before: Subscription, after: Subscription, now: Timestamp): Subscription
  {
    if after == before then before else after.(updatedAt := now)
  }

  /** `activate!`: becomes active with the given period and charge; an omitted charge becomes nil. */
  function Activate(s: Subscription, purchaseDate: Option<Timestamp>, expiresDate: Option<Timestamp>,
                    amount: Option<Amount>, currency: Option<string>, now: Timestamp): (r: Subscription)
    ensures IsActive(r)
    ensures r.purchaseDate == purchaseDate && r.expiresDate == expiresDate
    ensures r.amount == amount && r.currency == currency
    ensures SameIdentity(s, r) && StampedIffChanged(s, r, now)
    ensures IsValidRecord(s) ==> IsValidRecord(r)
  {
    Save(s, s.(status := ACTIVE, purchaseDate := purchaseDate, expiresDate := expiresDate,
               amount := amount, currency := currency), now)
  }

  /** `renew!`: the same effect as `activate!`, from every status, cancelled included. */
  function Renew(s: Subscription, purchaseDate: Option<Timestamp>, expiresDate: Option<Timestamp>,
                 amount: Option<Amount>, currency: Option<string>, now: Timestamp): (r: Subscription)
    ensures r == Activate(s, purchaseDate, expiresDate, amount, currency, now)
  {
    Save(s, s.(status := ACTIVE, purchaseDate := purchaseDate, expiresDate := expiresDate,
               amount := amount, currency := currency), now)
  }

  /** `cancel!`: becomes cancelled; the period and charge stay as they were, so the grace period runs to expires_date. */
  function Cancel(s: Subscription, now: Timestamp): (r: Subscription)
    ensures IsCancelled(r)
    ensures r.purchaseDate == s.purchaseDate && r.expiresDate == s.expiresDate
    ensures r.amount == s.amount && r.currency == s.currency
    ensures SameIdentity(s, r) && StampedIffChanged(s, r, now)
    ensures IsCancelled(s) ==> r == s
    ensures IsValidRecord(s) ==> IsValidRecord(r)
  {
    Save(s, s.(status := CANCELLED), now)
  }

  /** Activating twice with the same values is activating once. */
  lemma ActivateIdempotent(s: Subscription, purchaseDate: Option<Timestamp>, expiresDate: Option<Timestamp>,
                           amount: Option<Amount>, currency: Option<string>, now: Timestamp, later: Timestamp)
    ensures var once := Activate(s, purchaseDate, expiresDate, amount, currency, now);
            Activate(once, purchaseDate, expiresDate, amount, currency, later) == once
  {
  }

  /** A cancelled subscription, whatever its status before, stays viewable exactly until its expires_date passes. */
  lemma CancelKeepsGrace(s: Subscription, now: Timestamp, t: Timestamp)
    ensures Viewable(Cancel(s, now), t) <==> s.expiresDate.Some? && t < s.expiresDate.value
  {
  }

  // SQL's three-valued logic, for the `active_or_grace` scope.
  datatype SqlBool = SqlTrue | SqlFalse | SqlUnknown

  function SqlOr(a: SqlBool, b: SqlBool): SqlBool
  {
    if a == SqlTrue || b == SqlTrue then SqlTrue
    else if a == SqlUnknown || b == SqlUnknown then SqlUnknown
    else SqlFalse
  }

  function SqlAnd(a: SqlBool, b: SqlBool): SqlBool
  {
    if a == SqlFalse || b == SqlFalse then SqlFalse
    else if a == SqlUnknown || b == SqlUnknown then SqlUnknown
    else SqlTrue
  }

  function SqlBoolOf(b: bool): SqlBool
  {
    if b then SqlTrue else SqlFalse
  }

  /** `expires_date > ?`: comparing a NULL column gives unknown. */
  function SqlGreater(column: Option<Timestamp>, bound: Timestamp): SqlBool
  {
    match column
    case None => SqlUnknown
    case Some(v) => SqlBoolOf(v > bound)
  }

  /** The condition of `active_or_grace` as the database evaluates it (status is NOT NULL). */
  function ActiveOrGraceCondition(s: Subscription, now: Timestamp): SqlBool
  {
    SqlOr(SqlBoolOf(s.status == ACTIVE),
          SqlAnd(SqlBoolOf(s.status == CANCELLED), SqlGreater(s.expiresDate, now)))
  }

  /**
    The scope and the Ruby predicate agree on every record whose status the
    validation allows, a NULL expires_date included. (Under the column's
    case-insensitive collation a stored "ACTIVE" would match the scope but
    not `active?`; validated rows never hold one.)
   */
  lemma ActiveOrGraceIsViewable(s: Subscription, now: Timestamp)
    requires s.status in STATUSES
    ensures ActiveOrGraceCondition(s, now) == SqlTrue <==> Viewable(s, now)
  {
  }

  /** `active_or_grace`: the rows for which `viewable?` holds at the same time, each as often as scanned. */
  function ActiveOrGrace(rows: seq<Subscription>, now: Timestamp): (r: seq<Subscription>)
    requires forall s :: s in rows ==> s.status in STATUSES
    ensures forall s :: multiset(r)[s] == if Viewable(s, now) then multiset(rows)[s] else 0
  {
    var cond := (s: Subscription) => ActiveOrGraceCondition(s, now) == SqlTrue;
    forall s | s in rows
      ensures cond(s) == Viewable(s, now)
    {
      ActiveOrGraceIsViewable(s, now);
    }
    Rows.Where(rows, cond)
  }

  /** The condition of `for_user`. */
  predicate BelongsTo(s: Subscription, userId: string)
  {
    s.userId == userId
  }

  /** `for_user(u)`: exactly the rows whose user_id is `u`. */
  function ForUser(rows: seq<Subscription>, userId: string): (r: seq<Subscription>)
    ensures forall s :: multiset(r)[s] == if s.userId == userId then multiset(rows)[s] else 0
  {
    Rows.Where(rows, (s: Subscription) => BelongsTo(s, userId))
  }
}
