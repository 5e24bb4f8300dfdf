# Subscription lifecycle engine — a Dafny model

This project models the core of a movie-store backend that tracks in-app
subscriptions. A client app registers a purchase ahead of time. The store
keeps that purchase as a *pending* subscription. The payment platform
then sends webhook notifications (PURCHASE, RENEW, CANCEL). These move the
subscription through its states:

- **Subscription** (`Subscriptions`): the record; the statuses pending,
  active and cancelled; `viewable?` with its grace period; the
  transitions `activate!`, `renew!` and `cancel!`; the `for_user` and
  `active_or_grace` scopes.
- **Event ledger** (`SubscriptionEvents`): one entry per notification,
  keyed by notification_uuid, plus its validations, `processed?` and
  `for_transaction`.
- **Store** (`Store`): the two tables as maps keyed by their unique
  columns, in a class `Database`. `Consistent` is the invariant: each key
  equals its record's own unique column, every record passes its
  validations, and surrogate ids are distinct.
- **Webhook ingestion** (`WebhooksController`): `apple`. It checks the
  ledger for duplicates, looks up the subscription, then writes the ledger
  entry and applies the transition in one transaction.
- **Provisional intake and listing** (`SubscriptionsController`):
  `create` (create-or-fetch by transaction_id), `show` and `serialize`.

Each request is a module-level method that takes the `Database` as its
argument: `Apple`, `Create` or `Show`. For the two requests that write,
the method's postcondition says its new
state and outcome equal a pure function of the old state
(`Receive`, `Provision`). The properties are lemmas about those functions.
`Show` changes nothing and is specified directly.

Modelling choices:
- The current time is always a parameter `now`. Timestamps are integers
  (Unix seconds).
- A missing string parameter is `""`. Nil and `""` take the same path
  everywhere in this code.
- Optional values are `Option`. A decimal amount is an integer count of
  hundredths; the model does no arithmetic on it.
- Concurrency is modelled by the `Rival` parameter. It says whether a
  concurrent request with the same unique key committed its row after
  this request's lookup. If it did, it also says when: before this
  request's uniqueness validation read the table, or between that read
  and the INSERT.
- `update!` saves only when an attribute changed. A save stamps
  updated_at; `Subscriptions.Save` models this.

The request specs promise two kinds of idempotence: "duplicate
notification_uuid is safely ignored"
(spec/requests/api/webhooks_spec.rb:7-8), and "if transaction_id already
exists, returns the existing record"
(movie-store/spec/requests/api/subscriptions_spec.rb:7-8). The code keeps
these promises for sequential requests. Under a race it does less, and the
model follows the code:
- **Webhook race.** The only rescue is for `RecordNotUnique`
  (app/controllers/api/webhooks_controller.rb:50), which the INSERT
  raises. Suppose a duplicate delivery commits before `create!` runs its
  uniqueness validation. The validation then raises `RecordInvalid`,
  which is not rescued. `WebhooksController.RaceOutcome` states both
  cases.
- **Provisioning race.** `create!` is not rescued
  (movie-store/app/controllers/api/subscriptions_controller.rb:12). The
  loser of a race raises `RecordInvalid` or `RecordNotUnique` and does
  not return the winner's record. The model returns `Invalid` or
  `Conflict` and writes nothing.
- **Null dates.** No validation constrains purchase_date or
  expires_date. A PURCHASE without dates activates with a nil period
  (`Scenarios.PurchaseWithoutDates`).

## Model

| member | source | states |
|---|---|---|
| `Presence.PresenceIgnoresPadding` | movie-store/app/models/subscription.rb:11-13 | white space around a value does not change whether it passes a presence validation; a value made only of white space never does |
| `Rows.Where` | movie-store/app/models/subscription.rb:16-20 | a `where` scope yields each row its condition accepts, as often as the scan yields it, and no other row |
| `Rows.SortByDesc` | movie-store/app/controllers/api/subscriptions_controller.rb:25 | `order(... desc)` yields a permutation of its input whose keys do not increase |
| `Subscriptions.IsValidRecord` | movie-store/app/models/subscription.rb:11-14 | definition: user_id, transaction_id and product_id are present (not blank) and status is one of pending, active, cancelled; uniqueness of transaction_id is `Store.Consistent`'s |
| `Subscriptions.IsActive` | movie-store/app/models/subscription.rb:26-28 | definition: `active?` is status == "active" |
| `Subscriptions.IsPending` | movie-store/app/models/subscription.rb:30-32 | definition: `pending?` is status == "pending" |
| `Subscriptions.IsCancelled` | movie-store/app/models/subscription.rb:34-36 | definition: `cancelled?` is status == "cancelled" |
| `Subscriptions.Viewable` | movie-store/app/models/subscription.rb:22-24 | definition: `viewable?` at now is active, or cancelled with a present expires_date strictly later than now |
| `Subscriptions.ExactlyOneStatus` | movie-store/app/models/subscription.rb:26-36 | for a status the validation allows, exactly one of `active?`, `pending?`, `cancelled?` holds |
| `Subscriptions.ViewableByStatus` | movie-store/app/models/subscription.rb:22-36 | pending is never viewable; active is always viewable, whatever expires_date is; cancelled is viewable iff expires_date is present and later than now; any other status is never viewable |
| `Subscriptions.ViewableOnlyLapses` | movie-store/app/models/subscription.rb:22-24 | viewable at a later time implies viewable at every earlier time |
| `Subscriptions.Save` | movie-store/app/models/subscription.rb:39-45 | definition: `update!` with the new attribute values; if none differs the record is returned as it was, otherwise the new values are kept and updated_at becomes now |
| `Subscriptions.Activate` | movie-store/app/models/subscription.rb:38-46 | status becomes active; purchase_date, expires_date, amount and currency become the given values, nil included; id, user, transaction, product and created_at are kept; updated_at is stamped iff something changed; validity is preserved |
| `Subscriptions.Renew` | movie-store/app/models/subscription.rb:48-56 | `renew!` has exactly the effect of `activate!` with the same arguments, from every status |
| `Subscriptions.Cancel` | movie-store/app/models/subscription.rb:58-60 | status becomes cancelled; the period, charge and identity fields are kept; updated_at is stamped iff the status changed; cancelling a cancelled subscription changes nothing; validity is preserved |
| `Subscriptions.ActivateIdempotent` | movie-store/app/models/subscription.rb:38-46 | activating again with the same values changes nothing, not even updated_at |
| `Subscriptions.CancelKeepsGrace` | movie-store/app/models/subscription.rb:58-60 | a subscription of any status, once cancelled, is viewable at time t iff its expires_date is present and t is before it |
| `Subscriptions.ActiveOrGraceIsViewable` | movie-store/app/models/subscription.rb:17-24 | for every status the validation allows, the `active_or_grace` condition under SQL three-valued logic is true exactly when `viewable?` holds, NULL expires_date included |
| `Subscriptions.ActiveOrGrace` | movie-store/app/models/subscription.rb:17-20 | over rows whose statuses the validation allows, the scope selects exactly the rows that are viewable at the same now, each as often as scanned |
| `Subscriptions.ForUser` | movie-store/app/models/subscription.rb:16 | `for_user(u)` selects exactly the rows whose user_id is u |
| `SubscriptionEvents.IsValid` | movie-store/app/models/subscription_event.rb:10-12 | definition: a ledger entry is valid against the uuids already taken when its notification_uuid is present and not taken, its transaction_id is present and its event_type is present and one of EVENT_TYPES |
| `SubscriptionEvents.IsProcessed` | movie-store/app/models/subscription_event.rb:16-18 | definition: `processed?` is processed_at being present |
| `SubscriptionEvents.ValidTypes` | movie-store/app/models/subscription_event.rb:6-12 | a valid entry's event_type is PURCHASE, RENEW or CANCEL; with a present, unused uuid and a present transaction_id, each of the three is valid |
| `SubscriptionEvents.ForTransaction` | movie-store/app/models/subscription_event.rb:14 | `for_transaction(t)` selects exactly the entries whose transaction_id is t |
| `Store.Consistent` | movie-store/db/schema.rb:27-43 | definition: the store invariant; each ledger key is its entry's notification_uuid and each subscription key its transaction_id (the two unique indexes), every record passes its model's validations, and surrogate ids are distinct and below the next id |
| `WebhooksController.LedgerEntry` | app/controllers/api/webhooks_controller.rb:14-24 | definition: the row `create!` builds, copying uuid, transaction_id, type, product_id, amount, currency and both dates from the notification, with processed_at = now |
| `WebhooksController.Receive` | app/controllers/api/webhooks_controller.rb:4-52 | definition: one `apple` request; uuid in the ledger gives already processed; unknown transaction_id gives not found; an entry failing validation (rival rows included) gives a validation error; a rival caught at the INSERT gives already processed; an unknown type or an `update!` failing validation gives a validation error; otherwise the entry and the transition commit together and the result is processed |
| `WebhooksController.Transition` | app/controllers/api/webhooks_controller.rb:26-45 | the `case` yields a new record iff the type is one of EVENT_TYPES; that record keeps the identity fields and stays valid |
| `WebhooksController.RedeliveryIsAlreadyProcessed` | app/controllers/api/webhooks_controller.rb:5-9 | if the ledger holds the uuid, the result is already processed and neither table changes |
| `WebhooksController.UnknownTransactionIsNotFound` | app/controllers/api/webhooks_controller.rb:11 | a new uuid for an unknown transaction_id is not found, and neither table changes |
| `WebhooksController.OnlyProcessedCommits` | app/controllers/api/webhooks_controller.rb:13-46 | all or nothing: every outcome other than processed leaves both tables unchanged |
| `WebhooksController.ValidationCatchesUnknownType` | app/controllers/api/webhooks_controller.rb:43-45 | if the ledger entry passes validation, the `case` never reaches its `raise` |
| `WebhooksController.UnknownTypeCommitsNothing` | app/controllers/api/webhooks_controller.rb:13-45 | an unknown type commits nothing; past the two lookups it is a validation error |
| `WebhooksController.RaceOutcome` | app/controllers/api/webhooks_controller.rb:13-51 | a rival delivery's commit leaves this call's tables unchanged; caught at the INSERT it is already processed, caught by the validation it is a validation error |
| `WebhooksController.ProcessedIff` | app/controllers/api/webhooks_controller.rb:5-48 | on a consistent store, processed holds iff the uuid is new and present, the subscription exists, the type is known and no rival interfered |
| `WebhooksController.ProcessedEffect` | app/controllers/api/webhooks_controller.rb:14-42 | after processing, the ledger gains exactly one entry, under the uuid, with the notification's fields and processed_at = now; only the target changes, by activate!/renew!/cancel! according to the type; the set of subscriptions and the next id stay the same |
| `WebhooksController.LedgerAppendOnly` | app/controllers/api/webhooks_controller.rb:13-46 | no ledger entry changes or disappears; no subscription disappears or changes its identity fields |
| `WebhooksController.CommitPreservesConsistency` | app/controllers/api/webhooks_controller.rb:13-46 | committing a valid entry under its own uuid together with a valid same-identity record keeps both unique indexes and all validations |
| `WebhooksController.ReceivePreservesConsistency` | app/controllers/api/webhooks_controller.rb:4-52 | every webhook request keeps the store invariant |
| `WebhooksController.Step` | app/controllers/api/webhooks_controller.rb:5-51 | one delivery attempt with its rival: the outcome is that of `apple`; the notification is applied, by the attempt or by its rival, iff an unraced delivery would be processed; then the store is that delivery's result and holds the uuid, otherwise it is unchanged |
| `WebhooksController.ReceiveTwice` | app/controllers/api/webhooks_controller.rb:5-9 | delivering the same notification twice equals delivering it once: once the first attempt or its rival applied it, the second is already processed and changes nothing; otherwise the first changed nothing |
| `WebhooksController.DeliveriesAfterProcessing` | app/controllers/api/webhooks_controller.rb:5-9 | once the ledger holds the uuid, any number of further deliveries, raced or not, are all already processed, apply nothing and change nothing |
| `WebhooksController.AppliedAtMostOnce` | app/controllers/api/webhooks_controller.rb:5-51 | over any sequence of deliveries of one notification, rivals' commits included, it is applied at most once; a processed delivery is that application; every later delivery is already processed; the final store is the initial store with the notification applied once, or unchanged if it never was |
| `WebhooksController.Apple` | app/controllers/api/webhooks_controller.rb:4-52 | the request keeps the store invariant, and its new tables and outcome are those of `Receive` |
| `SubscriptionsController.Serialize` | movie-store/app/controllers/api/subscriptions_controller.rb:39-51 | definition: the rendered fields of a record: id, user_id, transaction_id, product_id, status, `viewable?` at now, both dates (nullable), created_at and updated_at |
| `SubscriptionsController.SerializeFields` | movie-store/app/controllers/api/subscriptions_controller.rb:39-51 | the rendered viewable equals `viewable?` at the same now; an absent purchase_date or expires_date renders as null |
| `SubscriptionsController.SerializeLosesOnlyCharge` | movie-store/app/controllers/api/subscriptions_controller.rb:39-51 | two records render alike iff they differ at most in amount and currency |
| `SubscriptionsController.NewSubscription` | movie-store/app/controllers/api/subscriptions_controller.rb:12-17 | definition: the record `create!` builds: the next id, the three given ids, status pending, no dates, no charge, created_at = updated_at = now |
| `SubscriptionsController.Provision` | movie-store/app/controllers/api/subscriptions_controller.rb:4-20 | definition: one `create` request; an existing transaction_id returns the stored record; otherwise a record failing validation, or a rival caught by the validation, gives a validation error; a rival caught at the INSERT gives a conflict; otherwise the pending record is added under its transaction_id and the next id advances |
| `SubscriptionsController.ExistingIsReturned` | movie-store/app/controllers/api/subscriptions_controller.rb:5-10 | an existing transaction_id returns that record unchanged as existed, whatever user_id and product_id are passed, and nothing changes |
| `SubscriptionsController.NewIsCreated` | movie-store/app/controllers/api/subscriptions_controller.rb:12-19 | a new transaction_id with present parameters adds exactly one subscription: the given ids, pending, nil dates and charge, the next id; the ledger is untouched |
| `SubscriptionsController.PresentIsValidPending` | movie-store/app/controllers/api/subscriptions_controller.rb:12-17 | a pending record built from three present parameters passes the model's validations |
| `SubscriptionsController.CreatedIff` | movie-store/app/controllers/api/subscriptions_controller.rb:5-19 | a subscription is created iff the transaction_id is new, all three parameters are present and no rival interfered |
| `SubscriptionsController.ProvisionFrame` | movie-store/app/controllers/api/subscriptions_controller.rb:5-19 | after created or existed, the table holds the returned record under that transaction_id; no other subscription and no ledger entry changes; a failed call changes nothing |
| `SubscriptionsController.ProvisionTwice` | movie-store/app/controllers/api/subscriptions_controller.rb:5-10 | a second create with the same transaction_id, whatever its other arguments, returns the first call's record as existed and leaves the store as the first call left it |
| `SubscriptionsController.FreshIsNotViewable` | movie-store/app/controllers/api/subscriptions_controller.rb:12-19 | a freshly created subscription renders as pending, not viewable, with null dates, at every time |
| `SubscriptionsController.ProvisionPreservesConsistency` | movie-store/app/controllers/api/subscriptions_controller.rb:5-19 | every create keeps the store invariant, uniqueness of transaction_id and of ids included |
| `SubscriptionsController.Create` | movie-store/app/controllers/api/subscriptions_controller.rb:4-20 | the request keeps the store invariant, and its new tables and outcome are those of `Provision` |
| `SubscriptionsController.KeysOfCounts` | movie-store/db/schema.rb:43 | in rows drawn from a table keyed by transaction_id, each key occurs exactly as often as its record |
| `SubscriptionsController.Scan` | movie-store/app/controllers/api/subscriptions_controller.rb:24 | the table scan yields every stored subscription exactly once, in some order |
| `SubscriptionsController.RenderUserRows` | movie-store/app/controllers/api/subscriptions_controller.rb:24-30 | rendering one user's rows, sorted newest first, yields each of that user's subscriptions exactly once, serialized from the stored record, newest first |
| `SubscriptionsController.Show` | movie-store/app/controllers/api/subscriptions_controller.rb:23-31 | the response names the user; each entry is the current rendering of one stored subscription of that user; each of that user's subscriptions appears exactly once; entries are ordered by created_at, newest first |
| `Scenarios.ProvisionScenario` | movie-store/spec/requests/api/subscriptions_spec.rb:28-65 | provisioning creates a pending, non-viewable subscription; provisioning the same transaction again returns it unchanged |
| `Scenarios.WebhookScenario` | spec/requests/api/webhooks_spec.rb:33-161 | PURCHASE activates; the same notification again is already processed; CANCEL leaves it viewable one second before expires_date but not at or after it; an unknown transaction is not found |
| `Scenarios.PurchaseWithoutDates` | app/controllers/api/webhooks_controller.rb:26-33 | a PURCHASE carrying no dates is processed and leaves an active subscription with nil dates |
| `Scenarios.RacedRedelivery` | app/controllers/api/webhooks_controller.rb:5-51 | a PURCHASE raced by a rival at the INSERT is already processed, the rival's rows stay, and a later unraced redelivery is already processed too: the subscription is activated once |

## Left out

- HTTP: routing, JSON rendering, status codes, `params.require/permit`
  and `BaseController`. BaseController is not part of this model; the
  model assumes it turns `RecordNotFound` into the 404 that the request
  specs expect. Outcomes are datatypes instead.
- ISO-8601 formatting and the parsing of date and amount strings.
  Timestamps are integers. An unparsable date is the same as an absent one.
- Decimal arithmetic: amount is an opaque count of hundredths.
- The ledger table's surrogate id and its created_at/updated_at columns, and
  the `has_many`/`belongs_to` associations. No query uses them here.
- Key comparison. Both tables use the collation `utf8mb4_0900_ai_ci`
  (movie-store/db/schema.rb:14,31), which ignores case and accents. So
  the database treats "txn_new" and "TXN_NEW" as one key: in the lookups
  by notification_uuid and transaction_id, the `for_user` and
  `for_transaction` scopes, the unique indexes and the uniqueness
  validations, and also in `where(status: ...)` inside `active_or_grace`.
  The model compares notification_uuid, transaction_id, user_id and
  status exactly, as strings. A case or accent variant of a stored key is
  therefore a new key in the model: `create` adds a second row,
  `apple` processes the notification again, and `show` lists nothing,
  where the code would find the stored row.
- Real concurrency. The `Rival` parameter stands for it. A single call's
  result (`Receive`, `Provision`, `Apple`, `Create`) leaves out the
  rival's own rows, which its own call commits. The delivery sequences
  of `WebhooksController.Step` and `DeliverAll` carry the rival's commit
  forward. The rival is taken to be a delivery of the same notification
  at the same `now`. The model does not cover two distinct notifications
  for one subscription racing each other (last write wins).
- Column limits. Every string column is `varchar(255)`, amount is
  `decimal(10,2)`, and the dates are `DATETIME`, so years 1000 to 9999
  (movie-store/db/schema.rb:14-46). Under MySQL's strict mode, a value
  outside these limits makes the INSERT or UPDATE raise (`ValueTooLong`,
  `RangeError`). That error is not the rescued `RecordNotUnique`, so
  the request fails and its transaction commits nothing. The model puts
  no length or range bound on any value and commits such values.
- WebhooksController.ProcessedIff: holds only for notifications whose
  values fit the columns; an over-long uuid, say, is processed in the
  model but fails in the database.
- SubscriptionsController.CreatedIff: holds only for parameters that fit
  `varchar(255)`; a 256-character transaction_id is created in the model
  but fails in the database.
- Store failures that do not depend on the input (lost connections,
  deadlocks).
- `Time.current` is read at several moments during one request. In
  `apple` it is read for processed_at and for updated_at. In `show` it is
  read once per rendered record, through `viewable?`. The model uses one
  `now` per request for all of these.
- SubscriptionsController.Provision: does not advance the next surrogate id
  when an INSERT fails on a duplicate key, although MySQL may consume an
  auto-increment value then. The model keeps ids unique but not gap-exact.
- Subscriptions.ActiveOrGraceIsViewable: requires a status that the
  validation allows. For a stored case variant such as "ACTIVE", the
  database's case-insensitive scope would select the row while
  `viewable?` is false.
- Subscriptions.Activate: models the parameters the webhook controller
  always passes. The Ruby default `nil` for an omitted keyword is the
  caller passing `None`.
