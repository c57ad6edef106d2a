# Subscription bookkeeping of the Stripe Node.js sample, in Dafny

This project models the bookkeeping layer of a small Express application that
sells subscriptions through Stripe. The application keeps two JSON files. The
first is a user table, whose rows are `{email, customer_id, active_sub,
sub_status, cancel_at}`. The second is a log of processed payment events. Every
operation that changes a file reads it whole, changes it in memory and writes
it back. A
webhook endpoint reconciles the table with the subscription events Stripe
sends. The `/checkout` and `/cancel` routes decide what to ask Stripe for.

The model has these parts:

- `records.dfy` (`Records`): the user record. It has two optional types: `Option`
  stands for a JSON `null`, and `Arg` stands for an argument a caller may leave
  `undefined`. `Persist` is what a file holds after a write-back.
- `user_table.dfy` (`UserTable`): each table operation as a function on values.
  It also holds the properties of those functions: first match wins,
  read-back, idempotence, and uniqueness of emails.
- `event_log.dfy` (`EventLog`): the processed-event log as a value.
- `db_simulator.dfy` (`DbSimulator`): the simulated database. It is a class
  `Database` with the two files as fields (`users`, `logs`; `None` is a file
  that could not be read). The scanning methods are loops proved equal to the
  functions above; `change_sub_status` is specified directly.
- `plans.dfy` (`Plans`): the `SUBSCRIPTIONS` allow-list and the price lookup
  `SUBSCRIPTIONS[sub_type - 1]`.
- `webhooks.dfy` (`Webhooks`): the webhook dispatch. `ApplyEvent` is its
  specification on values, `HandleWebhook` runs it against a `Database`, and
  lemmas state what each event kind does.
- `routes.dfy` (`Routes`): the decisions of `/checkout` and `/cancel`.

Calls to Stripe and the file system become inputs. `created` is the customer id
that customer creation returns (`None` when the call throws). `listed` is the
first subscription the listing returns. It is `None` when the listing call
throws or returns no subscription; either way the handler ends in its catch
block and answers 400. A plan change makes two calls. `item` is the first item
id of the subscription the retrieve call returns (`None` when that call throws
or the subscription has no item), and `updateOk` says whether the update call
that follows succeeds.
`writeOk`, `w1` and `w2` say whether a write-back succeeds. A failed write
leaves the file as it was.

Some behaviour of the code is easy to miss:

- The log records `event.data.object.id`. For a payment event this is the
  payment intent's id, not the id of the event.
- A payment event whose plan is not allow-listed returns without sending any
  HTTP response (`NoResponse`). The event has already been logged at that point.
- Only email uniqueness is checked at registration. `RegistrationKeepsEmailsUnique`
  proves that emails stay unique. Unique customer ids depend on Stripe, so
  `FindByEitherIdentifier` takes distinct identifiers as a precondition. Distinct
  identifiers also ask that no row's email is another row's customer id, which
  the duplicate check does not test. `RegistrationKeepsIdentitiesDistinct`
  shows the property is kept when the new email and customer id are fresh.
- The outcome of a plan change is not inspected. `change_sub_status` returns 0
  once the update call returns. A failed call throws out of the route, and the
  route then sends nothing.
- A payment event answered with 400 has already been logged. Stripe's retry of
  that event is then acknowledged and never sets the subscription
  (`SecondDeliveryIsNoOp` with a first listing of `None`).
- A plan change always sends `cancel_at_period_end: false`. A plan change from
  `/checkout` therefore withdraws a cancellation at period end that `/cancel`
  asked for.
- A log file that cannot be read or parsed is not extended but replaced by a
  log holding only the new id. The ids logged before are lost, and a later
  delivery of an old payment event is applied again.

`Records.Persist`, `EventLog.Logged`, `Plans.AllowListed` and the predicates
`Matches`, `EmailTaken`, `SameKeys`, `UniqueEmails`, `DistinctIdentities` and
`Fresh` are helpers. The rows of the members that use them cover the source
lines they model.

## Model

| member | source | states |
|---|---|---|
| `UserTable.FirstMatch` | db_simulation/db_simulator.js:71-73 | the index found matches the identifier and no earlier row does; with no index, no row matches |
| `UserTable.FindUser` | db_simulation/db_simulator.js:66-76 | a user is found iff the table exists and some row matches by customer id or email; the user found matches and is a row of the table |
| `UserTable.FindUserFirst` | db_simulation/db_simulator.js:71-73 | the first matching row is the one returned, whatever matches after it |
| `UserTable.FirstMatchSameKeys` | db_simulation/db_simulator.js:89-94 | tables that agree on emails and customer ids are matched at the same row |
| `UserTable.Registration` | db_simulation/db_simulator.js:30-59 | registration is rejected iff the email is taken or customer creation fails; otherwise exactly one row is appended (email, upstream customer id, three nulls) and the earlier rows are kept; from an absent table the result is that single row |
| `UserTable.RegistrationKeepsEmailsUnique` | db_simulation/db_simulator.js:33-36 | registration keeps the emails of the table pairwise distinct |
| `UserTable.RegisterTwiceFails` | db_simulation/db_simulator.js:33-36 | a second registration of the same email is rejected whatever upstream answers |
| `UserTable.WithNewSub` | db_simulation/db_simulator.js:84-97 | fails iff no user matches; otherwise only `active_sub` of the first matching row changes, identifiers everywhere are kept and every other row is unchanged |
| `UserTable.WithSubStatus` | db_simulation/db_simulator.js:106-120 | fails iff no user matches; otherwise the first matching row gets the status, keeps its `cancel_at` when the date is `undefined` and takes the given date (`null` included) otherwise; nothing else changes |
| `UserTable.NewSubReadBack` | db_simulation/db_simulator.js:84-97 | after `set_new_sub` the same identifier finds the same user with the new subscription |
| `UserTable.SubStatusReadBack` | db_simulation/db_simulator.js:106-120 | after `set_sub_status` the same identifier finds the same user with the new status and the resulting cancel date |
| `UserTable.NewSubUnchanged` | db_simulation/db_simulator.js:89-92 | setting the subscription a user already has leaves the table as it was |
| `UserTable.SubStatusUnchanged` | db_simulation/db_simulator.js:111-114 | setting the status a user already has, with an `undefined` date, leaves the table as it was |
| `UserTable.SameKeysKeepEmailsUnique` | db_simulation/db_simulator.js:84-120 | the subscription updates cannot break email uniqueness |
| `UserTable.RegistrationKeepsIdentitiesDistinct` | db_simulation/db_simulator.js:33-58 | registration keeps every identifier naming one row, provided the new email is no row's customer id and the new customer id is no row's identifier |
| `UserTable.FindByEitherIdentifier` | db_simulation/db_simulator.js:66-76 | with distinct identifiers, a user is found as itself both by email and by customer id |
| `UserTable.ChangeCode` | db_simulation/db_simulator.js:130-155 | 2 iff no user, 1 iff the user has no active subscription, 0 iff it has one |
| `EventLog.WithLog` | db_simulation/db_simulator.js:182-198 | the log written back is the old entries (none for an absent log) with the id appended; the id is then logged and every earlier entry still is |
| `DbSimulator.Database.PostData` | db_simulation/db_simulator.js:18-28 | the table is replaced by the data written iff the write succeeds, and the result says so |
| `DbSimulator.Database.Register` | db_simulation/db_simulator.js:30-59 | the scan finds a duplicate email exactly when one exists; customer creation is attempted iff the email is free; the table written is `Registration`'s and the log is untouched |
| `DbSimulator.Database.GetUser` | db_simulation/db_simulator.js:66-76 | the scan returns `FindUser`: the first row matching by customer id or email, null when none matches or the table is absent |
| `DbSimulator.Database.SetNewSub` | db_simulation/db_simulator.js:84-97 | succeeds iff a user matches and the write succeeds; the table becomes `WithNewSub`'s, the log is untouched |
| `DbSimulator.Database.SetSubStatus` | db_simulation/db_simulator.js:106-120 | succeeds iff a user matches and the write succeeds; the table becomes `WithSubStatus`'s, the log is untouched |
| `DbSimulator.Database.ChangeSubStatus` | db_simulation/db_simulator.js:130-155 | returns 2 for no user and 1 for no active subscription; for a user with one it retrieves the subscription first, and the update of its first item to the new price (proration `always_invoice`, `cancel_at_period_end` false) is requested only when that retrieve succeeds; it returns 0 iff the update succeeds and throws iff either call fails |
| `DbSimulator.Database.GetLog` | db_simulation/db_simulator.js:168-180 | true iff the log could be read and contains the id |
| `DbSimulator.Database.PostLog` | db_simulation/db_simulator.js:182-198 | the log written is the old one (empty when absent) with the id appended; the table is untouched |
| `Plans.PriceFor` | main.js:117 | a price exists iff the choice is 1 to 3, and every such price is on the allow-list |
| `Webhooks.CancelDate` | main.js:63-64 | a cancel date exists iff the subscription cancels at period end, and it is the period end |
| `Webhooks.ApplyEvent` | main.js:38-77 | the webhook switch on values: only a new payment event can change the log or end without a 200; it ends with 400 iff the listing gave no subscription and with no response iff its plan is off the allow-list; only the three handled kinds can change the table. The per-kind lemmas below state the rest of its effect |
| `Webhooks.HandleWebhook` | main.js:36-85 | the handler's effect on both files and its response are those of `ApplyEvent` |
| `Webhooks.ReplayedPaymentIsNoOp` | main.js:39-40 | a payment event whose id is logged changes nothing and is acknowledged |
| `Webhooks.SecondDeliveryIsNoOp` | main.js:39-42 | once a payment event's log write succeeded, delivering it again changes nothing |
| `Webhooks.PaymentLoggedBeforePlanCheck` | main.js:40-55 | a new payment event is logged whatever the listing says; with a plan off the allow-list only the log changes and no response is sent |
| `Webhooks.AllowListedPaymentSetsSub` | main.js:52-58 | a new payment event for an allow-listed plan gives the customer the listed subscription id and changes nothing else about the customer |
| `Webhooks.UpdatedSetsStatusAndCancelDate` | main.js:61-67 | a subscription-updated event sets the event's status, and the cancel date to the period end or null, leaving the log alone |
| `Webhooks.DeletedEndsCanceled` | main.js:69-72 | a subscription-deleted event leaves the customer "canceled" with no active subscription whatever its prior state, and keeps its cancel date |
| `Webhooks.DeletedTwiceIsDeletedOnce` | main.js:69-72 | a second subscription-deleted delivery changes nothing more |
| `Webhooks.UnhandledKindIsNoOp` | main.js:74-76 | an event of any other type is acknowledged and changes nothing |
| `Webhooks.UnknownCustomerLeavesTable` | main.js:38-77 | an event about a customer the table does not hold leaves the table unchanged |
| `Webhooks.EventKeepsLogPrefixAndKeys` | main.js:38-77 | the entries of the log only grow at their end (an unreadable log has none to keep), and no event adds, removes or re-keys a user |
| `Webhooks.UnreadableLogIsReplaced` | db_simulation/db_simulator.js:182-192 | when the log cannot be read, a new payment event writes a log holding only its id, so every earlier id is no longer logged |
| `Webhooks.RegisterPayReplayDelete` | main.js:38-73 | register, pay for an allow-listed plan, replay the payment, delete: the table ends with the user "canceled" without a subscription and the log holds the payment once |
| `Routes.Checkout` | main.js:114-147 | reports an invalid email iff no user; a user without an active subscription gets a checkout session for its customer id at `SUBSCRIPTIONS[sub_type - 1]`; a user with one gets a plan change of the retrieved subscription item to that price with `always_invoice` proration and `cancel_at_period_end` false, or no response when the retrieve or the update throws |
| `Routes.CancelDecision` | main.js:169-188 | not found iff no user; already cancelled iff the status is not "active" (null included); otherwise cancel at period end for the user's subscription |
| `Routes.Cancel` | main.js:164-188 | the upstream cancel is requested iff the user is found with status "active" |

## Left out

- Express wiring, EJS rendering, the `/register` message page, `/dashboard`'s HTML and `convertTimestamp`: these are presentation, and `convertTimestamp` depends on JavaScript `Date` and the time zone.
- The Stripe calls themselves, and the billing-portal route and its configuration. Their results are inputs (`created`, `listed`, `item`, `updateOk`). The checkout session's URL and redirect are not modelled.
- Webhook signature verification with `stripe.webhooks.constructEvent` and its 400 reply. The model starts from a verified event.
- File I/O and JSON parsing. A file that cannot be read or parsed is `None`, a write is a success flag, and a failed write is taken to leave the file unchanged. main.js calls `getData` only from `/dashboard`.
- Concurrency: the handlers are modelled one at a time. The missing `await`s and the lost updates between concurrent read-modify-writes are not captured.
- The `/retrieve` bulk-delete script and the `dotenv`/`DOMAIN` configuration.
- JavaScript loose equality `==` is taken as string equality. A non-integer `subscription_choice` is not modelled; in the source it also yields an `undefined` price.
- Routes.Cancel: does not model a failure of the upstream cancel call. It would throw out of the route, and no reply would be sent.
- Routes.Checkout: does not model a failure of the checkout-session creation. Its failure would likewise throw out of the route.
