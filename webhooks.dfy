/** The webhook endpoint's reconciliation: an event from the payment
    processor, already signature-checked, is dispatched on its type and
    applied to the user table and the processed-event log. */
module Webhooks {
  import opened Records
  import opened UserTable
  import opened EventLog
  import opened Plans
  import opened DbSimulator

  const PAYMENT_SUCCEEDED: string := "payment_intent.succeeded"
  const SUBSCRIPTION_UPDATED: string := "customer.subscription.updated"
  const SUBSCRIPTION_DELETED: string := "customer.subscription.deleted"

  /** The fields of `event.data.object` the handler reads. For a payment
      event `id` is the payment intent's id, and that is what the log
      records; the other fields belong to subscription events. */
  datatype EventObject = EventObject(
    id: string,
    customer: string,
    status: string,
    cancelAtPeriodEnd: bool,
    currentPeriodEnd: int)

  datatype Event = Event(kind: string, payload: EventObject)

  /** The customer's newest subscription as the upstream listing returns
      it: its id and the id of its plan's price. */
  datatype Subscription = Subscription(id: string, plan: string)

  /** What the endpoint answers: 200, 400 (an exception was caught), or
      nothing at all (the handler returned without sending). */
  datatype Response = Acknowledged | BadRequest | NoResponse

  datatype Handled = Handled(store: Store, response: Response)

  /** The cancel date a subscription-updated event implies. */
  function CancelDate(o: EventObject): (c: Option<int>)
    ensures c.Some? <==> o.cancelAtPeriodEnd
    ensures c.Some? ==> c.value == o.currentPeriodEnd
  {
    if o.cancelAtPeriodEnd then Some(o.currentPeriodEnd) else None
  }

  /** The effect of one webhook delivery. `listed` is the upstream
      subscription listing's first entry (`None` when the listing call
      throws or returns no subscription; either way the handler answers
      400); `w1` and `w2` say whether the handler's first and second
      writes succeed. */
  function ApplyEvent(s: Store, ev: Event, listed: Option<Subscription>, w1: bool, w2: bool): (h: Handled)
    ensures h.store.logs != s.logs ==> ev.kind == PAYMENT_SUCCEEDED && !Logged(s.logs, ev.payload.id)
    ensures h.response != Acknowledged ==> ev.kind == PAYMENT_SUCCEEDED && !Logged(s.logs, ev.payload.id)
    ensures h.response == BadRequest <==>
      ev.kind == PAYMENT_SUCCEEDED && !Logged(s.logs, ev.payload.id) && listed.None?
    ensures h.response == NoResponse <==>
      ev.kind == PAYMENT_SUCCEEDED && !Logged(s.logs, ev.payload.id) &&
      listed.Some? && !AllowListed(listed.value.plan)
    ensures h.store.users != s.users ==> ev.kind in {PAYMENT_SUCCEEDED, SUBSCRIPTION_UPDATED, SUBSCRIPTION_DELETED}
  {
    var o := ev.payload;
    if ev.kind == PAYMENT_SUCCEEDED then
      if Logged(s.logs, o.id) then Handled(s, Acknowledged)
      else
        var s1 := s.(logs := Persist(s.logs, Some(WithLog(s.logs, o.id)), w1));
        if listed.None? then Handled(s1, BadRequest)
        else if !AllowListed(listed.value.plan) then Handled(s1, NoResponse)
        else
          var users := Persist(s1.users, WithNewSub(s1.users, o.customer, Some(listed.value.id)), w2);
          Handled(s1.(users := users), Acknowledged)
    else if ev.kind == SUBSCRIPTION_UPDATED then
      var users := Persist(s.users, WithSubStatus(s.users, o.customer, o.status, Given(CancelDate(o))), w1);
      Handled(s.(users := users), Acknowledged)
    else if ev.kind == SUBSCRIPTION_DELETED then
      var u1 := Persist(s.users, WithSubStatus(s.users, o.customer, "canceled", Undefined), w1);
      var u2 := Persist(u1, WithNewSub(u1, o.customer, None), w2);
      Handled(s.(users := u2), Acknowledged)
    else
      Handled(s, Acknowledged)
  }

  /** The `/webhooks` handler after signature verification, run on the
      database. */
  method HandleWebhook(db: Database, ev: Event, listed: Option<Subscription>, w1: bool, w2: bool) returns (response: Response)
    modifies db
    ensures Handled(db.State(), response) == ApplyEvent(old(db.State()), ev, listed, w1, w2)
  {
    var o := ev.payload;
    if ev.kind == PAYMENT_SUCCEEDED {
      var seen := db.GetLog(o.id);
      if !seen {
        var posted := db.PostLog(o.id, w1);
        if listed.None? {
          return BadRequest;
        }
        var subscription := listed.value;
        if !(subscription.plan in SUBSCRIPTIONS) {
          return NoResponse;
        }
        var subscribed := db.SetNewSub(o.customer, Some(subscription.id), w2);
      }
    } else if ev.kind == SUBSCRIPTION_UPDATED {
      var cancelAt := if o.cancelAtPeriodEnd then Some(o.currentPeriodEnd) else None;
      var updated := db.SetSubStatus(o.customer, o.status, Given(cancelAt), w1);
    } else if ev.kind == SUBSCRIPTION_DELETED {
      var updated := db.SetSubStatus(o.customer, "canceled", Undefined, w1);
      var cleared := db.SetNewSub(o.customer, None, w2);
    }
    response := Acknowledged;
  }

  /** A payment event whose id is already logged changes nothing. */
  lemma ReplayedPaymentIsNoOp(s: Store, ev: Event, listed: Option<Subscription>, w1: bool, w2: bool)
    requires ev.kind == PAYMENT_SUCCEEDED && Logged(s.logs, ev.payload.id)
    ensures ApplyEvent(s, ev, listed, w1, w2) == Handled(s, Acknowledged)
  {
  }

  /** Delivering the same payment event twice has the effect of
      delivering it once, provided the first delivery's log write went
      through, whatever the second delivery would see upstream. */
  lemma SecondDeliveryIsNoOp(s: Store, ev: Event, l1: Option<Subscription>, w2: bool,
                             l2: Option<Subscription>, v1: bool, v2: bool)
    requires ev.kind == PAYMENT_SUCCEEDED
    ensures var first := ApplyEvent(s, ev, l1, true, w2).store;
      ApplyEvent(first, ev, l2, v1, v2) == Handled(first, Acknowledged)
  {
  }

  /** A new payment event is logged before its plan is checked: it is
      logged whatever the listing says, and when the plan is not
      allow-listed the user table is left as it was. */
  lemma PaymentLoggedBeforePlanCheck(s: Store, ev: Event, listed: Option<Subscription>, w2: bool)
    requires ev.kind == PAYMENT_SUCCEEDED && !Logged(s.logs, ev.payload.id)
    ensures Logged(ApplyEvent(s, ev, listed, true, w2).store.logs, ev.payload.id)
    ensures listed.Some? && !AllowListed(listed.value.plan) ==>
      ApplyEvent(s, ev, listed, true, w2) == Handled(s.(logs := Some(WithLog(s.logs, ev.payload.id))), NoResponse)
  {
  }

  /** A new payment event for an allow-listed plan gives the customer the
      listed subscription and changes nothing else about that user. */
  lemma AllowListedPaymentSetsSub(s: Store, ev: Event, sub: Subscription, w1: bool)
    requires ev.kind == PAYMENT_SUCCEEDED && !Logged(s.logs, ev.payload.id)
    requires AllowListed(sub.plan)
    requires FindUser(s.users, ev.payload.customer).Some?
    ensures var after := ApplyEvent(s, ev, Some(sub), w1, true);
      after.response == Acknowledged &&
      FindUser(after.store.users, ev.payload.customer) ==
        Some(FindUser(s.users, ev.payload.customer).value.(activeSub := Some(sub.id)))
  {
  }

  /** A subscription-updated event sets the customer's status, and its
      cancel date to the period end when the subscription cancels at the
      period end, clearing it otherwise. */
  lemma UpdatedSetsStatusAndCancelDate(s: Store, ev: Event, listed: Option<Subscription>, w2: bool)
    requires ev.kind == SUBSCRIPTION_UPDATED
    requires FindUser(s.users, ev.payload.customer).Some?
    ensures var after := ApplyEvent(s, ev, listed, true, w2);
      var u := FindUser(s.users, ev.payload.customer).value;
      after.store.logs == s.logs &&
      FindUser(after.store.users, ev.payload.customer) ==
        Some(u.(subStatus := Some(ev.payload.status),
                cancelAt := if ev.payload.cancelAtPeriodEnd then Some(ev.payload.currentPeriodEnd) else None))
  {
  }

  /** A subscription-deleted event leaves the customer canceled and without
      an active subscription, whatever its state before; its cancel date is
      kept. */
  lemma DeletedEndsCanceled(s: Store, ev: Event, listed: Option<Subscription>)
    requires ev.kind == SUBSCRIPTION_DELETED
    requires FindUser(s.users, ev.payload.customer).Some?
    ensures var after := ApplyEvent(s, ev, listed, true, true);
      var u := FindUser(s.users, ev.payload.customer).value;
      after.store.logs == s.logs &&
      FindUser(after.store.users, ev.payload.customer) ==
        Some(u.(subStatus := Some("canceled"), activeSub := None))
  {
  }

  /** A second delivery of a subscription-deleted event changes nothing
      more: deleting is idempotent. */
  lemma DeletedTwiceIsDeletedOnce(s: Store, ev: Event, l1: Option<Subscription>, l2: Option<Subscription>)
    requires ev.kind == SUBSCRIPTION_DELETED
    ensures var once := ApplyEvent(s, ev, l1, true, true).store;
      ApplyEvent(once, ev, l2, true, true).store == once
  {
    var c := ev.payload.customer;
    if FindUser(s.users, c).Some? {
      var once := ApplyEvent(s, ev, l1, true, true).store;
      DeletedEndsCanceled(s, ev, l1);
      SubStatusUnchanged(once.users, c, "canceled");
      NewSubUnchanged(once.users, c, None);
    }
  }

  /** An event of any other type is acknowledged and changes nothing. */
  lemma UnhandledKindIsNoOp(s: Store, ev: Event, listed: Option<Subscription>, w1: bool, w2: bool)
    requires ev.kind !in {PAYMENT_SUCCEEDED, SUBSCRIPTION_UPDATED, SUBSCRIPTION_DELETED}
    ensures ApplyEvent(s, ev, listed, w1, w2) == Handled(s, Acknowledged)
  {
  }

  /** An event about a customer the table does not hold leaves the table
      unchanged. */
  lemma UnknownCustomerLeavesTable(s: Store, ev: Event, listed: Option<Subscription>, w1: bool, w2: bool)
    requires FindUser(s.users, ev.payload.customer).None?
    ensures ApplyEvent(s, ev, listed, w1, w2).store.users == s.users
  {
  }

  /** The log's entries only grow, at their end, and the table keeps its
      identifiers: no event adds, removes or re-keys a user. For a log that
      could not be read there are no entries to keep; see
      `UnreadableLogIsReplaced` for what happens to that file. */
  lemma EventKeepsLogPrefixAndKeys(s: Store, ev: Event, listed: Option<Subscription>, w1: bool, w2: bool)
    ensures var after := ApplyEvent(s, ev, listed, w1, w2).store;
      var before := Entries(s.logs);
      |before| <= |Entries(after.logs)| && Entries(after.logs)[..|before|] == before
    ensures var after := ApplyEvent(s, ev, listed, w1, w2).store;
      SameKeys(Rows(s.users), Rows(after.users))
  {
  }

  /** A log file that could not be read is not extended but replaced: a
      new payment event writes a log holding its id alone, so every id
      logged before is lost and a later delivery of an old event passes
      the log check again. */
  lemma UnreadableLogIsReplaced(s: Store, ev: Event, listed: Option<Subscription>, w2: bool, earlier: string)
    requires ev.kind == PAYMENT_SUCCEEDED && s.logs.None?
    requires earlier != ev.payload.id
    ensures ApplyEvent(s, ev, listed, true, w2).store.logs == Some([ev.payload.id])
    ensures !Logged(ApplyEvent(s, ev, listed, true, w2).store.logs, earlier)
  {
  }

  /** A worked history: "a@x.com" registers and is given "cus_1"; a payment
      for an allow-listed plan arrives, is delivered again, and the
      subscription is then deleted. */
  lemma RegisterPayReplayDelete()
    ensures
      var users := Registration(None, "a@x.com", Some("cus_1"));
      var pay := Event(PAYMENT_SUCCEEDED, EventObject("pi_1", "cus_1", "", false, 0));
      var paid := ApplyEvent(Store(users, None), pay, Some(Subscription("sub_1", SUBSCRIPTIONS[0])), true, true);
      var replayed := ApplyEvent(paid.store, pay, Some(Subscription("sub_2", SUBSCRIPTIONS[1])), true, true);
      var del := Event(SUBSCRIPTION_DELETED, EventObject("sub_1", "cus_1", "canceled", false, 0));
      var deleted := ApplyEvent(replayed.store, del, None, true, true);
      paid.store == Store(Some([User("a@x.com", "cus_1", Some("sub_1"), None, None)]), Some(["pi_1"])) &&
      replayed == Handled(paid.store, Acknowledged) &&
      deleted.store == Store(Some([User("a@x.com", "cus_1", None, Some("canceled"), None)]), Some(["pi_1"]))
  {
    var u := User("a@x.com", "cus_1", None, None, None);
    var users := Registration(None, "a@x.com", Some("cus_1"));
    assert users == Some([u]);
    var pay := Event(PAYMENT_SUCCEEDED, EventObject("pi_1", "cus_1", "", false, 0));
    assert !Logged(None, "pi_1");
    assert WithLog(None, "pi_1") == ["pi_1"];
    assert AllowListed(SUBSCRIPTIONS[0]);
    assert FirstMatch([u], "cus_1") == Some(0);
    var paidRow := u.(activeSub := Some("sub_1"));
    assert [u][0 := paidRow] == [paidRow];
    assert WithNewSub(users, "cus_1", Some("sub_1")) == Some([paidRow]);
    var paid := ApplyEvent(Store(users, None), pay, Some(Subscription("sub_1", SUBSCRIPTIONS[0])), true, true);
    assert paid.store == Store(Some([paidRow]), Some(["pi_1"]));
    assert Logged(paid.store.logs, "pi_1");
    var del := Event(SUBSCRIPTION_DELETED, EventObject("sub_1", "cus_1", "canceled", false, 0));
    assert FirstMatch([paidRow], "cus_1") == Some(0);
    var canceledRow := paidRow.(subStatus := Some("canceled"));
    assert [paidRow][0 := canceledRow] == [canceledRow];
    assert WithSubStatus(Some([paidRow]), "cus_1", "canceled", Undefined) == Some([canceledRow]);
    assert FirstMatch([canceledRow], "cus_1") == Some(0);
    assert [canceledRow][0 := canceledRow.(activeSub := None)] == [canceledRow.(activeSub := None)];
    assert WithNewSub(Some([canceledRow]), "cus_1", None) == Some([canceledRow.(activeSub := None)]);
  }
}
