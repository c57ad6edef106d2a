/** The decisions of the `/checkout` and `/cancel` routes: what each asks
    the payment processor for, and what it reports, given the user table. */
module Routes {
  import opened Records
  import opened UserTable
  import opened Plans
  import opened DbSimulator

  /** How `/checkout` ends. */
  datatype CheckoutOutcome =
    | PlanChanged(request: PlanChange)                   // "plan was successfully changed"
    | NewCheckout(customer: string, price: Option<string>) // a checkout session is opened
    | InvalidEmail                                       // "please insert a valid email"
    | PlanChangeThrew                                    // an upstream call threw; nothing is sent

  /** `/checkout`: the chosen plan's price is looked up, a plan change is
      tried, and a user without an active subscription is sent to a new
      checkout session for its customer. `item` and `updateOk` are the
      outcomes of the two upstream calls of a plan change, as for
      `ChangeSubStatus`. */
  method Checkout(db: Database, email: string, subType: int, item: Option<string>, updateOk: bool)
    returns (o: CheckoutOutcome)
    ensures var u := FindUser(db.users, email);
      (o == InvalidEmail <==> u.None?) &&
      (o.NewCheckout? <==> u.Some? && u.value.activeSub.None?) &&
      (o.PlanChanged? <==> u.Some? && u.value.activeSub.Some? && item.Some? && updateOk) &&
      (o == PlanChangeThrew <==> u.Some? && u.value.activeSub.Some? && (item.None? || !updateOk))
    ensures o.NewCheckout? ==> o == NewCheckout(FindUser(db.users, email).value.customerId, PriceFor(subType))
    ensures o.PlanChanged? ==>
      o.request == PlanChange(FindUser(db.users, email).value.activeSub.value, item.value, PriceFor(subType), PRORATION, false)
  {
    var price := PriceFor(subType);
    var status, update := db.ChangeSubStatus(email, price, item, updateOk);
    match status
    case Returned(code) =>
      if code == 0 {
        o := PlanChanged(update.value);
      } else if code == 1 {
        var user := db.GetUser(email);
        o := NewCheckout(user.value.customerId, price);
      } else {
        o := InvalidEmail;
      }
    case Threw =>
      o := PlanChangeThrew;
  }

  /** How `/cancel` ends. */
  datatype CancelOutcome =
    | UserNotFound                             // "please insert a valid email"
    | AlreadyCancelled                         // "has already been cancelled"
    | CancelAtPeriodEnd(subscription: Option<string>) // upstream is asked to cancel at period end

  /** The decision `/cancel` takes on what `getUser` found. */
  function CancelDecision(u: Option<User>): (o: CancelOutcome)
    ensures o == UserNotFound <==> u.None?
    ensures o == AlreadyCancelled <==> u.Some? && u.value.subStatus != Some("active")
    ensures o.CancelAtPeriodEnd? <==> u.Some? && u.value.subStatus == Some("active")
    ensures o.CancelAtPeriodEnd? ==> o.subscription == u.value.activeSub
  {
    if u.None? then UserNotFound
    else if u.value.subStatus != Some("active") then AlreadyCancelled
    else CancelAtPeriodEnd(u.value.activeSub)
  }

  /** `/cancel`: the upstream cancel is requested only for a user found
      with status "active". */
  method Cancel(db: Database, email: string) returns (o: CancelOutcome)
    ensures o.CancelAtPeriodEnd? <==>
      FindUser(db.users, email).Some? && FindUser(db.users, email).value.subStatus == Some("active")
    ensures o == CancelDecision(FindUser(db.users, email))
  {
    var user := db.GetUser(email);
    o := CancelDecision(user);
  }
}
