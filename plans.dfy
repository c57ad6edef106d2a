/** The subscription plans the application sells: the allow-list of price
    ids and the lookup the checkout form's plan choice goes through. */
module Plans {
  import opened Records

  /** The allow-listed price ids, in the order the checkout form numbers
      them (choice 1 is the first). */
  const SUBSCRIPTIONS: seq<string> := [
    "price_1OdCCEIPZBp7aWOr9UKgMODn",
    "price_1OdCCjIPZBp7aWOr1MnsFDOB",
    "price_1OdfaZIPZBp7aWOrAZ7BwNzi"
  ]

  /** The allow-list check the payment webhook applies to a plan id. */
  predicate AllowListed(plan: string)
  {
    plan in SUBSCRIPTIONS
  }

  /** `SUBSCRIPTIONS[sub_type - 1]`: the price for a plan choice, `None`
      (JavaScript's `undefined`) for a choice outside 1..3. */
  function PriceFor(subType: int): (p: Option<string>)
    ensures p.Some? <==> 1 <= subType <= |SUBSCRIPTIONS|
    ensures p.Some? ==> AllowListed(p.value)
  {
    if 1 <= subType <= |SUBSCRIPTIONS| then Some(SUBSCRIPTIONS[subType - 1]) else None
  }
}
