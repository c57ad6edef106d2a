/** The user table as a value: what each directory operation of the
    simulated database does to it, and what it promises. A table that could
    not be read (missing file, unparsable JSON) is `None`. */
module UserTable {
  import opened Records

  type Table = seq<User>

  /** The rows of a table, reading an absent table as the empty list. */
  function Rows(t: Option<Table>): Table
  {
    if t.Some? then t.value else []
  }

  /** A user is found by either of its identifiers. */
  predicate Matches(u: User, id: string)
  {
    u.customerId == id || u.email == id
  }

  /** Two tables with the same rows in the same places as far as the
      identifiers go: only subscription fields may differ. */
  predicate SameKeys(a: Table, b: Table)
  {
    |a| == |b| &&
    forall j :: 0 <= j < |a| ==> a[j].email == b[j].email && a[j].customerId == b[j].customerId
  }

  /** Index of the first row matching `id`, scanning from the front. */
  function FirstMatch(rows: Table, id: string): (r: Option<nat>)
    ensures r.Some? ==> r.value < |rows| && Matches(rows[r.value], id)
    ensures r.Some? ==> forall j :: 0 <= j < r.value ==> !Matches(rows[j], id)
    ensures r.None? ==> forall j :: 0 <= j < |rows| ==> !Matches(rows[j], id)
  {
    if rows == [] then None
    else if Matches(rows[0], id) then Some(0)
    else match FirstMatch(rows[1..], id)
      case None => None
      case Some(k) => Some(k + 1)
  }

  /** The user `getUser` returns: the first row matching `id`, or null. */
  function FindUser(t: Option<Table>, id: string): (r: Option<User>)
    ensures r.Some? <==> t.Some? && exists j :: 0 <= j < |t.value| && Matches(t.value[j], id)
    ensures r.Some? ==> Matches(r.value, id) && r.value in t.value
  {
    if t.None? then None
    else match FirstMatch(t.value, id)
      case None => None
      case Some(i) => Some(t.value[i])
  }

  /** The first matching row wins, whatever matches after it. */
  lemma FindUserFirst(t: Table, id: string, i: nat)
    requires i < |t| && Matches(t[i], id)
    requires forall j :: 0 <= j < i ==> !Matches(t[j], id)
    ensures FindUser(Some(t), id) == Some(t[i])
  {
  }

  /** Rows that agree on identifiers are matched at the same place. */
  lemma FirstMatchSameKeys(a: Table, b: Table, id: string)
    requires SameKeys(a, b)
    ensures FirstMatch(a, id) == FirstMatch(b, id)
  {
  }

  /** True when some row of the table already carries `email`. */
  predicate EmailTaken(t: Option<Table>, email: string)
  {
    exists j :: 0 <= j < |Rows(t)| && Rows(t)[j].email == email
  }

  /** The table `register` writes back, or `None` when it returns false
      before writing: the email is already registered, or creating the
      upstream customer failed (`customer` is the id the payment processor
      assigns, `None` when that call throws). */
  function Registration(t: Option<Table>, email: string, customer: Option<string>): (r: Option<Table>)
    ensures r.None? <==> EmailTaken(t, email) || customer.None?
    ensures r.Some? ==> |r.value| == |Rows(t)| + 1 && r.value[..|Rows(t)|] == Rows(t)
    ensures r.Some? ==> r.value[|Rows(t)|] == User(email, customer.value, None, None, None)
    ensures r.Some? && t.None? ==> r.value == [User(email, customer.value, None, None, None)]
  {
    if EmailTaken(t, email) || customer.None? then None
    else Some(Rows(t) + [User(email, customer.value, None, None, None)])
  }

  /** The table `set_new_sub` writes back, or `None` when there is no table
      or no matching user: the first matching row gets `sub` as its active
      subscription and nothing else changes. */
  function WithNewSub(t: Option<Table>, id: string, sub: Option<string>): (r: Option<Table>)
    ensures r.Some? <==> FindUser(t, id).Some?
    ensures r.Some? ==> SameKeys(t.value, r.value)
    ensures r.Some? ==>
      var i := FirstMatch(t.value, id).value;
      r.value[i].activeSub == sub &&
      r.value[i].subStatus == t.value[i].subStatus &&
      r.value[i].cancelAt == t.value[i].cancelAt &&
      forall j :: 0 <= j < |t.value| && j != i ==> r.value[j] == t.value[j]
  {
    if t.None? then None
    else match FirstMatch(t.value, id)
      case None => None
      case Some(i) => Some(t.value[i := t.value[i].(activeSub := sub)])
  }

  /** The table `set_sub_status` writes back, or `None` when there is no
      table or no matching user: the first matching row gets `status`, and
      its cancel date is overwritten only when `cancelAt` is given (a given
      `null` clears it); the rest of the table is unchanged. */
  function WithSubStatus(t: Option<Table>, id: string, status: string, cancelAt: Arg<Option<int>>): (r: Option<Table>)
    ensures r.Some? <==> FindUser(t, id).Some?
    ensures r.Some? ==> SameKeys(t.value, r.value)
    ensures r.Some? ==>
      var i := FirstMatch(t.value, id).value;
      r.value[i].subStatus == Some(status) &&
      r.value[i].activeSub == t.value[i].activeSub &&
      (cancelAt.Undefined? ==> r.value[i].cancelAt == t.value[i].cancelAt) &&
      (cancelAt.Given? ==> r.value[i].cancelAt == cancelAt.value) &&
      forall j :: 0 <= j < |t.value| && j != i ==> r.value[j] == t.value[j]
  {
    if t.None? then None
    else match FirstMatch(t.value, id)
      case None => None
      case Some(i) =>
        var u := t.value[i];
        var cancel := if cancelAt.Undefined? then u.cancelAt else cancelAt.value;
        Some(t.value[i := u.(subStatus := Some(status), cancelAt := cancel)])
  }

  /** Reading back after `set_new_sub`: the same identifier now finds the
      same user with the new active subscription. */
  lemma NewSubReadBack(t: Option<Table>, id: string, sub: Option<string>)
    requires FindUser(t, id).Some?
    ensures FindUser(WithNewSub(t, id, sub), id) == Some(FindUser(t, id).value.(activeSub := sub))
  {
  }

  /** Reading back after `set_sub_status`. */
  lemma SubStatusReadBack(t: Option<Table>, id: string, status: string, cancelAt: Arg<Option<int>>)
    requires FindUser(t, id).Some?
    ensures var u := FindUser(t, id).value;
      FindUser(WithSubStatus(t, id, status, cancelAt), id) ==
        Some(u.(subStatus := Some(status), cancelAt := if cancelAt.Undefined? then u.cancelAt else cancelAt.value))
  {
  }

  /** Setting the active subscription a user already has writes back the
      same table: `set_new_sub` is idempotent. */
  lemma NewSubUnchanged(t: Option<Table>, id: string, sub: Option<string>)
    requires FindUser(t, id).Some? && FindUser(t, id).value.activeSub == sub
    ensures WithNewSub(t, id, sub) == t
  {
    var r := WithNewSub(t, id, sub).value;
    assert r == t.value;
  }

  /** Setting the status a user already has, without a cancel date, writes
      back the same table: `set_sub_status` with an `undefined` date is
      idempotent. */
  lemma SubStatusUnchanged(t: Option<Table>, id: string, status: string)
    requires FindUser(t, id).Some? && FindUser(t, id).value.subStatus == Some(status)
    ensures WithSubStatus(t, id, status, Undefined) == t
  {
    var r := WithSubStatus(t, id, status, Undefined).value;
    assert r == t.value;
  }

  /** The decision `change_sub_status` takes on what `getUser` found:
      2 for no user, 1 for a user without an active subscription, 0 when
      there is one to change. */
  function ChangeCode(u: Option<User>): (code: int)
    ensures code == 2 <==> u.None?
    ensures code == 1 <==> u.Some? && u.value.activeSub.None?
    ensures code == 0 <==> u.Some? && u.value.activeSub.Some?
  {
    if u.None? then 2
    else if u.value.activeSub.None? then 1
    else 0
  }

  /** No two rows share an email. */
  predicate UniqueEmails(rows: Table)
  {
    forall i, j :: 0 <= i < j < |rows| ==> rows[i].email != rows[j].email
  }

  /** `register` keeps emails unique: its duplicate check is the guard. */
  lemma RegistrationKeepsEmailsUnique(t: Option<Table>, email: string, customer: Option<string>)
    requires UniqueEmails(Rows(t))
    requires Registration(t, email, customer).Some?
    ensures UniqueEmails(Registration(t, email, customer).value)
  {
  }

  /** Registering an email a second time fails, whatever upstream answers. */
  lemma RegisterTwiceFails(t: Option<Table>, email: string, c1: Option<string>, c2: Option<string>)
    requires Registration(t, email, c1).Some?
    ensures Registration(Registration(t, email, c1), email, c2).None?
  {
  }

  /** The subscription updates never touch the identifiers, so they keep
      emails unique. */
  lemma SameKeysKeepEmailsUnique(a: Table, b: Table)
    requires SameKeys(a, b) && UniqueEmails(a)
    ensures UniqueEmails(b)
  {
  }

  /** Every identifier in the table names one row: emails and customer ids
      are unique, and no row's email is another row's customer id. */
  predicate DistinctIdentities(rows: Table)
  {
    forall i, j :: 0 <= i < |rows| && 0 <= j < |rows| && i != j ==>
      rows[i].email != rows[j].email &&
      rows[i].customerId != rows[j].customerId &&
      rows[i].email != rows[j].customerId
  }

  /** An identifier no row of the table uses, as email or as customer id. */
  predicate Fresh(rows: Table, id: string)
  {
    forall j :: 0 <= j < |rows| ==> !Matches(rows[j], id)
  }

  /** `register` checks only that the email is not already an email. The
      identifiers stay distinct when, in addition, the email is not some
      row's customer id and upstream assigns a customer id that is fresh. */
  lemma RegistrationKeepsIdentitiesDistinct(t: Option<Table>, email: string, customer: Option<string>)
    requires DistinctIdentities(Rows(t))
    requires Registration(t, email, customer).Some?
    requires Fresh(Rows(t), email) && Fresh(Rows(t), customer.value)
    ensures DistinctIdentities(Registration(t, email, customer).value)
  {
  }

  /** In a table whose identifiers are distinct, a user is found as itself
      both by its email and by its customer id. */
  lemma FindByEitherIdentifier(rows: Table, k: nat)
    requires k < |rows| && DistinctIdentities(rows)
    ensures FindUser(Some(rows), rows[k].email) == Some(rows[k])
    ensures FindUser(Some(rows), rows[k].customerId) == Some(rows[k])
  {
  }
}
