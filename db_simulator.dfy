/** The simulated database: two JSON files, the user table and the
    processed-event log. An operation reads a file whole, and one that
    changes a file writes all of it back. The files are the two fields of
    `Database`; a field that is `None` is a file that could not be read.
    Each method's `writeOk` says whether its write-back succeeds; a failed
    write leaves the file as it was. */
module DbSimulator {
  import opened Records
  import opened UserTable
  import opened EventLog

  /** Both collections at one moment. */
  datatype Store = Store(users: Option<Table>, logs: Option<Log>)

  /** The plan change `change_sub_status` asks the payment processor for:
      the subscription to update, the subscription item to reprice (the
      first item of the subscription as retrieved just before), the price
      to move it to (`None` when the caller's price is `undefined`), the
      proration behaviour and the cancel-at-period-end flag. The request
      always sends `cancelAtPeriodEnd == false`, so a plan change also
      withdraws a cancellation at period end that `/cancel` asked for. */
  datatype PlanChange = PlanChange(subscription: string, item: string, price: Option<string>, proration: string, cancelAtPeriodEnd: bool)

  const PRORATION: string := "always_invoice"

  /** How `change_sub_status` ends: with one of its codes, or by the
      exception of a failed upstream call escaping to its caller. */
  datatype ChangeResult = Returned(code: int) | Threw

  class Database {
    var users: Option<Table>
    var logs: Option<Log>

    constructor (users0: Option<Table>, logs0: Option<Log>)
      ensures users == users0 && logs == logs0
    {
      users, logs := users0, logs0;
    }

    function State(): Store
      reads this
    {
      Store(users, logs)
    }

    /** Writes the whole user table back. */
    method PostData(data: Table, writeOk: bool) returns (ok: bool)
      modifies this`users
      ensures ok == writeOk
      ensures users == if writeOk then Some(data) else old(users)
    {
      if writeOk {
        users := Some(data);
      }
      ok := writeOk;
    }

    /** Registers `email`. `created` is what creating the upstream customer
        returns (`None` when that call throws); `createsCustomer` says
        whether that call is made at all. */
    method Register(email: string, created: Option<string>, writeOk: bool) returns (ok: bool, createsCustomer: bool)
      modifies this
      ensures createsCustomer <==> !EmailTaken(old(users), email)
      ensures ok <==> Registration(old(users), email, created).Some? && writeOk
      ensures users == Persist(old(users), Registration(old(users), email, created), writeOk)
      ensures logs == old(logs)
    {
      var data: Table := [];
      if users.Some? {
        data := users.value;
        for i := 0 to |data|
          invariant forall j :: 0 <= j < i ==> data[j].email != email
        {
          if data[i].email == email {
            assert Rows(users)[i].email == email;
            return false, false;
          }
        }
      }
      createsCustomer := true;
      if created.None? {
        return false, true;
      }
      data := data + [User(email, created.value, None, None, None)];
      ok := PostData(data, writeOk);
    }

    /** `getUser`: scans the table for the first row matching `id`. */
    method GetUser(id: string) returns (u: Option<User>)
      ensures u == FindUser(users, id)
    {
      if users.None? {
        return None;
      }
      var data := users.value;
      var i := 0;
      while i < |data|
        invariant 0 <= i <= |data|
        invariant forall j :: 0 <= j < i ==> !Matches(data[j], id)
      {
        if data[i].customerId == id || data[i].email == id {
          return Some(data[i]);
        }
        i := i + 1;
      }
      return None;
    }

    /** `set_new_sub`: gives the first user matching `id` the active
        subscription `sub` (`None` clears it). */
    method SetNewSub(id: string, sub: Option<string>, writeOk: bool) returns (ok: bool)
      modifies this
      ensures ok <==> FindUser(old(users), id).Some? && writeOk
      ensures users == Persist(old(users), WithNewSub(old(users), id, sub), writeOk)
      ensures logs == old(logs)
    {
      if users.None? {
        return false;
      }
      var data := users.value;
      var i := 0;
      while i < |data|
        invariant 0 <= i <= |data| && data == old(users).value
        invariant forall j :: 0 <= j < i ==> !Matches(data[j], id)
      {
        if data[i].customerId == id || data[i].email == id {
          data := data[i := data[i].(activeSub := sub)];
          ok := PostData(data, writeOk);
          return;
        }
        i := i + 1;
      }
      return false;
    }

    /** `set_sub_status`: sets the status of the first user matching `id`,
        and its cancel date unless `cancelAt` is `undefined`. */
    method SetSubStatus(id: string, status: string, cancelAt: Arg<Option<int>>, writeOk: bool) returns (ok: bool)
      modifies this
      ensures ok <==> FindUser(old(users), id).Some? && writeOk
      ensures users == Persist(old(users), WithSubStatus(old(users), id, status, cancelAt), writeOk)
      ensures logs == old(logs)
    {
      if users.None? {
        return false;
      }
      var data := users.value;
      var i := 0;
      while i < |data|
        invariant 0 <= i <= |data| && data == old(users).value
        invariant forall j :: 0 <= j < i ==> !Matches(data[j], id)
      {
        if data[i].customerId == id || data[i].email == id {
          var cancel := if cancelAt.Undefined? then data[i].cancelAt else cancelAt.value;
          data := data[i := data[i].(subStatus := Some(status), cancelAt := cancel)];
          ok := PostData(data, writeOk);
          return;
        }
        i := i + 1;
      }
      return false;
    }

    /** `change_sub_status`: looks the user up and, when it has an active
        subscription, makes two upstream calls. It first retrieves that
        subscription: `item` is the id of the retrieved subscription's
        first item, `None` when the retrieve throws or the subscription has
        no item (reading it then throws). Only then is the update to
        `newPrice` requested (`update`); `updateOk` says whether that
        second call succeeds. */
    method ChangeSubStatus(id: string, newPrice: Option<string>, item: Option<string>, updateOk: bool)
      returns (r: ChangeResult, update: Option<PlanChange>)
      ensures var u := FindUser(users, id);
        update.Some? <==> u.Some? && u.value.activeSub.Some? && item.Some?
      ensures update.Some? ==>
        update.value == PlanChange(FindUser(users, id).value.activeSub.value, item.value, newPrice, PRORATION, false)
      ensures r == Returned(2) <==> FindUser(users, id).None?
      ensures r == Returned(1) <==> FindUser(users, id).Some? && FindUser(users, id).value.activeSub.None?
      ensures r == Returned(0) <==> update.Some? && updateOk
      ensures r == Threw <==>
        FindUser(users, id).Some? && FindUser(users, id).value.activeSub.Some? && (item.None? || !updateOk)
    {
      var user := GetUser(id);
      var code := ChangeCode(user);
      if code != 0 {
        return Returned(code), None;
      }
      if item.None? {
        return Threw, None;
      }
      update := Some(PlanChange(user.value.activeSub.value, item.value, newPrice, PRORATION, false));
      r := if updateOk then Returned(0) else Threw;
    }

    /** `getLog`: scans the log for `e`. */
    method GetLog(e: string) returns (found: bool)
      ensures found <==> logs.Some? && exists j :: 0 <= j < |logs.value| && logs.value[j] == e
      ensures found == Logged(logs, e)
    {
      if logs.None? {
        return false;
      }
      var data := logs.value;
      for i := 0 to |data|
        invariant forall j :: 0 <= j < i ==> data[j] != e
      {
        if data[i] == e {
          return true;
        }
      }
      return false;
    }

    /** `postLog`: appends `e`, starting from an empty log when none could
        be read. */
    method PostLog(e: string, writeOk: bool) returns (ok: bool)
      modifies this
      ensures ok == writeOk
      ensures logs == Persist(old(logs), Some(WithLog(old(logs), e)), writeOk)
      ensures users == old(users)
    {
      var data: Log := if logs.None? then [] else logs.value;
      data := data + [e];
      if writeOk {
        logs := Some(data);
      }
      ok := writeOk;
    }
  }
}
