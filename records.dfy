/** Values kept by the JSON-file user table: nullable fields, arguments a
    JavaScript caller may leave `undefined`, and the user record itself. */
module Records {

  /** A JSON value that may be `null` (`None`). */
  datatype Option<+T> = None | Some(value: T)

  /** An argument that a caller may leave `undefined`. Passing `null` is
      `Given(None)`, which is a different thing from `Undefined`. */
  datatype Arg<+T> = Undefined | Given(value: T)

  /** One row of the user table (`email`, `customer_id`, `active_sub`,
      `sub_status`, `cancel_at` in the stored JSON). */
  datatype User = User(
    email: string,
    customerId: string,
    activeSub: Option<string>,
    subStatus: Option<string>,
    cancelAt: Option<int>)

  /** What a collection file holds after a full read-modify-write: the new
      value when there is one to write and the write goes through, the
      stored value otherwise. */
  function Persist<T>(stored: Option<T>, next: Option<T>, writeOk: bool): Option<T>
  {
    if next.Some? && writeOk then next else stored
  }
}
