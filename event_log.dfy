/** The processed-event log as a value: an append-only list of the ids of
    the payment events already handled. A log that could not be read is
    `None`. */
module EventLog {
  import opened Records

  type Log = seq<string>

  /** The entries of a log, reading an absent log as the empty list. */
  function Entries(l: Option<Log>): Log
  {
    if l.Some? then l.value else []
  }

  /** What `getLog` answers: the id is in a log that could be read. */
  predicate Logged(l: Option<Log>, e: string)
  {
    l.Some? && e in l.value
  }

  /** The log `postLog` writes back: the old entries (none when the log is
      absent) followed by `e`, which is then logged. */
  function WithLog(l: Option<Log>, e: string): (r: Log)
    ensures |r| == |Entries(l)| + 1 && r[..|Entries(l)|] == Entries(l) && r[|Entries(l)|] == e
    ensures Logged(Some(r), e)
    ensures forall x :: Logged(l, x) ==> Logged(Some(r), x)
  {
    Entries(l) + [e]
  }
}
