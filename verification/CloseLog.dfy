/** A log of closed handles, numbered by the order in which they were issued. */
module CloseLog {
  import opened Wrappers

  /** How often `handle` has been closed. */
  function TimesClosed(log: seq<nat>, handle: nat): nat {
    if |log| == 0 then 0
    else TimesClosed(log[..|log| - 1], handle) + if log[|log| - 1] == handle then 1 else 0
  }

  /** The log after closing `handle`, if there is one. */
  function Close(log: seq<nat>, handle: Option<nat>): seq<nat> {
    if handle.Some? then log + [handle.value] else log
  }

  lemma TimesClosedAppend(log: seq<nat>, last: Option<nat>, handle: nat)
    ensures TimesClosed(Close(log, last), handle) == TimesClosed(log, handle) + if last == Some(handle) then 1 else 0
  {
    if last.Some? {
      assert (log + [last.value])[..|log|] == log;
    }
  }
}
