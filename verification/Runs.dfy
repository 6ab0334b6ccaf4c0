/** The status of a run's row. */
module Runs {
  datatype Status = Awaiting | Queued | Pending | Running | Success | Failed | Canceled

  predicate Active(s: Status) { s == Pending || s == Running }

  predicate Terminal(s: Status) { s == Success || s == Failed || s == Canceled }
}
