/** Licences and the half-open intervals they speak of (model.py, `Licence`, `Interval`). */
module Licences {
  datatype Interval = Interval(t0: nat, t1: nat) {
    predicate Contains(t: int) { t0 <= t < t1 }
  }

  /** Permission for silent instances over an interval, identified by its content. */
  datatype Licence = Licence(source: nat, span: Interval, suppressed: bool, reason: nat, events: set<nat>)
}
