/** What happens between the transactions of one call, seen from the process that makes it. */
module Interference {
  import opened Domain
  import opened Tables

  /**
   * Before the k-th operation of the call other processes leave the tables as `others` and the queue
   * as `waiting` says, the clock reads `now`, and the operation works or raises as `up` says.
   */
  datatype Gaps = Gaps(
    others: (nat, Db) -> Db,
    waiting: (nat, seq<TripId>) -> seq<TripId>,
    up: nat -> bool,
    now: nat -> int)

  /** Nobody else commits or uses the queue, no operation raises, the clock stands. */
  function Quiet(now: int): Gaps {
    Gaps((k, db) => db, (k, ids) => ids, k => true, k => now)
  }
}
