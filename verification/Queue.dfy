/** dispatch/queue.py: the pending list, RPUSH at one end and BLPOP at the other. */
module Queue {
  import opened Wrappers
  import opened Domain

  class PendingQueue {
    var items: seq<TripId>

    constructor ()
      ensures items == []
    {
      items := [];
    }

    /** What other processes made of the list since this process last used it. */
    method OthersUse(ids: seq<TripId>)
      modifies this
      ensures items == ids
    {
      items := ids;
    }

    method Push(t: TripId)
      modifies this
      ensures items == old(items) + [t]
    {
      items := items + [t];
    }

    /** None is the timeout of an empty queue. */
    method Pop() returns (t: Option<TripId>)
      modifies this
      ensures old(items) == [] ==> t == None && items == []
      ensures old(items) != [] ==> t == Some(old(items)[0]) && items == old(items)[1..]
    {
      if items == [] {
        return None;
      }
      t := Some(items[0]);
      items := items[1..];
    }
  }
}
