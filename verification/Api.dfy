/** dispatch/api.py: accepting a ride request. */
module Api {
  import opened Wrappers
  import opened Domain
  import opened Tables
  import opened Store
  import opened Queue
  import opened Interference

  class RideApi {
    const store: TripStore
    const queue: PendingQueue

    constructor (store: TripStore, queue: PendingQueue)
      ensures this.store == store && this.queue == queue
    {
      this.store, this.queue := store, queue;
    }

    /**
     * The durable write first, the hint second. Between the two other processes go on, and this one may
     * die: `g.up(0)` is false, and `status` is then 0, as it is for the RuntimeError of a torn write.
     */
    method RequestRide(id: TripId, rider: RiderId, pickup: LatLng, key: Key, now: int, g: Gaps)
      returns (status: int, reply: Trip?)
      requires KeysUnique(store.Content())
      modifies store, queue
      ensures var asked := Snapshot(id, rider, pickup, Requested, None, None, now, 0);
              var written := AfterWrite(old(store.Content()), asked, key, now);
              var owner := KeyOwner(written, key);
              && KeysUnique(written)
              && (KeyUsed(old(store.Content()), key) ==> written == old(store.Content()))
              && (status == 202 <==> owner == Some(id) && g.up(0))
              && (status == 200 <==> owner.Some? && owner != Some(id))
              && (status == 0 <==> owner.None? || (owner == Some(id) && !g.up(0)))
              && (status != 0 ==> reply != null && Get(written, owner.value) == Some(reply.Data()))
              && (status != 0 && !KeyUsed(old(store.Content()), key) ==> reply.Data() == asked)
              && (owner != Some(id) ==> store.Content() == written && queue.items == old(queue.items))
              && (owner == Some(id) ==>
                    && store.Content() == g.others(0, written)
                    && queue.items == g.waiting(0, old(queue.items)) + (if status == 202 then [id] else []))
      ensures id !in old(store.trips) && (forall u | u in old(store.trips) :: old(store.trips)[u].key != key) ==>
                && status == (if g.up(0) then 202 else 0)
                && store.Content() == g.others(0, Db(old(store.trips)[id := Row(rider, pickup, Requested, None, None, key, 0, now)],
                                                     old(store.claims)))
      ensures forall u | u in old(store.trips) && old(store.trips)[u].key == key && u != id ::
                && status == 200 && store.Content() == old(store.Content()) && reply != null && reply.id == u
                && reply.state == old(store.trips)[u].state && reply.driver == old(store.trips)[u].driver
                && reply.fare == old(store.trips)[u].fare
    {
      status, reply := 0, null;
      var trip := new Trip(Snapshot(id, rider, pickup, Requested, None, None, now, 0));
      ghost var asked := trip.Data();
      ghost var before := store.Content();
      var saved := store.CreateTrip(trip, key, now);
      ghost var written := store.Content();
      KeyHasOneOwner(written, key);
      if saved == null {
        return;
      }
      if saved.id == trip.id {
        store.OthersCommit(g.others(0, store.Content()));
        queue.OthersUse(g.waiting(0, queue.items));
        if !g.up(0) {
          return;
        }
        queue.Push(saved.id);
        status := 202;
      } else {
        status := 200;
      }
      reply := saved;
    }
  }

  /** The tables after the write of a request. */
  function AfterWrite(db: Db, trip: Snapshot, key: Key, now: int): Db {
    if InsertTrip(db, trip, key, now).Some? then InsertTrip(db, trip, key, now).value else db
  }

  /** The unique key leaves no choice. */
  lemma KeyHasOneOwner(db: Db, key: Key)
    requires KeysUnique(db)
    ensures forall t | t in db.trips && db.trips[t].key == key :: KeyOwner(db, key) == Some(t)
  {
    forall t | t in db.trips && db.trips[t].key == key
      ensures KeyOwner(db, key) == Some(t)
    {
      assert KeyUsed(db, key);
    }
  }
}
