/** dispatch/matcher.py: `match_once` as code, under arbitrary interference. */
module Matching {
  import opened Wrappers
  import opened Domain
  import opened Tables
  import opened Protocol
  import opened Interference
  import opened Store
  import opened Queue
  import opened Geo
  import opened Pricing

  const MAX_RING := 3

  function Rank(pc: Pc): nat {
    match pc
    case Popped(_) => 20
    case Trying(_, rest) => 6 + |rest|
    case Quoting(_, _) => 5
    case Saving(_, _, _) => 4
    case Releasing(_, _, _) => 3
    case Rereading(_) => 2
    case _ => 0
  }

  /** The protocol's own matcher step, driven to the end of `match_once` from the k-th move on. */
  function Drive(pc: Pc, db: Db, k: nat, g: Gaps, candidates: seq<DriverId>, fares: DriverId -> Option<int>): (Pc, Db)
    decreases Rank(pc)
  {
    if pc.Idle? || pc.Failing? then (pc, db)
    else
      var (pc', db') := Turn(pc, db, k, g, candidates, fares);
      Drive(pc', db', k + 1, g, candidates, fares)
  }

  /** The move `match_once` makes at its k-th turn. */
  function Turn(pc: Pc, db: Db, k: nat, g: Gaps, candidates: seq<DriverId>, fares: DriverId -> Option<int>): (Pc, Db) {
    MatcherStep(pc, g.others(k, db), g.now(k),
                Answer(!g.up(k), candidates, if pc.Quoting? then fares(pc.driver) else None))
  }

  lemma OneTurn(pc: Pc, db: Db, k: nat, g: Gaps, candidates: seq<DriverId>, fares: DriverId -> Option<int>)
    ensures pc.Idle? || pc.Failing? ==> Drive(pc, db, k, g, candidates, fares) == (pc, db)
    ensures !pc.Idle? && !pc.Failing? ==>
              var (pc', db') := Turn(pc, db, k, g, candidates, fares);
              Drive(pc, db, k, g, candidates, fares) == Drive(pc', db', k + 1, g, candidates, fares)
  {
  }

  function Ids(list: seq<(Driver, real)>): seq<DriverId> {
    seq(|list|, i requires 0 <= i < |list| => list[i].0.id)
  }

  /** The fare for each driver of the index: the list's distance is the very distance pricing recomputes. */
  function Fares(drivers: map<DriverId, Driver>, pickup: LatLng, distance: Distance, asked: bool, rpc: Rpc)
    : DriverId -> Option<int>
  {
    d => if d in drivers
         then QuotedFare(asked, rpc, distance(pickup, drivers[d].position), distance(pickup, drivers[d].position))
         else None
  }

  /** How a call of `match_once` ends, as the protocol writes it. */
  function End(t: TripId, raised: bool, trip: Trip?): Pc
    reads trip
  {
    if raised then Failing(t) else Idle(if trip == null then None else Some(trip.Data()))
  }

  class Matcher {
    const store: TripStore
    const geo: InMemoryGeoIndex
    const queue: PendingQueue
    const pricing: PricingClient

    /** The collaborators are built as run_matcher.py builds them. */
    ghost predicate Wired() {
      pricing.breaker.cfg == BREAKER && pricing.distance == geo.distance
    }

    constructor (store: TripStore, geo: InMemoryGeoIndex, queue: PendingQueue, pricing: PricingClient)
      ensures this.store == store && this.geo == geo && this.queue == queue && this.pricing == pricing
    {
      this.store, this.geo, this.queue, this.pricing := store, geo, queue, pricing;
    }

    /** An except branch: give the driver back, then re-read the trip or let the exception go on. */
    method GiveBack(t: TripId, d: DriverId, lost: bool, k: nat, g: Gaps,
                    ghost candidates: seq<DriverId>, ghost fares: DriverId -> Option<int>)
      returns (raised: bool, trip: Trip?)
      requires Wired()
      modifies store
      ensures (trip != null ==> fresh(trip))
      ensures Drive(Releasing(t, d, lost), old(store.Content()), k, g, candidates, fares)
              == (End(t, raised, trip), store.Content())
    {
      OneTurn(Releasing(t, d, lost), store.Content(), k, g, candidates, fares);
      store.OthersCommit(g.others(k, store.Content()));
      if !g.up(k) {
        return true, null;
      }
      store.ReleaseDriver(d);
      if !lost {
        return true, null;
      }
      OneTurn(Rereading(t), store.Content(), k + 1, g, candidates, fares);
      store.OthersCommit(g.others(k + 1, store.Content()));
      if !g.up(k + 1) {
        return true, null;
      }
      raised := false;
      trip := store.Load(t);
    }

    /** One quote and one save for a driver this process has claimed. */
    method PriceAndSave(trip: Trip, d: Driver, metres: real, k: nat, g: Gaps, mono: real, rpc: Rpc, endedAt: real,
                        ghost candidates: seq<DriverId>, ghost fares: DriverId -> Option<int>)
      returns (raised: bool, result: Trip?)
      requires Wired()
      requires fares(d.id) == QuotedFare(Asks(pricing.breaker.State(), mono), rpc, geo.distance(trip.pickup, d.position), metres)
      modifies store, trip, pricing.breaker
      ensures Drive(Quoting(old(trip.Data()), d.id), old(store.Content()), k, g, candidates, fares)
              == (End(trip.id, raised, result), store.Content())
    {
      OneTurn(Quoting(trip.Data(), d.id), store.Content(), k, g, candidates, fares);
      store.OthersCommit(g.others(k, store.Content()));
      var quoted := pricing.Quote(trip.pickup, d.position, metres, mono, rpc, endedAt);
      if quoted.None? {
        raised, result := GiveBack(trip.id, d.id, false, k + 1, g, candidates, fares);
        return;
      }
      raised, result := Save(trip, d.id, quoted.value, k + 1, g, candidates, fares);
    }

    method Save(trip: Trip, d: DriverId, fare: int, k: nat, g: Gaps,
                ghost candidates: seq<DriverId>, ghost fares: DriverId -> Option<int>)
      returns (raised: bool, result: Trip?)
      requires Wired()
      modifies store, trip
      ensures Drive(Saving(old(trip.Data()), d, fare), old(store.Content()), k, g, candidates, fares)
              == (End(trip.id, raised, result), store.Content())
    {
      OneTurn(Saving(trip.Data(), d, fare), store.Content(), k, g, candidates, fares);
      store.OthersCommit(g.others(k, store.Content()));
      if !g.up(k) {
        raised, result := GiveBack(trip.id, d, false, k + 1, g, candidates, fares);
        return;
      }
      var saved := store.SaveMatch(trip, d, fare);
      match saved {
        case Saved =>
          raised, result := false, trip;
        case Conflict =>
          raised, result := GiveBack(trip.id, d, true, k + 1, g, candidates, fares);
        case Illegal =>
          raised, result := GiveBack(trip.id, d, false, k + 1, g, candidates, fares);
      }
    }

    /** One iteration: claim the driver and, if that commits, price and save. */
    method TryOne(trip: Trip, d: Driver, metres: real, ghost rest: seq<DriverId>, k: nat, g: Gaps,
                  mono: real, rpc: Rpc, endedAt: real,
                  ghost candidates: seq<DriverId>, ghost fares: DriverId -> Option<int>)
      returns (done: bool, raised: bool, result: Trip?)
      requires Wired()
      requires fares(d.id) == QuotedFare(Asks(pricing.breaker.State(), mono), rpc, geo.distance(trip.pickup, d.position), metres)
      modifies store, trip, pricing.breaker
      ensures done ==> Drive(Trying(old(trip.Data()), [d.id] + rest), old(store.Content()), k, g, candidates, fares)
                       == (End(trip.id, raised, result), store.Content())
      ensures !done ==>
                && Drive(Trying(old(trip.Data()), [d.id] + rest), old(store.Content()), k, g, candidates, fares)
                   == Drive(Trying(old(trip.Data()), rest), store.Content(), k + 1, g, candidates, fares)
                && trip.Data() == old(trip.Data()) && pricing.breaker.State() == old(pricing.breaker.State())
    {
      OneTurn(Trying(trip.Data(), [d.id] + rest), store.Content(), k, g, candidates, fares);
      assert ([d.id] + rest)[1..] == rest;
      store.OthersCommit(g.others(k, store.Content()));
      if !g.up(k) {
        return true, true, null;
      }
      var claimed := store.ClaimDriver(d.id, trip.id, g.now(k));
      if !claimed {
        return false, false, null;
      }
      done := true;
      raised, result := PriceAndSave(trip, d, metres, k + 1, g, mono, rpc, endedAt, candidates, fares);
    }

    /** The claim loop: the first five candidates in turn, until one claim commits. */
    method TryFirstFive(trip: Trip, list: seq<(Driver, real)>, g: Gaps, mono: real, rpc: Rpc, endedAt: real,
                        ghost fares: DriverId -> Option<int>)
      returns (done: bool, raised: bool, result: Trip?)
      requires Wired()
      requires Priced(list, fares, Asks(pricing.breaker.State(), mono), rpc, trip.pickup, geo.distance)
      modifies store, trip, pricing.breaker
      ensures Drive(Trying(old(trip.Data()), FirstFive(Ids(list))), old(store.Content()), 1, g, Ids(list), fares)
              == if done then (End(trip.id, raised, result), store.Content())
                 else Drive(Trying(old(trip.Data()), []), store.Content(), |FirstFive(Ids(list))| + 1, g, Ids(list), fares)
    {
      ghost var snap, tries := trip.Data(), FirstFive(Ids(list));
      ghost var goal := Drive(Trying(snap, tries), store.Content(), 1, g, Ids(list), fares);
      var i := 0;
      assert tries[0..] == tries;
      while i < |list| && i < MAX_CLAIM_ATTEMPTS
        invariant 0 <= i <= |tries| && trip.Data() == snap
        invariant pricing.breaker.State() == old(pricing.breaker.State())
        invariant Drive(Trying(snap, tries[i..]), store.Content(), i + 1, g, Ids(list), fares) == goal
      {
        NextTry(list, i);
        var (d, metres) := list[i];
        done, raised, result := TryOne(trip, d, metres, tries[i + 1..], i + 1, g, mono, rpc, endedAt, Ids(list), fares);
        if done {
          return;
        }
        i := i + 1;
      }
      assert i == |tries| && tries[i..] == [];
      return false, false, null;
    }

    method ClaimOneOf(trip: Trip, list: seq<(Driver, real)>, g: Gaps, mono: real, rpc: Rpc, endedAt: real,
                      ghost fares: DriverId -> Option<int>)
      returns (raised: bool, result: Trip?)
      requires Wired()
      requires Priced(list, fares, Asks(pricing.breaker.State(), mono), rpc, trip.pickup, geo.distance)
      modifies store, trip, pricing.breaker
      ensures Drive(Trying(old(trip.Data()), FirstFive(Ids(list))), old(store.Content()), 1, g, Ids(list), fares)
              == (End(trip.id, raised, result), store.Content())
    {
      ghost var snap := trip.Data();
      var done;
      done, raised, result := TryFirstFive(trip, list, g, mono, rpc, endedAt, fares);
      if !done {
        ghost var k := |FirstFive(Ids(list))| + 1;
        NoTriesLeft(snap, store.Content(), k, g, Ids(list), fares);
        store.OthersCommit(g.others((if |list| < MAX_CLAIM_ATTEMPTS then |list| else MAX_CLAIM_ATTEMPTS) + 1, store.Content()));
        raised, result := false, null;
      }
    }

    /** From the read of the trip to a saved match, a return of nothing, or an exception. */
    method MatchOnce(tripId: TripId, g: Gaps, wall: int, mono: real, rpc: Rpc, endedAt: real)
      returns (raised: bool, result: Trip?, ghost seen: seq<(Driver, real)>)
      requires Wired() && geo.Valid()
      modifies store, pricing.breaker
      ensures Drive(Popped(tripId), old(store.Content()), 0, g, Ids(seen),
                    FaresFor(g.others(0, old(store.Content())), tripId, Asks(old(pricing.breaker.State()), mono), rpc))
              == (End(tripId, raised, result), store.Content())
      ensures var found := g.others(0, old(store.Content()));
              g.up(0) && tripId in found.trips && found.trips[tripId].state == Requested ==>
                NearbyAnswer(geo.drivers, found.trips[tripId].pickup, wall, 3, geo.distance, seen)
    {
      ghost var db0, asked := store.Content(), Asks(pricing.breaker.State(), mono);
      seen, result, raised := [], null, false;
      store.OthersCommit(g.others(0, store.Content()));
      ghost var fares := FaresFor(store.Content(), tripId, asked, rpc);
      FirstTurn(tripId, db0, g, Ids(seen), fares);
      if !g.up(0) {
        raised := true;
        return;
      }
      var trip := store.Load(tripId);
      if trip == null {
        return;
      }
      if trip.state != Requested {
        result := trip;
        return;
      }
      var list := geo.Nearby(trip.pickup, wall, MAX_RING);
      seen := list;
      FirstTurn(tripId, db0, g, Ids(seen), fares);
      if list == [] {
        return;
      }
      ListIsPriced(geo.drivers, trip.pickup, wall, geo.distance, list, asked, rpc);
      raised, result := ClaimOneOf(trip, list, g, mono, rpc, endedAt, fares);
    }

    /** One turn of `run_forever`: a trip whose match raised goes back to the end of the queue. */
    method RunOnce(g: Gaps, wall: int, mono: real, rpc: Rpc, endedAt: real)
      returns (popped: Option<TripId>, raised: bool, result: Trip?, ghost seen: seq<(Driver, real)>)
      requires Wired() && geo.Valid()
      modifies store, queue, pricing.breaker
      ensures popped == if old(queue.items) == [] then None else Some(old(queue.items)[0])
      ensures popped.None? ==> queue.items == [] && store.Content() == old(store.Content())
      ensures popped.Some? ==>
                && queue.items == g.waiting(0, old(queue.items)[1..]) + (if raised then [popped.value] else [])
                && Drive(Popped(popped.value), old(store.Content()), 0, g, Ids(seen),
                         FaresFor(g.others(0, old(store.Content())), popped.value,
                                  Asks(old(pricing.breaker.State()), mono), rpc))
                   == (End(popped.value, raised, result), store.Content())
      ensures popped.None? ==> !raised && result == null
    {
      raised, result, seen := false, null, [];
      popped := queue.Pop();
      if popped.Some? {
        raised, result, seen := MatchOnce(popped.value, g, wall, mono, rpc, endedAt);
        queue.OthersUse(g.waiting(0, queue.items));
        if raised {
          queue.Push(popped.value);
        }
      }
    }

    /** The fares this matcher's index and client give for the trip as the tables hold it. */
    ghost function FaresFor(db: Db, t: TripId, asked: bool, rpc: Rpc): DriverId -> Option<int>
      reads geo
    {
      if t in db.trips then Fares(geo.drivers, db.trips[t].pickup, geo.distance, asked, rpc) else d => None
    }
  }

  lemma NoTriesLeft(p: Snapshot, db: Db, k: nat, g: Gaps, candidates: seq<DriverId>, fares: DriverId -> Option<int>)
    ensures Drive(Trying(p, []), db, k, g, candidates, fares) == (Idle(None), g.others(k, db))
  {
    OneTurn(Trying(p, []), db, k, g, candidates, fares);
  }

  /** How the call goes on after its read of the trip. */
  lemma FirstTurn(t: TripId, db: Db, g: Gaps, candidates: seq<DriverId>, fares: DriverId -> Option<int>)
    ensures var found := g.others(0, db);
            Drive(Popped(t), db, 0, g, candidates, fares)
            == if !g.up(0) then (Failing(t), found)
               else if t !in found.trips then (Idle(None), found)
               else if found.trips[t].state != Requested then (Idle(Get(found, t)), found)
               else if candidates == [] then (Idle(None), found)
               else Drive(Trying(SnapshotOf(t, found.trips[t]), FirstFive(candidates)), found, 1, g, candidates, fares)
  {
    OneTurn(Popped(t), db, 0, g, candidates, fares);
  }

  /** `fares` is what pricing quotes for each entry of the list. */
  ghost predicate Priced(list: seq<(Driver, real)>, fares: DriverId -> Option<int>, asked: bool, rpc: Rpc,
                         pickup: LatLng, distance: Distance)
  {
    forall i | 0 <= i < |list| ::
      fares(list[i].0.id) == QuotedFare(asked, rpc, distance(pickup, list[i].0.position), list[i].1)
  }

  /** Every entry is the index's own record of a driver, with the distance pricing will recompute. */
  lemma ListIsPriced(drivers: map<DriverId, Driver>, pickup: LatLng, wall: int, distance: Distance,
                     list: seq<(Driver, real)>, asked: bool, rpc: Rpc)
    requires NearbyAnswer(drivers, pickup, wall, MAX_RING, distance, list)
    ensures Priced(list, Fares(drivers, pickup, distance, asked, rpc), asked, rpc, pickup, distance)
  {
    if list != [] {
      var r :| AnswersFrom(drivers, pickup, wall, MAX_RING, distance, r, list);
      var fares := Fares(drivers, pickup, distance, asked, rpc);
      forall i | 0 <= i < |list|
        ensures fares(list[i].0.id) == QuotedFare(asked, rpc, distance(pickup, list[i].0.position), list[i].1)
      {
        assert list[i] in list;
      }
    }
  }

  /**
   * The fare a matched trip gets when driver d wins: what the service answered, or, without its answer, the
   * local fare for the way from the driver to the rider, once for the approach and once for the ride.
   */
  lemma FareOf(drivers: map<DriverId, Driver>, pickup: LatLng, distance: Distance, asked: bool, rpc: Rpc, d: DriverId, b: int)
    requires d in drivers && distance(pickup, drivers[d].position) >= 0.0
    requires b == 250 + (2.0 * distance(pickup, drivers[d].position) * 0.14).Floor
    ensures var fare := Fares(drivers, pickup, distance, asked, rpc)(d);
            && (asked && rpc.Answered? ==> fare == Some(rpc.fare))
            && (!asked || rpc.RpcError? ==> fare == Some(if b > 500 then b else 500))
            && (asked && rpc.OtherError? ==> fare == None)
  {
    var m := distance(pickup, drivers[d].position);
    FallbackInCents(m, m, b);
  }

  lemma NextTry(list: seq<(Driver, real)>, i: nat)
    requires i < |list| && i < MAX_CLAIM_ATTEMPTS
    ensures i < |FirstFive(Ids(list))|
    ensures FirstFive(Ids(list))[i..] == [list[i].0.id] + FirstFive(Ids(list))[i + 1..]
  {
  }
}
