/** dispatch/store.py: the store as an object; each method is one committed transaction. */
module Store {
  import opened Wrappers
  import opened Domain
  import opened Tables
  import opened Protocol
  import opened Sorting

  /** What an UPDATE under the optimistic lock answered. */
  datatype Written = Saved | Conflict | Illegal

  class TripStore {
    var trips: map<TripId, Row>
    var claims: map<DriverId, Claim>

    function Content(): Db
      reads this
    {
      Db(trips, claims)
    }

    /** The object in memory holds exactly what its row holds. */
    predicate UpToDate(trip: Trip)
      reads this, trip
    {
      && trip.id in trips
      && trip.rider == trips[trip.id].rider && trip.pickup == trips[trip.id].pickup && trip.created == trips[trip.id].created
      && trip.state == trips[trip.id].state && trip.version == trips[trip.id].version
      && trip.driver == trips[trip.id].driver && trip.fare == trips[trip.id].fare
    }

    constructor ()
      ensures Content() == Db(map[], map[])
    {
      trips, claims := map[], map[];
    }

    /** What other processes committed since this process last looked. */
    method OthersCommit(db: Db)
      modifies this
      ensures Content() == db
    {
      trips, claims := db.trips, db.claims;
    }

    method Load(t: TripId) returns (trip: Trip?)
      ensures trip == null <==> t !in trips
      ensures trip != null ==> fresh(trip) && Get(Content(), t) == Some(trip.Data())
      ensures trip != null ==> trip.id == t && UpToDate(trip)
    {
      trip := null;
      if t in trips {
        trip := new Trip(SnapshotOf(t, trips[t]));
      }
    }

    method LoadByKey(key: Key) returns (trip: Trip?)
      requires KeysUnique(Content())
      ensures trip == null <==> !KeyUsed(Content(), key)
      ensures trip != null ==>
                fresh(trip) && KeyOwner(Content(), key) == Some(trip.id) && Get(Content(), trip.id) == Some(trip.Data())
    {
      trip := null;
      if t :| t in trips && trips[t].key == key {
        trip := new Trip(SnapshotOf(t, trips[t]));
      }
    }

    /** The new trip, or the one the key already belongs to; null is the RuntimeError of a torn write. */
    method CreateTrip(trip: Trip, key: Key, now: int) returns (saved: Trip?)
      requires KeysUnique(Content())
      modifies this
      ensures KeysUnique(Content())
      ensures InsertTrip(old(Content()), trip.Data(), key, now).Some? ==>
                saved == trip && Content() == InsertTrip(old(Content()), trip.Data(), key, now).value
      ensures InsertTrip(old(Content()), trip.Data(), key, now).None? ==>
                && Content() == old(Content())
                && (saved == null <==> !KeyUsed(Content(), key))
                && (saved != null ==> KeyOwner(Content(), key) == Some(saved.id)
                                      && Get(Content(), saved.id) == Some(saved.Data()))
    {
      if trip.id in trips || exists t | t in trips :: trips[t].key == key {
        saved := LoadByKey(key);
      } else {
        trips := trips[trip.id := NewRow(trip.Data(), key, now)];
        saved := trip;
      }
    }

    /** `false` is DriverAlreadyClaimed. */
    method ClaimDriver(d: DriverId, t: TripId, now: int) returns (ok: bool)
      modifies this
      ensures ok <==> InsertClaim(old(Content()), d, t, now).Some?
      ensures Content() == if ok then InsertClaim(old(Content()), d, t, now).value else old(Content())
    {
      ok := d !in claims && !exists e | e in claims :: claims[e].trip == t;
      if ok {
        claims := claims[d := Claim(t, now)];
      }
    }

    method ReleaseDriver(d: DriverId)
      modifies this
      ensures Content() == DeleteClaim(old(Content()), d)
    {
      claims := claims - {d};
    }

    method SaveMatch(trip: Trip, d: DriverId, fare: int) returns (r: Written)
      modifies this, trip
      ensures r.Illegal? <==> !CanTransition(old(trip.state), Matched)
      ensures r.Saved? <==> !r.Illegal? && UpdateMatch(old(Content()), trip.id, old(trip.version), d, fare).Some?
      ensures Content() == if r.Saved? then UpdateMatch(old(Content()), trip.id, old(trip.version), d, fare).value
                           else old(Content())
      ensures trip.Data() == if r.Saved? then MatchedSnapshot(old(trip.Data()), d, fare) else old(trip.Data())
      ensures r.Saved? && old(UpToDate(trip)) ==> UpToDate(trip)
      ensures r.Saved? ==> trip.state == Matched && trip.driver == Some(d) && trip.fare == Some(fare)
      ensures old(UpToDate(trip)) && old(trip.state) == Requested ==> r.Saved?
    {
      if !CanTransition(trip.state, Matched) {
        return Illegal;
      }
      if trip.id !in trips || trips[trip.id].version != trip.version {
        return Conflict;
      }
      var row := trips[trip.id];
      trips := trips[trip.id := row.(state := Matched, driver := Some(d), fare := Some(fare), version := row.version + 1)];
      var legal := trip.Assign(d, fare);
      trip.version := trip.version + 1;
      r := Saved;
    }

    method Advance(trip: Trip, dst: TripState) returns (r: Written)
      modifies this, trip
      ensures r.Illegal? <==> !CanTransition(old(trip.state), dst)
      ensures r.Saved? <==> !r.Illegal? && UpdateState(old(Content()), old(trip.Data()), dst).Some?
      ensures Content() == if r.Saved? then UpdateState(old(Content()), old(trip.Data()), dst).value else old(Content())
      ensures trip.Data() == if r.Saved? then MovedSnapshot(old(trip.Data()), dst) else old(trip.Data())
      ensures r.Saved? && old(UpToDate(trip)) ==> UpToDate(trip)
      ensures r.Saved? ==> trip.state == dst && trip.driver == old(trip.driver) && trip.fare == old(trip.fare)
      ensures old(UpToDate(trip)) && CanTransition(old(trip.state), dst) ==> r.Saved?
    {
      if !CanTransition(trip.state, dst) {
        return Illegal;
      }
      if trip.id !in trips || trips[trip.id].version != trip.version {
        return Conflict;
      }
      trips := trips[trip.id := MovedRow(trips[trip.id], dst)];
      if (dst == Complete || dst == Cancelled) && Truthy(trip.driver) {
        var d := trip.driver.value;
        if d in claims && claims[d].trip == trip.id {
          claims := claims - {d};
        }
      }
      var moved := trip.Advance(dst);
      trip.version := trip.version + 1;
      r := Saved;
    }

    /** The ids of the oldest REQUESTED trips; ORDER BY created_ms LIMIT 200. */
    method StaleMatchedTrips(now: int, olderThanMs: int) returns (ids: seq<TripId>)
      ensures StrandedPage(Content(), now - olderThanMs, ids)
    {
      var cutoff := now - olderThanMs;
      var found := FindStranded(cutoff);
      ids := OldestPage(Content(), cutoff, found);
    }

    /** The rows the WHERE clause selects, in no particular order. */
    method FindStranded(cutoff: int) returns (found: seq<TripId>)
      ensures Distinct(found) && forall t :: t in found <==> IsStranded(Content(), cutoff, t)
    {
      found := [];
      var todo := trips.Keys;
      while todo != {}
        invariant todo <= trips.Keys && Distinct(found)
        invariant forall t :: t in found <==> IsStranded(Content(), cutoff, t) && t !in todo
        decreases todo
      {
        var t :| t in todo;
        todo := todo - {t};
        if IsStranded(Content(), cutoff, t) {
          found := found + [t];
        }
      }
    }

    /** The rows the orphan query of the reaper selects; LIMIT 500 in whatever order they come. */
    method FindOrphans(cutoff: int) returns (rows: seq<OrphanRow>)
      ensures OrphanPage(Content(), cutoff, rows)
    {
      rows := [];
      var todo := claims.Keys;
      ghost var seen := {};
      while todo != {} && |rows| < ORPHAN_PAGE
        invariant todo <= claims.Keys && seen == Orphans(Content(), cutoff) - todo
        invariant forall i | 0 <= i < |rows| :: rows[i].driver in seen && claims[rows[i].driver].trip == rows[i].trip
        invariant forall i, j | 0 <= i < j < |rows| :: rows[i].driver != rows[j].driver
        invariant |rows| == |seen| <= ORPHAN_PAGE
        decreases todo
      {
        var d :| d in todo;
        todo := todo - {d};
        if IsOrphan(Content(), cutoff, d) {
          rows := rows + [OrphanRow(d, claims[d].trip)];
          seen := seen + {d};
        }
      }
      SubsetIsSmaller(seen, Orphans(Content(), cutoff));
    }
  }

  /**
   * A driver's app with a matched trip in memory: pickup and drop-off both commit on the one object when
   * nobody else writes, and the driver is free afterwards.
   */
  method FinishRide(store: TripStore, trip: Trip) returns (pickedUp: Written, droppedOff: Written)
    requires store.UpToDate(trip) && trip.state == Matched && trip.driver.Some? && trip.driver.value.name != ""
    requires trip.driver.value in store.claims && store.claims[trip.driver.value].trip == trip.id
    modifies store, trip
    ensures pickedUp == Saved && droppedOff == Saved && store.UpToDate(trip)
    ensures trip.state == Complete && trip.driver == old(trip.driver) && trip.fare == old(trip.fare)
    ensures store.claims == old(store.claims) - {trip.driver.value}
    ensures store.trips.Keys == old(store.trips.Keys)
    ensures forall t | t in store.trips && t != trip.id :: store.trips[t] == old(store.trips)[t]
  {
    pickedUp := store.Advance(trip, EnRoute);
    droppedOff := store.Advance(trip, Complete);
  }

  lemma {:induction false} SubsetIsSmaller<T>(a: set<T>, b: set<T>)
    requires a <= b
    ensures |a| <= |b|
  {
    if a != {} {
      var x :| x in a;
      SubsetIsSmaller(a - {x}, b - {x});
    }
  }

  /** The sort key of ORDER BY created_ms. */
  function Age(db: Db): TripId -> real {
    t => if t in db.trips then db.trips[t].created as real else 0.0
  }

  /** LIMIT 200. */
  function FirstPage(ids: seq<TripId>): seq<TripId> {
    if |ids| <= STRANDED_PAGE then ids else ids[..STRANDED_PAGE]
  }

  /** What ORDER BY makes of the selected rows. */
  lemma SortedRows(db: Db, cutoff: int, found: seq<TripId>)
    requires Distinct(found) && forall t :: t in found <==> IsStranded(db, cutoff, t)
    ensures var sorted := SortBy(found, Age(db));
            && SortedBy(sorted, Age(db)) && Distinct(sorted)
            && |sorted| == |Stranded(db, cutoff)|
            && forall t :: t in sorted <==> IsStranded(db, cutoff, t)
  {
    SortBySorts(found, Age(db));
    SortKeepsMembers(found, Age(db));
    SortKeepsDistinct(found, Age(db));
    DistinctLength(found, Stranded(db, cutoff));
  }

  /** ORDER BY created_ms LIMIT 200 on the rows the WHERE clause selects. */
  function OldestPage(db: Db, cutoff: int, found: seq<TripId>): (ids: seq<TripId>)
    requires Distinct(found) && forall t :: t in found <==> IsStranded(db, cutoff, t)
    ensures StrandedPage(db, cutoff, ids)
  {
    SortedRows(db, cutoff, found);
    PrefixIsPage(db, cutoff, SortBy(found, Age(db)));
    FirstPage(SortBy(found, Age(db)))
  }

  /** Later in the sorted rows is not older. */
  lemma LaterIsYounger(db: Db, sorted: seq<TripId>, i: nat, j: nat)
    requires SortedBy(sorted, Age(db)) && i < j < |sorted| && sorted[i] in db.trips && sorted[j] in db.trips
    ensures db.trips[sorted[i]].created <= db.trips[sorted[j]].created
  {
    assert Age(db)(sorted[i]) <= Age(db)(sorted[j]);
  }

  lemma PrefixIsPage(db: Db, cutoff: int, sorted: seq<TripId>)
    requires SortedBy(sorted, Age(db)) && Distinct(sorted) && |sorted| == |Stranded(db, cutoff)|
    requires forall t :: t in sorted <==> IsStranded(db, cutoff, t)
    ensures StrandedPage(db, cutoff, FirstPage(sorted))
  {
    var ids := FirstPage(sorted);
    forall i | 0 <= i < |sorted|
      ensures IsStranded(db, cutoff, sorted[i])
    {
      assert sorted[i] in sorted;
    }
    forall i, j | 0 <= i < j < |sorted|
      ensures sorted[i] != sorted[j] && db.trips[sorted[i]].created <= db.trips[sorted[j]].created
    {
      LaterIsYounger(db, sorted, i, j);
    }
    forall t, i | IsStranded(db, cutoff, t) && t !in ids && 0 <= i < |ids|
      ensures db.trips[ids[i]].created <= db.trips[t].created
    {
      var j :| 0 <= j < |sorted| && sorted[j] == t;
      assert ids[i] == sorted[i] && i < j;
    }
  }
}
