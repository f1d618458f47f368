/** What a call of `match_once` achieves when nobody interferes. */
module MatchOutcomes {
  import opened Wrappers
  import opened Domain
  import opened Tables
  import opened Protocol
  import opened Interference
  import opened Matching
  import opened Reaping
  import opened Geo

  /** Trying the candidates from i on, when every earlier one was refused. */
  lemma {:induction false} RefusedTries(p: Snapshot, tries: seq<DriverId>, i: nat, db: Db, now: int,
                                        candidates: seq<DriverId>, fares: DriverId -> Option<int>, k: nat)
    requires i <= |tries| && forall j | 0 <= j < i :: InsertClaim(db, tries[j], p.id, now).None?
    ensures Drive(Trying(p, tries), db, k, Quiet(now), candidates, fares)
            == Drive(Trying(p, tries[i..]), db, k + i, Quiet(now), candidates, fares)
  {
    if i == 0 {
      assert tries[0..] == tries;
    } else {
      RefusedTries(p, tries, i - 1, db, now, candidates, fares, k);
      OneTurn(Trying(p, tries[i - 1..]), db, k + i - 1, Quiet(now), candidates, fares);
      assert tries[i - 1..][1..] == tries[i..];
    }
  }

  /** A waiting trip with candidates goes into the claim loop. */
  lemma StartsTrying(db: Db, t: TripId, now: int, candidates: seq<DriverId>, fares: DriverId -> Option<int>)
    requires t in db.trips && db.trips[t].state == Requested && candidates != []
    ensures Drive(Popped(t), db, 0, Quiet(now), candidates, fares)
            == Drive(Trying(SnapshotOf(t, db.trips[t]), FirstFive(candidates)), db, 1, Quiet(now), candidates, fares)
  {
    OneTurn(Popped(t), db, 0, Quiet(now), candidates, fares);
  }

  /** The tables with the trip matched to the driver: one row changed, one claim added. */
  function MatchedTo(db: Db, t: TripId, d: DriverId, fare: int, now: int): Db
    requires t in db.trips
  {
    var row := db.trips[t].(state := Matched, driver := Some(d), fare := Some(fare), version := db.trips[t].version + 1);
    Db(db.trips[t := row], db.claims[d := Claim(t, now)])
  }

  /** d is the i-th of the first five candidates and the first of them that is free. */
  predicate FirstFree(db: Db, candidates: seq<DriverId>, i: nat) {
    && i < |candidates| && i < 5
    && candidates[i] !in db.claims
    && forall j | 0 <= j < i :: candidates[j] in db.claims
  }

  /** A waiting, unclaimed trip is matched to the first free driver among the first five, at the quoted fare. */
  lemma FirstFreeDriverIsMatched(db: Db, t: TripId, now: int, candidates: seq<DriverId>, fares: DriverId -> Option<int>, i: nat)
    requires t in db.trips && db.trips[t].state == Requested && !TripClaimed(db, t)
    requires FirstFree(db, candidates, i) && fares(candidates[i]).Some?
    ensures var d, fare := candidates[i], fares(candidates[i]).value;
            Drive(Popped(t), db, 0, Quiet(now), candidates, fares)
            == (Idle(Some(MatchedSnapshot(SnapshotOf(t, db.trips[t]), d, fare))), MatchedTo(db, t, d, fare, now))
  {
    var p, d, tries, g := SnapshotOf(t, db.trips[t]), candidates[i], FirstFive(candidates), Quiet(now);
    StartsTrying(db, t, now, candidates, fares);
    RefusedTries(p, tries, i, db, now, candidates, fares, 1);
    var claimed := InsertClaim(db, d, t, now).value;
    OneTurn(Trying(p, tries[i..]), db, 1 + i, g, candidates, fares);
    OneTurn(Quoting(p, d), claimed, 2 + i, g, candidates, fares);
    OneTurn(Saving(p, d, fares(d).value), claimed, 3 + i, g, candidates, fares);
  }

  lemma ReleaseRestores(db: Db, t: TripId, d: DriverId, now: int, k: nat, candidates: seq<DriverId>, fares: DriverId -> Option<int>)
    requires InsertClaim(db, d, t, now).Some?
    ensures Drive(Releasing(t, d, false), InsertClaim(db, d, t, now).value, k, Quiet(now), candidates, fares) == (Failing(t), db)
  {
    var claimed := InsertClaim(db, d, t, now).value;
    assert claimed.claims - {d} == db.claims;
    OneTurn(Releasing(t, d, false), claimed, k, Quiet(now), candidates, fares);
  }

  /** A quote that raises gives the claim back: the tables are as before and the trip is re-queued. */
  lemma FailedQuoteRestores(db: Db, t: TripId, now: int, candidates: seq<DriverId>, fares: DriverId -> Option<int>, i: nat)
    requires t in db.trips && db.trips[t].state == Requested && !TripClaimed(db, t)
    requires FirstFree(db, candidates, i) && fares(candidates[i]).None?
    ensures Drive(Popped(t), db, 0, Quiet(now), candidates, fares) == (Failing(t), db)
  {
    var p, d, tries, g := SnapshotOf(t, db.trips[t]), candidates[i], FirstFive(candidates), Quiet(now);
    StartsTrying(db, t, now, candidates, fares);
    RefusedTries(p, tries, i, db, now, candidates, fares, 1);
    var claimed := InsertClaim(db, d, t, now).value;
    OneTurn(Trying(p, tries[i..]), db, 1 + i, g, candidates, fares);
    OneTurn(Quoting(p, d), claimed, 2 + i, g, candidates, fares);
    ReleaseRestores(db, t, d, now, 3 + i, candidates, fares);
  }

  /** When the trip is claimed already, or none of the first five is free, nothing happens. */
  lemma NobodyFreeChangesNothing(db: Db, t: TripId, now: int, candidates: seq<DriverId>, fares: DriverId -> Option<int>)
    requires t in db.trips && db.trips[t].state == Requested
    requires TripClaimed(db, t) || forall j | 0 <= j < |candidates| && j < 5 :: candidates[j] in db.claims
    ensures Drive(Popped(t), db, 0, Quiet(now), candidates, fares) == (Idle(None), db)
  {
    var p, tries, g := SnapshotOf(t, db.trips[t]), FirstFive(candidates), Quiet(now);
    OneTurn(Popped(t), db, 0, g, candidates, fares);
    if candidates != [] {
      RefusedTries(p, tries, |tries|, db, now, candidates, fares, 1);
      OneTurn(Trying(p, []), db, 1 + |tries|, g, candidates, fares);
      assert tries[|tries|..] == [];
    }
  }

  /** A second delivery of the id does nothing: the trip has left REQUESTED, or does not exist. */
  lemma RedeliveryIsHarmless(db: Db, t: TripId, now: int, candidates: seq<DriverId>, fares: DriverId -> Option<int>)
    requires t in db.trips ==> db.trips[t].state != Requested
    ensures Drive(Popped(t), db, 0, Quiet(now), candidates, fares) == (Idle(Get(db, t)), db)
  {
    OneTurn(Popped(t), db, 0, Quiet(now), candidates, fares);
  }

  /** However it is interfered with, `match_once` ends: it returns or it raises. */
  lemma {:induction false} DriveEnds(pc: Pc, db: Db, k: nat, g: Gaps, candidates: seq<DriverId>, fares: DriverId -> Option<int>)
    ensures var end := Drive(pc, db, k, g, candidates, fares).0; end.Idle? || end.Failing?
    decreases Rank(pc)
  {
    if !pc.Idle? && !pc.Failing? {
      var (pc', db') := Turn(pc, db, k, g, candidates, fares);
      OneTurn(pc, db, k, g, candidates, fares);
      DriveEnds(pc', db', k + 1, g, candidates, fares);
    }
  }

  // ---- all or nothing ----------------------------------------------------------------------

  /** Nobody else commits; operations may still raise. */
  ghost predicate Alone(g: Gaps) {
    forall k, db :: g.others(k, db) == db
  }

  /** From its k-th move on the call gets to a `release_driver` that raises. */
  predicate ReleaseRaises(pc: Pc, db: Db, k: nat, g: Gaps, candidates: seq<DriverId>, fares: DriverId -> Option<int>)
    decreases Rank(pc)
  {
    if pc.Idle? || pc.Failing? then false
    else if pc.Releasing? && !g.up(k) then true
    else
      var (pc', db') := Turn(pc, db, k, g, candidates, fares);
      ReleaseRaises(pc', db', k + 1, g, candidates, fares)
  }

  /** How the call ends, and whether a release raised on the way. */
  function Ends(pc: Pc, db: Db, k: nat, g: Gaps, candidates: seq<DriverId>, fares: DriverId -> Option<int>): (Pc, Db, bool) {
    var (end, db') := Drive(pc, db, k, g, candidates, fares);
    (end, db', ReleaseRaises(pc, db, k, g, candidates, fares))
  }

  lemma OneMove(pc: Pc, db: Db, k: nat, g: Gaps, candidates: seq<DriverId>, fares: DriverId -> Option<int>)
    requires !pc.Idle? && !pc.Failing? && !(pc.Releasing? && !g.up(k))
    ensures var (pc', db') := Turn(pc, db, k, g, candidates, fares);
            Ends(pc, db, k, g, candidates, fares) == Ends(pc', db', k + 1, g, candidates, fares)
  {
    OneTurn(pc, db, k, g, candidates, fares);
  }

  /** A claim for the trip is there that was not, and nothing else changed. */
  ghost predicate LeftClaim(db: Db, t: TripId, db': Db) {
    exists d, at :: d !in db.claims && db' == db.(claims := db.claims[d := Claim(t, at)])
  }

  /** The trip is matched, with the claim to go with it, and nothing else changed. */
  ghost predicate NowMatched(db: Db, t: TripId, db': Db)
    requires t in db.trips
  {
    exists d, fare, at :: d !in db.claims && db' == MatchedTo(db, t, d, fare, at)
  }

  /** Matched, as it was, or, exactly when a release raised, with one claim left behind. */
  ghost predicate AllOrNothing(db: Db, t: TripId, ends: (Pc, Db, bool))
    requires t in db.trips
  {
    if ends.2 then ends.0 == Failing(t) && LeftClaim(db, t, ends.1)
    else ends.1 == db || (ends.0.Idle? && NowMatched(db, t, ends.1))
  }

  /** Giving the claim back. */
  lemma AloneReleasing(db: Db, t: TripId, d: DriverId, at: int, k: nat, g: Gaps, candidates: seq<DriverId>, fares: DriverId -> Option<int>)
    requires Alone(g) && t in db.trips && d !in db.claims
    ensures AllOrNothing(db, t, Ends(Releasing(t, d, false), db.(claims := db.claims[d := Claim(t, at)]), k, g, candidates, fares))
  {
    var claimed := db.(claims := db.claims[d := Claim(t, at)]);
    OneTurn(Releasing(t, d, false), claimed, k, g, candidates, fares);
    assert g.others(k, claimed) == claimed;
    if g.up(k) {
      OneMove(Releasing(t, d, false), claimed, k, g, candidates, fares);
      assert claimed.claims - {d} == db.claims;
    }
  }

  /** From the save on: the version test cannot fail, as nobody touches the row. */
  lemma AloneSaving(db: Db, p: Snapshot, d: DriverId, fare: int, at: int, k: nat, g: Gaps,
                    candidates: seq<DriverId>, fares: DriverId -> Option<int>)
    requires Alone(g) && d !in db.claims
    requires p.id in db.trips && p == SnapshotOf(p.id, db.trips[p.id]) && p.state == Requested
    ensures AllOrNothing(db, p.id, Ends(Saving(p, d, fare), db.(claims := db.claims[d := Claim(p.id, at)]), k, g, candidates, fares))
  {
    var claimed := db.(claims := db.claims[d := Claim(p.id, at)]);
    OneMove(Saving(p, d, fare), claimed, k, g, candidates, fares);
    assert g.others(k, claimed) == claimed;
    if g.up(k) {
      var db' := MatchedTo(db, p.id, d, fare, at);
      assert Turn(Saving(p, d, fare), claimed, k, g, candidates, fares) == (Idle(Some(MatchedSnapshot(p, d, fare))), db');
    } else {
      AloneReleasing(db, p.id, d, at, k + 1, g, candidates, fares);
    }
  }

  /** From the quote on. */
  lemma AloneQuoting(db: Db, p: Snapshot, d: DriverId, at: int, k: nat, g: Gaps,
                     candidates: seq<DriverId>, fares: DriverId -> Option<int>)
    requires Alone(g) && d !in db.claims
    requires p.id in db.trips && p == SnapshotOf(p.id, db.trips[p.id]) && p.state == Requested
    ensures AllOrNothing(db, p.id, Ends(Quoting(p, d), db.(claims := db.claims[d := Claim(p.id, at)]), k, g, candidates, fares))
  {
    var claimed := db.(claims := db.claims[d := Claim(p.id, at)]);
    OneMove(Quoting(p, d), claimed, k, g, candidates, fares);
    assert g.others(k, claimed) == claimed;
    match fares(d)
    case None => AloneReleasing(db, p.id, d, at, k + 1, g, candidates, fares);
    case Some(fare) => AloneSaving(db, p, d, fare, at, k + 1, g, candidates, fares);
  }

  /** From the claim loop on. */
  lemma {:induction false} AloneTrying(db: Db, p: Snapshot, rest: seq<DriverId>, k: nat, g: Gaps,
                                       candidates: seq<DriverId>, fares: DriverId -> Option<int>)
    requires Alone(g)
    requires p.id in db.trips && p == SnapshotOf(p.id, db.trips[p.id]) && p.state == Requested
    ensures AllOrNothing(db, p.id, Ends(Trying(p, rest), db, k, g, candidates, fares))
    decreases |rest|
  {
    OneMove(Trying(p, rest), db, k, g, candidates, fares);
    assert g.others(k, db) == db;
    if rest != [] && g.up(k) {
      if InsertClaim(db, rest[0], p.id, g.now(k)).Some? {
        AloneQuoting(db, p, rest[0], g.now(k), k + 1, g, candidates, fares);
      } else {
        AloneTrying(db, p, rest[1..], k + 1, g, candidates, fares);
      }
    }
  }

  /**
   * With nobody else at work, whatever operations raise: a call ends with the trip matched, or with the
   * tables as they were, or, exactly when its release raises, with its claim left for the reaper.
   */
  lemma AloneAllOrNothing(db: Db, t: TripId, g: Gaps, candidates: seq<DriverId>, fares: DriverId -> Option<int>)
    requires Alone(g) && t in db.trips
    ensures AllOrNothing(db, t, Ends(Popped(t), db, 0, g, candidates, fares))
  {
    OneMove(Popped(t), db, 0, g, candidates, fares);
    assert g.others(0, db) == db;
    if g.up(0) && db.trips[t].state == Requested && candidates != [] {
      AloneTrying(db, SnapshotOf(t, db.trips[t]), FirstFive(candidates), 1, g, candidates, fares);
    }
  }

  /** The driver is working for some live trip. */
  predicate OnLiveTrip(db: Db, d: DriverId) {
    exists u | u in db.trips :: Live(db.trips[u].state) && db.trips[u].driver == Some(d)
  }

  /** In a reconciled ledger a driver is claimed exactly while on a live trip, and a waiting trip is unclaimed. */
  lemma ReconciledLedger(db: Db, d: DriverId, t: TripId)
    requires DbInv(db) && ClaimPairs(db) == LivePairs(db)
    ensures d in db.claims <==> OnLiveTrip(db, d)
    ensures t in db.trips && db.trips[t].state == Requested ==> !TripClaimed(db, t)
  {
    if OnLiveTrip(db, d) {
      var u :| u in db.trips && Live(db.trips[u].state) && db.trips[u].driver == Some(d);
      assert HeldFor(db, u);
    }
    forall e | e in db.claims
      ensures OnLiveTrip(db, e) && Live(db.trips[db.claims[e].trip].state)
    {
      assert (e, db.claims[e].trip) in ClaimPairs(db);
      assert (e, db.claims[e].trip) in LivePairs(db);
    }
  }

  /**
   * After the sweeps a waiting rider gets the first driver among the first five who is on no live trip:
   * neither a crashed matcher's claim on the trip nor one on the driver is in the way any more.
   */
  lemma RecoveredRiderIsMatched(db: Db, t: TripId, now: int, candidates: seq<DriverId>, fares: DriverId -> Option<int>, i: nat)
    requires DbInv(db) && ClaimPairs(db) == LivePairs(db)
    requires t in db.trips && db.trips[t].state == Requested
    requires i < |candidates| && i < 5 && fares(candidates[i]).Some?
    requires !OnLiveTrip(db, candidates[i]) && forall j | 0 <= j < i :: OnLiveTrip(db, candidates[j])
    ensures var d, fare := candidates[i], fares(candidates[i]).value;
            Drive(Popped(t), db, 0, Quiet(now), candidates, fares)
            == (Idle(Some(MatchedSnapshot(SnapshotOf(t, db.trips[t]), d, fare))), MatchedTo(db, t, d, fare, now))
  {
    ReconciledLedger(db, candidates[i], t);
    forall j | 0 <= j < i
      ensures candidates[j] in db.claims
    {
      ReconciledLedger(db, candidates[j], t);
    }
    FirstFreeDriverIsMatched(db, t, now, candidates, fares, i);
  }

  /**
   * The driver such a call settles on is the nearest free one: among the five tried, and, when the
   * answering ring holds no more than five, among all fresh drivers of that ring.
   */
  lemma FirstFreeIsNearestFree(db: Db, drivers: map<DriverId, Driver>, chosen: set<DriverId>, pickup: LatLng, distance: Distance,
                               list: seq<(Driver, real)>, i: nat)
    requires chosen <= drivers.Keys && Ranking(drivers, chosen, pickup, distance, list)
    requires forall d | d in drivers :: drivers[d].id == d
    requires FirstFree(db, Ids(list), i)
    ensures forall j | 0 <= j < |list| && j < 5 && Ids(list)[j] !in db.claims :: list[i].1 <= list[j].1
    ensures |list| <= 5 ==>
              forall d | d in chosen && d !in db.claims :: list[i].1 <= distance(pickup, drivers[d].position)
  {
    forall j | 0 <= j < |list| && Ids(list)[j] !in db.claims
      ensures list[i].1 <= list[j].1
    {
      assert Metres(list[i]) == list[i].1 && Metres(list[j]) == list[j].1;
      assert i <= j;
    }
    forall d | d in chosen && d !in db.claims
      ensures list[i].1 <= distance(pickup, drivers[d].position)
    {
      assert Ranked(drivers[d], pickup, distance) in list;
      var j :| 0 <= j < |list| && list[j] == Ranked(drivers[d], pickup, distance);
      assert Ids(list)[j] == d;
    }
  }
}
