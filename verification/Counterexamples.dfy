/** Why the timing assumption is there, and what `advance` leaves behind. */
module Counterexamples {
  import opened Wrappers
  import opened Domain
  import opened Tables
  import opened Protocol
  import opened ProtocolInvariant
  import opened Leading
  import opened OrphanReads

  /** Reached by some run in which nobody calls `advance` at all; matchers may be as late as they like. */
  ghost predicate Reached(s: Sys) {
    exists run: seq<Sys>, acts: seq<Action> :: IsRun(run, acts) && run[|acts|] == s && forall i | 0 <= i < |acts| :: !acts[i].Move?
  }

  lemma ReachedInit(s: Sys)
    requires Init(s)
    ensures Reached(s)
  {
    var acts: seq<Action> := [];
    assert IsRun([s], acts) && [s][|acts|] == s;
  }

  lemma ReachedNext(s: Sys, a: Action, s': Sys)
    requires Reached(s) && Enabled(s, a) && !a.Move? && s' == Next(s, a)
    ensures Reached(s')
  {
    var run: seq<Sys>, acts: seq<Action> :| IsRun(run, acts) && run[|acts|] == s && forall i | 0 <= i < |acts| :: !acts[i].Move?;
    var run', acts' := run + [s'], acts + [a];
    forall i: nat | i < |acts'|
      ensures StepAt(run', acts', i) && !acts'[i].Move?
    {
      if i < |acts| {
        assert StepAt(run, acts, i) && run'[i] == run[i] && run'[i + 1] == run[i + 1] && acts'[i] == acts[i];
      }
    }
    assert IsRun(run', acts') && run'[|acts'|] == s';
  }

  const CORNER := LatLng(0.0, 0.0)
  const T1 := TripId("1")
  const T2 := TripId("2")
  const K1 := Key("1")
  const K2 := Key("2")
  const D := DriverId("d")
  const RIDER := RiderId("r")
  const ASK: Answer := Answer(false, [D], Some(500))
  const LATE := ORPHANED_CLAIM_MS + 1

  function Asking(t: TripId): Snapshot {
    Snapshot(t, RIDER, CORNER, Requested, None, None, 0, 0)
  }

  function Record(key: Key, taken: bool): Row {
    if taken then Row(RIDER, CORNER, Matched, Some(D), Some(500), key, 1, 0)
    else Row(RIDER, CORNER, Requested, None, None, key, 0, 0)
  }

  /** Two trips on one corner, one driver, two matchers. */
  function World(taken1: bool, taken2: bool, claims: map<DriverId, Claim>, queue: seq<TripId>, clock: int,
                 ms: map<nat, Pc>, reaper: ReaperPc): Sys {
    Sys(Db(map[T1 := Record(K1, taken1), T2 := Record(K2, taken2)], claims),
        queue, clock, ms, map[], map[], reaper)
  }

  const EMPTY := Sys(Db(map[], map[]), [], 0, map[], map[], map[], Resting)
  const ASKED := World(false, false, map[], [T1, T2], 0, map[], Resting)

  lemma TwoRidersAsk()
    ensures Reached(ASKED)
  {
    ReachedInit(EMPTY);
    var s1 := EMPTY.(db := Db(map[T1 := Record(K1, false)], map[]), requests := map[0 := T1]);
    assert Next(EMPTY, Post(0, Asking(T1), K1, 0)) == s1;
    ReachedNext(EMPTY, Post(0, Asking(T1), K1, 0), s1);
    var s2 := s1.(queue := [T1], requests := map[]);
    assert Next(s1, Enqueue(0)) == s2;
    ReachedNext(s1, Enqueue(0), s2);
    SecondRiderAsks(s2);
  }

  lemma SecondRiderAsks(s2: Sys)
    requires Reached(s2) && s2 == EMPTY.(db := Db(map[T1 := Record(K1, false)], map[]), queue := [T1])
    ensures Reached(ASKED)
  {
    var s3 := World(false, false, map[], [T1], 0, map[], Resting).(requests := map[0 := T2]);
    assert s2.db.trips[T2 := Record(K2, false)] == s3.db.trips;
    assert !KeyUsed(s2.db, K2);
    assert Next(s2, Post(0, Asking(T2), K2, 0)) == s3;
    ReachedNext(s2, Post(0, Asking(T2), K2, 0), s3);
    assert Next(s3, Enqueue(0)) == ASKED;
    ReachedNext(s3, Enqueue(0), ASKED);
  }

  /** Matcher 0 has claimed driver d for t1 and stalls in its pricing call. */
  const STALLED_PC := Quoting(Asking(T1), D)
  const STALLED := World(false, false, map[D := Claim(T1, 0)], [T2], 0, map[0 := STALLED_PC], Resting)

  lemma ClaimAndStall()
    requires Reached(ASKED)
    ensures Reached(STALLED)
  {
    var s5 := World(false, false, map[], [T2], 0, map[0 := Popped(T1)], Resting);
    assert Next(ASKED, Pop(0)) == s5;
    ReachedNext(ASKED, Pop(0), s5);
    var s6 := World(false, false, map[], [T2], 0, map[0 := Trying(Asking(T1), [D])], Resting);
    assert Next(s5, Match(0, 0, ASK)) == s6;
    ReachedNext(s5, Match(0, 0, ASK), s6);
    assert Next(s6, Match(0, 0, ASK)) == STALLED;
    ReachedNext(s6, Match(0, 0, ASK), STALLED);
  }

  /** The reaper takes the old claim for an orphan and frees the driver. */
  const REAPED := World(false, false, map[], [T2], LATE, map[0 := STALLED_PC], Freeing([]))

  lemma ReaperFreesTheDriver()
    requires Reached(STALLED)
    ensures Reached(REAPED)
  {
    var s1 := STALLED.(clock := LATE);
    ReachedNext(STALLED, Tick(LATE), s1);
    var rows := [OrphanRow(D, T1)];
    assert Orphans(s1.db, LATE - ORPHANED_CLAIM_MS) == {D};
    var s2 := s1.(reaper := Freeing(rows));
    ReachedNext(s1, FindOrphans(LATE - ORPHANED_CLAIM_MS, rows), s2);
    assert rows[1..] == [] && s2.db.claims - {D} == map[];
    ReachedNext(s2, FreeOrphan, REAPED);
  }

  /** Matcher 1 claims the freed driver for t2. */
  const HELD: map<DriverId, Claim> := map[D := Claim(T2, LATE)]
  const RECLAIMED := World(false, false, HELD, [], LATE, map[0 := STALLED_PC, 1 := Quoting(Asking(T2), D)], Freeing([]))

  lemma OtherMatcherClaims()
    requires Reached(REAPED)
    ensures Reached(RECLAIMED)
  {
    var s1 := World(false, false, map[], [], LATE, map[0 := STALLED_PC, 1 := Popped(T2)], Freeing([]));
    assert Next(REAPED, Pop(1)) == s1;
    ReachedNext(REAPED, Pop(1), s1);
    var s2 := s1.(matchers := map[0 := STALLED_PC, 1 := Trying(Asking(T2), [D])]);
    assert Next(s1, Match(1, LATE, ASK)) == s2;
    ReachedNext(s1, Match(1, LATE, ASK), s2);
    assert Next(s2, Match(1, LATE, ASK)) == RECLAIMED;
    ReachedNext(s2, Match(1, LATE, ASK), RECLAIMED);
  }

  /** ... and saves. */
  const DONE2 := Idle(Some(MatchedSnapshot(Asking(T2), D, 500)))
  const SAVED := World(false, true, HELD, [], LATE, map[0 := STALLED_PC, 1 := DONE2], Freeing([]))

  lemma OtherMatcherSaves()
    requires Reached(RECLAIMED)
    ensures Reached(SAVED)
  {
    var s4 := RECLAIMED.(matchers := map[0 := STALLED_PC, 1 := Saving(Asking(T2), D, 500)]);
    assert Next(RECLAIMED, Match(1, LATE, ASK)) == s4;
    ReachedNext(RECLAIMED, Match(1, LATE, ASK), s4);
    assert Next(s4, Match(1, LATE, ASK)) == SAVED;
    ReachedNext(s4, Match(1, LATE, ASK), SAVED);
  }

  /** Matcher 0 wakes up with its fare ... */
  const AWAKE := World(false, true, HELD, [], LATE, map[0 := Saving(Asking(T1), D, 500), 1 := DONE2], Freeing([]))

  lemma LateMatcherWakes()
    requires Reached(SAVED)
    ensures Reached(AWAKE)
  {
    assert Next(SAVED, Match(0, LATE, ASK)) == AWAKE;
    ReachedNext(SAVED, Match(0, LATE, ASK), AWAKE);
  }

  /** ... its version test passes, and the driver is on two trips. */
  const DONE1 := Idle(Some(MatchedSnapshot(Asking(T1), D, 500)))
  const BOTH := World(true, true, HELD, [], LATE, map[0 := DONE1, 1 := DONE2], Freeing([]))

  lemma LateMatcherSaves()
    requires Reached(AWAKE)
    ensures Reached(BOTH)
  {
    assert Next(AWAKE, Match(0, LATE, ASK)) == BOTH;
    ReachedNext(AWAKE, Match(0, LATE, ASK), BOTH);
  }

  /** A matcher that outlives ORPHANED_CLAIM_MS puts one driver on two live trips. */
  lemma LateMatcherDoubleBooks()
    ensures exists s :: Reached(s) && !NoDoubleBooking(s.db)
  {
    TwoRidersAsk();
    ClaimAndStall();
    ReaperFreesTheDriver();
    OtherMatcherClaims();
    OtherMatcherSaves();
    LateMatcherWakes();
    LateMatcherSaves();
    assert BOTH.db.trips[T1].driver == BOTH.db.trips[T2].driver && T1 != T2;
  }

  // ---- a cancelled trip that keeps its claim -----------------------------------------------

  /** A matcher claims the driver, and then its process is killed. */
  lemma ClaimAndCrash(s: Sys, m: nat, p: Snapshot, d: DriverId) returns (s': Sys)
    requires m in s.matchers && s.matchers[m] == Trying(p, [d])
    requires d !in s.db.claims && !TripClaimed(s.db, p.id)
    ensures CanLead(s, s')
    ensures s' == s.(db := s.db.(claims := s.db.claims[d := Claim(p.id, s.clock)]), matchers := s.matchers[m := Idle(None)])
  {
    var go := Match(m, s.clock, OrphanReads.Told(d));
    var s1 := Next(s, go);
    StepLeads(s, go);
    StepLeads(s1, Crash(m));
    s' := Next(s1, Crash(m));
    assert s1.matchers[m := Idle(None)] == s.matchers[m := Idle(None)];
    CanLeadOn(s, s1, s');
  }

  /** The rider's app reads the trip, still REQUESTED, and cancels it. */
  lemma RiderCancels(s: Sys, t: TripId) returns (s': Sys)
    requires t in s.db.trips && s.db.trips[t].state == Requested && s.db.trips[t].driver == None
    ensures CanLead(s, s') && s'.db == s.db.(trips := s.db.trips[t := MovedRow(s.db.trips[t], Cancelled)])
    ensures s'.matchers == s.matchers
  {
    var s1 := Next(s, Read(0, t));
    StepLeads(s, Read(0, t));
    StepLeads(s1, Move(0, Cancelled));
    s' := Next(s1, Move(0, Cancelled));
    assert s.db.claims - {} == s.db.claims;
    CanLeadOn(s, s1, s');
  }

  /** The driver's claim is for a trip that is over, and no running matcher will give it back. */
  ghost predicate LeftClaimed(s: Sys, d: DriverId) {
    && d in s.db.claims && s.db.claims[d].trip in s.db.trips
    && IsTerminal(s.db.trips[s.db.claims[d].trip].state)
    && !Owned(s.matchers, d)
  }

  /** Whenever a driver is free, some run goes on to leave it claimed for a cancelled trip. */
  lemma FreeDriverIsLeftClaimed(s: Sys, d: DriverId) returns (s': Sys)
    requires Inv(s) && d !in s.db.claims
    ensures CanLead(s, s') && LeftClaimed(s', d)
  {
    var s1, t, key := SomebodyAsks(s);
    assert !TripClaimed(s1.db, t);
    var s2, m := MatcherTakesIt(s1, t, d);
    CanLeadOn(s, s1, s2);
    var s3 := ClaimAndCrash(s2, m, SnapshotOf(t, s1.db.trips[t]), d);
    CanLeadOn(s, s2, s3);
    s' := RiderCancels(s3, t);
    CanLeadOn(s, s3, s');
    forall n | n in s'.matchers && Held(s'.matchers[n]).Some?
      ensures Held(s'.matchers[n]).value.0 != d
    {
      assert n != m && s'.matchers[n] == s.matchers[n];
      assert HoldOk(s.db, s.matchers[n]);
    }
    TerminalStates(Cancelled);
  }

  /** So it happens: an honest run reaches a state with a claim on a trip that is over. */
  lemma ClaimOutlivesItsTrip()
    ensures exists s :: Reachable(s) && LeftClaimed(s, D)
  {
    var run: seq<Sys>, acts: seq<Action> := [EMPTY], [];
    assert HonestRun(run, acts) && run[|acts|] == EMPTY;
    ReachableIsSafe(EMPTY);
    var s' := FreeDriverIsLeftClaimed(EMPTY, D);
    LedFromReachable(EMPTY, s');
  }
}
