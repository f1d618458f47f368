/** What holds along every run of the protocol: all interleavings, crashes, lost queues and failures. */
module ProtocolTheorems {
  import opened Wrappers
  import opened Domain
  import opened Tables
  import opened TableLaws
  import opened Protocol
  import opened ProtocolInvariant

  lemma {:induction false} RunKeeps(run: seq<Sys>, acts: seq<Action>, i: nat)
    requires HonestRun(run, acts) && i < |run|
    ensures Inv(run[i])
  {
    if i == 0 {
      InitOk(run[0]);
    } else {
      RunKeeps(run, acts, i - 1);
      assert StepAt(run, acts, i - 1) && AssumedAt(run, acts, i - 1);
      StepKeeps(run[i - 1], acts[i - 1]);
    }
  }

  lemma RunMoves(run: seq<Sys>, acts: seq<Action>, i: nat)
    requires HonestRun(run, acts) && i < |acts|
    ensures Inv(run[i]) && Inv(run[i + 1]) && DbStep(run[i].db, run[i + 1].db)
  {
    RunKeeps(run, acts, i);
    RunKeeps(run, acts, i + 1);
    assert StepAt(run, acts, i) && AssumedAt(run, acts, i);
    StepMovesRows(run[i], acts[i]);
  }

  /** The same for one row, with nothing else in view. */
  lemma RowMoves(run: seq<Sys>, acts: seq<Action>, i: nat, t: TripId)
    requires HonestRun(run, acts) && i < |acts| && t in run[i].db.trips
    ensures t in run[i + 1].db.trips && RowOk(run[i].db.trips[t]) && RowStep(run[i].db.trips[t], run[i + 1].db.trips[t])
  {
    RunMoves(run, acts, i);
  }

  // ---- no driver on two trips --------------------------------------------------------------

  /** In every reachable state a live trip's driver is claimed for it, so no driver is on two live trips. */
  lemma NoDriverOnTwoLiveTrips(run: seq<Sys>, acts: seq<Action>, i: nat)
    requires HonestRun(run, acts) && i < |run|
    ensures NoDoubleBooking(run[i].db)
    ensures forall t | t in run[i].db.trips && Live(run[i].db.trips[t].state) :: HeldFor(run[i].db, t)
  {
    RunKeeps(run, acts, i);
    InvMeansNoDoubleBooking(run[i].db);
  }

  /** A matcher that gets ConcurrentUpdate was holding a claim for a trip that is already over. */
  lemma ConflictMeansTripIsOver(run: seq<Sys>, acts: seq<Action>, i: nat, m: nat, at: int, a: Answer)
    requires HonestRun(run, acts) && i < |acts| && acts[i] == Match(m, at, a)
    requires PcOf(run[i], m).Saving?
    ensures var pc := PcOf(run[i], m);
            && pc.snap.id in run[i].db.trips
            && (PcOf(run[i + 1], m) == Releasing(pc.snap.id, pc.driver, true) ==>
                  var now := run[i].db.trips[pc.snap.id].state; now == Complete || now == Cancelled)
            && (!a.fault && run[i].db.trips[pc.snap.id].state == Requested ==>
                  PcOf(run[i + 1], m).Idle? && HasDriver(run[i + 1].db, pc.snap.id))
            && (!a.fault && run[i].db.trips[pc.snap.id].state != Requested ==>
                  PcOf(run[i + 1], m) == Releasing(pc.snap.id, pc.driver, true) && run[i + 1].db == run[i].db)
  {
    RunKeeps(run, acts, i);
    assert StepAt(run, acts, i) && m in run[i].matchers;
    SaveOutcome(run[i].db, PcOf(run[i], m), at, a);
  }

  lemma SaveOutcome(db: Db, pc: Pc, now: int, a: Answer)
    requires DbInv(db) && PcOk(db, pc) && HoldOk(db, pc) && pc.Saving?
    ensures var (pc', db') := MatcherStep(pc, db, now, a);
            && (pc' == Releasing(pc.snap.id, pc.driver, true) ==>
                  db.trips[pc.snap.id].state == Complete || db.trips[pc.snap.id].state == Cancelled)
            && (!a.fault && db.trips[pc.snap.id].state == Requested ==> pc'.Idle? && HasDriver(db', pc.snap.id))
            && (!a.fault && db.trips[pc.snap.id].state != Requested ==>
                  pc' == Releasing(pc.snap.id, pc.driver, true) && db' == db)
  {
    assert RowOk(db.trips[pc.snap.id]);
  }

  /** From there, without a fault, the claim is deleted and the trip is read again as its row then stands. */
  lemma ConflictIsReread(run: seq<Sys>, acts: seq<Action>, i: nat, m: nat, at: int, a: Answer)
    requires HonestRun(run, acts) && i < |acts| && acts[i] == Match(m, at, a) && !a.fault
    ensures var (pc, pc', db, db') := (PcOf(run[i], m), PcOf(run[i + 1], m), run[i].db, run[i + 1].db);
            && (pc.Releasing? && pc.lost ==>
                  pc' == Rereading(pc.trip) && db'.trips == db.trips && db'.claims == db.claims - {pc.driver})
            && (pc.Rereading? ==>
                  && db' == db && pc.trip in db.trips && pc'.Idle? && pc'.last.Some?
                  && pc'.last.value.id == pc.trip && pc'.last.value.state == db.trips[pc.trip].state
                  && IsTerminal(pc'.last.value.state)
                  && pc'.last.value.driver == db.trips[pc.trip].driver && pc'.last.value.version == db.trips[pc.trip].version)
  {
    RunKeeps(run, acts, i);
    assert StepAt(run, acts, i) && m in run[i].matchers;
    RereadOutcome(run[i].db, PcOf(run[i], m), at, a);
  }

  lemma RereadOutcome(db: Db, pc: Pc, now: int, a: Answer)
    requires PcOk(db, pc) && !a.fault
    ensures var (pc', db') := MatcherStep(pc, db, now, a);
            && (pc.Releasing? && pc.lost ==>
                  pc' == Rereading(pc.trip) && db'.trips == db.trips && db'.claims == db.claims - {pc.driver})
            && (pc.Rereading? ==>
                  && db' == db && pc.trip in db.trips && pc'.Idle? && pc'.last.Some?
                  && pc'.last.value.id == pc.trip && pc'.last.value.state == db.trips[pc.trip].state
                  && IsTerminal(pc'.last.value.state)
                  && pc'.last.value.driver == db.trips[pc.trip].driver && pc'.last.value.version == db.trips[pc.trip].version)
  {
  }

  /**
   * When a matcher lets go of its claim, the row is still there in exactly two cases: the save committed,
   * and the claim goes with a live trip; or the release raised, and the claim is the reaper's to delete.
   */
  lemma ClaimLeftIff(run: seq<Sys>, acts: seq<Action>, i: nat, m: nat, at: int, a: Answer)
    requires HonestRun(run, acts) && i < |acts| && acts[i] == Match(m, at, a)
    requires Held(PcOf(run[i], m)).Some? && Held(PcOf(run[i + 1], m)).None?
    ensures var ((d, t), pc', db') := (Held(PcOf(run[i], m)).value, PcOf(run[i + 1], m), run[i + 1].db);
            && t in db'.trips
            && (d in db'.claims <==> pc'.Idle? || a.fault)
            && (d in db'.claims ==> db'.claims[d].trip == t)
            && (pc'.Idle? ==> db'.trips[t].state == Matched && db'.trips[t].driver == Some(d))
            && (!pc'.Idle? ==> !Live(db'.trips[t].state))
  {
    RunKeeps(run, acts, i);
    assert StepAt(run, acts, i) && m in run[i].matchers;
    LettingGo(run[i].db, PcOf(run[i], m), at, a);
  }

  lemma LettingGo(db: Db, pc: Pc, now: int, a: Answer)
    requires DbInv(db) && PcOk(db, pc) && HoldOk(db, pc) && Held(pc).Some?
    requires Held(MatcherStep(pc, db, now, a).0).None?
    ensures var ((d, t), (pc', db')) := (Held(pc).value, MatcherStep(pc, db, now, a));
            && t in db'.trips
            && (d in db'.claims <==> pc'.Idle? || a.fault)
            && (d in db'.claims ==> db'.claims[d].trip == t)
            && (pc'.Idle? ==> db'.trips[t].state == Matched && db'.trips[t].driver == Some(d))
            && (!pc'.Idle? ==> !Live(db'.trips[t].state))
  {
    match pc
    case Saving(p, d, fare) =>
    case Releasing(t, d, lost) =>
  }

  /** Whoever deletes a claim row, matcher, reaper or app, its trip is not live afterwards. */
  lemma ClaimsGoOnlyWithTheirTrip(run: seq<Sys>, acts: seq<Action>, i: nat, d: DriverId)
    requires HonestRun(run, acts) && i < |acts|
    requires d in run[i].db.claims && d !in run[i + 1].db.claims
    ensures run[i].db.claims[d].trip in run[i].db.trips && run[i].db.claims[d].trip in run[i + 1].db.trips
    ensures !Live(run[i + 1].db.trips[run[i].db.claims[d].trip].state)
    ensures !acts[i].Move? ==> !Live(run[i].db.trips[run[i].db.claims[d].trip].state)
  {
    RunKeeps(run, acts, i);
    RunKeeps(run, acts, i + 1);
    var t := run[i].db.claims[d].trip;
    RowMoves(run, acts, i, t);
    assert StepAt(run, acts, i);
    ClaimsGrowOrShrink(run[i], acts[i]);
    GoneMeansUnclaimed(run[i].db, run[i + 1].db, d);
    LiveTripNeedsClaim(run[i + 1].db, t);
    if !acts[i].Move? && Live(run[i].db.trips[t].state) {
      StaysLive(run[i], acts[i], t);
    }
  }

  /** With the claims' trip ids unique, a trip whose claim goes has none left. */
  lemma GoneMeansUnclaimed(db: Db, db': Db, d: DriverId)
    requires ClaimsUnique(db) && GrowOrShrink(db, db') && d in db.claims && d !in db'.claims
    ensures !TripClaimed(db', db.claims[d].trip)
  {
  }

  /** A trip that no claim names is not live. */
  lemma LiveTripNeedsClaim(db: Db, t: TripId)
    requires DbInv(db) && t in db.trips && !TripClaimed(db, t)
    ensures !Live(db.trips[t].state)
  {
    assert Live(db.trips[t].state) ==> HeldFor(db, t);
  }

  /** No step both deletes a claim and inserts or changes one. */
  ghost predicate GrowOrShrink(db: Db, db': Db) {
    || (forall e | e in db'.claims :: e in db.claims && db'.claims[e] == db.claims[e])
    || (forall e | e in db.claims :: e in db'.claims && db'.claims[e] == db.claims[e])
  }

  lemma MatcherGrowsOrShrinks(pc: Pc, db: Db, now: int, a: Answer)
    ensures GrowOrShrink(db, MatcherStep(pc, db, now, a).1)
  {
    match pc
    case Trying(p, rest) =>
    case Saving(p, d, fare) =>
    case Releasing(t, d, lost) =>
    case _ =>
  }

  lemma ClaimsGrowOrShrink(s: Sys, a: Action)
    requires Enabled(s, a)
    ensures GrowOrShrink(s.db, Next(s, a).db)
  {
    match a
    case Match(m, at, answer) => MatcherGrowsOrShrinks(PcOf(s, m), s.db, at, answer);
    case Post(_, _, _, _) =>
    case Move(_, _) =>
    case FreeOrphan =>
    case _ => OthersCommitNothing(s, a);
  }

  /** Only `advance` takes a trip out of the live states. */
  lemma StaysLive(s: Sys, a: Action, t: TripId)
    requires Enabled(s, a) && !a.Move? && t in s.db.trips && Live(s.db.trips[t].state)
    ensures t in Next(s, a).db.trips && Live(Next(s, a).db.trips[t].state)
  {
    match a
    case Match(m, at, answer) => MatcherMovesToMatched(PcOf(s, m), s.db, at, answer, t);
    case Post(_, _, _, _) =>
    case FreeOrphan =>
    case _ => OthersCommitNothing(s, a);
  }

  /** A matcher changes rows only by a save: one row, to MATCHED, with its driver and fare. */
  lemma MatcherMovesToMatched(pc: Pc, db: Db, now: int, a: Answer, t: TripId)
    requires t in db.trips
    ensures var db' := MatcherStep(pc, db, now, a).1;
            && t in db'.trips
            && (db'.trips[t] == db.trips[t]
                || (pc.Saving? && pc.snap.id == t && db'.trips[t].state == Matched && db'.trips[t].driver == Some(pc.driver)))
  {
  }

  /** The reaper's worklist never goes stale: the rows stay claims of dead trips that nobody holds. */
  lemma WorklistStaysOrphaned(run: seq<Sys>, acts: seq<Action>, i: nat, k: nat)
    requires HonestRun(run, acts) && i < |run|
    requires run[i].reaper.Freeing? && k < |run[i].reaper.rows|
    ensures RowStillOrphan(run[i].db, run[i].matchers, run[i].reaper.rows[k])
  {
    RunKeeps(run, acts, i);
  }

  /** ... and they are the very rows that were read: no step of anybody rewrites one in the meantime. */
  lemma WorklistClaimsUntouched(run: seq<Sys>, acts: seq<Action>, i: nat, k: nat)
    requires HonestRun(run, acts) && i < |acts|
    requires run[i + 1].reaper.Freeing? && k < |run[i + 1].reaper.rows|
    ensures var d := run[i + 1].reaper.rows[k].driver;
            d in run[i].db.claims && d in run[i + 1].db.claims && run[i + 1].db.claims[d] == run[i].db.claims[d]
  {
    assert StepAt(run, acts, i) && AssumedAt(run, acts, i);
    RunKeeps(run, acts, i);
    StepSparesWorklist(run[i], acts[i], k);
  }

  /** The same for one step of a system in which the invariant holds. */
  lemma StepSparesWorklist(s: Sys, a: Action, k: nat)
    requires Inv(s) && Enabled(s, a) && Assumed(s, a)
    requires Next(s, a).reaper.Freeing? && k < |Next(s, a).reaper.rows|
    ensures var s' := Next(s, a);
            var d := s'.reaper.rows[k].driver;
            d in s.db.claims && d in s'.db.claims && s'.db.claims[d] == s.db.claims[d]
  {
    StepKeeps(s, a);
    PendingIsOrphan(Next(s, a), k);
    WorklistShrinks(s, a);
    if s.reaper.Freeing? {
      PendingIsOrphan(s, if a.FreeOrphan? then k + 1 else k);
    }
    ClaimsGrowOrShrink(s, a);
  }

  lemma PendingIsOrphan(s: Sys, k: nat)
    requires Inv(s) && s.reaper.Freeing? && k < |s.reaper.rows|
    ensures s.reaper.rows[k].driver in s.db.claims
  {
    assert RowStillOrphan(s.db, s.matchers, s.reaper.rows[k]);
  }

  /** The reaper is still at the worklist it read in step i. */
  ghost predicate StillFreeing(run: seq<Sys>, i: nat, n: nat)
    requires i < n < |run|
  {
    forall l | i < l <= n :: run[l].reaper.Freeing?
  }

  /**
   * `release_driver` names no trip, yet every release of a sweep deletes the very claim its SELECT
   * read: until its turn comes each row read is in the table with the trip and the time it had then.
   */
  lemma {:induction false} ReleasesHitTheClaimsRead(run: seq<Sys>, acts: seq<Action>, i: nat, n: nat, k: nat)
    requires HonestRun(run, acts) && i < n < |run| && acts[i].FindOrphans?
    requires StillFreeing(run, i, n) && k < |run[n].reaper.rows|
    ensures var row := run[n].reaper.rows[k];
            && row in acts[i].rows
            && row.driver in run[i].db.claims && run[i].db.claims[row.driver].trip == row.trip
            && row.driver in run[n].db.claims && run[n].db.claims[row.driver] == run[i].db.claims[row.driver]
  {
    assert StepAt(run, acts, n - 1);
    WorklistClaimsUntouched(run, acts, n - 1, k);
    WorklistStaysOrphaned(run, acts, n, k);
    WorklistShrinks(run[n - 1], acts[n - 1]);
    if n - 1 > i {
      var k' := if acts[n - 1].FreeOrphan? then k + 1 else k;
      assert run[n].reaper.rows[k] == run[n - 1].reaper.rows[k'];
      ReleasesHitTheClaimsRead(run, acts, i, n - 1, k');
    }
  }

  /** Some step between i and n pushed the id. */
  ghost predicate PushedBetween(run: seq<Sys>, acts: seq<Action>, i: nat, n: nat, t: TripId)
    requires |run| == |acts| + 1 && n < |run|
  {
    exists l | i <= l < n :: acts[l].PushStranded? && run[l + 1].queue == run[l].queue + [t]
  }

  /** One step of a reaper that is pushing and does not fail. */
  lemma PushingGoesOn(s: Sys, a: Action)
    requires Enabled(s, a) && s.reaper.Requeueing? && !a.ReaperFails?
    ensures var s' := Next(s, a);
            if !a.PushStranded? then s'.reaper == s.reaper
            else if s.reaper.ids == [] then s'.reaper == Resting
            else s'.reaper == Requeueing(s.reaper.ids[1..]) && s'.queue == s.queue + [s.reaper.ids[0]]
  {
  }

  /** While the reaper pushes, the ids it has got past are pushed. */
  lemma {:induction false} PushingPushes(run: seq<Sys>, acts: seq<Action>, i: nat, n: nat) returns (p: nat)
    requires IsRun(run, acts) && i < n < |run| && acts[i].FindStranded?
    requires forall l | i < l <= n :: run[l].reaper.Requeueing?
    requires forall l | i < l < n :: !acts[l].ReaperFails?
    ensures p <= |acts[i].ids| && run[n].reaper == Requeueing(acts[i].ids[p..])
    ensures forall k | 0 <= k < p :: PushedBetween(run, acts, i, n, acts[i].ids[k])
  {
    var ids := acts[i].ids;
    assert StepAt(run, acts, n - 1);
    if n - 1 == i {
      assert ids[0..] == ids;
      return 0;
    }
    p := PushingPushes(run, acts, i, n - 1);
    PushingGoesOn(run[n - 1], acts[n - 1]);
    ghost var pushed := p;
    forall k | 0 <= k < pushed
      ensures PushedBetween(run, acts, i, n, ids[k])
    {
      assert PushedBetween(run, acts, i, n - 1, ids[k]);
    }
    if acts[n - 1].PushStranded? {
      assert ids[p..][1..] == ids[p + 1..] && ids[p..][0] == ids[p];
      p := p + 1;
    }
  }

  /** Whatever happens meanwhile, a stranded sweep that comes to its end without failing has pushed every id of its page. */
  lemma FinishedSweepPushedAll(run: seq<Sys>, acts: seq<Action>, i: nat, n: nat, t: TripId)
    requires IsRun(run, acts) && i < n < |acts| && acts[i].FindStranded?
    requires forall l | i < l <= n :: run[l].reaper.Requeueing? && !acts[l].ReaperFails?
    requires !run[n + 1].reaper.Requeueing? && t in acts[i].ids
    ensures PushedBetween(run, acts, i, n, t)
  {
    var p := PushingPushes(run, acts, i, n);
    assert StepAt(run, acts, n);
    PushingGoesOn(run[n], acts[n]);
    var k :| 0 <= k < |acts[i].ids| && acts[i].ids[k] == t;
    assert PushedBetween(run, acts, i, n, acts[i].ids[k]);
  }

  /** A worklist only loses its first row, and a new one is read without touching the tables. */
  lemma WorklistShrinks(s: Sys, a: Action)
    requires Enabled(s, a) && Next(s, a).reaper.Freeing?
    ensures s.reaper.Freeing? ==> Next(s, a).reaper.rows == if a.FreeOrphan? then s.reaper.rows[1..] else s.reaper.rows
    ensures !s.reaper.Freeing? ==> Next(s, a).db == s.db
    ensures a.FreeOrphan? ==> s.reaper.rows != []
  {
  }

  // ---- rows, versions and the optimistic lock ----------------------------------------------

  /** Every committed UPDATE is an edge of the transition table, although the SQL never tests the state. */
  lemma CommittedUpdatesAreEdges(run: seq<Sys>, acts: seq<Action>, i: nat, t: TripId)
    requires HonestRun(run, acts) && i < |acts| && t in run[i].db.trips
    ensures t in run[i + 1].db.trips
    ensures var r, r' := run[i].db.trips[t], run[i + 1].db.trips[t];
            r' != r ==> CanTransition(r.state, r'.state) && r'.version == r.version + 1
  {
    RunMoves(run, acts, i);
    assert RowStep(run[i].db.trips[t], run[i + 1].db.trips[t]);
  }

  /** The trip a matcher has in memory: the one it works on, or the one its last call returned. */
  function Remembered(pc: Pc): Option<Snapshot> {
    match pc
    case Idle(last) => last
    case Trying(p, _) => Some(p)
    case Quoting(p, _) => Some(p)
    case Saving(p, _, _) => Some(p)
    case _ => None
  }

  /** Every trip a matcher or a client has in memory is behind its row, or is its row. */
  lemma SnapshotsAreSound(run: seq<Sys>, acts: seq<Action>, i: nat)
    requires HonestRun(run, acts) && i < |run|
    ensures forall c | c in run[i].clients :: SnapOk(run[i].db, run[i].clients[c])
    ensures forall m | m in run[i].matchers && Remembered(run[i].matchers[m]).Some? ::
              SnapOk(run[i].db, Remembered(run[i].matchers[m]).value)
  {
    RunKeeps(run, acts, i);
    forall m | m in run[i].matchers && Remembered(run[i].matchers[m]).Some?
      ensures SnapOk(run[i].db, Remembered(run[i].matchers[m]).value)
    {
      assert PcOk(run[i].db, run[i].matchers[m]);
    }
  }

  /** The number of steps among the first n that changed the trip's state. */
  ghost function Transitions(run: seq<Sys>, t: TripId, n: nat): nat
    requires n < |run|
  {
    if n == 0 then 0
    else Transitions(run, t, n - 1) + if StateChanged(run, t, n - 1) then 1 else 0
  }

  ghost predicate StateChanged(run: seq<Sys>, t: TripId, i: nat)
    requires i + 1 < |run|
  {
    t in run[i].db.trips && t in run[i + 1].db.trips && run[i + 1].db.trips[t].state != run[i].db.trips[t].state
  }

  /** In one step a row stays away, appears with version 0, or moves; and it is well-formed. */
  lemma RowCases(run: seq<Sys>, acts: seq<Action>, i: nat, t: TripId)
    requires HonestRun(run, acts) && i < |acts|
    ensures t in run[i + 1].db.trips ==> RowOk(run[i + 1].db.trips[t])
    ensures t in run[i].db.trips ==> t in run[i + 1].db.trips && RowStep(run[i].db.trips[t], run[i + 1].db.trips[t])
    ensures t !in run[i].db.trips && t in run[i + 1].db.trips ==> run[i + 1].db.trips[t].version == 0
  {
    RunMoves(run, acts, i);
  }

  /** The version is the number of transitions so far, never above 3, and almost names the state. */
  lemma {:induction false} VersionCountsTransitions(run: seq<Sys>, acts: seq<Action>, t: TripId, n: nat)
    requires HonestRun(run, acts) && n < |run|
    ensures t !in run[n].db.trips ==> Transitions(run, t, n) == 0
    ensures t in run[n].db.trips ==>
              var r := run[n].db.trips[t];
              && r.version == Transitions(run, t, n) <= 3
              && (r.state == Requested <==> r.version == 0)
              && (r.state == Matched ==> r.version == 1)
              && (r.state == EnRoute ==> r.version == 2)
              && (r.state == Complete ==> r.version == 3)
              && (r.state == Cancelled ==> 1 <= r.version)
  {
    if n > 0 {
      VersionCountsTransitions(run, acts, t, n - 1);
      RowCases(run, acts, n - 1, t);
    } else {
      assert t !in run[0].db.trips;
    }
  }

  /** How a row may look at any later moment. */
  ghost predicate RowLater(r: Row, r': Row) {
    && r'.key == r.key && r'.rider == r.rider && r'.pickup == r.pickup && r'.created == r.created
    && r.version <= r'.version
    && (r.driver.Some? ==> r'.driver == r.driver && r'.fare == r.fare)
    && (IsTerminal(r.state) ==> r' == r)
  }

  lemma RowStepIsProgress(r: Row, r': Row, r'': Row)
    requires RowLater(r, r') && RowOk(r') && RowStep(r', r'')
    ensures RowLater(r, r'')
  {
  }

  predicate RowsOk(db: Db) {
    forall t | t in db.trips :: RowOk(db.trips[t])
  }

  /** Tables in the order a run commits them: well-formed rows, moving along the transition table. */
  ghost predicate GoodTables(dbs: seq<Db>) {
    && (forall k | 0 <= k < |dbs| :: RowsOk(dbs[k]))
    && (forall k | 0 <= k < |dbs| - 1 :: DbStep(dbs[k], dbs[k + 1]))
  }

  lemma {:induction false} RowsProgress(dbs: seq<Db>, i: nat, j: nat, t: TripId)
    requires GoodTables(dbs) && i <= j < |dbs| && t in dbs[i].trips
    ensures t in dbs[j].trips && RowLater(dbs[i].trips[t], dbs[j].trips[t])
  {
    if i < j {
      RowsProgress(dbs, i, j - 1, t);
      assert RowsOk(dbs[j - 1]) && DbStep(dbs[j - 1], dbs[j - 1 + 1]);
      RowStepIsProgress(dbs[i].trips[t], dbs[j - 1].trips[t], dbs[j].trips[t]);
    }
  }

  /** The tables along a run. */
  ghost function TablesOf(run: seq<Sys>): seq<Db> {
    seq(|run|, k requires 0 <= k < |run| => run[k].db)
  }

  lemma RunRowsOk(run: seq<Sys>, acts: seq<Action>, i: nat)
    requires HonestRun(run, acts) && i < |run|
    ensures RowsOk(run[i].db)
  {
    RunKeeps(run, acts, i);
  }

  lemma RunRowsMove(run: seq<Sys>, acts: seq<Action>, i: nat)
    requires HonestRun(run, acts) && i < |acts|
    ensures DbStep(run[i].db, run[i + 1].db)
  {
    RunMoves(run, acts, i);
  }

  lemma RunHasGoodTables(run: seq<Sys>, acts: seq<Action>)
    requires HonestRun(run, acts)
    ensures GoodTables(TablesOf(run))
  {
    forall k | 0 <= k < |run|
      ensures RowsOk(run[k].db)
    {
      RunRowsOk(run, acts, k);
    }
    forall k | 0 <= k < |run| - 1
      ensures DbStep(run[k].db, run[k + 1].db)
    {
      RunRowsMove(run, acts, k);
    }
  }

  /** Rows never disappear, keep their key, keep driver and fare once set, and freeze when terminal. */
  lemma RowsOnlyProgress(run: seq<Sys>, acts: seq<Action>, i: nat, j: nat, t: TripId)
    requires HonestRun(run, acts) && i <= j < |run| && t in run[i].db.trips
    ensures t in run[j].db.trips && RowLater(run[i].db.trips[t], run[j].db.trips[t])
  {
    RunHasGoodTables(run, acts);
    RowsProgress(TablesOf(run), i, j, t);
  }

  /** Step i is a `save_match` of the trip that committed. */
  ghost predicate SaveCommits(run: seq<Sys>, acts: seq<Action>, t: TripId, i: nat)
    requires |run| == |acts| + 1 && i < |acts|
  {
    && acts[i].Match? && PcOf(run[i], acts[i].m).Saving? && PcOf(run[i], acts[i].m).snap.id == t
    && run[i + 1].db != run[i].db
  }

  ghost function Saves(run: seq<Sys>, acts: seq<Action>, t: TripId, n: nat): nat
    requires |run| == |acts| + 1 && n < |run|
  {
    if n == 0 then 0
    else Saves(run, acts, t, n - 1) + if SaveCommits(run, acts, t, n - 1) then 1 else 0
  }

  /** The trip has a row, and the row a driver. */
  predicate HasDriver(db: Db, t: TripId) {
    t in db.trips && db.trips[t].driver.Some?
  }

  /**
   * Whatever the queue delivers and however many matchers work on a trip, `save_match` commits
   * at most once, and it has committed exactly when the driver is set.
   */
  lemma {:induction false} SavedAtMostOnce(run: seq<Sys>, acts: seq<Action>, t: TripId, n: nat)
    requires HonestRun(run, acts) && n < |run|
    ensures Saves(run, acts, t, n) == if HasDriver(run[n].db, t) then 1 else 0
  {
    if n > 0 {
      SavedAtMostOnce(run, acts, t, n - 1);
      SaveSetsDriver(run, acts, t, n - 1);
    }
  }

  /** Driver and fare are set together, and from MATCHED to COMPLETE they are there. */
  lemma MatchedMeansDriverAndFare(run: seq<Sys>, acts: seq<Action>, t: TripId, i: nat)
    requires HonestRun(run, acts) && i < |run| && t in run[i].db.trips
    ensures var r := run[i].db.trips[t];
            && (r.driver.Some? <==> r.fare.Some?)
            && (r.state == Requested ==> r.driver.None?)
            && (Live(r.state) || r.state == Complete ==> r.driver.Some?)
  {
    RunKeeps(run, acts, i);
    assert RowOk(run[i].db.trips[t]);
  }

  /** One step sets a trip's driver exactly when it is a committed save of that trip. */
  lemma SaveSetsDriver(run: seq<Sys>, acts: seq<Action>, t: TripId, i: nat)
    requires HonestRun(run, acts) && i < |acts|
    ensures HasDriver(run[i].db, t) ==> HasDriver(run[i + 1].db, t)
    ensures SaveCommits(run, acts, t, i) <==> HasDriver(run[i + 1].db, t) && !HasDriver(run[i].db, t)
  {
    assert StepAt(run, acts, i);
    if t in run[i].db.trips {
      RowMoves(run, acts, i, t);
    }
    RunSavesFresh(run, acts, i);
    StepSetsDriver(run[i], acts[i], t);
  }

  /** A save in flight is for a row that has no driver, unless its version has moved on. */
  predicate SavesFresh(db: Db, pc: Pc) {
    pc.Saving? ==>
      && pc.snap.id in db.trips
      && (db.trips[pc.snap.id].version == pc.snap.version ==> db.trips[pc.snap.id].driver == None)
  }

  lemma RunSavesFresh(run: seq<Sys>, acts: seq<Action>, i: nat)
    requires HonestRun(run, acts) && i < |run|
    ensures forall m | m in run[i].matchers :: SavesFresh(run[i].db, run[i].matchers[m])
  {
    RunKeeps(run, acts, i);
    forall m | m in run[i].matchers
      ensures SavesFresh(run[i].db, run[i].matchers[m])
    {
      assert PcOk(run[i].db, run[i].matchers[m]);
      assert run[i].matchers[m].Saving? ==> RowOk(run[i].db.trips[run[i].matchers[m].snap.id]);
    }
  }

  lemma StepSetsDriver(s: Sys, a: Action, t: TripId)
    requires Enabled(s, a) && forall m | m in s.matchers :: SavesFresh(s.db, s.matchers[m])
    ensures a.Match? && PcOf(s, a.m).Saving? && PcOf(s, a.m).snap.id == t && Next(s, a).db != s.db
            <==> HasDriver(Next(s, a).db, t) && !HasDriver(s.db, t)
  {
    match a
    case Match(m, at, answer) => SaveIsSeen(PcOf(s, m), s.db, at, answer, t);
    case Move(c, dst) => MoveSetsNoDriver(s, c, dst, t);
    case Post(_, _, _, _) =>
    case FreeOrphan =>
    case _ => OthersCommitNothing(s, a);
  }

  /** Seen alone: a matcher's move sets the driver of t exactly when it is a save of t that changes the tables. */
  lemma SaveIsSeen(pc: Pc, db: Db, now: int, a: Answer, t: TripId)
    requires SavesFresh(db, pc)
    ensures var db' := MatcherStep(pc, db, now, a).1;
            pc.Saving? && pc.snap.id == t && db' != db <==> HasDriver(db', t) && !HasDriver(db, t)
  {
    var db' := MatcherStep(pc, db, now, a).1;
    assert !pc.Saving? ==> db'.trips == db.trips;
  }

  lemma MoveSetsNoDriver(s: Sys, c: nat, dst: TripState, t: TripId)
    requires Enabled(s, Move(c, dst))
    ensures HasDriver(Next(s, Move(c, dst)).db, t) == HasDriver(s.db, t)
  {
  }

  /** The trip in a client's memory is what its row holds. */
  predicate ClientUpToDate(s: Sys, c: nat) {
    && c in s.clients && s.clients[c].id in s.db.trips
    && var (p, r) := (s.clients[c], s.db.trips[s.clients[c].id]);
       && p.rider == r.rider && p.pickup == r.pickup && p.created == r.created
       && p.state == r.state && p.version == r.version && p.driver == r.driver && p.fare == r.fare
  }

  /** A client that is up to date can make any legal move, and is up to date afterwards. */
  lemma UpToDateClientMoves(s: Sys, c: nat, dst: TripState)
    requires ClientUpToDate(s, c) && CanTransition(s.clients[c].state, dst)
    ensures Enabled(s, Move(c, dst)) && (dst != Matched ==> Assumed(s, Move(c, dst)))
    ensures var (s', t) := (Next(s, Move(c, dst)), s.clients[c].id);
            && ClientUpToDate(s', c) && s'.clients[c].id == t
            && s'.db.trips[t] == s.db.trips[t].(state := dst, version := s.db.trips[t].version + 1)
  {
  }

  // ---- idempotent requests -----------------------------------------------------------------

  /** The trip id `request_ride` answers; None is the RuntimeError of a torn write. */
  ghost function Reply(s: Sys, trip: Snapshot, key: Key): Option<TripId> {
    if trip.id !in s.db.trips && !KeyUsed(s.db, key) then Some(trip.id) else KeyOwner(s.db, key)
  }

  /** A key once bound to a trip is bound to that trip for ever. */
  lemma KeyBoundForEver(run: seq<Sys>, acts: seq<Action>, i: nat, j: nat, key: Key)
    requires HonestRun(run, acts) && i <= j < |run| && KeyUsed(run[i].db, key)
    ensures KeyOwner(run[j].db, key) == KeyOwner(run[i].db, key)
  {
    var t := KeyOwner(run[i].db, key).value;
    RowsOnlyProgress(run, acts, i, j, t);
    RunKeeps(run, acts, j);
    assert KeyUsed(run[j].db, key);
  }

  /** All replies to requests with one key carry the same trip id, whatever happens in between. */
  lemma RepliesAgree(run: seq<Sys>, acts: seq<Action>, i: nat, j: nat)
    requires HonestRun(run, acts) && i < j < |acts| && acts[i].Post? && acts[j].Post? && acts[i].key == acts[j].key
    requires Reply(run[i], acts[i].trip, acts[i].key).Some?
    ensures Reply(run[j], acts[j].trip, acts[j].key) == Reply(run[i], acts[i].trip, acts[i].key)
  {
    var key := acts[i].key;
    RunMoves(run, acts, i);
    assert StepAt(run, acts, i);
    assert KeyOwner(run[i + 1].db, key) == Reply(run[i], acts[i].trip, key) by {
      assert run[i + 1].db.trips[Reply(run[i], acts[i].trip, key).value].key == key;
      assert KeyUsed(run[i + 1].db, key);
    }
    KeyBoundForEver(run, acts, i + 1, j, key);
  }

  /** Request ids come from uuid4: never an id that already has a row. */
  ghost predicate FreshIds(run: seq<Sys>, acts: seq<Action>)
    requires |run| == |acts| + 1
  {
    forall i: nat | i < |acts| :: FreshAt(run, acts, i)
  }

  ghost predicate FreshAt(run: seq<Sys>, acts: seq<Action>, i: nat)
    requires i < |acts| && i < |run|
  {
    acts[i].Post? ==> acts[i].trip.id !in run[i].db.trips
  }

  /** How many of the first n steps are requests with this key that go on to push. */
  ghost function Accepted(run: seq<Sys>, acts: seq<Action>, key: Key, n: nat): nat
    requires |run| == |acts| + 1 && n < |run|
  {
    if n == 0 then 0
    else Accepted(run, acts, key, n - 1)
         + if acts[n - 1].Post? && acts[n - 1].key == key && acts[n - 1].req in run[n].requests then 1 else 0
  }

  /** However often a request is retried, exactly one of the attempts creates the row and goes on to push. */
  lemma {:induction false} OneAttemptPerKey(run: seq<Sys>, acts: seq<Action>, key: Key, n: nat)
    requires HonestRun(run, acts) && FreshIds(run, acts) && n < |run|
    ensures Accepted(run, acts, key, n) == if KeyUsed(run[n].db, key) then 1 else 0
  {
    if n > 0 {
      OneAttemptPerKey(run, acts, key, n - 1);
      PostUsesKey(run, acts, key, n - 1);
    }
  }

  lemma PostUsesKey(run: seq<Sys>, acts: seq<Action>, key: Key, i: nat)
    requires HonestRun(run, acts) && FreshIds(run, acts) && i < |acts|
    ensures KeyUsed(run[i].db, key) ==> KeyUsed(run[i + 1].db, key)
    ensures acts[i].Post? && acts[i].key == key && acts[i].req in run[i + 1].requests
            <==> !KeyUsed(run[i].db, key) && KeyUsed(run[i + 1].db, key)
  {
    var s, s', a := run[i], run[i + 1], acts[i];
    assert StepAt(run, acts, i) && FreshAt(run, acts, i);
    if KeyUsed(s.db, key) {
      var t :| t in s.db.trips && s.db.trips[t].key == key;
      RowMoves(run, acts, i, t);
      assert s'.db.trips[t].key == key;
    }
    match a
    case Post(r, trip, k, at) => PostUses(s, r, trip, k, at, key);
    case Match(m, at, answer) => MatcherKeepsKeys(PcOf(s, m), s.db, at, answer, key);
    case Move(c, dst) => MoveKeepsKeys(s, c, dst, key);
    case FreeOrphan =>
    case _ => OthersCommitNothing(s, a);
  }

  lemma PostUses(s: Sys, r: nat, trip: Snapshot, k: Key, at: int, key: Key)
    requires Enabled(s, Post(r, trip, k, at)) && trip.id !in s.db.trips
    ensures var s' := Next(s, Post(r, trip, k, at));
            k == key && r in s'.requests <==> !KeyUsed(s.db, key) && KeyUsed(s'.db, key)
  {
    var s' := Next(s, Post(r, trip, k, at));
    if !KeyUsed(s.db, k) {
      assert s'.db.trips[trip.id].key == k;
      assert !KeyUsed(s.db, key) && KeyUsed(s'.db, key) ==> key == k;
    }
  }

  lemma MatcherKeepsKeys(pc: Pc, db: Db, now: int, a: Answer, key: Key)
    ensures KeyUsed(MatcherStep(pc, db, now, a).1, key) ==> KeyUsed(db, key)
  {
    var db' := MatcherStep(pc, db, now, a).1;
    forall t | t in db'.trips
      ensures t in db.trips && db'.trips[t].key == db.trips[t].key
    {
    }
  }

  lemma MoveKeepsKeys(s: Sys, c: nat, dst: TripState, key: Key)
    requires Enabled(s, Move(c, dst))
    ensures KeyUsed(Next(s, Move(c, dst)).db, key) ==> KeyUsed(s.db, key)
  {
    var db' := Next(s, Move(c, dst)).db;
    forall t | t in db'.trips
      ensures t in s.db.trips && db'.trips[t].key == s.db.trips[t].key
    {
    }
  }

  /** As many rows as keys. */
  lemma OneRowPerKey(run: seq<Sys>, acts: seq<Action>, i: nat)
    requires HonestRun(run, acts) && i < |run|
    ensures |set t | t in run[i].db.trips :: run[i].db.trips[t].key| == |run[i].db.trips|
  {
    RunKeeps(run, acts, i);
    var trips := run[i].db.trips;
    KeysCount(run[i].db, trips.Keys);
    assert (set t | t in trips :: trips[t].key) == (set t | t in trips.Keys :: trips[t].key);
  }

  lemma {:induction false} KeysCount(db: Db, ids: set<TripId>)
    requires KeysUnique(db) && ids <= db.trips.Keys
    ensures |set t | t in ids :: db.trips[t].key| == |ids|
  {
    if ids != {} {
      var u :| u in ids;
      KeysCount(db, ids - {u});
      var rest := set t | t in ids - {u} :: db.trips[t].key;
      assert (set t | t in ids :: db.trips[t].key) == rest + {db.trips[u].key};
      assert db.trips[u].key !in rest;
    }
  }

  // ---- no id without a row -----------------------------------------------------------------

  /** The trip id a matcher is working on. */
  function Working(pc: Pc): Option<TripId> {
    match pc
    case Idle(_) => None
    case Popped(t) => Some(t)
    case Trying(p, _) => Some(p.id)
    case Quoting(p, _) => Some(p.id)
    case Saving(p, _, _) => Some(p.id)
    case Releasing(t, _, _) => Some(t)
    case Rereading(t) => Some(t)
    case Failing(t) => Some(t)
  }

  /** Row first, hint second: no queue entry, no request and no matcher ever names a trip without a row. */
  lemma NoHintWithoutRow(run: seq<Sys>, acts: seq<Action>, i: nat)
    requires HonestRun(run, acts) && i < |run|
    ensures forall k | 0 <= k < |run[i].queue| :: run[i].queue[k] in run[i].db.trips
    ensures forall r | r in run[i].requests :: run[i].requests[r] in run[i].db.trips
    ensures forall m | m in run[i].matchers && Working(run[i].matchers[m]).Some? ::
              Working(run[i].matchers[m]).value in run[i].db.trips
  {
    RunKeeps(run, acts, i);
    forall m | m in run[i].matchers && Working(run[i].matchers[m]).Some?
      ensures Working(run[i].matchers[m]).value in run[i].db.trips
    {
      assert PcOk(run[i].db, run[i].matchers[m]);
    }
  }
}
