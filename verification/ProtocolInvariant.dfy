/** The inductive invariant of the protocol, and the proof that every step keeps it. */
module ProtocolInvariant {
  import opened Wrappers
  import opened Domain
  import opened Tables
  import opened TableLaws
  import opened Protocol

  /** A trip read while REQUESTED, as every matcher past the idempotence guard carries it. */
  ghost predicate Waiting(db: Db, p: Snapshot) {
    SnapOk(db, p) && p.state == Requested && p.version == 0
  }

  /** The locals of one matcher are sound for the tables. */
  ghost predicate PcOk(db: Db, pc: Pc) {
    match pc
    case Idle(last) => last.Some? ==> SnapOk(db, last.value)
    case Popped(t) => t in db.trips
    case Trying(p, _) => Waiting(db, p)
    case Quoting(p, _) => Waiting(db, p)
    case Saving(p, _, _) => Waiting(db, p)
    case Releasing(t, _, lost) => t in db.trips && (lost ==> IsTerminal(db.trips[t].state))
    case Rereading(t) => t in db.trips && IsTerminal(db.trips[t].state)
    case Failing(t) => t in db.trips
  }

  /** The claim a matcher holds is in the table, names its trip, and that trip is not live. */
  ghost predicate HoldOk(db: Db, pc: Pc) {
    Held(pc).Some? ==>
      var (d, t) := Held(pc).value;
      d in db.claims && db.claims[d].trip == t && t in db.trips && !Live(db.trips[t].state)
  }

  ghost predicate MatchersOk(db: Db, ms: map<nat, Pc>) {
    && (forall m | m in ms :: PcOk(db, ms[m]) && HoldOk(db, ms[m]))
    && (forall m, n | m in ms && n in ms && m != n && Held(ms[m]).Some? && Held(ms[n]).Some? ::
          Held(ms[m]).value.0 != Held(ms[n]).value.0)
  }

  /** Some running matcher is responsible for the driver's claim. */
  ghost predicate Owned(ms: map<nat, Pc>, d: DriverId) {
    exists m | m in ms :: Held(ms[m]).Some? && Held(ms[m]).value.0 == d
  }

  /** A row the reaper has read and not deleted yet is still that claim, is nobody's, and serves no live trip. */
  ghost predicate RowStillOrphan(db: Db, ms: map<nat, Pc>, row: OrphanRow) {
    && row.driver in db.claims
    && db.claims[row.driver].trip == row.trip
    && row.trip in db.trips && !Live(db.trips[row.trip].state)
    && !Owned(ms, row.driver)
  }

  ghost predicate ReaperOk(db: Db, ms: map<nat, Pc>, reaper: ReaperPc) {
    match reaper
    case Resting => true
    case Requeueing(ids) => forall i | 0 <= i < |ids| :: ids[i] in db.trips
    case Freeing(rows) =>
      && (forall i | 0 <= i < |rows| :: RowStillOrphan(db, ms, rows[i]))
      && (forall i, j | 0 <= i < j < |rows| :: rows[i].driver != rows[j].driver)
  }

  /** Every id that waits somewhere names a row. */
  ghost predicate IdsKnown(db: Db, queue: seq<TripId>, requests: map<nat, TripId>) {
    && (forall i | 0 <= i < |queue| :: queue[i] in db.trips)
    && (forall r | r in requests :: requests[r] in db.trips)
  }

  ghost predicate ClientsOk(db: Db, clients: map<nat, Snapshot>) {
    forall c | c in clients :: SnapOk(db, clients[c])
  }

  ghost predicate Inv(s: Sys) {
    && DbInv(s.db)
    && MatchersOk(s.db, s.matchers)
    && ReaperOk(s.db, s.matchers, s.reaper)
    && IdsKnown(s.db, s.queue, s.requests)
    && ClientsOk(s.db, s.clients)
  }

  // ---- pieces ------------------------------------------------------------------------------

  /** A row in a terminal state never changes again. */
  lemma TerminalRowFrozen(db: Db, db': Db, t: TripId)
    requires t in db.trips && DbStep(db, db')
    ensures t in db'.trips
    ensures IsTerminal(db.trips[t].state) ==> db'.trips[t] == db.trips[t]
  {
    assert RowStep(db.trips[t], db'.trips[t]);
  }

  /** The locals of a matcher that does not move stay sound across any commit. */
  lemma PcSurvives(db: Db, db': Db, pc: Pc)
    requires PcOk(db, pc) && DbStep(db, db')
    ensures PcOk(db', pc)
  {
    match pc
    case Idle(last) =>
      if last.Some? {
        SnapshotSurvives(db, db', last.value);
      }
    case Trying(p, _) => SnapshotSurvives(db, db', p);
    case Quoting(p, _) => SnapshotSurvives(db, db', p);
    case Saving(p, _, _) => SnapshotSurvives(db, db', p);
    case Releasing(t, _, _) => TerminalRowFrozen(db, db', t);
    case Rereading(t) => TerminalRowFrozen(db, db', t);
    case _ =>
  }

  lemma ClientsSurvive(db: Db, db': Db, clients: map<nat, Snapshot>)
    requires ClientsOk(db, clients) && DbStep(db, db')
    ensures ClientsOk(db', clients)
  {
    forall c | c in clients
      ensures SnapOk(db', clients[c])
    {
      SnapshotSurvives(db, db', clients[c]);
    }
  }

  /**
   * The only claim row a matcher's move touches is its own: it inserts the one it then holds,
   * deletes the one it held, and makes live only the trip its claim names.
   */
  ghost predicate MovesOnlyItsClaim(db: Db, db': Db, pc: Pc, pc': Pc) {
    && (forall d | d in db.claims ::
          || (d in db'.claims && db'.claims[d] == db.claims[d])
          || (Held(pc).Some? && Held(pc).value.0 == d && Held(pc').None?))
    && (Held(pc).None? && Held(pc').Some? ==> Held(pc').value.0 !in db.claims)
    && (Held(pc).Some? && Held(pc').Some? ==> Held(pc') == Held(pc))
    && (forall t | t in db.trips && !Live(db.trips[t].state) && t in db'.trips && Live(db'.trips[t].state) ::
          Held(pc).Some? && Held(pc).value.1 == t && Held(pc').None?)
  }

  /** No invariant is needed for that: it is how `match_once` is written. */
  lemma MovesOwnClaim(pc: Pc, db: Db, now: int, a: Answer)
    ensures var (pc', db') := MatcherStep(pc, db, now, a); MovesOnlyItsClaim(db, db', pc, pc')
  {
    match pc
    case Saving(p, d, fare) =>
      if p.id in db.trips {
        assert forall t | t in db.trips && t != p.id :: MatcherStep(pc, db, now, a).1.trips[t] == db.trips[t];
      }
    case _ =>
  }

  /** What one matcher's move, seen alone, must establish. */
  ghost predicate StepOk(db: Db, next: (Pc, Db)) {
    var (pc', db') := next;
    DbInv(db') && DbStep(db, db') && PcOk(db', pc') && HoldOk(db', pc')
  }

  lemma TryKeeps(db: Db, pc: Pc, now: int, a: Answer)
    requires DbInv(db) && PcOk(db, pc) && pc.Trying?
    ensures StepOk(db, MatcherStep(pc, db, now, a))
  {
    var (pc', db') := MatcherStep(pc, db, now, a);
    if db' != db {
      InsertClaimKeeps(db, pc.rest[0], pc.snap.id, now);
      SnapshotSurvives(db, db', pc.snap);
    } else {
      UnchangedRowsStep(db, db);
    }
  }

  /** A save commits only on the unchanged REQUESTED row; when it conflicts the trip is already over. */
  lemma SaveKeeps(db: Db, pc: Pc, now: int, a: Answer)
    requires DbInv(db) && PcOk(db, pc) && HoldOk(db, pc) && pc.Saving?
    ensures StepOk(db, MatcherStep(pc, db, now, a))
  {
    var p := pc.snap;
    assert RowOk(db.trips[p.id]);
    if a.fault || UpdateMatch(db, p.id, p.version, pc.driver, pc.fare).None? {
      TerminalStates(db.trips[p.id].state);
      UnchangedRowsStep(db, db);
    } else {
      UpdateMatchKeeps(db, p.id, pc.driver, pc.fare);
    }
  }

  lemma ReleaseKeeps(db: Db, pc: Pc, now: int, a: Answer)
    requires DbInv(db) && PcOk(db, pc) && HoldOk(db, pc) && pc.Releasing?
    ensures StepOk(db, MatcherStep(pc, db, now, a))
  {
    var db' := DeleteClaim(db, pc.driver);
    UnchangedRowsStep(db, db);
    UnchangedRowsStep(db, db');
    assert Held(pc) == Some((pc.driver, pc.trip));
    DeleteDeadClaimKeeps(db, pc.driver);
    var next := if pc.lost then Rereading(pc.trip) else Failing(pc.trip);
    assert PcOk(db', next) && HoldOk(db', next);
    assert PcOk(db, Failing(pc.trip)) && HoldOk(db, Failing(pc.trip));
  }

  /** The idempotence guard: whoever gets past it holds a REQUESTED trip of version 0. */
  lemma PoppedKeeps(db: Db, pc: Pc, now: int, a: Answer)
    requires DbInv(db) && PcOk(db, pc) && pc.Popped?
    ensures StepOk(db, MatcherStep(pc, db, now, a))
  {
    UnchangedRowsStep(db, db);
    assert RowOk(db.trips[pc.trip]);
    assert MatcherStep(pc, db, now, a).1 == db;
  }

  /** The moves that only think or re-read: no table changes. */
  lemma ThinkingKeeps(db: Db, pc: Pc, now: int, a: Answer)
    requires DbInv(db) && PcOk(db, pc) && HoldOk(db, pc) && (pc.Idle? || pc.Failing? || pc.Quoting? || pc.Rereading?)
    ensures StepOk(db, MatcherStep(pc, db, now, a))
  {
    UnchangedRowsStep(db, db);
    assert MatcherStep(pc, db, now, a).1 == db;
  }

  /** One matcher's move, seen alone: what it commits and where it stands afterwards. */
  lemma MatcherStepKeeps(db: Db, pc: Pc, now: int, a: Answer)
    requires DbInv(db) && PcOk(db, pc) && HoldOk(db, pc)
    ensures StepOk(db, MatcherStep(pc, db, now, a))
  {
    match pc
    case Trying(_, _) => TryKeeps(db, pc, now, a);
    case Saving(_, _, _) => SaveKeeps(db, pc, now, a);
    case Releasing(_, _, _) => ReleaseKeeps(db, pc, now, a);
    case Popped(_) => PoppedKeeps(db, pc, now, a);
    case _ => ThinkingKeeps(db, pc, now, a);
  }

  /** Another matcher's claim survives the move of matcher m. */
  lemma OtherHoldSurvives(db: Db, db': Db, ms: map<nat, Pc>, m: nat, n: nat, pc': Pc)
    requires DbInv(db) && DbStep(db, db') && MatchersOk(db, ms)
    requires m in ms && n in ms && m != n && MovesOnlyItsClaim(db, db', ms[m], pc')
    ensures HoldOk(db', ms[n])
  {
    assert HoldOk(db, ms[n]) && HoldOk(db, ms[m]);
    if Held(ms[n]).Some? {
      var (d, t) := Held(ms[n]).value;
      assert Held(ms[m]).Some? ==> Held(ms[m]).value.1 != t;
    }
  }

  lemma MatchersSurvive(db: Db, db': Db, ms: map<nat, Pc>, m: nat, pc': Pc)
    requires DbInv(db) && DbStep(db, db') && MatchersOk(db, ms)
    requires m in ms && MovesOnlyItsClaim(db, db', ms[m], pc') && PcOk(db', pc') && HoldOk(db', pc')
    ensures MatchersOk(db', ms[m := pc'])
  {
    var ms' := ms[m := pc'];
    forall n | n in ms'
      ensures PcOk(db', ms'[n]) && HoldOk(db', ms'[n])
    {
      if n != m {
        PcSurvives(db, db', ms[n]);
        OtherHoldSurvives(db, db', ms, m, n, pc');
      }
    }
    forall n | n in ms && n != m && Held(ms[n]).Some? && Held(pc').Some?
      ensures Held(ms[n]).value.0 != Held(pc').value.0
    {
      assert HoldOk(db, ms[n]);
    }
  }

  /** No matcher's move makes it the owner of a row on the reaper's worklist. */
  lemma OrphanStaysUnowned(db: Db, db': Db, ms: map<nat, Pc>, m: nat, pc': Pc, d: DriverId)
    requires m in ms && MovesOnlyItsClaim(db, db', ms[m], pc') && d in db.claims && !Owned(ms, d)
    ensures !Owned(ms[m := pc'], d)
  {
    var ms' := ms[m := pc'];
    forall n | n in ms' && Held(ms'[n]).Some?
      ensures Held(ms'[n]).value.0 != d
    {
      assert n != m ==> ms'[n] == ms[n];
    }
  }

  /** A row on the reaper's worklist survives the move of any matcher. */
  lemma OrphanSurvivesMatch(db: Db, db': Db, ms: map<nat, Pc>, m: nat, pc': Pc, row: OrphanRow)
    requires DbInv(db) && DbStep(db, db') && m in ms && HoldOk(db, ms[m])
    requires MovesOnlyItsClaim(db, db', ms[m], pc')
    requires RowStillOrphan(db, ms, row)
    ensures RowStillOrphan(db', ms[m := pc'], row)
  {
    OrphanStaysUnowned(db, db', ms, m, pc', row.driver);
    assert Held(ms[m]).Some? ==> Held(ms[m]).value.0 != row.driver && Held(ms[m]).value.1 != row.trip;
  }

  /** Fewer owners leave the worklist as it is. */
  lemma WorklistSurvives(db: Db, ms: map<nat, Pc>, ms': map<nat, Pc>, reaper: ReaperPc)
    requires ReaperOk(db, ms, reaper)
    requires forall n | n in ms' && Held(ms'[n]).Some? :: n in ms && Held(ms[n]) == Held(ms'[n])
    ensures ReaperOk(db, ms', reaper)
  {
    if reaper.Freeing? {
      forall i | 0 <= i < |reaper.rows|
        ensures RowStillOrphan(db, ms', reaper.rows[i])
      {
        assert RowStillOrphan(db, ms, reaper.rows[i]);
      }
    }
  }

  /** A commit that is no matcher's and no reaper's: claims only vanish from trips that were live. */
  lemma OutsideCommitKeeps(db: Db, db': Db, ms: map<nat, Pc>, reaper: ReaperPc)
    requires DbInv(db) && DbStep(db, db') && MatchersOk(db, ms) && ReaperOk(db, ms, reaper)
    requires forall t | t in db.trips && Live(db'.trips[t].state) :: Live(db.trips[t].state)
    requires forall d | d in db.claims ::
               || (d in db'.claims && db'.claims[d] == db.claims[d])
               || Live(db.trips[db.claims[d].trip].state)
    ensures MatchersOk(db', ms) && ReaperOk(db', ms, reaper)
  {
    forall m | m in ms
      ensures PcOk(db', ms[m]) && HoldOk(db', ms[m])
    {
      PcSurvives(db, db', ms[m]);
      assert HoldOk(db, ms[m]);
    }
    if reaper.Freeing? {
      forall i | 0 <= i < |reaper.rows|
        ensures RowStillOrphan(db', ms, reaper.rows[i])
      {
        assert RowStillOrphan(db, ms, reaper.rows[i]);
      }
    }
  }

  // ---- the steps ---------------------------------------------------------------------------

  lemma MatchKeeps(s: Sys, m: nat, at: int, a: Answer)
    requires Inv(s) && Enabled(s, Match(m, at, a))
    ensures Inv(Next(s, Match(m, at, a))) && DbStep(s.db, Next(s, Match(m, at, a)).db)
  {
    var pc := PcOf(s, m);
    assert m in s.matchers;
    var (pc', db') := MatcherStep(pc, s.db, at, a);
    MatcherStepKeeps(s.db, pc, at, a);
    MovesOwnClaim(pc, s.db, at, a);
    MatchersSurvive(s.db, db', s.matchers, m, pc');
    ClientsSurvive(s.db, db', s.clients);
    if s.reaper.Freeing? {
      forall i | 0 <= i < |s.reaper.rows|
        ensures RowStillOrphan(db', s.matchers[m := pc'], s.reaper.rows[i])
      {
        assert HoldOk(s.db, s.matchers[m]);
        OrphanSurvivesMatch(s.db, db', s.matchers, m, pc', s.reaper.rows[i]);
      }
    }
  }

  /** An app's `advance` makes no trip live and takes away only the claim of the trip it ends. */
  lemma AdvanceIsOutside(db: Db, p: Snapshot, dst: TripState)
    requires DbInv(db) && SnapOk(db, p) && CanTransition(p.state, dst) && dst != Matched
    requires UpdateState(db, p, dst).Some?
    ensures var db' := UpdateState(db, p, dst).value;
            && (forall t | t in db.trips && t in db'.trips && Live(db'.trips[t].state) :: Live(db.trips[t].state))
            && (forall d | d in db.claims ::
                  || (d in db'.claims && db'.claims[d] == db.claims[d])
                  || Live(db.trips[db.claims[d].trip].state))
  {
    MovedRowSteps(db, p, dst);
    forall d | d in ClaimsFreedBy(db, p, dst)
      ensures Live(db.trips[db.claims[d].trip].state)
    {
      FreedClaimIsOwn(db, p, dst, d);
    }
  }

  /** The client that moved its trip is up to date, the others are as sound as before. */
  lemma ClientsAfterMove(db: Db, clients: map<nat, Snapshot>, c: nat, dst: TripState)
    requires DbInv(db) && ClientsOk(db, clients) && c in clients && dst != Matched
    requires CanTransition(clients[c].state, dst) && UpdateState(db, clients[c], dst).Some?
    ensures ClientsOk(UpdateState(db, clients[c], dst).value, clients[c := MovedSnapshot(clients[c], dst)])
  {
    var db' := UpdateState(db, clients[c], dst).value;
    UpdateStateKeeps(db, clients[c], dst);
    ClientsSurvive(db, db', clients);
    MovedRowSteps(db, clients[c], dst);
  }

  lemma IdsSurvive(db: Db, db': Db, queue: seq<TripId>, requests: map<nat, TripId>)
    requires IdsKnown(db, queue, requests) && db.trips.Keys <= db'.trips.Keys
    ensures IdsKnown(db', queue, requests)
  {
  }

  lemma MoveKeeps(s: Sys, c: nat, dst: TripState)
    requires Inv(s) && Enabled(s, Move(c, dst)) && dst != Matched
    ensures Inv(Next(s, Move(c, dst))) && DbStep(s.db, Next(s, Move(c, dst)).db)
  {
    var p := s.clients[c];
    UnchangedRowsStep(s.db, s.db);
    if CanTransition(p.state, dst) && UpdateState(s.db, p, dst).Some? {
      var db' := UpdateState(s.db, p, dst).value;
      assert Next(s, Move(c, dst)) == s.(db := db', clients := s.clients[c := MovedSnapshot(p, dst)]);
      UpdateStateKeeps(s.db, p, dst);
      ClientsAfterMove(s.db, s.clients, c, dst);
      IdsSurvive(s.db, db', s.queue, s.requests);
      AdvanceIsOutside(s.db, p, dst);
      OutsideCommitKeeps(s.db, db', s.matchers, s.reaper);
    } else {
      assert Next(s, Move(c, dst)) == s;
    }
  }

  lemma PostKeeps(s: Sys, r: nat, trip: Snapshot, key: Key, at: int)
    requires Inv(s) && Enabled(s, Post(r, trip, key, at))
    ensures Inv(Next(s, Post(r, trip, key, at))) && DbStep(s.db, Next(s, Post(r, trip, key, at)).db)
  {
    var s' := Next(s, Post(r, trip, key, at));
    if InsertTrip(s.db, trip, key, at).Some? {
      var db' := InsertTrip(s.db, trip, key, at).value;
      assert s' == s.(db := db', requests := s.requests[r := trip.id]);
      InsertTripKeeps(s.db, trip, key, at);
      ClientsSurvive(s.db, db', s.clients);
      IdsSurvive(s.db, db', s.queue, s.requests);
      NewTripIsOutside(s.db, trip, key, at);
      OutsideCommitKeeps(s.db, db', s.matchers, s.reaper);
    } else {
      UnchangedRowsStep(s.db, s.db);
      assert s' == s || (s' == s.(requests := s.requests[r := trip.id]) && trip.id in s.db.trips);
    }
  }

  lemma NewTripIsOutside(db: Db, trip: Snapshot, key: Key, now: int)
    requires InsertTrip(db, trip, key, now).Some?
    ensures var db' := InsertTrip(db, trip, key, now).value;
            db'.claims == db.claims && forall t | t in db.trips :: t in db'.trips && db'.trips[t] == db.trips[t]
  {
  }

  /** A result of the orphan query is a sound worklist exactly when no running matcher holds one of its rows. */
  lemma PageIsWorklistIff(db: Db, ms: map<nat, Pc>, cutoff: int, rows: seq<OrphanRow>)
    requires DbInv(db) && OrphanPage(db, cutoff, rows)
    ensures ReaperOk(db, ms, Freeing(rows)) <==> forall i | 0 <= i < |rows| :: !Owned(ms, rows[i].driver)
  {
    forall i | 0 <= i < |rows|
      ensures RowStillOrphan(db, ms, rows[i]) <==> !Owned(ms, rows[i].driver)
    {
      assert IsOrphan(db, cutoff, rows[i].driver);
    }
  }

  /** Reading the orphans is safe exactly when no running matcher holds one of the rows read. */
  lemma FindOrphansKeepsIff(s: Sys, cutoff: int, rows: seq<OrphanRow>)
    requires Inv(s) && Enabled(s, FindOrphans(cutoff, rows))
    ensures Inv(Next(s, FindOrphans(cutoff, rows))) <==> forall i | 0 <= i < |rows| :: !Owned(s.matchers, rows[i].driver)
  {
    assert Next(s, FindOrphans(cutoff, rows)) == s.(reaper := Freeing(rows));
    PageIsWorklistIff(s.db, s.matchers, cutoff, rows);
  }

  /** A claim older than the cutoff is nobody's when every running matcher is in time. */
  lemma FindOrphansKeeps(s: Sys, cutoff: int, rows: seq<OrphanRow>)
    requires Inv(s) && Enabled(s, FindOrphans(cutoff, rows))
    requires forall m | m in s.matchers && Held(s.matchers[m]).Some? && Held(s.matchers[m]).value.0 in s.db.claims ::
               s.clock - s.db.claims[Held(s.matchers[m]).value.0].at <= 30_000
    ensures Inv(Next(s, FindOrphans(cutoff, rows))) && Assumed(s, FindOrphans(cutoff, rows))
  {
    forall i | 0 <= i < |rows|
      ensures !Owned(s.matchers, rows[i].driver)
    {
      assert IsOrphan(s.db, cutoff, rows[i].driver);
    }
    FindOrphansKeepsIff(s, cutoff, rows);
  }

  /** Deleting a claim on the worklist harms no matcher. */
  lemma FreeingSparesMatchers(db: Db, ms: map<nat, Pc>, row: OrphanRow)
    requires DbInv(db) && MatchersOk(db, ms) && RowStillOrphan(db, ms, row)
    ensures MatchersOk(DeleteClaim(db, row.driver), ms)
  {
    var db' := DeleteClaim(db, row.driver);
    UnchangedRowsStep(db, db');
    forall m | m in ms
      ensures PcOk(db', ms[m]) && HoldOk(db', ms[m])
    {
      assert HoldOk(db, ms[m]);
      PcSurvives(db, db', ms[m]);
    }
  }

  lemma FreeingSparesTheRest(db: Db, ms: map<nat, Pc>, rows: seq<OrphanRow>)
    requires rows != [] && ReaperOk(db, ms, Freeing(rows))
    ensures ReaperOk(DeleteClaim(db, rows[0].driver), ms, Freeing(rows[1..]))
  {
    forall i | 0 <= i < |rows[1..]|
      ensures RowStillOrphan(DeleteClaim(db, rows[0].driver), ms, rows[1..][i])
    {
      assert RowStillOrphan(db, ms, rows[i + 1]);
    }
  }

  lemma FreeOrphanKeeps(s: Sys)
    requires Inv(s) && Enabled(s, FreeOrphan)
    ensures Inv(Next(s, FreeOrphan)) && DbStep(s.db, Next(s, FreeOrphan).db)
  {
    UnchangedRowsStep(s.db, s.db);
    var rows := s.reaper.rows;
    if rows != [] {
      var row, db' := rows[0], DeleteClaim(s.db, rows[0].driver);
      assert RowStillOrphan(s.db, s.matchers, row);
      DeleteDeadClaimKeeps(s.db, row.driver);
      ClientsSurvive(s.db, db', s.clients);
      FreeingSparesMatchers(s.db, s.matchers, row);
      FreeingSparesTheRest(s.db, s.matchers, rows);
    }
  }

  /** A matcher that stops, pops or re-queues owns nothing new; what it held becomes an orphan. */
  lemma MatcherLetsGo(s: Sys, m: nat, pc: Pc, queue: seq<TripId>)
    requires Inv(s) && Held(pc).None? && PcOk(s.db, pc)
    requires forall i | 0 <= i < |queue| :: queue[i] in s.db.trips
    ensures Inv(s.(matchers := s.matchers[m := pc], queue := queue))
  {
    WorklistSurvives(s.db, s.matchers, s.matchers[m := pc], s.reaper);
  }

  lemma PopKeeps(s: Sys, m: nat)
    requires Inv(s) && Enabled(s, Pop(m))
    ensures Inv(Next(s, Pop(m))) && Next(s, Pop(m)).db == s.db
  {
    MatcherLetsGo(s, m, Popped(s.queue[0]), s.queue[1..]);
  }

  lemma RequeueKeeps(s: Sys, m: nat)
    requires Inv(s) && Enabled(s, Requeue(m))
    ensures Inv(Next(s, Requeue(m))) && Next(s, Requeue(m)).db == s.db
  {
    assert m in s.matchers && PcOk(s.db, s.matchers[m]);
    MatcherLetsGo(s, m, Idle(None), s.queue + [PcOf(s, m).trip]);
  }

  lemma CrashKeeps(s: Sys, m: nat)
    requires Inv(s)
    ensures Inv(Next(s, Crash(m))) && Next(s, Crash(m)).db == s.db
  {
    MatcherLetsGo(s, m, Idle(None), s.queue);
    assert Next(s, Crash(m)) == s.(matchers := s.matchers[m := Idle(None)], queue := s.queue);
  }

  lemma FindStrandedKeeps(s: Sys, cutoff: int, ids: seq<TripId>)
    requires Inv(s) && Enabled(s, FindStranded(cutoff, ids))
    ensures Inv(Next(s, FindStranded(cutoff, ids))) && Next(s, FindStranded(cutoff, ids)).db == s.db
  {
    forall i | 0 <= i < |ids|
      ensures ids[i] in s.db.trips
    {
      assert IsStranded(s.db, cutoff, ids[i]);
    }
    assert Next(s, FindStranded(cutoff, ids)) == s.(reaper := Requeueing(ids));
  }

  lemma PushStrandedKeeps(s: Sys)
    requires Inv(s) && Enabled(s, PushStranded)
    ensures Inv(Next(s, PushStranded)) && Next(s, PushStranded).db == s.db
  {
    var ids := s.reaper.ids;
    if ids != [] {
      assert forall i | 0 <= i < |ids[1..]| :: ids[1..][i] == ids[i + 1];
      assert Next(s, PushStranded) == s.(queue := s.queue + [ids[0]], reaper := Requeueing(ids[1..]));
    }
  }

  lemma QuietKeeps(s: Sys, a: Action)
    requires Inv(s) && Enabled(s, a) && (a.Tick? || a.RequestDies? || a.LoseQueue? || a.ReaperFails?)
    ensures Inv(Next(s, a)) && Next(s, a).db == s.db
  {
  }

  lemma EnqueueKeeps(s: Sys, r: nat)
    requires Inv(s) && Enabled(s, Enqueue(r))
    ensures Inv(Next(s, Enqueue(r))) && Next(s, Enqueue(r)).db == s.db
  {
    assert Next(s, Enqueue(r)) == s.(queue := s.queue + [s.requests[r]], requests := s.requests - {r});
  }

  lemma ReadIsSound(db: Db, clients: map<nat, Snapshot>, c: nat, t: TripId)
    requires ClientsOk(db, clients) && t in db.trips
    ensures ClientsOk(db, clients[c := SnapshotOf(t, db.trips[t])])
  {
  }

  lemma ReadKeeps(s: Sys, c: nat, t: TripId)
    requires Inv(s) && Enabled(s, Read(c, t))
    ensures Inv(Next(s, Read(c, t))) && Next(s, Read(c, t)).db == s.db
  {
    ReadIsSound(s.db, s.clients, c, t);
    assert Next(s, Read(c, t)) == s.(clients := s.clients[c := SnapshotOf(t, s.db.trips[t])]);
  }

  /** Every step of every process keeps the invariant. */
  lemma StepKeeps(s: Sys, a: Action)
    requires Inv(s) && Enabled(s, a) && Assumed(s, a)
    ensures Inv(Next(s, a))
  {
    match a
    case Post(r, trip, key, at) => PostKeeps(s, r, trip, key, at);
    case Enqueue(r) => EnqueueKeeps(s, r);
    case Read(c, t) => ReadKeeps(s, c, t);
    case Move(c, dst) => MoveKeeps(s, c, dst);
    case Pop(m) => PopKeeps(s, m);
    case Match(m, at, answer) => MatchKeeps(s, m, at, answer);
    case Requeue(m) => RequeueKeeps(s, m);
    case Crash(m) => CrashKeeps(s, m);
    case FindStranded(cutoff, ids) => FindStrandedKeeps(s, cutoff, ids);
    case PushStranded => PushStrandedKeeps(s);
    case FindOrphans(cutoff, rows) => FindOrphansKeeps(s, cutoff, rows);
    case FreeOrphan => FreeOrphanKeeps(s);
    case _ => QuietKeeps(s, a);
  }

  /** The four kinds of step that reach a table. */
  predicate Commits(a: Action) {
    a.Post? || a.Move? || a.Match? || a.FreeOrphan?
  }

  lemma OthersCommitNothing(s: Sys, a: Action)
    requires Enabled(s, a) && !Commits(a)
    ensures Next(s, a).db == s.db
  {
  }

  /** Every step of every process moves rows along the transition table, or not at all. */
  lemma StepMovesRows(s: Sys, a: Action)
    requires Inv(s) && Enabled(s, a) && Assumed(s, a)
    ensures DbStep(s.db, Next(s, a).db)
  {
    match a
    case Post(r, trip, key, at) => PostKeeps(s, r, trip, key, at);
    case Move(c, dst) => MoveKeeps(s, c, dst);
    case Match(m, at, answer) => MatchKeeps(s, m, at, answer);
    case FreeOrphan => FreeOrphanKeeps(s);
    case _ =>
      OthersCommitNothing(s, a);
      UnchangedRowsStep(s.db, s.db);
  }

  lemma InitOk(s: Sys)
    requires Init(s)
    ensures Inv(s)
  {
  }
}
