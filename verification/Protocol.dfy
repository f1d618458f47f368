/**
 * The claim / price / save protocol as a step system: any number of matchers, API workers and
 * app clients, one reaper, two tables and a queue. One step is one committed transaction, one
 * queue operation, or one local move between them; every process may stop at any step.
 */
module Protocol {
  import opened Wrappers
  import opened Domain
  import opened Tables

  const MAX_CLAIM_ATTEMPTS := 5
  const STRANDED_TRIP_MS := 15_000
  const ORPHANED_CLAIM_MS := 30_000
  const STRANDED_PAGE := 200
  const ORPHAN_PAGE := 500

  // ---- one matcher -------------------------------------------------------------------------

  /** Where a matcher is between two transactions, with the locals that are still needed. */
  datatype Pc =
    | Idle(last: Option<Snapshot>)                          // between trips; what match_once returned last
    | Popped(trip: TripId)                                  // about to read the trip
    | Trying(snap: Snapshot, rest: seq<DriverId>)           // about to claim rest[0]
    | Quoting(snap: Snapshot, driver: DriverId)             // holds the claim, calls pricing
    | Saving(snap: Snapshot, driver: DriverId, fare: int)   // holds the claim, about to save
    | Releasing(trip: TripId, driver: DriverId, lost: bool) // holds the claim, in an except branch
    | Rereading(trip: TripId)                               // released after ConcurrentUpdate
    | Failing(trip: TripId)                                 // match_once raised; about to re-queue

  /** What the world answers to one move: a raised error, the geo index's answer, the fare (None raises). */
  datatype Answer = Answer(fault: bool, candidates: seq<DriverId>, quote: Option<int>)

  function FirstFive(ids: seq<DriverId>): seq<DriverId> {
    if |ids| <= MAX_CLAIM_ATTEMPTS then ids else ids[..MAX_CLAIM_ATTEMPTS]
  }

  /** One move of `match_once` on the tables it finds. */
  function MatcherStep(pc: Pc, db: Db, now: int, a: Answer): (Pc, Db) {
    match pc
    case Idle(_) => (pc, db)
    case Failing(_) => (pc, db)
    case Popped(t) =>
      if a.fault then (Failing(t), db)
      else (match Get(db, t)
            case None => (Idle(None), db)
            case Some(snap) =>
              if snap.state != Requested then (Idle(Some(snap)), db)
              else if a.candidates == [] then (Idle(None), db)
              else (Trying(snap, FirstFive(a.candidates)), db))
    case Trying(snap, rest) =>
      if rest == [] then (Idle(None), db)
      else if a.fault then (Failing(snap.id), db)
      else (match InsertClaim(db, rest[0], snap.id, now)
            case None => (Trying(snap, rest[1..]), db)
            case Some(db') => (Quoting(snap, rest[0]), db'))
    case Quoting(snap, d) =>
      (match a.quote
       case None => (Releasing(snap.id, d, false), db)
       case Some(fare) => (Saving(snap, d, fare), db))
    case Saving(snap, d, fare) =>
      if a.fault || !CanTransition(snap.state, Matched) then (Releasing(snap.id, d, false), db)
      else (match UpdateMatch(db, snap.id, snap.version, d, fare)
            case None => (Releasing(snap.id, d, true), db)
            case Some(db') => (Idle(Some(MatchedSnapshot(snap, d, fare))), db'))
    case Releasing(t, d, lost) =>
      if a.fault then (Failing(t), db)
      else (if lost then Rereading(t) else Failing(t), DeleteClaim(db, d))
    case Rereading(t) =>
      if a.fault then (Failing(t), db) else (Idle(Get(db, t)), db)
  }

  /** The in-memory trip after `save_match` assigned it and bumped its version. */
  function MatchedSnapshot(snap: Snapshot, d: DriverId, fare: int): Snapshot {
    snap.(state := Matched, driver := Some(d), fare := Some(fare), version := snap.version + 1)
  }

  /** The claim a matcher is responsible for: from its INSERT until its save or its release. */
  function Held(pc: Pc): Option<(DriverId, TripId)> {
    match pc
    case Quoting(snap, d) => Some((d, snap.id))
    case Saving(snap, d, _) => Some((d, snap.id))
    case Releasing(t, d, _) => Some((d, t))
    case _ => None
  }

  // ---- the reaper's two queries ------------------------------------------------------------

  datatype OrphanRow = OrphanRow(driver: DriverId, trip: TripId)

  /** The WHERE clause of the orphaned-claim query. */
  predicate IsOrphan(db: Db, cutoff: int, d: DriverId) {
    && d in db.claims
    && db.claims[d].at < cutoff
    && (db.claims[d].trip !in db.trips || !Live(db.trips[db.claims[d].trip].state))
  }

  function Orphans(db: Db, cutoff: int): set<DriverId> {
    set d | d in db.claims && IsOrphan(db, cutoff, d)
  }

  /** A result of the orphaned-claim query: any 500 of the matching rows, or all when fewer. */
  ghost predicate OrphanPage(db: Db, cutoff: int, rows: seq<OrphanRow>) {
    && (forall i | 0 <= i < |rows| ::
          IsOrphan(db, cutoff, rows[i].driver) && db.claims[rows[i].driver].trip == rows[i].trip)
    && (forall i, j | 0 <= i < j < |rows| :: rows[i].driver != rows[j].driver)
    && |rows| == Min(ORPHAN_PAGE, |Orphans(db, cutoff)|)
  }

  /** The WHERE clause of `stale_matched_trips`. */
  predicate IsStranded(db: Db, cutoff: int, t: TripId) {
    t in db.trips && db.trips[t].state == Requested && db.trips[t].created < cutoff
  }

  function Stranded(db: Db, cutoff: int): set<TripId> {
    set t | t in db.trips && IsStranded(db, cutoff, t)
  }

  /** A result of `stale_matched_trips`: the 200 oldest stranded trips in age order, or all when fewer. */
  ghost predicate StrandedPage(db: Db, cutoff: int, ids: seq<TripId>) {
    && (forall i | 0 <= i < |ids| :: IsStranded(db, cutoff, ids[i]))
    && (forall i, j | 0 <= i < j < |ids| ::
          ids[i] != ids[j] && db.trips[ids[i]].created <= db.trips[ids[j]].created)
    && |ids| == Min(STRANDED_PAGE, |Stranded(db, cutoff)|)
    && (forall t, i | IsStranded(db, cutoff, t) && t !in ids && 0 <= i < |ids| ::
          db.trips[ids[i]].created <= db.trips[t].created)
  }

  function Min(a: int, b: int): int {
    if a <= b then a else b
  }

  // ---- the whole system --------------------------------------------------------------------

  datatype ReaperPc =
    | Resting
    | Requeueing(ids: seq<TripId>)     // read by the stranded sweep, not pushed yet
    | Freeing(rows: seq<OrphanRow>)    // read by the orphan sweep, not deleted yet

  datatype Sys = Sys(
    db: Db,
    queue: seq<TripId>,
    clock: int,
    matchers: map<nat, Pc>,
    clients: map<nat, Snapshot>,       // the trip each app client read last
    requests: map<nat, TripId>,        // API requests between their durable write and their push
    reaper: ReaperPc)

  /** `at` is the clock as the process read it, some time before its statement commits. */
  datatype Action =
    | Tick(now: int)
    | Post(req: nat, trip: Snapshot, key: Key, at: int)
    | Enqueue(req: nat)
    | RequestDies(req: nat)
    | Read(client: nat, id: TripId)
    | Move(client: nat, dst: TripState)
    | Pop(m: nat)
    | Match(m: nat, at: int, answer: Answer)
    | Requeue(m: nat)
    | Crash(m: nat)
    | LoseQueue
    | FindStranded(cutoff: int, ids: seq<TripId>)
    | PushStranded
    | FindOrphans(cutoff: int, rows: seq<OrphanRow>)
    | FreeOrphan
    | ReaperFails

  function PcOf(s: Sys, m: nat): Pc {
    if m in s.matchers then s.matchers[m] else Idle(None)
  }

  predicate Init(s: Sys) {
    s == Sys(Db(map[], map[]), [], s.clock, map[], map[], map[], Resting)
  }

  ghost predicate Enabled(s: Sys, a: Action) {
    match a
    case Tick(now) => s.clock <= now
    case Post(r, _, _, at) => r !in s.requests && at <= s.clock
    case Enqueue(r) => r in s.requests
    case RequestDies(r) => r in s.requests
    case Read(_, t) => t in s.db.trips
    case Move(c, _) => c in s.clients
    case Pop(m) => PcOf(s, m).Idle? && s.queue != []
    case Match(m, at, _) => !PcOf(s, m).Idle? && !PcOf(s, m).Failing? && at <= s.clock
    case Requeue(m) => PcOf(s, m).Failing?
    case Crash(_) => true
    case LoseQueue => true
    // the reaper reads the clock for its cutoff some time before the query commits
    case FindStranded(cutoff, ids) =>
      s.reaper.Resting? && cutoff <= s.clock - STRANDED_TRIP_MS && StrandedPage(s.db, cutoff, ids)
    case PushStranded => s.reaper.Requeueing?
    case FindOrphans(cutoff, rows) =>
      s.reaper.Resting? && cutoff <= s.clock - ORPHANED_CLAIM_MS && OrphanPage(s.db, cutoff, rows)
    case FreeOrphan => s.reaper.Freeing?
    case ReaperFails => true
  }

  /** The in-memory trip of a client after `store.advance`. */
  function MovedSnapshot(p: Snapshot, dst: TripState): Snapshot {
    p.(state := dst, version := p.version + 1)
  }

  ghost function Next(s: Sys, a: Action): Sys
    requires Enabled(s, a)
  {
    match a
    case Tick(now) => s.(clock := now)
    case Post(r, trip, key, at) =>
      (match InsertTrip(s.db, trip, key, at)
       case Some(db') => s.(db := db', requests := s.requests[r := trip.id])
       case None =>
         // a replay; only a reply carrying the request's own id is pushed
         if KeyOwner(s.db, key) == Some(trip.id) then s.(requests := s.requests[r := trip.id]) else s)
    case Enqueue(r) => s.(queue := s.queue + [s.requests[r]], requests := s.requests - {r})
    case RequestDies(r) => s.(requests := s.requests - {r})
    case Read(c, t) => s.(clients := s.clients[c := SnapshotOf(t, s.db.trips[t])])
    case Move(c, dst) =>
      var p := s.clients[c];
      if !CanTransition(p.state, dst) then s       // IllegalTransition
      else (match UpdateState(s.db, p, dst)
            case None => s                         // ConcurrentUpdate
            case Some(db') => s.(db := db', clients := s.clients[c := MovedSnapshot(p, dst)]))
    case Pop(m) => s.(queue := s.queue[1..], matchers := s.matchers[m := Popped(s.queue[0])])
    case Match(m, at, answer) =>
      var (pc, db') := MatcherStep(PcOf(s, m), s.db, at, answer);
      s.(db := db', matchers := s.matchers[m := pc])
    case Requeue(m) => s.(queue := s.queue + [PcOf(s, m).trip], matchers := s.matchers[m := Idle(None)])
    case Crash(m) => s.(matchers := s.matchers[m := Idle(None)])
    case LoseQueue => s.(queue := [])
    case FindStranded(_, ids) => s.(reaper := Requeueing(ids))
    case PushStranded =>
      if s.reaper.ids == [] then s.(reaper := Resting)
      else s.(queue := s.queue + [s.reaper.ids[0]], reaper := Requeueing(s.reaper.ids[1..]))
    case FindOrphans(_, rows) => s.(reaper := Freeing(rows))
    case FreeOrphan =>
      if s.reaper.rows == [] then s.(reaper := Resting)
      else s.(db := DeleteClaim(s.db, s.reaper.rows[0].driver), reaper := Freeing(s.reaper.rows[1..]))
    case ReaperFails => s.(reaper := Resting)
  }

  // ---- what the code relies on -------------------------------------------------------------

  /** Every claim in the hands of a running matcher is at most ORPHANED_CLAIM_MS old. */
  ghost predicate InTime(s: Sys) {
    forall m | m in s.matchers && Held(s.matchers[m]).Some? ::
      var d := Held(s.matchers[m]).value.0;
      d in s.db.claims ==> s.clock - s.db.claims[d].at <= ORPHANED_CLAIM_MS
  }

  /**
   * The two things the code relies on and does not enforce: no matcher is late when the reaper
   * reads the claims, and nobody moves a trip to MATCHED by `advance` instead of `save_match`.
   */
  ghost predicate Assumed(s: Sys, a: Action) {
    && (a.FindOrphans? ==> InTime(s))
    && (a.Move? ==> a.dst != Matched)
  }

  // ---- runs --------------------------------------------------------------------------------

  /** Step i of the run is a step of the system. */
  ghost predicate StepAt(run: seq<Sys>, acts: seq<Action>, i: nat)
    requires i < |acts| && i + 1 < |run|
  {
    Enabled(run[i], acts[i]) && run[i + 1] == Next(run[i], acts[i])
  }

  ghost predicate IsRun(run: seq<Sys>, acts: seq<Action>) {
    && |run| == |acts| + 1
    && Init(run[0])
    && forall i: nat | i < |acts| :: StepAt(run, acts, i)
  }

  ghost predicate AssumedAt(run: seq<Sys>, acts: seq<Action>, i: nat)
    requires i < |acts| && i < |run|
  {
    Assumed(run[i], acts[i])
  }

  /** An honest run: what the code relies on holds at every step. */
  ghost predicate HonestRun(run: seq<Sys>, acts: seq<Action>) {
    IsRun(run, acts) && forall i: nat | i < |acts| :: AssumedAt(run, acts, i)
  }

  /** A state of some honest run. */
  ghost predicate Reachable(s: Sys) {
    exists run: seq<Sys>, acts: seq<Action> :: HonestRun(run, acts) && run[|acts|] == s
  }

  /** The actions lead from s to s', and what the code relies on holds at each of them. */
  ghost predicate Leads(s: Sys, acts: seq<Action>, s': Sys)
    decreases |acts|
  {
    if acts == [] then s' == s
    else Enabled(s, acts[0]) && Assumed(s, acts[0]) && Leads(Next(s, acts[0]), acts[1..], s')
  }

  ghost predicate CanLead(s: Sys, s': Sys) {
    exists acts :: Leads(s, acts, s')
  }
}
