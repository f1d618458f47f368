/**
 * The code against the step system: `match_once`, the two sweeps and `request_ride`, with the other
 * processes' steps in every gap, are honest runs of the protocol, so its theorems hold for the code.
 */
module CodeRuns {
  import opened Wrappers
  import opened Domain
  import opened Tables
  import opened TableLaws
  import opened Protocol
  import opened ProtocolInvariant
  import opened ProtocolTheorems
  import opened Leading
  import opened Interference
  import opened Matching
  import opened Reaping
  import opened Pricing
  import opened Geo
  import opened Api

  // ---- processes and gaps ------------------------------------------------------------------

  datatype Process = TheMatcher(m: nat) | TheReaper | TheRequest(r: nat)

  /** The action is a move of the process. */
  predicate By(a: Action, p: Process) {
    match a
    case Post(r, _, _, _) => p == TheRequest(r)
    case Enqueue(r) => p == TheRequest(r)
    case RequestDies(r) => p == TheRequest(r)
    case Pop(m) => p == TheMatcher(m)
    case Match(m, _, _) => p == TheMatcher(m)
    case Requeue(m) => p == TheMatcher(m)
    case Crash(m) => p == TheMatcher(m)
    case FindStranded(_, _) => p == TheReaper
    case PushStranded => p == TheReaper
    case FindOrphans(_, _) => p == TheReaper
    case FreeOrphan => p == TheReaper
    case ReaperFails => p == TheReaper
    case _ => false
  }

  /** Honest steps of the other processes lead from s to s'. */
  ghost predicate OthersLead(s: Sys, p: Process, s': Sys) {
    exists acts :: Leads(s, acts, s') && forall i | 0 <= i < |acts| :: !By(acts[i], p)
  }

  /** The others' steps in a gap, one own step, and what follows. */
  lemma TurnLeads(s: Sys, p: Process, s1: Sys, a: Action, s': Sys)
    requires OthersLead(s, p, s1) && Enabled(s1, a) && Assumed(s1, a) && CanLead(Next(s1, a), s')
    ensures CanLead(s, s')
  {
    StepLeads(s1, a);
    CanLeadOn(s1, Next(s1, a), s');
    CanLeadOn(s, s1, s');
  }

  // ---- match_once --------------------------------------------------------------------------

  /** What matcher m is told at its turn. */
  function Told(pc: Pc, k: nat, g: Gaps, candidates: seq<DriverId>, fares: DriverId -> Option<int>): Answer {
    Answer(!g.up(k), candidates, if pc.Quoting? then fares(pc.driver) else None)
  }

  /** From state s on, the interference g is something the other processes can honestly do. */
  ghost predicate Possible(s: Sys, m: nat, k: nat, g: Gaps, candidates: seq<DriverId>, fares: DriverId -> Option<int>)
    requires m in s.matchers
    decreases Rank(s.matchers[m])
  {
    var pc := s.matchers[m];
    pc.Idle? || pc.Failing?
    || exists s1 ::
         && OthersLead(s, TheMatcher(m), s1)
         && s1.db == g.others(k, s.db) && g.now(k) <= s1.clock && m in s1.matchers && s1.matchers[m] == pc
         && Possible(Next(s1, Match(m, g.now(k), Told(pc, k, g, candidates, fares))), m, k + 1, g, candidates, fares)
  }

  /**
   * Every execution of `match_once`, with the other processes' honest steps in its gaps, is a piece of
   * an honest run: it ends with the tables the protocol has and at the point where the protocol has it.
   */
  lemma {:induction false} CodeIsARun(s: Sys, m: nat, k: nat, g: Gaps, candidates: seq<DriverId>, fares: DriverId -> Option<int>)
    requires m in s.matchers && Possible(s, m, k, g, candidates, fares)
    ensures exists s' :: CanLead(s, s') && m in s'.matchers
                         && (s'.matchers[m], s'.db) == Drive(s.matchers[m], s.db, k, g, candidates, fares)
    decreases Rank(s.matchers[m])
  {
    var pc := s.matchers[m];
    OneTurn(pc, s.db, k, g, candidates, fares);
    if pc.Idle? || pc.Failing? {
      StaysPut(s);
    } else {
      var a := Match(m, g.now(k), Told(pc, k, g, candidates, fares));
      var s1 :| OthersLead(s, TheMatcher(m), s1) && s1.db == g.others(k, s.db) && g.now(k) <= s1.clock
                && m in s1.matchers && s1.matchers[m] == pc
                && Possible(Next(s1, a), m, k + 1, g, candidates, fares);
      var s2 := Next(s1, a);
      TurnIsStep(s, m, k, g, candidates, fares, s1, s2);
      CodeIsARun(s2, m, k + 1, g, candidates, fares);
      var s' :| CanLead(s2, s') && m in s'.matchers
                && (s'.matchers[m], s'.db) == Drive(s2.matchers[m], s2.db, k + 1, g, candidates, fares);
      TurnLeads(s, TheMatcher(m), s1, a, s');
    }
  }

  /** The empty interference is one of those the other processes can do. */
  lemma {:induction false} QuietIsPossible(s: Sys, m: nat, k: nat, candidates: seq<DriverId>, fares: DriverId -> Option<int>)
    requires m in s.matchers
    ensures Possible(s, m, k, Quiet(s.clock), candidates, fares)
    decreases Rank(s.matchers[m])
  {
    var pc, g := s.matchers[m], Quiet(s.clock);
    if !pc.Idle? && !pc.Failing? {
      var s2 := Next(s, Match(m, g.now(k), Told(pc, k, g, candidates, fares)));
      TurnIsStep(s, m, k, g, candidates, fares, s, s2);
      QuietIsPossible(s2, m, k + 1, candidates, fares);
      assert Leads(s, [], s);
      assert OthersLead(s, TheMatcher(m), s);
    }
  }

  /** A turn of the code is a step of the protocol. */
  lemma TurnIsStep(s: Sys, m: nat, k: nat, g: Gaps, candidates: seq<DriverId>, fares: DriverId -> Option<int>, s1: Sys, s2: Sys)
    requires m in s.matchers && m in s1.matchers && s1.matchers[m] == s.matchers[m]
    requires !s.matchers[m].Idle? && !s.matchers[m].Failing?
    requires s1.db == g.others(k, s.db) && g.now(k) <= s1.clock
    requires s2 == Next(s1, Match(m, g.now(k), Told(s.matchers[m], k, g, candidates, fares)))
    ensures m in s2.matchers && (s2.matchers[m], s2.db) == Turn(s.matchers[m], s.db, k, g, candidates, fares)
    ensures Rank(s2.matchers[m]) < Rank(s.matchers[m])
  {
  }

  /** So from a state of an honest run, whatever is driven to its end, ends safe and in such a state again. */
  lemma DriveIsSafe(s: Sys, m: nat, k: nat, g: Gaps, candidates: seq<DriverId>, fares: DriverId -> Option<int>)
    requires Reachable(s) && m in s.matchers && Possible(s, m, k, g, candidates, fares)
    ensures var (pc, db) := Drive(s.matchers[m], s.db, k, g, candidates, fares);
            && NoDoubleBooking(db)
            && exists s' :: Reachable(s') && CanLead(s, s') && s'.db == db && m in s'.matchers && s'.matchers[m] == pc
  {
    CodeIsARun(s, m, k, g, candidates, fares);
    var s' :| CanLead(s, s') && m in s'.matchers
              && (s'.matchers[m], s'.db) == Drive(s.matchers[m], s.db, k, g, candidates, fares);
    LedFromReachable(s, s');
  }

  /**
   * One call of the code, made in a state of an honest run by the matcher that popped the id: it does what
   * the protocol's matcher does on the candidates the index gives and the fares pricing gives, and when the
   * others' part in it is honest, so is the run it makes.
   */
  method MatchOnceInRun(matcher: Matcher, tripId: TripId, g: Gaps, wall: int, mono: real, rpc: Rpc, endedAt: real,
                        ghost s: Sys, ghost m: nat)
    returns (raised: bool, result: Trip?, ghost seen: seq<(Driver, real)>, ghost fares: DriverId -> Option<int>)
    requires matcher.Wired() && matcher.geo.Valid()
    requires Reachable(s) && m in s.matchers && s.matchers[m] == Popped(tripId) && s.db == matcher.store.Content()
    modifies matcher.store, matcher.pricing.breaker
    ensures fares == matcher.FaresFor(g.others(0, s.db), tripId, Asks(old(matcher.pricing.breaker.State()), mono), rpc)
    ensures var found := g.others(0, s.db);
            g.up(0) && tripId in found.trips && found.trips[tripId].state == Requested ==>
              NearbyAnswer(matcher.geo.drivers, found.trips[tripId].pickup, wall, 3, matcher.geo.distance, seen)
    ensures Drive(Popped(tripId), s.db, 0, g, Ids(seen), fares) == (End(tripId, raised, result), matcher.store.Content())
    ensures Possible(s, m, 0, g, Ids(seen), fares) ==>
              && NoDoubleBooking(matcher.store.Content())
              && exists s' :: Reachable(s') && CanLead(s, s') && s'.db == matcher.store.Content()
                              && m in s'.matchers && s'.matchers[m] == End(tripId, raised, result)
  {
    fares := matcher.FaresFor(g.others(0, matcher.store.Content()), tripId, Asks(matcher.pricing.breaker.State(), mono), rpc);
    raised, result, seen := matcher.MatchOnce(tripId, g, wall, mono, rpc, endedAt);
    if Possible(s, m, 0, g, Ids(seen), fares) {
      DriveIsSafe(s, m, 0, g, Ids(seen), fares);
    }
  }

  /** A matcher takes the oldest id and works on it to the end of the call. */
  lemma PopAndMatch(s: Sys, m: nat, g: Gaps, candidates: seq<DriverId>, fares: DriverId -> Option<int>) returns (s1: Sys)
    requires Reachable(s) && PcOf(s, m).Idle? && s.queue != []
    requires Possible(Next(s, Pop(m)), m, 0, g, candidates, fares)
    ensures Reachable(s1) && CanLead(s, s1) && m in s1.matchers
    ensures (s1.matchers[m], s1.db) == Drive(Popped(s.queue[0]), s.db, 0, g, candidates, fares)
  {
    var s0 := Next(s, Pop(m));
    StepLeads(s, Pop(m));
    CodeIsARun(s0, m, 0, g, candidates, fares);
    s1 :| CanLead(s0, s1) && m in s1.matchers
          && (s1.matchers[m], s1.db) == Drive(s0.matchers[m], s0.db, 0, g, candidates, fares);
    CanLeadOn(s, s0, s1);
    LedFromReachable(s, s1);
  }

  /** One turn of the matcher's loop: it pops the oldest id, and when the call raises the id goes back to the end. */
  lemma LoopTurnIsARun(s: Sys, m: nat, g: Gaps, candidates: seq<DriverId>, fares: DriverId -> Option<int>) returns (s1: Sys, s2: Sys)
    requires Reachable(s) && PcOf(s, m).Idle? && s.queue != []
    requires Possible(Next(s, Pop(m)), m, 0, g, candidates, fares)
    ensures var (end, db) := Drive(Popped(s.queue[0]), s.db, 0, g, candidates, fares);
            && CanLead(s, s1) && s1.db == db && m in s1.matchers && s1.matchers[m] == end
            && Reachable(s2) && CanLead(s1, s2) && s2.db == db && m in s2.matchers && s2.matchers[m].Idle?
            && s2.queue == s1.queue + (if end == Failing(s.queue[0]) then [s.queue[0]] else [])
  {
    s1 := PopAndMatch(s, m, g, candidates, fares);
    DriveFails(Popped(s.queue[0]), s.queue[0], s.db, 0, g, candidates, fares);
    s2 := LoopGoesOn(s1, m, s.queue[0]);
  }

  /** After the call: a trip whose match raised is put back, and the matcher is between trips again. */
  lemma LoopGoesOn(s: Sys, m: nat, t: TripId) returns (s': Sys)
    requires Reachable(s) && m in s.matchers && (s.matchers[m].Idle? || s.matchers[m] == Failing(t))
    ensures Reachable(s') && CanLead(s, s') && s'.db == s.db && m in s'.matchers && s'.matchers[m].Idle?
    ensures s'.queue == s.queue + (if s.matchers[m] == Failing(t) then [t] else [])
  {
    if s.matchers[m].Idle? {
      StaysPut(s);
      s' := s;
    } else {
      StepLeads(s, Requeue(m));
      s' := Next(s, Requeue(m));
      LedFromReachable(s, s');
    }
  }

  lemma {:induction false} DriveFails(pc: Pc, t: TripId, db: Db, k: nat, g: Gaps, candidates: seq<DriverId>, fares: DriverId -> Option<int>)
    requires pc.Idle? || Working(pc) == Some(t)
    ensures var end := Drive(pc, db, k, g, candidates, fares).0; end.Idle? || end == Failing(t)
    decreases Rank(pc)
  {
    if !pc.Idle? && !pc.Failing? {
      var (pc', db') := Turn(pc, db, k, g, candidates, fares);
      OneTurn(pc, db, k, g, candidates, fares);
      DriveFails(pc', t, db', k + 1, g, candidates, fares);
    }
  }

  // ---- the orphan sweep --------------------------------------------------------------------

  /** From state s on, the release loop's gaps are something the other processes can honestly do. */
  ghost predicate FreeingPossible(s: Sys, k: nat, g: Gaps)
    requires s.reaper.Freeing?
    decreases |s.reaper.rows|
  {
    s.reaper.rows == []
    || exists s1 ::
         && OthersLead(s, TheReaper, s1) && s1.db == g.others(k, s.db) && s1.reaper == s.reaper
         && (g.up(k) ==> FreeingPossible(Next(s1, FreeOrphan), k + 1, g))
  }

  /** The release loop is a piece of an honest run, whether it comes to its end or raises. */
  lemma {:induction false} FreeingIsARun(s: Sys, k: nat, g: Gaps)
    requires s.reaper.Freeing? && FreeingPossible(s, k, g)
    ensures exists s' :: CanLead(s, s') && s'.reaper.Resting? && s'.db == FreeEach(s.reaper.rows, s.db, k, g).1
    decreases |s.reaper.rows|
  {
    if s.reaper.rows == [] {
      StepLeads(s, FreeOrphan);
    } else {
      var s1 :| OthersLead(s, TheReaper, s1) && s1.db == g.others(k, s.db) && s1.reaper == s.reaper
                && (g.up(k) ==> FreeingPossible(Next(s1, FreeOrphan), k + 1, g));
      if g.up(k) {
        var s2 := Next(s1, FreeOrphan);
        FreeingIsARun(s2, k + 1, g);
        var s' :| CanLead(s2, s') && s'.reaper.Resting? && s'.db == FreeEach(s2.reaper.rows, s2.db, k + 1, g).1;
        TurnLeads(s, TheReaper, s1, FreeOrphan, s');
      } else {
        StaysPut(Next(s1, ReaperFails));
        TurnLeads(s, TheReaper, s1, ReaperFails, Next(s1, ReaperFails));
      }
    }
  }

  /** Each release of the loop finds the claim `read` has for its driver, of a trip that is not live. */
  predicate ReleasesHit(rows: seq<OrphanRow>, db: Db, k: nat, g: Gaps, read: map<DriverId, Claim>) {
    rows == [] || !g.up(k)
    || (var found, d := g.others(k, db), rows[0].driver;
        && AsRead(found, d, read) && read[d].trip == rows[0].trip
        && (rows[0].trip in found.trips ==> !Live(found.trips[rows[0].trip].state))
        && ReleasesHit(rows[1..], DeleteClaim(found, d), k + 1, g, read))
  }

  /** The driver's claim is in the table as `read` has it. */
  predicate AsRead(db: Db, d: DriverId, read: map<DriverId, Claim>) {
    d in read && d in db.claims && db.claims[d] == read[d]
  }

  /** So are those of all rows on the reaper's worklist. */
  ghost predicate WorklistAsRead(s: Sys, read: map<DriverId, Claim>) {
    s.reaper.Freeing? ==> forall i | 0 <= i < |s.reaper.rows| :: AsRead(s.db, s.reaper.rows[i].driver, read)
  }

  lemma RowStaysAsRead(s: Sys, a: Action, read: map<DriverId, Claim>, i: nat)
    requires Inv(s) && Enabled(s, a) && Assumed(s, a) && WorklistAsRead(s, read) && s.reaper.Freeing?
    requires Next(s, a).reaper.Freeing? && i < |Next(s, a).reaper.rows|
    ensures AsRead(Next(s, a).db, Next(s, a).reaper.rows[i].driver, read)
  {
    var s' := Next(s, a);
    StepSparesWorklist(s, a, i);
    WorklistShrinks(s, a);
    var i' := if a.FreeOrphan? then i + 1 else i;
    assert s'.reaper.rows[i] == s.reaper.rows[i'];
    assert AsRead(s.db, s.reaper.rows[i'].driver, read);
  }

  lemma StepKeepsWorklist(s: Sys, a: Action, read: map<DriverId, Claim>)
    requires Inv(s) && Enabled(s, a) && Assumed(s, a) && WorklistAsRead(s, read) && s.reaper.Freeing?
    ensures Inv(Next(s, a)) && WorklistAsRead(Next(s, a), read)
  {
    var s' := Next(s, a);
    StepKeeps(s, a);
    if s'.reaper.Freeing? {
      forall i | 0 <= i < |s'.reaper.rows|
        ensures AsRead(s'.db, s'.reaper.rows[i].driver, read)
      {
        RowStaysAsRead(s, a, read, i);
      }
    }
  }

  /** Only the reaper touches its worklist. */
  lemma OthersLeaveReaper(s: Sys, a: Action)
    requires Enabled(s, a) && !By(a, TheReaper)
    ensures Next(s, a).reaper == s.reaper
  {
  }

  lemma {:induction false} OthersKeepWorklist(s: Sys, acts: seq<Action>, s1: Sys, read: map<DriverId, Claim>)
    requires Inv(s) && Leads(s, acts, s1) && WorklistAsRead(s, read) && s.reaper.Freeing?
    requires forall i | 0 <= i < |acts| :: !By(acts[i], TheReaper)
    ensures Inv(s1) && WorklistAsRead(s1, read)
    decreases |acts|
  {
    if acts != [] {
      StepKeepsWorklist(s, acts[0], read);
      OthersLeaveReaper(s, acts[0]);
      OthersKeepWorklist(Next(s, acts[0]), acts[1..], s1, read);
    }
  }

  /** Whatever happens in the gaps, each release deletes the claim that was read. */
  lemma {:induction false} FreeingHits(s: Sys, k: nat, g: Gaps, read: map<DriverId, Claim>)
    requires Inv(s) && s.reaper.Freeing? && FreeingPossible(s, k, g) && WorklistAsRead(s, read)
    ensures ReleasesHit(s.reaper.rows, s.db, k, g, read)
    decreases |s.reaper.rows|
  {
    if s.reaper.rows != [] && g.up(k) {
      var s1 :| OthersLead(s, TheReaper, s1) && s1.db == g.others(k, s.db) && s1.reaper == s.reaper
                && FreeingPossible(Next(s1, FreeOrphan), k + 1, g);
      var acts :| Leads(s, acts, s1) && forall i | 0 <= i < |acts| :: !By(acts[i], TheReaper);
      OthersKeepWorklist(s, acts, s1, read);
      StepKeepsWorklist(s1, FreeOrphan, read);
      assert RowStillOrphan(s1.db, s1.matchers, s1.reaper.rows[0]);
      FreeingHits(Next(s1, FreeOrphan), k + 1, g, read);
    }
  }

  /** The sweep's gaps, the one before its SELECT included, are something the other processes can honestly do. */
  ghost predicate OrphanSweepPossible(s: Sys, cutoff: int, rows: seq<OrphanRow>, g: Gaps) {
    exists s1 ::
      && OthersLead(s, TheReaper, s1) && s1.db == g.others(0, s.db) && s1.reaper.Resting?
      && (g.up(0) ==>
            && Enabled(s1, FindOrphans(cutoff, rows)) && Assumed(s1, FindOrphans(cutoff, rows))
            && FreeingPossible(Next(s1, FindOrphans(cutoff, rows)), 1, g))
  }

  /**
   * The orphan sweep as coded, with the others' honest steps before its SELECT and before every DELETE,
   * is a piece of an honest run, and each of its releases deletes the claim its SELECT read.
   */
  lemma OrphanSweepIsARun(s: Sys, cutoff: int, rows: seq<OrphanRow>, g: Gaps)
    requires Reachable(s) && OrphanSweepPossible(s, cutoff, rows, g)
    ensures var found := g.others(0, s.db);
            var db := if g.up(0) then FreeEach(rows, found, 1, g).1 else found;
            && NoDoubleBooking(db)
            && (exists s' :: Reachable(s') && CanLead(s, s') && s'.reaper.Resting? && s'.db == db)
            && (g.up(0) ==> ReleasesHit(rows, found, 1, g, found.claims))
  {
    var s1 :| OthersLead(s, TheReaper, s1) && s1.db == g.others(0, s.db) && s1.reaper.Resting?
              && (g.up(0) ==>
                    && Enabled(s1, FindOrphans(cutoff, rows)) && Assumed(s1, FindOrphans(cutoff, rows))
                    && FreeingPossible(Next(s1, FindOrphans(cutoff, rows)), 1, g));
    assert CanLead(s, s1);
    LedFromReachable(s, s1);
    if g.up(0) {
      var find := FindOrphans(cutoff, rows);
      var s2 := Next(s1, find);
      FreeingIsARun(s2, 1, g);
      var s' :| CanLead(s2, s') && s'.reaper.Resting? && s'.db == FreeEach(s2.reaper.rows, s2.db, 1, g).1;
      TurnLeads(s, TheReaper, s1, find, s');
      LedFromReachable(s, s');
      StepKeeps(s1, find);
      FoundAsRead(s1, cutoff, rows);
      FreeingHits(s2, 1, g, s1.db.claims);
    }
  }

  lemma FoundAsRead(s: Sys, cutoff: int, rows: seq<OrphanRow>)
    requires Enabled(s, FindOrphans(cutoff, rows))
    ensures WorklistAsRead(Next(s, FindOrphans(cutoff, rows)), s.db.claims)
  {
    forall i | 0 <= i < |rows|
      ensures AsRead(s.db, rows[i].driver, s.db.claims)
    {
      assert IsOrphan(s.db, cutoff, rows[i].driver);
    }
  }

  /**
   * One orphan sweep of the code, made in a state of an honest run: it releases a page of the orphan query
   * one by one, and when the others' part in it is honest, so is the run it makes.
   */
  method OrphanSweepInRun(reaper: Reaper, wall: int, g: Gaps, ghost s: Sys)
    returns (raised: bool, released: int, ghost rows: seq<OrphanRow>)
    requires Reachable(s) && s.db == reaper.store.Content()
    modifies reaper.store
    ensures var found := g.others(0, s.db);
            if g.up(0) then
              && OrphanPage(found, wall - 30_000, rows)
              && 0 <= released <= |rows| && (raised <==> released < |rows|)
              && (rows[released..], reaper.store.Content()) == FreeEach(rows, found, 1, g)
            else raised && released == 0 && reaper.store.Content() == found
    ensures OrphanSweepPossible(s, wall - 30_000, rows, g) ==>
              && NoDoubleBooking(reaper.store.Content())
              && (exists s' :: Reachable(s') && CanLead(s, s') && s'.reaper.Resting? && s'.db == reaper.store.Content())
              && (g.up(0) ==> ReleasesHit(rows, g.others(0, s.db), 1, g, g.others(0, s.db).claims))
  {
    raised, released, rows := reaper.SweepOrphanedClaims(wall, g);
    if OrphanSweepPossible(s, wall - 30_000, rows, g) {
      OrphanSweepIsARun(s, wall - 30_000, rows, g);
    }
  }

  // ---- the stranded sweep ------------------------------------------------------------------

  ghost predicate PushingPossible(s: Sys, k: nat, g: Gaps)
    requires s.reaper.Requeueing?
    decreases |s.reaper.ids|
  {
    s.reaper.ids == []
    || exists s1 ::
         && OthersLead(s, TheReaper, s1) && s1.queue == g.waiting(k, s.queue) && s1.reaper == s.reaper
         && (g.up(k) ==> PushingPossible(Next(s1, PushStranded), k + 1, g))
  }

  lemma {:induction false} PushingIsARun(s: Sys, k: nat, g: Gaps)
    requires s.reaper.Requeueing? && PushingPossible(s, k, g)
    ensures exists s' :: CanLead(s, s') && s'.reaper.Resting? && s'.queue == PushEach(s.reaper.ids, s.queue, k, g).1
    decreases |s.reaper.ids|
  {
    if s.reaper.ids == [] {
      StepLeads(s, PushStranded);
    } else {
      var s1 :| OthersLead(s, TheReaper, s1) && s1.queue == g.waiting(k, s.queue) && s1.reaper == s.reaper
                && (g.up(k) ==> PushingPossible(Next(s1, PushStranded), k + 1, g));
      if g.up(k) {
        var s2 := Next(s1, PushStranded);
        PushingIsARun(s2, k + 1, g);
        var s' :| CanLead(s2, s') && s'.reaper.Resting? && s'.queue == PushEach(s2.reaper.ids, s2.queue, k + 1, g).1;
        TurnLeads(s, TheReaper, s1, PushStranded, s');
      } else {
        StaysPut(Next(s1, ReaperFails));
        TurnLeads(s, TheReaper, s1, ReaperFails, Next(s1, ReaperFails));
      }
    }
  }

  /** The sweep's gaps, the one before its query included, are something the other processes can honestly do. */
  ghost predicate StrandedSweepPossible(s: Sys, cutoff: int, ids: seq<TripId>, g: Gaps) {
    exists s1 ::
      && OthersLead(s, TheReaper, s1) && s1.reaper.Resting?
      && s1.db == g.others(0, s.db) && s1.queue == g.waiting(0, s.queue)
      && (g.up(0) ==> Enabled(s1, FindStranded(cutoff, ids)) && PushingPossible(Next(s1, FindStranded(cutoff, ids)), 1, g))
  }

  /**
   * The stranded sweep as coded, with the others' honest steps before its query and before every push,
   * is a piece of an honest run that ends with the queue the code leaves.
   */
  lemma StrandedSweepIsARun(s: Sys, cutoff: int, ids: seq<TripId>, g: Gaps)
    requires Reachable(s) && StrandedSweepPossible(s, cutoff, ids, g)
    ensures var queue := g.waiting(0, s.queue);
            exists s' :: Reachable(s') && CanLead(s, s') && s'.reaper.Resting?
                         && s'.queue == if g.up(0) then PushEach(ids, queue, 1, g).1 else queue
  {
    var s1 :| && OthersLead(s, TheReaper, s1) && s1.reaper.Resting?
              && s1.db == g.others(0, s.db) && s1.queue == g.waiting(0, s.queue)
              && (g.up(0) ==> Enabled(s1, FindStranded(cutoff, ids)) && PushingPossible(Next(s1, FindStranded(cutoff, ids)), 1, g));
    assert CanLead(s, s1);
    LedFromReachable(s, s1);
    if g.up(0) {
      var find := FindStranded(cutoff, ids);
      var s2 := Next(s1, find);
      PushingIsARun(s2, 1, g);
      var s' :| CanLead(s2, s') && s'.reaper.Resting? && s'.queue == PushEach(s2.reaper.ids, s2.queue, 1, g).1;
      TurnLeads(s, TheReaper, s1, find, s');
      LedFromReachable(s, s');
    }
  }

  // ---- request_ride ------------------------------------------------------------------------

  /** What the others do between a request's write and its push is something they can honestly do. */
  ghost predicate RequestPossible(s: Sys, r: nat, trip: Snapshot, key: Key, at: int, g: Gaps)
    requires r !in s.requests && at <= s.clock
  {
    var s1 := Next(s, Post(r, trip, key, at));
    r in s1.requests ==>
      exists s2 ::
        && OthersLead(s1, TheRequest(r), s2) && r in s2.requests && s2.requests[r] == trip.id
        && s2.db == g.others(0, s1.db) && s2.queue == g.waiting(0, s1.queue)
  }

  /**
   * A request as coded, with the others' honest steps between its write and its push, is a piece of an
   * honest run: first the row, then the id in the queue; a replay touches neither.
   */
  lemma RequestIsARun(s: Sys, r: nat, trip: Snapshot, key: Key, at: int, g: Gaps)
    requires Reachable(s) && r !in s.requests && at <= s.clock && RequestPossible(s, r, trip, key, at, g)
    ensures var written := AfterWrite(s.db, trip, key, at);
            exists s' ::
              && Reachable(s') && CanLead(s, s') && r !in s'.requests
              && if KeyOwner(written, key) == Some(trip.id)
                 then s'.db == g.others(0, written)
                      && s'.queue == g.waiting(0, s.queue) + (if g.up(0) then [trip.id] else [])
                 else s'.db == written && s'.queue == s.queue
  {
    var s1 := Next(s, Post(r, trip, key, at));
    ReachableIsSafe(s);
    PostWrites(s, r, trip, key, at);
    StepLeads(s, Post(r, trip, key, at));
    if r in s1.requests {
      var s2 :| && OthersLead(s1, TheRequest(r), s2) && r in s2.requests && s2.requests[r] == trip.id
                && s2.db == g.others(0, s1.db) && s2.queue == g.waiting(0, s1.queue);
      var s' := LastStep(s1, r, s2, g.up(0));
      CanLeadOn(s, s1, s');
      LedFromReachable(s, s');
    } else {
      LedFromReachable(s, s1);
    }
  }

  /** The push, or the death before it. */
  lemma LastStep(s1: Sys, r: nat, s2: Sys, up: bool) returns (s': Sys)
    requires OthersLead(s1, TheRequest(r), s2) && r in s2.requests
    ensures CanLead(s1, s') && r !in s'.requests && s'.db == s2.db
    ensures s'.queue == s2.queue + if up then [s2.requests[r]] else []
  {
    var last := if up then Enqueue(r) else RequestDies(r);
    s' := Next(s2, last);
    StaysPut(s');
    TurnLeads(s1, TheRequest(r), s2, last, s');
  }

  /** The write goes on to a push exactly when the key now belongs to the request's own id. */
  lemma PostWrites(s: Sys, r: nat, trip: Snapshot, key: Key, at: int)
    requires Inv(s) && r !in s.requests && at <= s.clock
    ensures var s1, written := Next(s, Post(r, trip, key, at)), AfterWrite(s.db, trip, key, at);
            && s1.db == written && s1.queue == s.queue
            && (r in s1.requests <==> KeyOwner(written, key) == Some(trip.id))
  {
    var written := AfterWrite(s.db, trip, key, at);
    if InsertTrip(s.db, trip, key, at).Some? {
      InsertTripKeeps(s.db, trip, key, at);
      KeyHasOneOwner(written, key);
      assert written.trips[trip.id].key == key;
    }
  }
}
