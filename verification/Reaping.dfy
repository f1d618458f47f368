/** dispatch/reaper.py: the two sweeps, and what a few of them repair. */
module Reaping {
  import opened Wrappers
  import opened Domain
  import opened Tables
  import opened Protocol
  import opened ProtocolInvariant
  import opened ProtocolTheorems
  import opened Leading
  import opened Interference
  import opened Store
  import opened Queue

  function DriversOf(rows: seq<OrphanRow>): set<DriverId> {
    set i | 0 <= i < |rows| :: rows[i].driver
  }

  /** The tables after the drivers of the rows are released. */
  function Freed(db: Db, rows: seq<OrphanRow>): Db {
    db.(claims := db.claims - DriversOf(rows))
  }

  class Reaper {
    const store: TripStore
    const queue: PendingQueue

    constructor (store: TripStore, queue: PendingQueue)
      ensures this.store == store && this.queue == queue
    {
      this.store, this.queue := store, queue;
    }

    /**
     * Pushes the ids the stale-trip query names once more. Others may be at work before the query and
     * before each push; `left` are the ids not pushed because an operation raised.
     */
    method SweepStrandedTrips(wall: int, g: Gaps) returns (raised: bool, count: int, ghost ids: seq<TripId>, ghost left: seq<TripId>)
      modifies store, queue
      ensures store.Content() == g.others(0, old(store.Content()))
      ensures !g.up(0) ==> raised && queue.items == g.waiting(0, old(queue.items))
      ensures g.up(0) ==>
                && StrandedPage(store.Content(), wall - 15_000, ids)
                && (left, queue.items) == PushEach(ids, g.waiting(0, old(queue.items)), 1, g)
                && (raised <==> left != []) && (!raised ==> count == |ids|)
    {
      ids, left, count := [], [], 0;
      store.OthersCommit(g.others(0, store.Content()));
      queue.OthersUse(g.waiting(0, queue.items));
      if !g.up(0) {
        raised := true;
        return;
      }
      var stranded := store.StaleMatchedTrips(wall, STRANDED_TRIP_MS);
      ids, left := stranded, stranded;
      assert stranded[0..] == stranded;
      for i := 0 to |stranded|
        invariant left == stranded[i..] && store.Content() == g.others(0, old(store.Content()))
        invariant PushEach(left, queue.items, i + 1, g) == PushEach(ids, g.waiting(0, old(queue.items)), 1, g)
      {
        queue.OthersUse(g.waiting(i + 1, queue.items));
        if !g.up(i + 1) {
          raised := true;
          return;
        }
        queue.Push(stranded[i]);
        left := left[1..];
      }
      raised, count := false, |stranded|;
    }

    /**
     * Deletes, one by one, the claims the orphan query names. Others may commit before the
     * query and between it and each release; the cutoff is fixed before any of that.
     */
    method SweepOrphanedClaims(wall: int, g: Gaps) returns (raised: bool, released: int, ghost rows: seq<OrphanRow>)
      modifies store
      ensures var found := g.others(0, old(store.Content()));
              if g.up(0) then
                && OrphanPage(found, wall - 30_000, rows)
                && 0 <= released <= |rows| && (raised <==> released < |rows|)
                && (rows[released..], store.Content()) == FreeEach(rows, found, 1, g)
              else raised && released == 0 && store.Content() == found
    {
      var cutoff := wall - ORPHANED_CLAIM_MS;
      rows, released := [], 0;
      store.OthersCommit(g.others(0, store.Content()));
      if !g.up(0) {
        raised := true;
        return;
      }
      var orphans := store.FindOrphans(cutoff);
      rows := orphans;
      ghost var found := store.Content();
      assert rows[0..] == rows;
      for i := 0 to |orphans|
        invariant released == i
        invariant FreeEach(rows[i..], store.Content(), i + 1, g) == FreeEach(rows, found, 1, g)
      {
        store.OthersCommit(g.others(i + 1, store.Content()));
        if !g.up(i + 1) {
          raised := true;
          return;
        }
        store.ReleaseDriver(orphans[i].driver);
        assert rows[i..][1..] == rows[i + 1..];
        released := released + 1;
      }
      raised := false;
    }
  }

  /** The release loop from its k-th operation on: the rows it did not get to, and the tables it ends with. */
  function FreeEach(rows: seq<OrphanRow>, db: Db, k: nat, g: Gaps): (seq<OrphanRow>, Db) {
    if rows == [] then ([], db)
    else if !g.up(k) then (rows, g.others(k, db))
    else FreeEach(rows[1..], DeleteClaim(g.others(k, db), rows[0].driver), k + 1, g)
  }

  /** The push loop from its k-th operation on: the ids it did not get to, and the queue it ends with. */
  function PushEach(ids: seq<TripId>, items: seq<TripId>, k: nat, g: Gaps): (seq<TripId>, seq<TripId>) {
    if ids == [] then ([], items)
    else if !g.up(k) then (ids, g.waiting(k, items))
    else PushEach(ids[1..], g.waiting(k, items) + [ids[0]], k + 1, g)
  }

  /** What the orphan query yields: claims older than the cutoff whose trip is not MATCHED and not EN_ROUTE. */
  lemma PageHoldsDeadClaims(db: Db, wall: int, rows: seq<OrphanRow>, d: DriverId)
    requires OrphanPage(db, wall - 30_000, rows)
    ensures |rows| <= 500
    ensures d in DriversOf(rows) ==>
              && d in db.claims && db.claims[d].at < wall - 30_000
              && (db.claims[d].trip in db.trips ==>
                    db.trips[db.claims[d].trip].state != Matched && db.trips[db.claims[d].trip].state != EnRoute)
    ensures d in db.claims && d !in DriversOf(rows) && |rows| < 500 ==>
              || db.claims[d].at >= wall - 30_000
              || (&& db.claims[d].trip in db.trips
                  && (db.trips[db.claims[d].trip].state == Matched || db.trips[db.claims[d].trip].state == EnRoute))
  {
    var cutoff := wall - 30_000;
    forall e | e in DriversOf(rows)
      ensures IsOrphan(db, cutoff, e)
    {
      var i :| 0 <= i < |rows| && rows[i].driver == e;
      assert IsOrphan(db, cutoff, rows[i].driver);
    }
    RowsCount(rows);
    assert DriversOf(rows) <= Orphans(db, cutoff);
    if |rows| < 500 {
      SameSize(DriversOf(rows), Orphans(db, cutoff));
    }
  }

  /** With nobody else at work the loop releases exactly the drivers of the page. */
  lemma {:induction false} QuietSweepFrees(rows: seq<OrphanRow>, db: Db, k: nat, now: int)
    ensures FreeEach(rows, db, k, Quiet(now)) == ([], Freed(db, rows))
  {
    if rows == [] {
      assert db.claims - DriversOf(rows) == db.claims;
    } else {
      var next := DeleteClaim(db, rows[0].driver);
      QuietSweepFrees(rows[1..], next, k + 1, now);
      assert DriversOf(rows) == {rows[0].driver} + DriversOf(rows[1..]);
      assert Freed(next, rows[1..]) == Freed(db, rows);
    }
  }

  /** ... and the push loop appends the page as it stands. */
  lemma {:induction false} QuietSweepPushes(ids: seq<TripId>, items: seq<TripId>, k: nat, now: int)
    ensures PushEach(ids, items, k, Quiet(now)) == ([], items + ids)
  {
    if ids == [] {
      assert items + ids == items;
    } else {
      QuietSweepPushes(ids[1..], items + [ids[0]], k + 1, now);
      assert items + [ids[0]] + ids[1..] == items + ids;
    }
  }

  // ---- recovery ----------------------------------------------------------------------------

  /** The claims that serve no live trip. */
  function Dead(db: Db): set<DriverId> {
    set d | d in db.claims && !(db.claims[d].trip in db.trips && Live(db.trips[db.claims[d].trip].state))
  }

  /** What the ledger says. */
  function ClaimPairs(db: Db): set<(DriverId, TripId)> {
    set d | d in db.claims :: (d, db.claims[d].trip)
  }

  /** What it should say: each live trip with its driver. */
  function LivePairs(db: Db): set<(DriverId, TripId)> {
    set t | t in db.trips && Live(db.trips[t].state) && db.trips[t].driver.Some? :: (db.trips[t].driver.value, t)
  }

  ghost predicate Sweep(db: Db, cutoff: int, db': Db) {
    exists rows: seq<OrphanRow> :: OrphanPage(db, cutoff, rows) && db' == Freed(db, rows)
  }

  /** Every claim is old enough to be swept. */
  predicate AllOld(db: Db, cutoff: int) {
    forall d | d in db.claims :: db.claims[d].at < cutoff
  }

  lemma {:induction false} RowsCount(rows: seq<OrphanRow>)
    requires forall i, j | 0 <= i < j < |rows| :: rows[i].driver != rows[j].driver
    ensures |DriversOf(rows)| == |rows|
  {
    if rows != [] {
      RowsCount(rows[1..]);
      assert DriversOf(rows) == {rows[0].driver} + DriversOf(rows[1..]);
    }
  }

  lemma PageIsDead(db: Db, cutoff: int, rows: seq<OrphanRow>)
    requires AllOld(db, cutoff) && OrphanPage(db, cutoff, rows)
    ensures DriversOf(rows) <= Dead(db) && |DriversOf(rows)| == Min(ORPHAN_PAGE, |Dead(db)|)
  {
    assert Orphans(db, cutoff) == Dead(db);
    forall d | d in DriversOf(rows)
      ensures d in Dead(db)
    {
      var i :| 0 <= i < |rows| && rows[i].driver == d;
      assert IsOrphan(db, cutoff, rows[i].driver);
    }
    RowsCount(rows);
  }

  /** One sweep takes away only dead claims: 500 of them, or all. */
  lemma OneSweep(db: Db, cutoff: int, db': Db)
    requires DbInv(db) && AllOld(db, cutoff) && Sweep(db, cutoff, db')
    ensures DbInv(db') && db'.trips == db.trips
    ensures forall d | d in db'.claims :: d in db.claims && db'.claims[d] == db.claims[d]
    ensures |Dead(db')| == if |Dead(db)| <= 500 then 0 else |Dead(db)| - 500
  {
    var rows: seq<OrphanRow> :| OrphanPage(db, cutoff, rows) && db' == Freed(db, rows);
    PageIsDead(db, cutoff, rows);
    SweptInv(db, DriversOf(rows));
    SweptDead(db, DriversOf(rows));
  }

  lemma SweptDead(db: Db, ds: set<DriverId>)
    requires ds <= Dead(db)
    ensures |Dead(db.(claims := db.claims - ds))| == |Dead(db)| - |ds|
  {
    assert Dead(db.(claims := db.claims - ds)) == Dead(db) - ds;
  }

  lemma SweptInv(db: Db, ds: set<DriverId>)
    requires DbInv(db) && ds <= Dead(db)
    ensures DbInv(db.(claims := db.claims - ds))
  {
    var db' := db.(claims := db.claims - ds);
    forall t | t in db'.trips && Live(db'.trips[t].state)
      ensures HeldFor(db', t)
    {
      assert HeldFor(db, t);
    }
  }

  /** Without dead claims the ledger is exactly the live trips. */
  lemma NoDeadClaims(db: Db)
    requires DbInv(db) && Dead(db) == {}
    ensures ClaimPairs(db) == LivePairs(db)
  {
    forall d, t
      ensures (d, t) in ClaimPairs(db) <==> (d, t) in LivePairs(db)
    {
      if (d, t) in ClaimPairs(db) {
        assert d !in Dead(db) && HeldFor(db, t);
        assert db.trips[t].driver == Some(d);
      }
      if (d, t) in LivePairs(db) {
        assert HeldFor(db, t);
      }
    }
  }

  /**
   * With nobody else at work, ceil(n / 500) sweeps over n dead claims leave exactly one claim
   * for each live trip and none besides, and no row is touched.
   */
  lemma {:induction false} SweepsReconcile(dbs: seq<Db>, cutoffs: seq<int>)
    requires |dbs| == |cutoffs| + 1 && DbInv(dbs[0])
    requires forall i | 0 <= i < |cutoffs| :: AllOld(dbs[0], cutoffs[i]) && Sweep(dbs[i], cutoffs[i], dbs[i + 1])
    requires |Dead(dbs[0])| <= 500 * |cutoffs|
    ensures var last := dbs[|cutoffs|];
            last.trips == dbs[0].trips && DbInv(last) && ClaimPairs(last) == LivePairs(last)
    decreases |cutoffs|
  {
    if cutoffs == [] {
      NoDeadClaims(dbs[0]);
    } else {
      OneSweep(dbs[0], cutoffs[0], dbs[1]);
      var dbs', cutoffs' := dbs[1..], cutoffs[1..];
      forall i | 0 <= i < |cutoffs'|
        ensures AllOld(dbs'[0], cutoffs'[i]) && Sweep(dbs'[i], cutoffs'[i], dbs'[i + 1])
      {
        assert AllOld(dbs[0], cutoffs[i + 1]) && Sweep(dbs[i + 1], cutoffs[i + 1], dbs[i + 2]);
      }
      SweepsReconcile(dbs', cutoffs');
    }
  }

  /** After any run, however many processes died in it, the sweeps bring the ledger back. */
  lemma CrashedRunsRecover(run: seq<Sys>, acts: seq<Action>, i: nat, dbs: seq<Db>, cutoffs: seq<int>)
    requires HonestRun(run, acts) && i < |run|
    requires |dbs| == |cutoffs| + 1 && dbs[0] == run[i].db
    requires forall k | 0 <= k < |cutoffs| :: AllOld(dbs[0], cutoffs[k]) && Sweep(dbs[k], cutoffs[k], dbs[k + 1])
    requires |Dead(dbs[0])| <= 500 * |cutoffs|
    ensures var last := dbs[|cutoffs|];
            last.trips == run[i].db.trips && DbInv(last) && ClaimPairs(last) == LivePairs(last)
  {
    RunKeeps(run, acts, i);
    SweepsReconcile(dbs, cutoffs);
  }

  // ---- the same, step by step --------------------------------------------------------------

  /** A step of the orphan sweep. */
  predicate Sweeps(a: Action) {
    a.FindOrphans? || a.FreeOrphan?
  }

  /** How many sweeps the steps begin. */
  function Finds(acts: seq<Action>): nat {
    if acts == [] then 0 else (if acts[0].FindOrphans? then 1 else 0) + Finds(acts[1..])
  }

  /** The dead claims that are not on the worklist. */
  function Owed(s: Sys): int {
    |Dead(s.db)| - if s.reaper.Freeing? then |s.reaper.rows| else 0
  }

  /** Claims only go away. */
  ghost predicate OnlySwept(db: Db, db': Db) {
    && db'.trips == db.trips
    && forall d | d in db'.claims :: d in db.claims && db'.claims[d] == db.claims[d]
  }

  /** A piece of a sweep: claims went away, as many as rows left the worklist. */
  ghost predicate Swept(s: Sys, s': Sys) {
    OnlySwept(s.db, s'.db) && Owed(s') == Owed(s) && s'.matchers == s.matchers && s'.clock == s.clock
  }

  lemma SweptOn(s: Sys, s1: Sys, s2: Sys)
    requires Swept(s, s1) && Swept(s1, s2)
    ensures Swept(s, s2)
  {
  }

  lemma FindOwes(s: Sys, cutoff: int, rows: seq<OrphanRow>)
    requires Enabled(s, FindOrphans(cutoff, rows)) && AllOld(s.db, cutoff)
    ensures Owed(Next(s, FindOrphans(cutoff, rows))) == Owed(s) - Min(ORPHAN_PAGE, Owed(s))
  {
    assert Orphans(s.db, cutoff) == Dead(s.db);
  }

  /** The rows on the worklist are what the reaper takes them for. */
  ghost predicate WorklistOk(s: Sys) {
    ReaperOk(s.db, s.matchers, s.reaper)
  }

  lemma FreeOwes(s: Sys)
    requires WorklistOk(s) && Enabled(s, FreeOrphan)
    ensures WorklistOk(Next(s, FreeOrphan)) && Swept(s, Next(s, FreeOrphan))
  {
    if s.reaper.rows != [] {
      FreeingSparesTheRest(s.db, s.matchers, s.reaper.rows);
      var row := s.reaper.rows[0];
      assert RowStillOrphan(s.db, s.matchers, row);
      SweptDead(s.db, {row.driver});
      assert s.db.claims - {row.driver} == DeleteClaim(s.db, row.driver).claims;
    }
  }

  /**
   * From any state of an honest run: whenever the reaper alone takes steps of its orphan sweep, begins
   * ceil(n / 500) sweeps for n dead claims and is through, the ledger is exactly the live trips and no row
   * has changed.
   */
  lemma {:induction false} ReaperReconciles(s: Sys, acts: seq<Action>, s': Sys)
    requires Inv(s) && Leads(s, acts, s') && s'.reaper.Resting?
    requires forall i | 0 <= i < |acts| :: Sweeps(acts[i]) && (acts[i].FindOrphans? ==> AllOld(s.db, acts[i].cutoff))
    requires Owed(s) <= 500 * Finds(acts)
    ensures s'.db.trips == s.db.trips && ClaimPairs(s'.db) == LivePairs(s'.db)
    decreases |acts|
  {
    if acts == [] {
      NoDeadClaims(s.db);
    } else {
      var a := acts[0];
      StepKeeps(s, a);
      if a.FindOrphans? {
        FindOwes(s, a.cutoff, a.rows);
      } else {
        FreeOwes(s);
      }
      ReaperReconciles(Next(s, a), acts[1..], s');
    }
  }

  /** The orphan query has a result. */
  lemma {:induction false} PageExists(db: Db, cutoff: int, ds: set<DriverId>, n: nat) returns (rows: seq<OrphanRow>)
    requires ds <= Orphans(db, cutoff) && n <= |ds|
    ensures |rows| == n
    ensures forall i | 0 <= i < |rows| ::
              rows[i].driver in ds && IsOrphan(db, cutoff, rows[i].driver) && db.claims[rows[i].driver].trip == rows[i].trip
    ensures forall i, j | 0 <= i < j < |rows| :: rows[i].driver != rows[j].driver
    decreases n
  {
    rows := [];
    if n > 0 {
      var d :| d in ds;
      rows := PageExists(db, cutoff, ds - {d}, n - 1);
      rows := [OrphanRow(d, db.claims[d].trip)] + rows;
    }
  }

  predicate OnlyFrees(acts: seq<Action>) {
    forall i | 0 <= i < |acts| :: acts[i] == FreeOrphan
  }

  /** The release loop can run to its end. */
  lemma {:induction false} LoopEnds(s: Sys) returns (acts: seq<Action>, s': Sys)
    requires s.reaper.Freeing?
    ensures Leads(s, acts, s') && s'.reaper.Resting? && Finds(acts) == 0 && OnlyFrees(acts)
    decreases |s.reaper.rows|
  {
    acts, s' := [], Next(s, FreeOrphan);
    if s.reaper.rows != [] {
      acts, s' := LoopEnds(Next(s, FreeOrphan));
    }
    assert ([FreeOrphan] + acts)[1..] == acts;
    acts := [FreeOrphan] + acts;
  }

  /** What the releases leave as it was. */
  lemma {:induction false} LoopKeeps(s: Sys, acts: seq<Action>, s': Sys)
    requires WorklistOk(s) && Leads(s, acts, s') && OnlyFrees(acts)
    ensures Swept(s, s')
    decreases |acts|
  {
    if acts != [] {
      FreeOwes(s);
      LoopKeeps(Next(s, FreeOrphan), acts[1..], s');
      SweptOn(s, Next(s, FreeOrphan), s');
    }
  }

  /** No running matcher holds a claim. */
  ghost predicate NobodyHolds(s: Sys) {
    forall m | m in s.matchers :: Held(s.matchers[m]).None?
  }

  /** The steps are of the orphan sweep, with the cutoff that the clock gives. */
  predicate SweepsAt(acts: seq<Action>, clock: int) {
    forall i | 0 <= i < |acts| :: Sweeps(acts[i]) && (acts[i].FindOrphans? ==> acts[i].cutoff == clock - 30_000)
  }

  /** Between sweeps, with no running matcher that holds a claim and no young claim. */
  ghost predicate ReadyToSweep(s: Sys) {
    Inv(s) && s.reaper.Resting? && NobodyHolds(s) && AllOld(s.db, s.clock - 30_000)
  }

  lemma SweepBegins(s: Sys) returns (find: Action)
    requires ReadyToSweep(s)
    ensures find.FindOrphans? && find.cutoff == s.clock - 30_000 && Enabled(s, find) && Assumed(s, find)
    ensures Inv(Next(s, find)) && Next(s, find) == s.(reaper := Freeing(find.rows))
    ensures Owed(Next(s, find)) == |Dead(s.db)| - Min(ORPHAN_PAGE, |Dead(s.db)|)
  {
    var cutoff := s.clock - 30_000;
    assert Orphans(s.db, cutoff) == Dead(s.db);
    var rows := PageExists(s.db, cutoff, Dead(s.db), Min(ORPHAN_PAGE, |Dead(s.db)|));
    find := FindOrphans(cutoff, rows);
    FindOrphansKeeps(s, cutoff, rows);
    FindOwes(s, cutoff, rows);
  }

  lemma OneSweepRuns(s: Sys) returns (acts: seq<Action>, s': Sys)
    requires ReadyToSweep(s)
    ensures Leads(s, acts, s') && Finds(acts) == 1 && SweepsAt(acts, s.clock)
    ensures ReadyToSweep(s') && s'.clock == s.clock && s'.db.trips == s.db.trips
    ensures |Dead(s'.db)| == |Dead(s.db)| - Min(ORPHAN_PAGE, |Dead(s.db)|)
  {
    var find := SweepBegins(s);
    var free;
    free, s' := LoopEnds(Next(s, find));
    LoopKeeps(Next(s, find), free, s');
    LeadsKeep(Next(s, find), free, s');
    acts := [find] + free;
    assert acts[1..] == free;
  }

  /** And the reaper can always do that once no running matcher is left and every claim is old. */
  lemma {:induction false} ReaperCanReconcile(s: Sys) returns (acts: seq<Action>, s': Sys)
    requires ReadyToSweep(s)
    ensures Leads(s, acts, s') && Finds(acts) == (|Dead(s.db)| + 499) / 500 && SweepsAt(acts, s.clock)
    ensures s'.reaper.Resting? && s'.db.trips == s.db.trips && ClaimPairs(s'.db) == LivePairs(s'.db)
    decreases |Dead(s.db)|
  {
    if Dead(s.db) == {} {
      NoDeadClaims(s.db);
      return [], s;
    }
    var first, s1 := OneSweepRuns(s);
    var more;
    more, s' := ReaperCanReconcile(s1);
    acts := first + more;
    LeadsOn(s, first, s1, more, s');
    FindsConcat(first, more);
  }

  lemma {:induction false} FindsConcat(xs: seq<Action>, ys: seq<Action>)
    ensures Finds(xs + ys) == Finds(xs) + Finds(ys)
  {
    if xs == [] {
      assert xs + ys == ys;
    } else {
      assert (xs + ys)[1..] == xs[1..] + ys;
      FindsConcat(xs[1..], ys);
    }
  }

  /** A stranded sweep over at most 200 stranded trips misses none of them. */
  lemma StrandedSweepCoversAll(db: Db, cutoff: int, ids: seq<TripId>, t: TripId)
    requires StrandedPage(db, cutoff, ids) && |Stranded(db, cutoff)| <= 200
    ensures t in ids <==> IsStranded(db, cutoff, t)
  {
    var found := set i | 0 <= i < |ids| :: ids[i];
    IdsCount(ids);
    assert found <= Stranded(db, cutoff);
    SameSize(found, Stranded(db, cutoff));
    assert t in Stranded(db, cutoff) <==> IsStranded(db, cutoff, t);
  }

  /** The trips whose rider has waited for more than 15 seconds. */
  function WaitingLong(db: Db, wall: int): set<TripId> {
    set t | t in db.trips && db.trips[t].state == Requested && db.trips[t].created < wall - 15_000
  }

  /**
   * What the stale-trip query yields: different trips, REQUESTED for more than 15 seconds, oldest first, and
   * all of them; or 200 when there are more, and then none left out is older than any of these.
   */
  lemma PageHoldsLongestWaiting(db: Db, wall: int, ids: seq<TripId>)
    requires StrandedPage(db, wall - 15_000, ids)
    ensures forall i | 0 <= i < |ids| ::
              ids[i] in db.trips && db.trips[ids[i]].state == Requested && db.trips[ids[i]].created < wall - 15_000
    ensures forall i, j | 0 <= i < j < |ids| :: ids[i] != ids[j] && db.trips[ids[i]].created <= db.trips[ids[j]].created
    ensures |ids| <= 200
    ensures forall t | t in db.trips && db.trips[t].state == Requested && db.trips[t].created < wall - 15_000 && t !in ids ::
              |ids| == 200 && forall i | 0 <= i < |ids| :: db.trips[ids[i]].created <= db.trips[t].created
  {
    var cutoff := wall - 15_000;
    forall i | 0 <= i < |ids|
      ensures ids[i] in db.trips && db.trips[ids[i]].state == Requested && db.trips[ids[i]].created < cutoff
    {
      assert IsStranded(db, cutoff, ids[i]);
    }
    forall t | t in db.trips && db.trips[t].state == Requested && db.trips[t].created < cutoff && t !in ids
      ensures |ids| == 200 && forall i | 0 <= i < |ids| :: db.trips[ids[i]].created <= db.trips[t].created
    {
      assert IsStranded(db, cutoff, t);
      if |Stranded(db, cutoff)| <= 200 {
        StrandedSweepCoversAll(db, cutoff, ids, t);
      }
    }
  }

  /** With nobody else at work a sweep over at most 200 such trips puts exactly these behind what was in the queue. */
  lemma QuietSweepRequeuesWaiting(db: Db, wall: int, ids: seq<TripId>, items: seq<TripId>)
    requires StrandedPage(db, wall - 15_000, ids) && |WaitingLong(db, wall)| <= 200
    ensures var (left, queue) := PushEach(ids, items, 1, Quiet(wall));
            && left == [] && |queue| == |items| + |WaitingLong(db, wall)| && queue[..|items|] == items
            && forall t :: t in queue[|items|..] <==>
                 t in db.trips && db.trips[t].state == Requested && db.trips[t].created < wall - 15_000
  {
    QuietSweepPushes(ids, items, 1, wall);
    assert (items + ids)[|items|..] == ids && (items + ids)[..|items|] == items;
    PageHoldsLongestWaiting(db, wall, ids);
    var found := set i | 0 <= i < |ids| :: ids[i];
    IdsCount(ids);
    WaitingAreStranded(db, wall);
    assert |ids| == |WaitingLong(db, wall)|;
    SameSize(found, WaitingLong(db, wall));
    forall t
      ensures t in ids <==> t in WaitingLong(db, wall)
    {
      assert t in ids <==> t in found;
    }
  }

  lemma WaitingAreStranded(db: Db, wall: int)
    ensures WaitingLong(db, wall) == Stranded(db, wall - 15_000)
  {
  }

  /**
   * On runs, with everybody at work: a rider who has waited for more than 15 seconds when the query runs is
   * back in the queue by the time the sweep is through, if at most 200 have waited that long.
   */
  lemma FinishedSweepRequeuesWaiting(run: seq<Sys>, acts: seq<Action>, i: nat, n: nat, wall: int, t: TripId)
    requires IsRun(run, acts) && i < n < |acts| && acts[i].FindStranded? && acts[i].cutoff == wall - 15_000
    requires forall l | i < l <= n :: run[l].reaper.Requeueing? && !acts[l].ReaperFails?
    requires !run[n + 1].reaper.Requeueing?
    requires t in run[i].db.trips && run[i].db.trips[t].state == Requested && run[i].db.trips[t].created < wall - 15_000
    requires |WaitingLong(run[i].db, wall)| <= 200
    ensures t in acts[i].ids && PushedBetween(run, acts, i, n, t)
  {
    assert StepAt(run, acts, i);
    WaitingAreStranded(run[i].db, wall);
    StrandedSweepCoversAll(run[i].db, wall - 15_000, acts[i].ids, t);
    assert IsStranded(run[i].db, wall - 15_000, t);
    FinishedSweepPushedAll(run, acts, i, n, t);
  }

  lemma {:induction false} IdsCount(ids: seq<TripId>)
    requires forall i, j | 0 <= i < j < |ids| :: ids[i] != ids[j]
    ensures |set i | 0 <= i < |ids| :: ids[i]| == |ids|
  {
    if ids != [] {
      IdsCount(ids[1..]);
      var rest := set i | 0 <= i < |ids[1..]| :: ids[1..][i];
      assert (set i | 0 <= i < |ids| :: ids[i]) == {ids[0]} + rest;
    }
  }

  lemma SameSize<T>(a: set<T>, b: set<T>)
    requires a <= b && |a| == |b|
    ensures a == b
  {
    assert |b - a| == |b| - |a|;
  }
}
