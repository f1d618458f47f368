/**
 * What every branch of `match_once` does, whatever others commit in the gaps and whatever operation
 * raises: the tables it ends with, written out row by row, and what the caller gets.
 */
module MatchBranches {
  import opened Wrappers
  import opened Domain
  import opened Tables
  import opened Protocol
  import opened Interference
  import opened Matching

  /** The tables that the call's k-th operation finds when the call has changed nothing so far. */
  function Seen(db: Db, g: Gaps, k: nat): Db {
    if k == 0 then g.others(0, db) else g.others(k, Seen(db, g, k - 1))
  }

  /** The driver or the trip is claimed. */
  predicate Refused(db: Db, d: DriverId, t: TripId) {
    d in db.claims || exists e | e in db.claims :: db.claims[e].trip == t
  }

  function Without(db: Db, d: DriverId): Db {
    Db(db.trips, db.claims - {d})
  }

  /** The trip object holds what its row says, field by field. */
  predicate IsRow(p: Snapshot, db: Db) {
    && p.id in db.trips
    && p.rider == db.trips[p.id].rider && p.pickup == db.trips[p.id].pickup && p.created == db.trips[p.id].created
    && p.state == db.trips[p.id].state && p.version == db.trips[p.id].version
    && p.driver == db.trips[p.id].driver && p.fare == db.trips[p.id].fare
  }

  /** The call returned the row of t as the tables have it, or nothing when there is none. */
  predicate ReturnedRow(pc: Pc, t: TripId, db: Db) {
    && pc.Idle?
    && (pc.last.None? <==> t !in db.trips)
    && (pc.last.Some? ==> pc.last.value.id == t && IsRow(pc.last.value, db))
  }

  /** What those points mean for the caller: an exception, or the trip object that is returned. */
  lemma CallerSees(t: TripId, raised: bool, result: Trip?, pc: Pc)
    requires End(t, raised, result) == pc
    ensures raised <==> pc == Failing(t)
    ensures !raised ==> pc.Idle? && (result == null <==> pc.last.None?)
    ensures !raised && result != null ==>
              var p := pc.last.value;
              && result.id == p.id && result.rider == p.rider && result.pickup == p.pickup && result.created == p.created
              && result.state == p.state && result.driver == p.driver && result.fare == p.fare && result.version == p.version
  {
  }

  // ---- up to the claim ---------------------------------------------------------------------

  /** A read that raises ends the call raised. */
  lemma ReadRaises(db: Db, t: TripId, g: Gaps, candidates: seq<DriverId>, fares: DriverId -> Option<int>)
    requires !g.up(0)
    ensures Drive(Popped(t), db, 0, g, candidates, fares) == (Failing(t), g.others(0, db))
  {
    FirstTurn(t, db, g, candidates, fares);
  }

  /** A trip that is gone or no longer REQUESTED is returned as it is. */
  lemma NothingLeftToDo(db: Db, t: TripId, g: Gaps, candidates: seq<DriverId>, fares: DriverId -> Option<int>)
    requires var found := g.others(0, db); g.up(0) && (t in found.trips ==> found.trips[t].state != Requested)
    ensures var (end, db') := Drive(Popped(t), db, 0, g, candidates, fares);
            db' == g.others(0, db) && ReturnedRow(end, t, db')
  {
    FirstTurn(t, db, g, candidates, fares);
  }

  lemma NobodyNear(db: Db, t: TripId, g: Gaps, fares: DriverId -> Option<int>)
    requires var found := g.others(0, db); g.up(0) && t in found.trips && found.trips[t].state == Requested
    ensures Drive(Popped(t), db, 0, g, [], fares) == (Idle(None), g.others(0, db))
  {
    FirstTurn(t, db, g, [], fares);
  }

  /** The trip is read REQUESTED and the first i claims, of the first five candidates, are refused. */
  ghost predicate RefusedSoFar(db: Db, t: TripId, g: Gaps, candidates: seq<DriverId>, i: nat) {
    && g.up(0) && t in Seen(db, g, 0).trips && Seen(db, g, 0).trips[t].state == Requested
    && candidates != [] && i <= |candidates| && i <= 5
    && forall j: nat | j < i :: RefusedAt(db, t, g, candidates, j)
  }

  /** The claim of candidate j, the call's operation 1 + j, is answered with the refusal. */
  predicate RefusedAt(db: Db, t: TripId, g: Gaps, candidates: seq<DriverId>, j: nat)
    requires j < |candidates|
  {
    g.up(1 + j) && Refused(Seen(db, g, 1 + j), candidates[j], t)
  }

  lemma {:induction false} AfterRefusals(db: Db, t: TripId, g: Gaps, candidates: seq<DriverId>, fares: DriverId -> Option<int>, i: nat)
    requires RefusedSoFar(db, t, g, candidates, i)
    ensures i <= |FirstFive(candidates)|
    ensures Drive(Popped(t), db, 0, g, candidates, fares)
            == Drive(Trying(SnapshotOf(t, Seen(db, g, 0).trips[t]), FirstFive(candidates)[i..]), Seen(db, g, i), 1 + i, g, candidates, fares)
  {
    var p, tries := SnapshotOf(t, Seen(db, g, 0).trips[t]), FirstFive(candidates);
    if i == 0 {
      FirstTurn(t, db, g, candidates, fares);
      assert tries[0..] == tries;
    } else {
      AfterRefusals(db, t, g, candidates, fares, i - 1);
      OneTurn(Trying(p, tries[i - 1..]), Seen(db, g, i - 1), i, g, candidates, fares);
      assert RefusedAt(db, t, g, candidates, i - 1);
      assert tries[i - 1..][1..] == tries[i..];
    }
  }

  /** A claim that raises anything but the refusal ends the call raised. */
  lemma ClaimRaises(db: Db, t: TripId, g: Gaps, candidates: seq<DriverId>, fares: DriverId -> Option<int>, i: nat)
    requires RefusedSoFar(db, t, g, candidates, i) && i < |candidates| && i < 5 && !g.up(1 + i)
    ensures Drive(Popped(t), db, 0, g, candidates, fares) == (Failing(t), Seen(db, g, 1 + i))
  {
    AfterRefusals(db, t, g, candidates, fares, i);
    OneTurn(Trying(SnapshotOf(t, Seen(db, g, 0).trips[t]), FirstFive(candidates)[i..]), Seen(db, g, i), 1 + i, g, candidates, fares);
  }

  /** After five refusals, or as many as there are candidates, the call returns nothing. */
  lemma AllRefused(db: Db, t: TripId, g: Gaps, candidates: seq<DriverId>, fares: DriverId -> Option<int>, n: nat)
    requires n == (if |candidates| < 5 then |candidates| else 5) && RefusedSoFar(db, t, g, candidates, n)
    ensures Drive(Popped(t), db, 0, g, candidates, fares) == (Idle(None), Seen(db, g, 1 + n))
  {
    AfterRefusals(db, t, g, candidates, fares, n);
    assert FirstFive(candidates)[n..] == [];
    NoTriesLeft(SnapshotOf(t, Seen(db, g, 0).trips[t]), Seen(db, g, n), 1 + n, g, candidates, fares);
  }

  // ---- with the claim ----------------------------------------------------------------------

  /** The i-th claim is the first that commits. */
  ghost predicate ClaimCommits(db: Db, t: TripId, g: Gaps, candidates: seq<DriverId>, i: nat) {
    && RefusedSoFar(db, t, g, candidates, i) && i < |candidates| && i < 5
    && g.up(1 + i) && !Refused(Seen(db, g, 1 + i), candidates[i], t)
  }

  /** The tables with the claim added. */
  function Claimed(db: Db, t: TripId, g: Gaps, d: DriverId, i: nat): Db {
    var seen := Seen(db, g, 1 + i);
    Db(seen.trips, seen.claims[d := Claim(t, g.now(1 + i))])
  }

  /** What others have made of them when the operation after the quote finds them. */
  function Priced(db: Db, t: TripId, g: Gaps, d: DriverId, i: nat): Db {
    g.others(3 + i, g.others(2 + i, Claimed(db, t, g, d, i)))
  }

  lemma Holding(db: Db, t: TripId, g: Gaps, candidates: seq<DriverId>, fares: DriverId -> Option<int>, i: nat)
    requires ClaimCommits(db, t, g, candidates, i)
    ensures Drive(Popped(t), db, 0, g, candidates, fares)
            == Drive(Quoting(SnapshotOf(t, Seen(db, g, 0).trips[t]), candidates[i]), Claimed(db, t, g, candidates[i], i), 2 + i, g, candidates, fares)
  {
    AfterRefusals(db, t, g, candidates, fares, i);
    OneTurn(Trying(SnapshotOf(t, Seen(db, g, 0).trips[t]), FirstFive(candidates)[i..]), Seen(db, g, i), 1 + i, g, candidates, fares);
  }

  /** Giving up with an exception: the claim goes, unless its release raises as well. */
  lemma ReleaseAndRaise(db: Db, t: TripId, d: DriverId, k: nat, g: Gaps, candidates: seq<DriverId>, fares: DriverId -> Option<int>)
    ensures var found := g.others(k, db);
            Drive(Releasing(t, d, false), db, k, g, candidates, fares)
            == (Failing(t), if g.up(k) then Without(found, d) else found)
  {
    OneTurn(Releasing(t, d, false), db, k, g, candidates, fares);
  }

  /** A quote that raises: the driver is given back and the exception goes on. */
  lemma QuoteRaises(db: Db, t: TripId, g: Gaps, candidates: seq<DriverId>, fares: DriverId -> Option<int>, i: nat)
    requires ClaimCommits(db, t, g, candidates, i) && fares(candidates[i]).None?
    ensures var found := Priced(db, t, g, candidates[i], i);
            Drive(Popped(t), db, 0, g, candidates, fares)
            == (Failing(t), if g.up(3 + i) then Without(found, candidates[i]) else found)
  {
    var d, claimed := candidates[i], Claimed(db, t, g, candidates[i], i);
    Holding(db, t, g, candidates, fares, i);
    OneTurn(Quoting(SnapshotOf(t, Seen(db, g, 0).trips[t]), d), claimed, 2 + i, g, candidates, fares);
    ReleaseAndRaise(g.others(2 + i, claimed), t, d, 3 + i, g, candidates, fares);
  }

  /** How the call goes on from the save. */
  lemma AtTheSave(db: Db, t: TripId, g: Gaps, candidates: seq<DriverId>, fares: DriverId -> Option<int>, i: nat)
    requires ClaimCommits(db, t, g, candidates, i) && fares(candidates[i]).Some?
    ensures var (d, p) := (candidates[i], SnapshotOf(t, Seen(db, g, 0).trips[t]));
            var before, found := g.others(2 + i, Claimed(db, t, g, d, i)), Priced(db, t, g, d, i);
            && Drive(Popped(t), db, 0, g, candidates, fares)
               == Drive(Saving(p, d, fares(d).value), before, 3 + i, g, candidates, fares)
            && (!g.up(3 + i) ==> Drive(Saving(p, d, fares(d).value), before, 3 + i, g, candidates, fares)
                                 == Drive(Releasing(t, d, false), found, 4 + i, g, candidates, fares))
  {
    var d, p := candidates[i], SnapshotOf(t, Seen(db, g, 0).trips[t]);
    Holding(db, t, g, candidates, fares, i);
    OneTurn(Quoting(p, d), Claimed(db, t, g, d, i), 2 + i, g, candidates, fares);
    OneTurn(Saving(p, d, fares(d).value), g.others(2 + i, Claimed(db, t, g, d, i)), 3 + i, g, candidates, fares);
  }

  /** A save that raises anything but the conflict: the driver is given back and the exception goes on. */
  lemma SaveRaises(db: Db, t: TripId, g: Gaps, candidates: seq<DriverId>, fares: DriverId -> Option<int>, i: nat)
    requires ClaimCommits(db, t, g, candidates, i) && fares(candidates[i]).Some? && !g.up(3 + i)
    ensures var found := g.others(4 + i, Priced(db, t, g, candidates[i], i));
            Drive(Popped(t), db, 0, g, candidates, fares)
            == (Failing(t), if g.up(4 + i) then Without(found, candidates[i]) else found)
  {
    AtTheSave(db, t, g, candidates, fares, i);
    ReleaseAndRaise(Priced(db, t, g, candidates[i], i), t, candidates[i], 4 + i, g, candidates, fares);
  }

  /**
   * The row has changed between this call's read and its save: the driver is given back, the trip is
   * read once more and returned as its row then stands; nothing is raised unless one of those raises.
   */
  lemma LostRace(db: Db, t: TripId, g: Gaps, candidates: seq<DriverId>, fares: DriverId -> Option<int>, i: nat)
    requires ClaimCommits(db, t, g, candidates, i) && fares(candidates[i]).Some? && g.up(3 + i)
    requires var now := Priced(db, t, g, candidates[i], i);
             t in now.trips ==> now.trips[t].version != Seen(db, g, 0).trips[t].version
    ensures var (end, db') := Drive(Popped(t), db, 0, g, candidates, fares);
            var found := g.others(4 + i, Priced(db, t, g, candidates[i], i));
            var reread := g.others(5 + i, Without(found, candidates[i]));
            && (!g.up(4 + i) ==> end == Failing(t) && db' == found)
            && (g.up(4 + i) ==> db' == reread)
            && (g.up(4 + i) && !g.up(5 + i) ==> end == Failing(t))
            && (g.up(4 + i) && g.up(5 + i) ==> ReturnedRow(end, t, reread))
  {
    var d, p := candidates[i], SnapshotOf(t, Seen(db, g, 0).trips[t]);
    var before, now := g.others(2 + i, Claimed(db, t, g, d, i)), Priced(db, t, g, d, i);
    AtTheSave(db, t, g, candidates, fares, i);
    OneTurn(Saving(p, d, fares(d).value), before, 3 + i, g, candidates, fares);
    OneTurn(Releasing(t, d, true), now, 4 + i, g, candidates, fares);
    if g.up(4 + i) {
      OneTurn(Rereading(t), Without(g.others(4 + i, now), d), 5 + i, g, candidates, fares);
    }
  }

  /**
   * The row is as it was read: it becomes MATCHED with the driver and the fare quoted, nothing else
   * changes, and the trip returned is the new row.
   */
  lemma SaveCommits(db: Db, t: TripId, g: Gaps, candidates: seq<DriverId>, fares: DriverId -> Option<int>, i: nat)
    requires ClaimCommits(db, t, g, candidates, i) && fares(candidates[i]).Some? && g.up(3 + i)
    requires var now := Priced(db, t, g, candidates[i], i);
             t in now.trips && now.trips[t] == Seen(db, g, 0).trips[t]
    ensures var (end, db') := Drive(Popped(t), db, 0, g, candidates, fares);
            var now := Priced(db, t, g, candidates[i], i);
            && db'.claims == now.claims && db'.trips.Keys == now.trips.Keys
            && (forall u | u in now.trips && u != t :: db'.trips[u] == now.trips[u])
            && db'.trips[t] == now.trips[t].(state := Matched, driver := Some(candidates[i]), fare := fares(candidates[i]),
                                             version := now.trips[t].version + 1)
            && ReturnedRow(end, t, db')
  {
    var d, p := candidates[i], SnapshotOf(t, Seen(db, g, 0).trips[t]);
    AtTheSave(db, t, g, candidates, fares, i);
    OneTurn(Saving(p, d, fares(d).value), g.others(2 + i, Claimed(db, t, g, d, i)), 3 + i, g, candidates, fares);
  }
}
