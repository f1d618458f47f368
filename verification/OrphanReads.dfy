/** Exactly which reads of the reaper are safe: every other one lets some run book a driver twice. */
module OrphanReads {
  import opened Wrappers
  import opened Domain
  import opened Tables
  import opened Protocol
  import opened ProtocolInvariant
  import opened Leading

  // ---- fresh names -------------------------------------------------------------------------

  lemma {:induction false} FreshNat(used: set<nat>) returns (n: nat)
    ensures n !in used && forall k | k in used :: k < n
  {
    n := 0;
    if used != {} {
      var k :| k in used;
      var m := FreshNat(used - {k});
      n := if m <= k then k + 1 else m;
      assert forall j | j in used :: j == k || j in used - {k};
    }
  }

  function Text(n: nat): string {
    seq(n, i => 'x')
  }

  lemma FreshTripId(db: Db) returns (t: TripId)
    ensures t !in db.trips
  {
    var n := FreshNat(set u | u in db.trips :: |u.hex|);
    t := TripId(Text(n));
    assert |t.hex| == n;
  }

  lemma FreshKey(db: Db) returns (key: Key)
    ensures !KeyUsed(db, key)
  {
    var n := FreshNat(set u | u in db.trips :: |db.trips[u].key.text|);
    key := Key(Text(n));
    assert |key.text| == n;
  }

  // ---- what can still happen ---------------------------------------------------------------

  /** No claim is for a trip without a row. */
  ghost predicate ClaimsKnown(db: Db) {
    forall e | e in db.claims :: db.claims[e].trip in db.trips
  }

  function Request(t: TripId, at: int): Snapshot {
    Snapshot(t, RiderId(""), LatLng(0.0, 0.0), Requested, None, None, at, 0)
  }

  /** A rider asks, and the id is the only one in the queue. */
  lemma SomebodyAsks(s: Sys) returns (s': Sys, t: TripId, key: Key)
    ensures CanLead(s, s') && t !in s.db.trips
    ensures s' == s.(db := s.db.(trips := s.db.trips[t := NewRow(Request(t, s.clock), key, s.clock)]), queue := [t])
  {
    t := FreshTripId(s.db);
    key := FreshKey(s.db);
    var r := FreshNat(s.requests.Keys);
    var post := Post(r, Request(t, s.clock), key, s.clock);
    var s1 := s.(queue := []);
    var s2 := s1.(db := s.db.(trips := s.db.trips[t := NewRow(Request(t, s.clock), key, s.clock)]), requests := s.requests[r := t]);
    s' := s2.(queue := [t], requests := s.requests);
    StepLeads(s, LoseQueue);
    StepLeads(s1, post);
    assert Next(s1, post) == s2;
    CanLeadOn(s, s1, s2);
    StepLeads(s2, Enqueue(r));
    assert s.requests[r := t] - {r} == s.requests;
    assert Next(s2, Enqueue(r)) == s';
    CanLeadOn(s, s2, s');
  }

  function Told(d: DriverId): Answer {
    Answer(false, [d], Some(0))
  }

  /** A matcher that has nothing to do takes the id up to the point where it tries driver d. */
  lemma MatcherTakesIt(s: Sys, t: TripId, d: DriverId) returns (s': Sys, m: nat)
    requires s.queue == [t] && t in s.db.trips && s.db.trips[t].state == Requested
    ensures CanLead(s, s') && m !in s.matchers
    ensures s' == s.(queue := [], matchers := s.matchers[m := Trying(SnapshotOf(t, s.db.trips[t]), [d])])
  {
    m := FreshNat(s.matchers.Keys);
    var s1 := s.(queue := [], matchers := s.matchers[m := Popped(t)]);
    s' := s.(queue := [], matchers := s.matchers[m := Trying(SnapshotOf(t, s.db.trips[t]), [d])]);
    StepLeads(s, Pop(m));
    assert Next(s, Pop(m)) == s1;
    StepLeads(s1, Match(m, s.clock, Told(d)));
    assert s1.matchers[m := s'.matchers[m]] == s'.matchers;
    assert Next(s1, Match(m, s.clock, Told(d))) == s';
    CanLeadOn(s, s1, s');
  }

  /** The driver is free and the trip unclaimed: it gets the driver. */
  lemma MatcherMatches(s: Sys, m: nat, p: Snapshot, d: DriverId) returns (s': Sys)
    requires m in s.matchers && s.matchers[m] == Trying(p, [d]) && p.state == Requested
    requires p.id in s.db.trips && s.db.trips[p.id].version == p.version
    requires d !in s.db.claims && !TripClaimed(s.db, p.id)
    ensures CanLead(s, s') && s'.matchers == s.matchers[m := Idle(Some(MatchedSnapshot(p, d, 0)))]
    ensures s'.db.claims == s.db.claims[d := Claim(p.id, s.clock)]
    ensures s'.db.trips == s.db.trips[p.id := s.db.trips[p.id].(state := Matched, driver := Some(d), fare := Some(0), version := p.version + 1)]
  {
    var go := Match(m, s.clock, Told(d));
    var claimed := s.db.(claims := s.db.claims[d := Claim(p.id, s.clock)]);
    var s1 := s.(db := claimed, matchers := s.matchers[m := Quoting(p, d)]);
    var s2 := s.(db := claimed, matchers := s.matchers[m := Saving(p, d, 0)]);
    StepLeads(s, go);
    assert Next(s, go) == s1;
    StepLeads(s1, go);
    assert s1.matchers[m := Saving(p, d, 0)] == s2.matchers;
    assert Next(s1, go) == s2;
    CanLeadOn(s, s1, s2);
    StepLeads(s2, go);
    s' := Next(s2, go);
    CanLeadOn(s, s2, s');
  }

  /** Whenever a driver has no claim, some run goes on to put it on a trip that is not there yet. */
  lemma FreeDriverIsBooked(s: Sys, d: DriverId) returns (s': Sys, t: TripId)
    requires d !in s.db.claims && ClaimsKnown(s.db)
    ensures CanLead(s, s') && t !in s.db.trips && t in s'.db.trips
    ensures s'.db.trips[t].state == Matched && s'.db.trips[t].driver == Some(d)
    ensures forall u | u in s.db.trips :: u in s'.db.trips && s'.db.trips[u] == s.db.trips[u]
    ensures forall n | n in s.matchers :: n in s'.matchers && s'.matchers[n] == s.matchers[n]
    ensures ClaimsKnown(s'.db)
  {
    var s1, s2, key, m;
    s1, t, key := SomebodyAsks(s);
    assert !TripClaimed(s1.db, t);
    s2, m := MatcherTakesIt(s1, t, d);
    CanLeadOn(s, s1, s2);
    s' := MatcherMatches(s2, m, SnapshotOf(t, s1.db.trips[t]), d);
    CanLeadOn(s, s2, s');
  }

  /** The reaper deletes the claims it read, up to row i. */
  lemma {:induction false} ReaperFreesUpTo(s: Sys, i: nat) returns (s': Sys)
    requires s.reaper.Freeing? && i < |s.reaper.rows|
    ensures CanLead(s, s') && s'.matchers == s.matchers && s'.db.trips == s.db.trips
    ensures s.reaper.rows[i].driver !in s'.db.claims
    ensures forall e | e in s'.db.claims :: e in s.db.claims && s'.db.claims[e] == s.db.claims[e]
    decreases i
  {
    StepLeads(s, FreeOrphan);
    s' := Next(s, FreeOrphan);
    if i > 0 {
      var s1 := s';
      s' := ReaperFreesUpTo(s1, i - 1);
      CanLeadOn(s, s1, s');
    }
  }

  /** What makes a matcher that holds a claim give it up: no fare, or a save that raises. */
  function Trouble(pc: Pc): Answer {
    Answer(pc.Saving?, [], None)
  }

  lemma OwnerStartsReleasing(s: Sys, m: nat) returns (s': Sys)
    requires m in s.matchers && Held(s.matchers[m]).Some?
    ensures CanLead(s, s') && s'.db == s.db && m in s'.matchers
    ensures s'.matchers[m].Releasing? && s'.matchers[m].driver == Held(s.matchers[m]).value.0
  {
    StaysPut(s);
    s' := s;
    if !s.matchers[m].Releasing? {
      var a := Match(m, s.clock, Trouble(s.matchers[m]));
      StepLeads(s, a);
      s' := Next(s, a);
    }
  }

  /** A matcher that takes itself for the owner of a driver's claim may delete the row by its driver. */
  lemma OwnerReleases(s: Sys, m: nat) returns (s': Sys)
    requires m in s.matchers && Held(s.matchers[m]).Some?
    ensures CanLead(s, s') && s'.db == DeleteClaim(s.db, Held(s.matchers[m]).value.0)
  {
    var s1 := OwnerStartsReleasing(s, m);
    var a := Match(m, s1.clock, Answer(false, [], None));
    StepLeads(s1, a);
    s' := Next(s1, a);
    CanLeadOn(s, s1, s');
  }

  /**
   * When the reaper is about to delete a claim whose owner is still running, the driver can be booked
   * for a new trip, lose that trip's claim to the owner's release, and be booked once more.
   */
  lemma OwnedRowDoubleBooks(s: Sys, i: nat, m: nat) returns (s': Sys)
    requires ClaimsKnown(s.db) && s.reaper.Freeing? && i < |s.reaper.rows|
    requires m in s.matchers && Held(s.matchers[m]).Some? && Held(s.matchers[m]).value.0 == s.reaper.rows[i].driver
    ensures CanLead(s, s') && !NoDoubleBooking(s'.db)
  {
    var d := s.reaper.rows[i].driver;
    var s1 := ReaperFreesUpTo(s, i);
    var s2, t := FreeDriverIsBooked(s1, d);
    CanLeadOn(s, s1, s2);
    var s3 := OwnerReleases(s2, m);
    CanLeadOn(s, s2, s3);
    var u;
    s', u := FreeDriverIsBooked(s3, d);
    CanLeadOn(s, s3, s');
    assert s'.db.trips[t] == s2.db.trips[t] && t != u;
  }

  /**
   * What the reaper may read: no honest continuation of the run ever books a driver twice if and only
   * if none of the rows read is the claim of a running matcher.
   */
  lemma ReadIsSafeIff(s: Sys, cutoff: int, rows: seq<OrphanRow>)
    requires Inv(s) && Enabled(s, FindOrphans(cutoff, rows))
    ensures (forall s' | CanLead(Next(s, FindOrphans(cutoff, rows)), s') :: NoDoubleBooking(s'.db))
            <==> forall i | 0 <= i < |rows| :: !Owned(s.matchers, rows[i].driver)
  {
    var s1 := Next(s, FindOrphans(cutoff, rows));
    if forall i | 0 <= i < |rows| :: !Owned(s.matchers, rows[i].driver) {
      FindOrphansKeepsIff(s, cutoff, rows);
      forall s' | CanLead(s1, s')
        ensures NoDoubleBooking(s'.db)
      {
        var acts :| Leads(s1, acts, s');
        LeadsKeep(s1, acts, s');
      }
    } else {
      var i :| 0 <= i < |rows| && Owned(s.matchers, rows[i].driver);
      var m :| m in s.matchers && Held(s.matchers[m]).Some? && Held(s.matchers[m]).value.0 == rows[i].driver;
      var s' := OwnedRowDoubleBooks(s1, i, m);
    }
  }
}
