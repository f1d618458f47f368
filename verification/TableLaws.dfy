/** What each SQL transaction keeps, one lemma per transaction. */
module TableLaws {
  import opened Wrappers
  import opened Domain
  import opened Tables

  /** The claim rows alone decide it: two live trips never share a driver. */
  lemma InvMeansNoDoubleBooking(db: Db)
    requires DbInv(db)
    ensures NoDoubleBooking(db)
  {
    forall t, u | t in db.trips && u in db.trips && Live(db.trips[t].state) && Live(db.trips[u].state)
                  && db.trips[t].driver == db.trips[u].driver
      ensures t == u
    {
      assert HeldFor(db, t) && HeldFor(db, u);
    }
  }

  lemma InsertTripSteps(db: Db, trip: Snapshot, key: Key, now: int)
    requires DbInv(db) && InsertTrip(db, trip, key, now).Some?
    ensures var db' := InsertTrip(db, trip, key, now).value;
            DbStep(db, db') && KeysUnique(db') && forall t | t in db'.trips :: RowOk(db'.trips[t])
  {
  }

  lemma InsertTripKeeps(db: Db, trip: Snapshot, key: Key, now: int)
    requires DbInv(db) && InsertTrip(db, trip, key, now).Some?
    ensures var db' := InsertTrip(db, trip, key, now).value; DbInv(db') && DbStep(db, db')
  {
    var db' := InsertTrip(db, trip, key, now).value;
    InsertTripSteps(db, trip, key, now);
    forall t | t in db'.trips && Live(db'.trips[t].state)
      ensures HeldFor(db', t)
    {
      assert t in db.trips && HeldFor(db, t);
    }
  }

  lemma InsertClaimKeeps(db: Db, d: DriverId, t: TripId, now: int)
    requires DbInv(db) && t in db.trips && InsertClaim(db, d, t, now).Some?
    ensures var db' := InsertClaim(db, d, t, now).value;
            DbInv(db') && DbStep(db, db') && !Live(db.trips[t].state)
  {
    var db' := InsertClaim(db, d, t, now).value;
    forall u | u in db'.trips && Live(db'.trips[u].state)
      ensures HeldFor(db', u)
    {
      assert HeldFor(db, u);
    }
  }

  /** Deleting the claim of a trip that is not live. */
  lemma DeleteDeadClaimKeeps(db: Db, d: DriverId)
    requires DbInv(db) && d in db.claims && !Live(db.trips[db.claims[d].trip].state)
    ensures DbInv(DeleteClaim(db, d))
  {
    var db' := DeleteClaim(db, d);
    forall t | t in db'.trips && Live(db'.trips[t].state)
      ensures HeldFor(db', t)
    {
      assert HeldFor(db, t);
    }
  }

  /** `release_driver` names no trip; it is harmless exactly when the claim is not a live trip's. */
  lemma DeleteClaimKeepsIff(db: Db, d: DriverId)
    requires DbInv(db)
    ensures DbInv(DeleteClaim(db, d))
            <==> (d in db.claims ==> !Live(db.trips[db.claims[d].trip].state))
    ensures DbStep(db, DeleteClaim(db, d))
  {
    var db' := DeleteClaim(db, d);
    if d in db.claims && Live(db.trips[db.claims[d].trip].state) {
      var t := db.claims[d].trip;
      assert HeldFor(db, t);
      assert db.trips[t].driver == Some(d);
      assert t in db'.trips && !HeldFor(db', t);
    } else if d in db.claims {
      DeleteDeadClaimKeeps(db, d);
    } else {
      assert db'.claims == db.claims;
    }
  }

  lemma MatchedRowOk(r: Row, d: DriverId, fare: int)
    requires RowOk(r) && r.version == 0
    ensures var r' := r.(state := Matched, driver := Some(d), fare := Some(fare), version := 1);
            r.state == Requested && RowOk(r') && RowStep(r, r')
  {
  }

  lemma UpdateMatchKeeps(db: Db, t: TripId, d: DriverId, fare: int)
    requires DbInv(db) && UpdateMatch(db, t, 0, d, fare).Some?
    requires d in db.claims && db.claims[d].trip == t
    ensures var db' := UpdateMatch(db, t, 0, d, fare).value; DbInv(db') && DbStep(db, db')
    ensures db.trips[t].state == Requested
  {
    var db' := UpdateMatch(db, t, 0, d, fare).value;
    MatchedRowOk(db.trips[t], d, fare);
    forall u | u in db'.trips && Live(db'.trips[u].state)
      ensures HeldFor(db', u)
    {
      assert u != t ==> HeldFor(db, u);
    }
  }

  /** A claim the DELETE of `advance` removes is the live trip's own. */
  lemma FreedClaimIsOwn(db: Db, p: Snapshot, dst: TripState, d: DriverId)
    requires DbInv(db) && SnapOk(db, p) && CanTransition(p.state, dst) && db.trips[p.id].version == p.version
    requires d in ClaimsFreedBy(db, p, dst)
    ensures Live(p.state) && d in db.claims && db.claims[d].trip == p.id && p.driver == Some(d) && IsTerminal(dst)
  {
    assert RowOk(db.trips[p.id]);
    TerminalStates(dst);
    TerminalStates(p.state);
  }

  /**
   * The UPDATE of `advance` tests the version only, yet it moves the row along the table:
   * a snapshot of the row's version carries the row's state.
   */
  lemma MovedRowSteps(db: Db, p: Snapshot, dst: TripState)
    requires DbInv(db) && SnapOk(db, p) && CanTransition(p.state, dst) && dst != Matched
    requires db.trips[p.id].version == p.version
    ensures var r' := MovedRow(db.trips[p.id], dst);
            RowOk(r') && RowStep(db.trips[p.id], r') && db.trips[p.id].state == p.state
            && (Live(dst) ==> Live(p.state))
  {
    assert RowOk(db.trips[p.id]);
  }

  lemma UpdateStateSteps(db: Db, p: Snapshot, dst: TripState)
    requires DbInv(db) && SnapOk(db, p) && CanTransition(p.state, dst) && dst != Matched
    requires UpdateState(db, p, dst).Some?
    ensures var db' := UpdateState(db, p, dst).value;
            && DbStep(db, db')
            && (forall t | t in db'.trips :: RowOk(db'.trips[t]))
            && KeysUnique(db')
  {
    MovedRowSteps(db, p, dst);
  }

  /** A trip that is live after `advance` was live before, and keeps its claim. */
  lemma UpdateStateHolds(db: Db, p: Snapshot, dst: TripState, t: TripId)
    requires DbInv(db) && SnapOk(db, p) && CanTransition(p.state, dst) && dst != Matched
    requires UpdateState(db, p, dst).Some?
    requires t in UpdateState(db, p, dst).value.trips && Live(UpdateState(db, p, dst).value.trips[t].state)
    ensures HeldFor(UpdateState(db, p, dst).value, t)
  {
    MovedRowSteps(db, p, dst);
    assert HeldFor(db, t);
    var d := db.trips[t].driver.value;
    if d in ClaimsFreedBy(db, p, dst) {
      FreedClaimIsOwn(db, p, dst, d);
    }
  }

  lemma UpdateStateKeeps(db: Db, p: Snapshot, dst: TripState)
    requires DbInv(db) && SnapOk(db, p) && CanTransition(p.state, dst) && dst != Matched
    requires UpdateState(db, p, dst).Some?
    ensures var db' := UpdateState(db, p, dst).value; DbInv(db') && DbStep(db, db')
  {
    var db' := UpdateState(db, p, dst).value;
    UpdateStateSteps(db, p, dst);
    forall t | t in db'.trips && Live(db'.trips[t].state)
      ensures HeldFor(db', t)
    {
      UpdateStateHolds(db, p, dst, t);
    }
  }

  /**
   * A transition table that is checked before the UPDATE does not protect the two matching columns:
   * `advance` leaves a well-formed row exactly when it is not used to reach MATCHED.
   */
  lemma AdvanceKeepsRowIff(db: Db, p: Snapshot, dst: TripState)
    requires DbInv(db) && SnapOk(db, p) && CanTransition(p.state, dst)
    requires UpdateState(db, p, dst).Some?
    ensures RowOk(UpdateState(db, p, dst).value.trips[p.id]) <==> dst != Matched
  {
    assert db.trips[p.id].state == p.state;
  }

  /**
   * An `advance` commits exactly when the version in memory is the row's. Then the row has the new state
   * and the next version, no other row changes, and on a terminal state the driver's own claim goes.
   */
  lemma AdvanceCommitsIff(db: Db, p: Snapshot, dst: TripState)
    ensures UpdateState(db, p, dst).Some? <==> p.id in db.trips && db.trips[p.id].version == p.version
    ensures UpdateState(db, p, dst).Some? ==>
              var db' := UpdateState(db, p, dst).value;
              && db'.trips == db.trips[p.id := db.trips[p.id].(state := dst, version := db.trips[p.id].version + 1)]
              && (forall d :: d in db'.claims <==>
                    && d in db.claims
                    && !((dst == Complete || dst == Cancelled) && p.driver == Some(d) && d.name != "" && db.claims[d].trip == p.id))
              && (forall d | d in db'.claims :: db'.claims[d] == db.claims[d])
  {
  }

  /** The DELETE of a terminal `advance` hits the claim of a trip that was live, unless the driver's id is empty. */
  lemma LiveTripGivesBack(db: Db, p: Snapshot, dst: TripState)
    requires DbInv(db) && SnapOk(db, p) && CanTransition(p.state, dst) && IsTerminal(dst)
    requires UpdateState(db, p, dst).Some? && Live(p.state)
    ensures TripClaimed(db, p.id)
    ensures TripClaimed(UpdateState(db, p, dst).value, p.id) <==> p.driver == Some(DriverId(""))
  {
    TerminalStates(dst);
    assert HeldFor(db, p.id);
    var db' := UpdateState(db, p, dst).value;
    if p.driver == Some(DriverId("")) {
      assert db'.claims[DriverId("")].trip == p.id;
    }
  }

  /**
   * A terminal `advance` is meant to end the trip's claim in the same transaction. The claim outlives the
   * trip exactly when the trip was still REQUESTED, its driver column being NULL while a matcher holds
   * or has left a claim on it, or the driver's id is empty, which the API lets no driver have.
   */
  lemma TerminalAdvanceFreesDriver(db: Db, p: Snapshot, dst: TripState)
    requires DbInv(db) && SnapOk(db, p) && CanTransition(p.state, dst) && IsTerminal(dst)
    requires UpdateState(db, p, dst).Some?
    ensures TripClaimed(UpdateState(db, p, dst).value, p.id)
            <==> TripClaimed(db, p.id) && (p.state == Requested || p.driver == Some(DriverId("")))
  {
    if Live(p.state) {
      LiveTripGivesBack(db, p, dst);
    } else {
      assert RowOk(db.trips[p.id]);
      TerminalStates(p.state);
      assert UpdateState(db, p, dst).value.claims == db.claims;
    }
  }

  // ---- snapshots and rows across commits ---------------------------------------------------

  /** An in-memory trip stays a sound basis for the version test whatever commits in between. */
  lemma SnapshotSurvives(db: Db, db': Db, p: Snapshot)
    requires SnapOk(db, p) && DbStep(db, db')
    ensures SnapOk(db', p)
  {
    assert RowStep(db.trips[p.id], db'.trips[p.id]);
  }

  lemma UnchangedRowsStep(db: Db, db': Db)
    requires db'.trips == db.trips
    ensures DbStep(db, db')
  {
  }
}
