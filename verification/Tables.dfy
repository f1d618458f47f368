/** The two tables of schema.sql, and every SQL statement of dispatch/store.py as a function on them. */
module Tables {
  import opened Wrappers
  import opened Domain

  /** A row of `trips`; `trip_id` is the map key. `updated_ms` is never read and is not kept. */
  datatype Row = Row(
    rider: RiderId,
    pickup: LatLng,
    state: TripState,
    driver: Option<DriverId>,
    fare: Option<int>,
    key: Key,
    version: nat,
    created: int)

  /** A row of `driver_claims`; `driver_id` is the map key. */
  datatype Claim = Claim(trip: TripId, at: int)

  datatype Db = Db(trips: map<TripId, Row>, claims: map<DriverId, Claim>)

  function SnapshotOf(t: TripId, r: Row): Snapshot {
    Snapshot(t, r.rider, r.pickup, r.state, r.driver, r.fare, r.created, r.version)
  }

  /** `SELECT * FROM trips WHERE trip_id = t`. */
  function Get(db: Db, t: TripId): Option<Snapshot> {
    if t in db.trips then Some(SnapshotOf(t, db.trips[t])) else None
  }

  predicate KeyUsed(db: Db, key: Key) {
    exists t | t in db.trips :: db.trips[t].key == key
  }

  /** `SELECT * FROM trips WHERE idempotency_key = key`. */
  ghost function KeyOwner(db: Db, key: Key): (owner: Option<TripId>)
    ensures owner.Some? <==> KeyUsed(db, key)
    ensures owner.Some? ==> owner.value in db.trips && db.trips[owner.value].key == key
  {
    if KeyUsed(db, key) then
      var t :| t in db.trips && db.trips[t].key == key;
      Some(t)
    else None
  }

  /** The uk_claims_trip key: some driver is already claimed for the trip. */
  predicate TripClaimed(db: Db, t: TripId) {
    exists d | d in db.claims :: db.claims[d].trip == t
  }

  function NewRow(trip: Snapshot, key: Key, now: int): Row {
    Row(trip.rider, trip.pickup, Requested, None, None, key, 0, now)
  }

  /** `INSERT INTO trips`; None is IntegrityError on either unique key. */
  function InsertTrip(db: Db, trip: Snapshot, key: Key, now: int): Option<Db> {
    if trip.id in db.trips || KeyUsed(db, key) then None
    else Some(db.(trips := db.trips[trip.id := NewRow(trip, key, now)]))
  }

  /** `INSERT INTO driver_claims`; None is IntegrityError on either unique key. */
  function InsertClaim(db: Db, d: DriverId, t: TripId, now: int): Option<Db> {
    if d in db.claims || TripClaimed(db, t) then None
    else Some(db.(claims := db.claims[d := Claim(t, now)]))
  }

  /** `DELETE FROM driver_claims WHERE driver_id = d`. */
  function DeleteClaim(db: Db, d: DriverId): Db {
    db.(claims := db.claims - {d})
  }

  /** `UPDATE trips ... WHERE trip_id = t AND version = v` of `save_match`; None is zero affected rows. */
  function UpdateMatch(db: Db, t: TripId, v: nat, d: DriverId, fare: int): Option<Db> {
    if t in db.trips && db.trips[t].version == v then
      var row := db.trips[t].(state := Matched, driver := Some(d), fare := Some(fare), version := v + 1);
      Some(db.(trips := db.trips[t := row]))
    else None
  }

  /** Python's truth value of `trip.driver_id`: neither NULL nor the empty string. */
  predicate Truthy(driver: Option<DriverId>) {
    driver.Some? && driver.value.name != ""
  }

  /** The rows `DELETE FROM driver_claims WHERE driver_id = ... AND trip_id = ...` of `advance` removes. */
  function ClaimsFreedBy(db: Db, trip: Snapshot, dst: TripState): set<DriverId> {
    if (dst == Complete || dst == Cancelled) && Truthy(trip.driver)
       && trip.driver.value in db.claims && db.claims[trip.driver.value].trip == trip.id
    then {trip.driver.value} else {}
  }

  /** The row after the UPDATE of `advance`. */
  function MovedRow(r: Row, dst: TripState): Row {
    r.(state := dst, version := r.version + 1)
  }

  /** The whole transaction of `advance`: the versioned UPDATE, then the claim's DELETE on a terminal state. */
  function UpdateState(db: Db, trip: Snapshot, dst: TripState): Option<Db> {
    if trip.id in db.trips && db.trips[trip.id].version == trip.version then
      Some(Db(db.trips[trip.id := MovedRow(db.trips[trip.id], dst)], db.claims - ClaimsFreedBy(db, trip, dst)))
    else None
  }

  // ---- what every committed transaction keeps ---------------------------------------------

  /** The state, the version and the two matching columns of a row determine each other this far. */
  predicate RowOk(r: Row) {
    && (r.state == Requested <==> r.version == 0)
    && (r.state == Matched ==> r.version == 1)
    && (r.state == EnRoute ==> r.version == 2)
    && (r.state == Complete ==> r.version == 3)
    && (r.state == Cancelled ==> r.version <= 3)
    && (r.driver.Some? <==> r.fare.Some?)
    && (r.driver.Some? <==> Live(r.state) || r.state == Complete || (r.state == Cancelled && r.version >= 2))
  }

  /** uk_trips_idem. */
  ghost predicate KeysUnique(db: Db) {
    forall t, u | t in db.trips && u in db.trips && db.trips[t].key == db.trips[u].key :: t == u
  }

  /** uk_claims_trip. The primary key on the driver is the map itself. */
  ghost predicate ClaimsUnique(db: Db) {
    forall d, e | d in db.claims && e in db.claims && db.claims[d].trip == db.claims[e].trip :: d == e
  }

  /** The driver of the trip has a claim row, and it names this trip. */
  predicate HeldFor(db: Db, t: TripId)
    requires t in db.trips
  {
    var d := db.trips[t].driver;
    d.Some? && d.value in db.claims && db.claims[d.value].trip == t
  }

  ghost predicate DbInv(db: Db) {
    && (forall t | t in db.trips :: RowOk(db.trips[t]))
    && KeysUnique(db)
    && ClaimsUnique(db)
    && (forall d | d in db.claims :: db.claims[d].trip in db.trips)
    && (forall t | t in db.trips && Live(db.trips[t].state) :: HeldFor(db, t))
  }

  /** No driver is on two live trips: what chaos/verify.py asserts first. */
  ghost predicate NoDoubleBooking(db: Db) {
    forall t, u | t in db.trips && u in db.trips && Live(db.trips[t].state) && Live(db.trips[u].state)
                  && db.trips[t].driver == db.trips[u].driver :: t == u
  }

  /** What an in-memory trip may be relative to its row: older, or exactly the row. */
  ghost predicate SnapOk(db: Db, p: Snapshot) {
    && p.id in db.trips
    && var r := db.trips[p.id];
    && p.version <= r.version
    && (p.version == r.version ==> p.state == r.state && p.driver == r.driver && p.fare == r.fare)
    && p.rider == r.rider && p.pickup == r.pickup
  }

  /** How one row may change in one commit. */
  ghost predicate RowStep(r: Row, r': Row) {
    || r' == r
    || (&& CanTransition(r.state, r'.state)
        && r'.version == r.version + 1
        && r' == r.(state := r'.state, version := r'.version, driver := r'.driver, fare := r'.fare)
        && (r'.state == Matched ==> r'.driver.Some? && r'.fare.Some?)
        && (r'.state != Matched ==> r'.driver == r.driver && r'.fare == r.fare))
  }

  /** Rows are never deleted and only move along the transition table. */
  ghost predicate DbStep(db: Db, db': Db) {
    && db.trips.Keys <= db'.trips.Keys
    && (forall t | t in db.trips :: RowStep(db.trips[t], db'.trips[t]))
    && (forall t | t in db'.trips && t !in db.trips :: db'.trips[t].state == Requested && db'.trips[t].version == 0)
  }
}
