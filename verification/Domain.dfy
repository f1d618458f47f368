/** dispatch/domain.py: the value types and the trip state machine. */
module Domain {
  import opened Wrappers

  datatype TripId = TripId(hex: string)
  datatype DriverId = DriverId(name: string)
  datatype RiderId = RiderId(name: string)
  datatype Key = Key(text: string)

  datatype TripState = Requested | Matched | EnRoute | Complete | Cancelled

  /** The transition table. A pair that is not listed does not exist. */
  function Allowed(src: TripState): set<TripState> {
    match src
    case Requested => {Matched, Cancelled}
    case Matched => {EnRoute, Cancelled}
    case EnRoute => {Complete, Cancelled}
    case Complete => {}
    case Cancelled => {}
  }

  predicate CanTransition(src: TripState, dst: TripState) {
    dst in Allowed(src)
  }

  predicate IsTerminal(state: TripState) {
    Allowed(state) == {}
  }

  /** A driver is working for the trip. */
  predicate Live(state: TripState) {
    state == Matched || state == EnRoute
  }

  /** A state is terminal exactly when it is neither waiting nor being worked. */
  lemma TerminalStates(state: TripState)
    ensures IsTerminal(state) <==> state == Complete || state == Cancelled
    ensures IsTerminal(state) <==> state != Requested && !Live(state)
  {
    assert Cancelled in Allowed(Requested) && Cancelled in Allowed(Matched) && Cancelled in Allowed(EnRoute);
  }

  /** Whoever is not finished may be cancelled, and besides that a trip goes through its stages in order. */
  lemma OpenTripsCanBeCancelled(src: TripState, dst: TripState)
    ensures CanTransition(src, dst) <==>
              || (dst == Cancelled && src != Complete && src != Cancelled)
              || (src == Requested && dst == Matched)
              || (src == Matched && dst == EnRoute)
              || (src == EnRoute && dst == Complete)
  {
  }

  datatype LatLng = LatLng(lat: real, lng: real)

  datatype Driver = Driver(id: DriverId, position: LatLng, lastHeartbeatMs: int) {
    predicate IsStale(nowMs: int, ttlMs: int) {
      nowMs - lastHeartbeatMs > ttlMs
    }
  }

  /** What a `Trip` object holds at one instant. */
  datatype Snapshot = Snapshot(
    id: TripId,
    rider: RiderId,
    pickup: LatLng,
    state: TripState,
    driver: Option<DriverId>,
    fare: Option<int>,
    created: int,
    version: nat)

  /** The mutable `Trip` a process keeps in memory. */
  class Trip {
    const id: TripId
    const rider: RiderId
    const pickup: LatLng
    const created: int
    var state: TripState
    var driver: Option<DriverId>
    var fare: Option<int>
    var version: nat

    constructor (data: Snapshot)
      ensures Data() == data
    {
      id, rider, pickup, created := data.id, data.rider, data.pickup, data.created;
      state, driver, fare, version := data.state, data.driver, data.fare, data.version;
    }

    function Data(): Snapshot
      reads this
    {
      Snapshot(id, rider, pickup, state, driver, fare, created, version)
    }

    /** Moves along the table; `false` is `IllegalTransition`, and then nothing moved. */
    method Advance(dst: TripState) returns (ok: bool)
      modifies this
      ensures ok <==> CanTransition(old(state), dst)
      ensures Data() == if ok then old(Data()).(state := dst) else old(Data())
    {
      ok := CanTransition(state, dst);
      if ok {
        state := dst;
      }
    }

    /** The move to MATCHED, which sets both matching columns; when it is refused neither is set. */
    method Assign(driverId: DriverId, fareCents: int) returns (ok: bool)
      modifies this
      ensures ok <==> old(state) == Requested
      ensures Data() == if ok
                        then old(Data()).(state := Matched, driver := Some(driverId), fare := Some(fareCents))
                        else old(Data())
    {
      ok := Advance(Matched);
      if ok {
        driver := Some(driverId);
        fare := Some(fareCents);
      }
    }
  }
}
