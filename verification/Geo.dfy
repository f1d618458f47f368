/** dispatch/geo.py: the cell index over drivers, as the in-memory variant keeps it. */
module Geo {
  import opened Domain
  import opened Decimal
  import opened Sorting

  const CELL_DEG := 0.01
  const HEARTBEAT_TTL_MS := 30_000

  /** `math.floor(x / CELL_DEG)`, over reals. */
  function CellIndex(x: real): int {
    (x / CELL_DEG).Floor
  }

  function CellOf(p: LatLng): string {
    CellKey(CellIndex(p.lat), CellIndex(p.lng))
  }

  predicate Near(a: int, b: int, ring: int) {
    -ring <= a - b <= ring
  }

  /** The two points' cells are at most `ring` apart in both directions. */
  predicate InRing(p: LatLng, q: LatLng, ring: int) {
    Near(CellIndex(q.lat), CellIndex(p.lat), ring) && Near(CellIndex(q.lng), CellIndex(p.lng), ring)
  }

  /** `n` cells of row i, from column `lo`. */
  function Row(i: int, lo: int, n: nat): seq<(int, int)> {
    seq(n, k requires 0 <= k < n => (i, lo + k))
  }

  /** A block of cells, row by row. */
  function Block(i: int, j: int, width: nat, rows: nat): seq<(int, int)> {
    if rows == 0 then [] else Block(i, j, width, rows - 1) + Row(i + rows - 1, j, width)
  }

  function KeysOf(cells: seq<(int, int)>): seq<string> {
    seq(|cells|, k requires 0 <= k < |cells| => CellKey(cells[k].0, cells[k].1))
  }

  lemma RowGrows(i: int, lo: int, n: nat)
    ensures Row(i, lo, n + 1) == Row(i, lo, n) + [(i, lo + n)]
  {
  }

  lemma KeysOfGrows(cells: seq<(int, int)>, c: (int, int))
    ensures KeysOf(cells + [c]) == KeysOf(cells) + [CellKey(c.0, c.1)]
  {
  }

  lemma RowLists(i: int, lo: int, n: nat, x: int, y: int)
    ensures (x, y) in Row(i, lo, n) <==> x == i && lo <= y < lo + n
  {
    if x == i && lo <= y < lo + n {
      assert Row(i, lo, n)[y - lo] == (x, y);
    }
  }

  /** A cell reaches from its index in hundredths of a degree up to the next. */
  lemma CellBounds(x: real, i: int)
    ensures CellIndex(x) == i <==> i as real * 0.01 <= x < (i + 1) as real * 0.01
  {
    var y := x / CELL_DEG;
    assert x == y * CELL_DEG && y.Floor as real <= y < y.Floor as real + 1.0;
  }

  /** For example, just south of the equator and three cells east. */
  lemma SomeCell()
    ensures CellOf(LatLng(-0.001, 0.035)) == "-1:3" && CellOf(LatLng(0.123, -0.195)) == "12:-20"
  {
    assert CellIndex(-0.001) == -1 && CellIndex(0.035) == 3 && CellIndex(0.123) == 12 && CellIndex(-0.195) == -20;
    assert IntToString(-1) == "-1" && IntToString(3) == "3";
    assert NatToString(12) == "12" && NatToString(20) == "20";
  }

  /** A block lists the cells of its rectangle, each once. */
  lemma {:induction false} BlockLists(i: int, j: int, width: nat, rows: nat)
    ensures |Block(i, j, width, rows)| == rows * width && Distinct(Block(i, j, width, rows))
    ensures forall x, y :: (x, y) in Block(i, j, width, rows) <==> i <= x < i + rows && j <= y < j + width
  {
    if rows > 0 {
      BlockLists(i, j, width, rows - 1);
      forall x, y
        ensures (x, y) in Row(i + rows - 1, j, width) <==> x == i + rows - 1 && j <= y < j + width
      {
        RowLists(i + rows - 1, j, width, x, y);
      }
      DistinctConcat(Block(i, j, width, rows - 1), Row(i + rows - 1, j, width));
    }
  }

  lemma {:induction false} BlockAt(i: int, j: int, width: nat, rows: nat, x: nat, y: nat)
    requires x < rows && y < width
    ensures x * width + y < |Block(i, j, width, rows)| && Block(i, j, width, rows)[x * width + y] == (i + x, j + y)
  {
    BlockLists(i, j, width, rows - 1);
    if x < rows - 1 {
      BlockAt(i, j, width, rows - 1, x, y);
    }
  }

  lemma KeysOfDistinctCells(cells: seq<(int, int)>)
    requires Distinct(cells)
    ensures Distinct(KeysOf(cells))
    ensures forall i, j :: CellKey(i, j) in KeysOf(cells) <==> (i, j) in cells
  {
    var keys := KeysOf(cells);
    forall k, l | 0 <= k < l < |keys|
      ensures keys[k] != keys[l]
    {
      CellKeyInjective(cells[k].0, cells[k].1, cells[l].0, cells[l].1);
    }
    forall i, j
      ensures CellKey(i, j) in keys <==> (i, j) in cells
    {
      if CellKey(i, j) in keys {
        var k :| 0 <= k < |keys| && keys[k] == CellKey(i, j);
        CellKeyInjective(i, j, cells[k].0, cells[k].1);
      }
      if (i, j) in cells {
        var k :| 0 <= k < |cells| && cells[k] == (i, j);
        assert keys[k] == CellKey(i, j);
      }
    }
  }

  /** The cells within `ring` of p's, row by row from the south-west corner. */
  function Square(p: LatLng, ring: nat): seq<(int, int)> {
    Block(CellIndex(p.lat) - ring, CellIndex(p.lng) - ring, 2 * ring + 1, 2 * ring + 1)
  }

  function NeighbourKeys(p: LatLng, ring: int): seq<string> {
    if ring >= 0 then KeysOf(Square(p, ring)) else []
  }

  /** The listed ids are different and those of exactly the cells within `ring` of p's. */
  lemma NeighbourKeysList(p: LatLng, ring: int)
    ensures var keys := NeighbourKeys(p, ring);
            && Distinct(keys) && |keys| == (if ring >= 0 then (2 * ring + 1) * (2 * ring + 1) else 0)
            && forall i, j :: CellKey(i, j) in keys <==> Near(i, CellIndex(p.lat), ring) && Near(j, CellIndex(p.lng), ring)
  {
    if ring >= 0 {
      BlockLists(CellIndex(p.lat) - ring, CellIndex(p.lng) - ring, 2 * ring + 1, 2 * ring + 1);
      KeysOfDistinctCells(Square(p, ring));
    }
  }

  lemma KeyAt(cells: seq<(int, int)>, k: nat)
    requires k < |cells|
    ensures k < |KeysOf(cells)| && KeysOf(cells)[k] == CellKey(cells[k].0, cells[k].1)
  {
  }

  lemma SquareAt(p: LatLng, ring: nat, x: nat, y: nat)
    requires x <= 2 * ring && y <= 2 * ring
    ensures var (keys, k) := (NeighbourKeys(p, ring), x * (2 * ring + 1) + y);
            k < |keys| && keys[k] == CellKey(CellIndex(p.lat) - ring + x, CellIndex(p.lng) - ring + y)
  {
    var cells := Square(p, ring);
    BlockAt(CellIndex(p.lat) - ring, CellIndex(p.lng) - ring, 2 * ring + 1, 2 * ring + 1, x, y);
    KeyAt(cells, x * (2 * ring + 1) + y);
  }

  lemma MiddleIndex(ring: nat)
    ensures ring * (2 * ring + 1) + ring == 2 * ring * (ring + 1)
  {
  }

  /** The centre is the middle one of the list, so the list begins with it only when it is alone. */
  lemma CentreIsMiddle(p: LatLng, ring: nat)
    ensures var keys, middle := NeighbourKeys(p, ring), 2 * ring * (ring + 1);
            && middle < |keys| && keys[middle] == CellOf(p)
            && (keys[0] == CellOf(p) <==> ring == 0)
  {
    SquareAt(p, ring, ring, ring);
    MiddleIndex(ring);
    SquareAt(p, ring, 0, 0);
    CellKeyInjective(CellIndex(p.lat) - ring, CellIndex(p.lng) - ring, CellIndex(p.lat), CellIndex(p.lng));
  }

  /** One more cell of a row is one more id. */
  lemma RowKeysGrow(above: seq<(int, int)>, i: int, lo: int, n: nat)
    ensures KeysOf(above + Row(i, lo, n + 1)) == KeysOf(above + Row(i, lo, n)) + [CellKey(i, lo + n)]
  {
    RowGrows(i, lo, n);
    assert above + Row(i, lo, n + 1) == above + Row(i, lo, n) + [(i, lo + n)];
    KeysOfGrows(above + Row(i, lo, n), (i, lo + n));
  }

  /** One row of the square, the inner loop's work. */
  lemma RowDone(i: int, j: int, width: nat, rows: nat)
    ensures KeysOf(Block(i, j, width, rows + 1)) == KeysOf(Block(i, j, width, rows) + Row(i + rows, j, width))
    ensures KeysOf(Block(i, j, width, rows) + Row(i + rows, j, 0)) == KeysOf(Block(i, j, width, rows))
  {
    assert Block(i, j, width, rows) + Row(i + rows, j, 0) == Block(i, j, width, rows);
  }

  /** The ids of the square of cells around p's, built in two nested loops. */
  method Neighbours(p: LatLng, ring: int) returns (out: seq<string>)
    ensures out == NeighbourKeys(p, ring)
  {
    var ci, cj := CellIndex(p.lat), CellIndex(p.lng);
    ghost var width: nat := if ring >= 0 then 2 * ring + 1 else 0;
    ghost var rows: nat := 0;
    out := [];
    var di := -ring;
    while di <= ring
      invariant if ring >= 0 then di <= ring + 1 && rows == di + ring else di == -ring && rows == 0
      invariant out == KeysOf(Block(ci - ring, cj - ring, width, rows))
    {
      ghost var above, i := Block(ci - ring, cj - ring, width, rows), ci + di;
      assert ci - ring + rows == i;
      RowDone(ci - ring, cj - ring, width, rows);
      var dj := -ring;
      ghost var n: nat := 0;
      while dj <= ring
        invariant dj <= ring + 1 && n == dj + ring
        invariant out == KeysOf(above + Row(i, cj - ring, n))
      {
        RowKeysGrow(above, i, cj - ring, n);
        out := out + [CellKey(ci + di, cj + dj)];
        dj, n := dj + 1, n + 1;
      }
      assert n == width;
      di, rows := di + 1, rows + 1;
    }
  }

  // ---- what `nearby` is measured against ---------------------------------------------------

  type Distance = (LatLng, LatLng) -> real

  /** The brute-force scan: every fresh driver whose cell is within `ring` of the pickup's. */
  function Eligible(drivers: map<DriverId, Driver>, pickup: LatLng, now: int, ring: int): set<DriverId> {
    set d | d in drivers && !drivers[d].IsStale(now, HEARTBEAT_TTL_MS) && InRing(pickup, drivers[d].position, ring)
  }

  function Ranked(d: Driver, pickup: LatLng, distance: Distance): (Driver, real) {
    (d, distance(pickup, d.position))
  }

  /** The list names exactly the chosen drivers, each once, with its distance, nearest first. */
  ghost predicate Ranking(drivers: map<DriverId, Driver>, chosen: set<DriverId>, pickup: LatLng, distance: Distance,
                          list: seq<(Driver, real)>)
    requires chosen <= drivers.Keys
  {
    && SortedBy(list, Metres)
    && Distinct(list)
    && (forall p | p in list :: p.0.id in chosen && p == Ranked(drivers[p.0.id], pickup, distance))
    && (forall d | d in chosen :: Ranked(drivers[d], pickup, distance) in list)
  }

  function Metres(p: (Driver, real)): real {
    p.1
  }

  /** Ring r is the smallest with a fresh driver, and the list ranks its fresh drivers. */
  ghost predicate AnswersFrom(drivers: map<DriverId, Driver>, pickup: LatLng, now: int, maxRing: int, distance: Distance,
                              r: int, list: seq<(Driver, real)>)
  {
    && 1 <= r <= maxRing
    && Eligible(drivers, pickup, now, r) != {}
    && (forall q | 1 <= q < r :: Eligible(drivers, pickup, now, q) == {})
    && Ranking(drivers, Eligible(drivers, pickup, now, r), pickup, distance, list)
  }

  /** `nearby` answers from the smallest non-empty ring, and with nothing when every ring is empty. */
  ghost predicate NearbyAnswer(drivers: map<DriverId, Driver>, pickup: LatLng, now: int, maxRing: int, distance: Distance,
                               list: seq<(Driver, real)>)
  {
    if forall r | 1 <= r <= maxRing :: Eligible(drivers, pickup, now, r) == {} then list == []
    else exists r :: AnswersFrom(drivers, pickup, now, maxRing, distance, r, list)
  }

  // ---- the index ---------------------------------------------------------------------------

  function InCell(cells: map<string, set<DriverId>>, c: string): set<DriverId> {
    if c in cells then cells[c] else {}
  }

  /** Every driver is in the set of the cell of its position, and the sets hold nothing else. */
  ghost predicate IndexOk(cells: map<string, set<DriverId>>, drivers: map<DriverId, Driver>) {
    && (forall d | d in drivers :: drivers[d].id == d)
    && (forall d | d in drivers :: d in InCell(cells, CellOf(drivers[d].position)))
    && (forall c, d | c in cells && d in cells[c] :: d in drivers && CellOf(drivers[d].position) == c)
  }

  lemma DiscardKeeps(cells: map<string, set<DriverId>>, drivers: map<DriverId, Driver>, d: DriverId)
    requires IndexOk(cells, drivers) && d in drivers
    ensures var c := CellOf(drivers[d].position);
            IndexOk(cells[c := InCell(cells, c) - {d}], drivers - {d})
  {
  }

  lemma AddKeeps(cells: map<string, set<DriverId>>, drivers: map<DriverId, Driver>, x: Driver)
    requires IndexOk(cells, drivers) && x.id !in drivers
    ensures var c := CellOf(x.position);
            IndexOk(cells[c := InCell(cells, c) + {x.id}], drivers[x.id := x])
  {
  }

  class InMemoryGeoIndex {
    var cells: map<string, set<DriverId>>
    var drivers: map<DriverId, Driver>
    const distance: Distance

    ghost predicate Valid()
      reads this
    {
      IndexOk(cells, drivers)
    }

    constructor (distance: Distance)
      ensures Valid() && drivers == map[] && this.distance == distance
    {
      cells, drivers, this.distance := map[], map[], distance;
    }

    /** `defaultdict(set)`: a missing cell is an empty one. */
    function Cell(c: string): set<DriverId>
      reads this
    {
      InCell(cells, c)
    }

    method Heartbeat(d: DriverId, pos: LatLng, now: int)
      requires Valid()
      modifies this
      ensures Valid() && drivers == old(drivers)[d := Driver(d, pos, now)]
    {
      if d in drivers {
        DiscardKeeps(cells, drivers, d);
        var c := CellOf(drivers[d].position);
        cells := cells[c := Cell(c) - {d}];
      }
      AddKeeps(cells, drivers - {d}, Driver(d, pos, now));
      assert (drivers - {d})[d := Driver(d, pos, now)] == drivers[d := Driver(d, pos, now)];
      cells := cells[CellOf(pos) := Cell(CellOf(pos)) + {d}];
      drivers := drivers[d := Driver(d, pos, now)];
    }

    method GoOffline(d: DriverId)
      requires Valid()
      modifies this
      ensures Valid() && drivers == old(drivers) - {d}
    {
      if d in drivers {
        DiscardKeeps(cells, drivers, d);
        var c := CellOf(drivers[d].position);
        drivers := drivers - {d};
        cells := cells[c := Cell(c) - {d}];
      }
    }

    /** Each driver is in exactly one cell set. */
    lemma DriverInOneCell(d: DriverId)
      requires Valid()
      ensures d in drivers ==> forall c | c in cells :: d in cells[c] <==> c == CellOf(drivers[d].position)
      ensures d !in drivers ==> forall c | c in cells :: d !in cells[c]
    {
    }

    /** The drivers of the listed cells, each once. */
    method Members(keys: seq<string>) returns (out: seq<DriverId>)
      requires Valid() && Distinct(keys)
      ensures Distinct(out)
      ensures forall d :: d in out <==> d in drivers && CellOf(drivers[d].position) in keys
    {
      out := [];
      for k := 0 to |keys|
        invariant Distinct(out)
        invariant forall d :: d in out <==> d in drivers && CellOf(drivers[d].position) in keys[..k]
      {
        var members := ToSeq(Cell(keys[k]));
        assert keys[..k + 1] == keys[..k] + [keys[k]];
        assert keys[k] !in keys[..k];
        forall d | d in members
          ensures d !in out && d in drivers && CellOf(drivers[d].position) == keys[k]
        {
        }
        DistinctConcat(out, members);
        out := out + members;
      }
    }

    /** Hydrates the ids, dropping whoever's heartbeat went stale. */
    function Load(ids: seq<DriverId>, now: int): seq<Driver>
      reads this
    {
      if ids == [] then []
      else
        (if ids[0] in drivers && !drivers[ids[0]].IsStale(now, HEARTBEAT_TTL_MS) then [drivers[ids[0]]] else [])
        + Load(ids[1..], now)
    }

    lemma {:induction false} LoadKeepsFresh(ids: seq<DriverId>, now: int)
      requires Valid() && Distinct(ids)
      ensures Distinct(Load(ids, now))
      ensures forall x | x in Load(ids, now) :: x.id in ids && x.id in drivers && x == drivers[x.id] && !x.IsStale(now, HEARTBEAT_TTL_MS)
      ensures forall d | d in ids && d in drivers && !drivers[d].IsStale(now, HEARTBEAT_TTL_MS) :: drivers[d] in Load(ids, now)
    {
      if ids != [] {
        LoadKeepsFresh(ids[1..], now);
        assert ids == [ids[0]] + ids[1..];
        assert ids[0] !in ids[1..];
      }
    }

    /** What the index finds through its cells is what the scan over all drivers finds. */
    lemma CellsFindEligible(pickup: LatLng, now: int, ring: int, keys: seq<string>, ids: seq<DriverId>)
      requires Valid() && Distinct(ids)
      requires forall i, j :: CellKey(i, j) in keys <==> Near(i, CellIndex(pickup.lat), ring) && Near(j, CellIndex(pickup.lng), ring)
      requires forall d :: d in ids <==> d in drivers && CellOf(drivers[d].position) in keys
      ensures var found, chosen := Load(ids, now), Eligible(drivers, pickup, now, ring);
              && Distinct(found)
              && (forall x | x in found :: x.id in chosen && x == drivers[x.id])
              && (forall d | d in chosen :: drivers[d] in found)
              && (found == [] <==> chosen == {})
    {
      LoadKeepsFresh(ids, now);
      var found, chosen := Load(ids, now), Eligible(drivers, pickup, now, ring);
      forall d | d in drivers
        ensures d in ids <==> InRing(pickup, drivers[d].position, ring)
      {
      }
      if found != [] {
        assert found[0].id in chosen;
      }
    }

    /** Tries one ring after the other, and ranks the first that has a fresh driver. */
    method Nearby(pickup: LatLng, now: int, maxRing: int) returns (list: seq<(Driver, real)>)
      requires Valid()
      ensures NearbyAnswer(drivers, pickup, now, maxRing, distance, list)
      ensures list == [] <==> maxRing < 1 || AllSilent(drivers, pickup, now, maxRing)
      ensures list != [] ==> exists r | 1 <= r <= maxRing :: FreshOfRing(drivers, pickup, now, distance, list, r)
    {
      var ring := 1;
      while ring <= maxRing
        invariant 1 <= ring
        invariant forall q | 1 <= q < ring :: Eligible(drivers, pickup, now, q) == {}
      {
        var keys := Neighbours(pickup, ring);
        NeighbourKeysList(pickup, ring);
        var ids := Members(keys);
        CellsFindEligible(pickup, now, ring, keys, ids);
        if ids != [] {
          var found := Load(ids, now);
          if found != [] {
            var pairs := RankAll(found, pickup, distance);
            list := SortBy(pairs, Metres);
            SortedPairsRank(drivers, Eligible(drivers, pickup, now, ring), pickup, distance, found);
            assert AnswersFrom(drivers, pickup, now, maxRing, distance, ring, list);
            AnswerIsFresh(drivers, pickup, now, maxRing, distance, list);
            return;
          }
        }
        ring := ring + 1;
      }
      list := [];
      AnswerIsFresh(drivers, pickup, now, maxRing, distance, list);
    }
  }

  function RankAll(found: seq<Driver>, pickup: LatLng, distance: Distance): seq<(Driver, real)> {
    seq(|found|, k requires 0 <= k < |found| => Ranked(found[k], pickup, distance))
  }

  lemma SortedPairsRank(drivers: map<DriverId, Driver>, chosen: set<DriverId>, pickup: LatLng, distance: Distance,
                        found: seq<Driver>)
    requires chosen <= drivers.Keys && Distinct(found)
    requires forall x | x in found :: x.id in chosen && x == drivers[x.id]
    requires forall d | d in chosen :: drivers[d] in found
    ensures Ranking(drivers, chosen, pickup, distance, SortBy(RankAll(found, pickup, distance), Metres))
  {
    var pairs := RankAll(found, pickup, distance);
    forall i, j | 0 <= i < j < |pairs|
      ensures pairs[i] != pairs[j]
    {
      assert pairs[i].0 == found[i] && pairs[j].0 == found[j];
    }
    forall d | d in chosen
      ensures Ranked(drivers[d], pickup, distance) in pairs
    {
      var k :| 0 <= k < |found| && found[k] == drivers[d];
      assert pairs[k] == Ranked(drivers[d], pickup, distance);
    }
    SortBySorts(pairs, Metres);
    SortKeepsMembers(pairs, Metres);
    SortKeepsDistinct(pairs, Metres);
  }

  // ---- who is named, in milliseconds and cells ---------------------------------------------

  /** The list names a driver of the index by this id. */
  predicate Names(list: seq<(Driver, real)>, d: DriverId) {
    exists i | 0 <= i < |list| :: list[i].0.id == d
  }

  /**
   * The list is the drivers within r cells who were heard of in the last 30 seconds, each once and
   * nearest first; whoever is within r cells and left out, or nearer than ring r, was not.
   */
  ghost predicate FreshOfRing(drivers: map<DriverId, Driver>, pickup: LatLng, now: int, distance: Distance,
                              list: seq<(Driver, real)>, r: int)
  {
    && (forall i | 0 <= i < |list| ::
          var x := list[i].0;
          && x.id in drivers && drivers[x.id] == x && InRing(pickup, x.position, r)
          && now - x.lastHeartbeatMs <= 30_000 && list[i].1 == distance(pickup, x.position))
    && (forall i, j | 0 <= i < j < |list| :: list[i].1 <= list[j].1 && list[i].0.id != list[j].0.id)
    && (forall d | d in drivers && InRing(pickup, drivers[d].position, r) && !Names(list, d) ::
          now - drivers[d].lastHeartbeatMs > 30_000)
    && (forall d | d in drivers && r > 1 && InRing(pickup, drivers[d].position, r - 1) ::
          now - drivers[d].lastHeartbeatMs > 30_000)
  }

  /** Every driver within that many cells has been silent for more than 30 seconds. */
  ghost predicate AllSilent(drivers: map<DriverId, Driver>, pickup: LatLng, now: int, r: int) {
    forall d | d in drivers && InRing(pickup, drivers[d].position, r) :: now - drivers[d].lastHeartbeatMs > 30_000
  }

  lemma EmptyRingIsSilent(drivers: map<DriverId, Driver>, pickup: LatLng, now: int, r: int)
    ensures Eligible(drivers, pickup, now, r) == {} <==> AllSilent(drivers, pickup, now, r)
  {
    forall d | d in drivers && InRing(pickup, drivers[d].position, r)
      ensures d in Eligible(drivers, pickup, now, r) <==> now - drivers[d].lastHeartbeatMs <= 30_000
    {
    }
  }

  lemma RankedIsFreshOfRing(drivers: map<DriverId, Driver>, pickup: LatLng, now: int, maxRing: int, distance: Distance,
                            r: int, list: seq<(Driver, real)>)
    requires AnswersFrom(drivers, pickup, now, maxRing, distance, r, list)
    requires forall d | d in drivers :: drivers[d].id == d
    ensures list != [] && FreshOfRing(drivers, pickup, now, distance, list, r)
  {
    var chosen := Eligible(drivers, pickup, now, r);
    forall i | 0 <= i < |list|
      ensures list[i].0.id in chosen && list[i] == Ranked(drivers[list[i].0.id], pickup, distance)
    {
      assert list[i] in list;
    }
    forall i, j | 0 <= i < j < |list|
      ensures list[i].1 <= list[j].1 && list[i].0.id != list[j].0.id
    {
      assert Metres(list[i]) <= Metres(list[j]) && list[i] != list[j];
    }
    forall d | d in chosen
      ensures Names(list, d)
    {
      assert Ranked(drivers[d], pickup, distance) in list;
    }
    var c :| c in chosen;
    assert Ranked(drivers[c], pickup, distance) in list;
    if r > 1 {
      EmptyRingIsSilent(drivers, pickup, now, r - 1);
    }
  }

  /** What an answer of `nearby` says about the drivers' last heartbeats. */
  lemma AnswerIsFresh(drivers: map<DriverId, Driver>, pickup: LatLng, now: int, maxRing: int, distance: Distance,
                      list: seq<(Driver, real)>)
    requires NearbyAnswer(drivers, pickup, now, maxRing, distance, list)
    requires forall d | d in drivers :: drivers[d].id == d
    ensures list == [] <==> maxRing < 1 || AllSilent(drivers, pickup, now, maxRing)
    ensures list != [] ==> exists r | 1 <= r <= maxRing :: FreshOfRing(drivers, pickup, now, distance, list, r)
  {
    forall r | 1 <= r <= maxRing
      ensures AllSilent(drivers, pickup, now, maxRing) ==> Eligible(drivers, pickup, now, r) == {}
    {
      EmptyRingIsSilent(drivers, pickup, now, r);
    }
    EmptyRingIsSilent(drivers, pickup, now, maxRing);
    if !forall r | 1 <= r <= maxRing :: Eligible(drivers, pickup, now, r) == {} {
      var r :| AnswersFrom(drivers, pickup, now, maxRing, distance, r, list);
      RankedIsFreshOfRing(drivers, pickup, now, maxRing, distance, r, list);
    }
  }

  // ---- what a ring means on the ground -----------------------------------------------------

  /** Cells at most r apart are less than (r + 1) cells of degrees apart; cells further apart, more than r. */
  lemma RingBand(a: real, b: real, r: int)
    requires r >= 0
    ensures Near(CellIndex(a), CellIndex(b), r) ==>
              -((r + 1) as real * CELL_DEG) < a - b < (r + 1) as real * CELL_DEG
    ensures !Near(CellIndex(a), CellIndex(b), r) ==>
              a - b > r as real * CELL_DEG || b - a > r as real * CELL_DEG
  {
    var x, y := a / CELL_DEG, b / CELL_DEG;
    assert a == x * CELL_DEG && b == y * CELL_DEG;
    assert x.Floor as real <= x < x.Floor as real + 1.0 && y.Floor as real <= y < y.Floor as real + 1.0;
  }

  /** a and b are more than r cells of degrees apart in latitude or in longitude. */
  predicate FurtherThan(p: LatLng, q: LatLng, deg: real) {
    q.lat - p.lat > deg || p.lat - q.lat > deg || q.lng - p.lng > deg || p.lng - q.lng > deg
  }

  predicate CloserThan(p: LatLng, q: LatLng, deg: real) {
    -deg < q.lat - p.lat < deg && -deg < q.lng - p.lng < deg
  }

  /** When ring r answers: who is left out is beyond r cells, who is named is within r + 1. */
  lemma AnswerBand(drivers: map<DriverId, Driver>, pickup: LatLng, now: int, r: int, d: DriverId)
    requires r >= 0 && d in drivers && !drivers[d].IsStale(now, HEARTBEAT_TTL_MS)
    ensures d in Eligible(drivers, pickup, now, r) ==>
              CloserThan(pickup, drivers[d].position, (r + 1) as real * CELL_DEG)
    ensures d !in Eligible(drivers, pickup, now, r) ==>
              FurtherThan(pickup, drivers[d].position, r as real * CELL_DEG)
  {
    RingBand(drivers[d].position.lat, pickup.lat, r);
    RingBand(drivers[d].position.lng, pickup.lng, r);
  }

  // ---- is the nearest driver named the nearest of all? -------------------------------------

  /** The edges of the ring's square along one axis: the upper one is outside, the lower one inside. */
  function Upper(x: real, r: int): real {
    (CellIndex(x) + r + 1) as real * CELL_DEG
  }

  function Lower(x: real, r: int): real {
    (CellIndex(x) - r) as real * CELL_DEG
  }

  lemma NearIffBetweenEdges(a: real, b: real, r: int)
    requires r >= 0
    ensures Near(CellIndex(a), CellIndex(b), r) <==> Lower(b, r) <= a < Upper(b, r)
    ensures Lower(b, r) <= b < Upper(b, r)
    ensures b - Lower(b, r) <= (r + 1) as real * CELL_DEG && Upper(b, r) - b <= (r + 1) as real * CELL_DEG
  {
    var x, y := a / CELL_DEG, b / CELL_DEG;
    assert a == x * CELL_DEG && b == y * CELL_DEG;
    assert x.Floor as real <= x < x.Floor as real + 1.0 && y.Floor as real <= y < y.Floor as real + 1.0;
  }

  /** Strictly growing away from a point on both sides, and without a jump on the lower side. */
  ghost predicate GrowsAway(f: real -> real, from: real, w: real) {
    && (forall x, y | from <= x < y <= from + w :: f(x) < f(y))
    && (forall x, y | from - w <= y < x <= from :: f(x) < f(y))
    && (forall x, v | from - w < x <= from :: NoJumpBelow(f, from, w, x, v))
  }

  /** What is more than the value at x is no less than some value below x. */
  ghost predicate NoJumpBelow(f: real -> real, from: real, w: real, x: real, v: real) {
    f(x) < v ==> exists y | from - w <= y < x :: f(y) <= v
  }

  predicate Within(p: LatLng, q: LatLng, w: real) {
    -w <= q.lat - p.lat <= w && -w <= q.lng - p.lng <= w
  }

  /** How far it is from the pickup to each parallel and to each meridian. */
  datatype Reach = Reach(toParallel: real -> real, toMeridian: real -> real)

  /**
   * Within w degrees of the pickup `reach` is the least distance to a point of each parallel and of each
   * meridian, and grows the further the line is away, as the great-circle distance does clear of the poles.
   */
  ghost predicate Measures(distance: Distance, p: LatLng, w: real, reach: Reach) {
    && GrowsAway(reach.toParallel, p.lat, w)
    && GrowsAway(reach.toMeridian, p.lng, w)
    && (forall q | Within(p, q, w) :: reach.toParallel(q.lat) <= distance(p, q) && reach.toMeridian(q.lng) <= distance(p, q))
    && (forall x | p.lat - w <= x <= p.lat + w :: ParallelReached(distance, p, w, reach, x))
    && (forall x | p.lng - w <= x <= p.lng + w :: MeridianReached(distance, p, w, reach, x))
  }

  ghost predicate ParallelReached(distance: Distance, p: LatLng, w: real, reach: Reach, x: real) {
    exists q | Within(p, q, w) :: q.lat == x && distance(p, q) == reach.toParallel(x)
  }

  ghost predicate MeridianReached(distance: Distance, p: LatLng, w: real, reach: Reach, x: real) {
    exists q | Within(p, q, w) :: q.lng == x && distance(p, q) == reach.toMeridian(x)
  }

  /** A length that does not reach past the edges of an axis: the lower edge may be touched, the upper may not. */
  predicate ShortOfEdges(f: real -> real, x: real, r: int, m: real) {
    m < f(Upper(x, r)) && m <= f(Lower(x, r))
  }

  /** Some point of the axis outside the edges is no further than m exactly when m is not short of them. */
  lemma EdgesDecideAxis(f: real -> real, from: real, w: real, r: int, m: real) returns (x: real)
    requires r >= 0 && w > (r + 1) as real * CELL_DEG && GrowsAway(f, from, w)
    ensures ShortOfEdges(f, from, r, m) ==>
              forall y | from - w <= y <= from + w && !(Lower(from, r) <= y < Upper(from, r)) :: m < f(y)
    ensures !ShortOfEdges(f, from, r, m) ==>
              from - w <= x <= from + w && !(Lower(from, r) <= x < Upper(from, r)) && f(x) <= m
  {
    NearIffBetweenEdges(from, from, r);
    var up, low := Upper(from, r), Lower(from, r);
    x := up;
    if m < f(up) && f(low) < m {
      assert NoJumpBelow(f, from, w, low, m);
      x :| from - w <= x < low && f(x) <= m;
    }
  }

  /** The length does not reach out of the square of ring r. */
  predicate ShortOfSquare(reach: Reach, p: LatLng, r: int, m: real) {
    ShortOfEdges(reach.toParallel, p.lat, r, m) && ShortOfEdges(reach.toMeridian, p.lng, r, m)
  }

  lemma EdgesDecide(distance: Distance, p: LatLng, w: real, reach: Reach, r: int, m: real)
    requires r >= 0 && w > (r + 1) as real * CELL_DEG && Measures(distance, p, w, reach)
    ensures ShortOfSquare(reach, p, r, m) <==> forall b | Within(p, b, w) && !InRing(p, b, r) :: m < distance(p, b)
  {
    var x := EdgesDecideAxis(reach.toParallel, p.lat, w, r, m);
    var y := EdgesDecideAxis(reach.toMeridian, p.lng, w, r, m);
    forall b | Within(p, b, w) && !InRing(p, b, r) && ShortOfSquare(reach, p, r, m)
      ensures m < distance(p, b)
    {
      NearIffBetweenEdges(b.lat, p.lat, r);
      NearIffBetweenEdges(b.lng, p.lng, r);
    }
    if !ShortOfEdges(reach.toParallel, p.lat, r, m) {
      assert ParallelReached(distance, p, w, reach, x);
      NearIffBetweenEdges(x, p.lat, r);
    } else if !ShortOfEdges(reach.toMeridian, p.lng, r, m) {
      assert MeridianReached(distance, p, w, reach, y);
      NearIffBetweenEdges(y, p.lng, r);
    }
  }

  /**
   * When ring r answers, the driver named first is strictly nearer than every place outside the ring
   * exactly when its distance does not reach out of the ring's square; and then it is the nearest of all
   * fresh drivers, named or not.
   */
  lemma FirstNamedIsNearestIff(drivers: map<DriverId, Driver>, pickup: LatLng, now: int, maxRing: int, distance: Distance,
                               r: int, list: seq<(Driver, real)>, w: real, reach: Reach)
    requires AnswersFrom(drivers, pickup, now, maxRing, distance, r, list)
    requires w > (r + 1) as real * CELL_DEG && Measures(distance, pickup, w, reach)
    ensures list != [] && list[0].1 == distance(pickup, list[0].0.position)
    ensures ShortOfSquare(reach, pickup, r, list[0].1) <==>
              forall b | Within(pickup, b, w) && !InRing(pickup, b, r) :: list[0].1 < distance(pickup, b)
    ensures ShortOfSquare(reach, pickup, r, list[0].1) ==>
              forall d | d in drivers && !drivers[d].IsStale(now, HEARTBEAT_TTL_MS) && Within(pickup, drivers[d].position, w) ::
                list[0].1 <= distance(pickup, drivers[d].position)
  {
    var chosen := Eligible(drivers, pickup, now, r);
    var c :| c in chosen;
    assert Ranked(drivers[c], pickup, distance) in list;
    assert list[0] in list;
    EdgesDecide(distance, pickup, w, reach, r, list[0].1);
    forall d | d in chosen
      ensures list[0].1 <= distance(pickup, drivers[d].position)
    {
      var k :| 0 <= k < |list| && list[k] == Ranked(drivers[d], pickup, distance);
      assert Metres(list[0]) <= Metres(list[k]);
    }
  }

  function Weigh(c: real, x: real): real {
    c * (x * x)
  }

  /** Squared distance on a plane on which a degree of longitude is sqrt(c) degrees of latitude long. */
  function Scaled(c: real): Distance {
    (p: LatLng, q: LatLng) => Weigh(1.0, q.lat - p.lat) + Weigh(c, q.lng - p.lng)
  }

  function ScaledReach(c: real, p: LatLng): Reach {
    Reach(x => Weigh(1.0, x - p.lat), x => Weigh(c, x - p.lng))
  }

  lemma PositiveProduct(u: real, v: real)
    requires u > 0.0 && v > 0.0
    ensures u * v > 0.0
  {
  }

  lemma DifferenceOfSquares(m: real, n: real)
    ensures (m - n) * (m + n) == m * m - n * n
  {
  }

  lemma WeighGrows(c: real, s: real, t: real)
    requires c > 0.0 && 0.0 <= s < t
    ensures Weigh(c, s) < Weigh(c, t)
  {
    PositiveProduct(t - s, t + s);
    DifferenceOfSquares(t, s);
    var d := t * t - s * s;
    assert d > 0.0;
    PositiveProduct(c, d);
    assert c * (t * t) == c * (s * s + d) == c * (s * s) + c * d;
  }

  lemma WeighIsEven(c: real, x: real)
    ensures Weigh(c, -x) == Weigh(c, x)
  {
    assert -x * -x == x * x;
  }

  lemma WeighIsNat(c: real, x: real)
    requires c > 0.0
    ensures Weigh(c, x) >= 0.0 && Weigh(c, 0.0) == 0.0
  {
    if x > 0.0 {
      WeighGrows(c, 0.0, x);
    } else if x < 0.0 {
      WeighGrows(c, 0.0, -x);
      WeighIsEven(c, x);
    }
  }

  lemma WeighIsScaled(c: real, x: real)
    ensures Weigh(c, x) == c * Weigh(1.0, x)
  {
  }

  lemma OrderedProducts(c: real, a: real, b: real)
    requires c >= 0.0 && a <= b
    ensures c * a <= c * b
  {
  }

  lemma SumSquared(t: real, e: real)
    ensures Weigh(1.0, t + e) == Weigh(1.0, t) + e * (t + t + e)
  {
  }

  /** e leaves room: what the larger square adds is at most c * e * 2w. */
  lemma LargerSquareIn(c: real, t: real, e: real, w: real)
    requires c > 0.0 && 0.0 <= t && 0.0 < e && t + e <= w
    ensures Weigh(c, t + e) <= Weigh(c, t) + e * (c * (2.0 * w))
  {
    SumSquared(t, e);
    WeighIsScaled(c, t);
    WeighIsScaled(c, t + e);
    OrderedProducts(e, t + t + e, 2.0 * w);
    OrderedProducts(c, Weigh(1.0, t + e), Weigh(1.0, t) + e * (2.0 * w));
    assert c * (e * (2.0 * w)) == e * (c * (2.0 * w));
    assert c * (Weigh(1.0, t) + e * (2.0 * w)) == c * Weigh(1.0, t) + c * (e * (2.0 * w));
  }

  lemma QuotientFits(e: real, gap: real, k: real)
    requires k > 0.0 && e <= gap / k
    ensures e * k <= gap
  {
    OrderedProducts(k, e, gap / k);
    assert k * (gap / k) == gap;
  }

  lemma PositiveQuotient(gap: real, k: real)
    requires k > 0.0 && gap > 0.0
    ensures gap / k > 0.0
  {
  }

  /** Between a weight and a larger number there is a larger weight. */
  lemma WeightBetween(c: real, t: real, w: real, v: real) returns (u: real)
    requires c > 0.0 && 0.0 <= t < w && Weigh(c, t) < v
    ensures t < u <= w && Weigh(c, u) <= v
  {
    var k, gap := c * (2.0 * w), v - Weigh(c, t);
    PositiveProduct(c, 2.0 * w);
    PositiveQuotient(gap, k);
    var e := if gap / k < w - t then gap / k else w - t;
    LargerSquareIn(c, t, e, w);
    QuotientFits(e, gap, k);
    u := t + e;
  }

  lemma WeightsBelow(f: real -> real, c: real, from: real, w: real, x: real, v: real)
    requires c > 0.0 && forall x :: f(x) == Weigh(c, x - from)
    requires from - w < x <= from
    ensures NoJumpBelow(f, from, w, x, v)
  {
    if f(x) < v {
      WeighIsEven(c, from - x);
      assert -(from - x) == x - from;
      var u := WeightBetween(c, from - x, w, v);
      WeighIsEven(c, u);
      assert from - u - from == -u;
      assert from - w <= from - u < x && f(from - u) <= v;
    }
  }

  lemma WeightsGrowAway(f: real -> real, c: real, from: real, w: real)
    requires c > 0.0 && w > 0.0 && forall x :: f(x) == Weigh(c, x - from)
    ensures GrowsAway(f, from, w)
  {
    forall x, y | from <= x < y <= from + w
      ensures f(x) < f(y)
    {
      WeighGrows(c, x - from, y - from);
    }
    forall x, y | from - w <= y < x <= from
      ensures f(x) < f(y)
    {
      WeighGrows(c, from - x, from - y);
      WeighIsEven(c, from - x);
      WeighIsEven(c, from - y);
      assert -(from - x) == x - from && -(from - y) == y - from;
    }
    forall x, v | from - w < x <= from
      ensures NoJumpBelow(f, from, w, x, v)
    {
      WeightsBelow(f, c, from, w, x, v);
    }
  }

  /** The shortest ways to a parallel and to a meridian are along the pickup's own meridian and parallel. */
  lemma ScaledReachIsLeast(c: real, p: LatLng, w: real)
    requires c > 0.0 && w > 0.0
    ensures var distance, reach := Scaled(c), ScaledReach(c, p);
            && (forall q: LatLng :: reach.toParallel(q.lat) <= distance(p, q) && reach.toMeridian(q.lng) <= distance(p, q))
            && (forall x :: distance(p, LatLng(x, p.lng)) == reach.toParallel(x))
            && (forall x :: distance(p, LatLng(p.lat, x)) == reach.toMeridian(x))
  {
    var distance, reach := Scaled(c), ScaledReach(c, p);
    forall q: LatLng
      ensures reach.toParallel(q.lat) <= distance(p, q) && reach.toMeridian(q.lng) <= distance(p, q)
    {
      WeighIsNat(1.0, q.lat - p.lat);
      WeighIsNat(c, q.lng - p.lng);
    }
    WeighIsNat(1.0, 0.0);
    WeighIsNat(c, 0.0);
  }

  /** Every such plane has its reach. */
  lemma ScaledMeasures(c: real, p: LatLng, w: real)
    requires c > 0.0 && w > 0.0
    ensures Measures(Scaled(c), p, w, ScaledReach(c, p))
  {
    var distance, reach := Scaled(c), ScaledReach(c, p);
    WeightsGrowAway(reach.toParallel, 1.0, p.lat, w);
    WeightsGrowAway(reach.toMeridian, c, p.lng, w);
    ScaledReachIsLeast(c, p, w);
    forall x | p.lat - w <= x <= p.lat + w
      ensures ParallelReached(distance, p, w, reach, x)
    {
      assert Within(p, LatLng(x, p.lng), w);
    }
    forall x | p.lng - w <= x <= p.lng + w
      ensures MeridianReached(distance, p, w, reach, x)
    {
      assert Within(p, LatLng(p.lat, x), w);
    }
  }

  /** A window around the pickup that holds the place and more than the ring. */
  function Window(p: LatLng, b: LatLng, r: nat): (w: real)
    ensures w > (r + 1) as real * CELL_DEG && Within(p, b, w)
  {
    var lat := if b.lat >= p.lat then b.lat - p.lat else p.lat - b.lat;
    var lng := if b.lng >= p.lng then b.lng - p.lng else p.lng - b.lng;
    (r + 1) as real * CELL_DEG + 1.0 + lat + lng
  }

  /** On such a plane the condition decides it for every place there is. */
  lemma FirstNamedOnPlaneIff(drivers: map<DriverId, Driver>, pickup: LatLng, now: int, maxRing: int, c: real,
                             r: nat, list: seq<(Driver, real)>)
    requires c > 0.0 && AnswersFrom(drivers, pickup, now, maxRing, Scaled(c), r, list)
    ensures list != []
    ensures ShortOfSquare(ScaledReach(c, pickup), pickup, r, list[0].1) <==>
              forall b | !InRing(pickup, b, r) :: list[0].1 < Scaled(c)(pickup, b)
  {
    var distance, reach, w := Scaled(c), ScaledReach(c, pickup), Window(pickup, pickup, r);
    ScaledMeasures(c, pickup, w);
    FirstNamedIsNearestIff(drivers, pickup, now, maxRing, distance, r, list, w, reach);
    forall b | !InRing(pickup, b, r) && ShortOfSquare(reach, pickup, r, list[0].1)
      ensures list[0].1 < distance(pickup, b)
    {
      ScaledMeasures(c, pickup, Window(pickup, b, r));
      EdgesDecide(distance, pickup, Window(pickup, b, r), reach, r, list[0].1);
    }
  }

  const A := DriverId("a")
  const B := DriverId("b")

  /** Two fresh drivers, one in ring 1 and one outside. */
  function TwoDrivers(a: LatLng, b: LatLng): map<DriverId, Driver> {
    map[A := Driver(A, a, 0), B := Driver(B, b, 0)]
  }

  /** `nearby` names the one in ring 1 alone, wherever the other is. */
  lemma RingOneAnswers(pickup: LatLng, a: LatLng, b: LatLng, distance: Distance)
    requires InRing(pickup, a, 1) && !InRing(pickup, b, 1)
    ensures NearbyAnswer(TwoDrivers(a, b), pickup, 0, 3, distance, [(Driver(A, a, 0), distance(pickup, a))])
  {
    var drivers := TwoDrivers(a, b);
    assert A != B && drivers[A] == Driver(A, a, 0) && drivers[B] == Driver(B, b, 0);
    assert Eligible(drivers, pickup, 0, 1) == {A};
    var list := [Ranked(drivers[A], pickup, distance)];
    assert Ranking(drivers, {A}, pickup, distance, list);
    assert AnswersFrom(drivers, pickup, 0, 3, distance, 1, list);
  }

  /** A fresh driver of the index is nearer than the first one named, and is not named. */
  ghost predicate NearerOneLeftOut(drivers: map<DriverId, Driver>, pickup: LatLng, now: int, distance: Distance,
                                   list: seq<(Driver, real)>, d: DriverId)
  {
    && d in drivers && !drivers[d].IsStale(now, HEARTBEAT_TTL_MS)
    && list != [] && (forall x | x in list :: x.0.id != d)
    && distance(pickup, drivers[d].position) < list[0].1
  }

  /** Degrees of latitude between two points. */
  function LatitudeApart(p: LatLng, q: LatLng): real {
    if q.lat >= p.lat then q.lat - p.lat else p.lat - q.lat
  }

  /** Along the pickup's own meridian, within a degree, more latitude is more distance. */
  ghost predicate GrowsOnMeridian(distance: Distance, p: LatLng) {
    forall q: LatLng, q': LatLng | q.lng == p.lng && q'.lng == p.lng && LatitudeApart(p, q) < LatitudeApart(p, q') <= 1.0 ::
      distance(p, q) < distance(p, q')
  }

  lemma ScaledGrowsOnMeridian(c: real, p: LatLng)
    ensures GrowsOnMeridian(Scaled(c), p)
  {
    forall q: LatLng, q': LatLng | q.lng == p.lng && q'.lng == p.lng && LatitudeApart(p, q) < LatitudeApart(p, q') <= 1.0
      ensures Scaled(c)(p, q) < Scaled(c)(p, q')
    {
      WeighGrows(1.0, LatitudeApart(p, q), LatitudeApart(p, q'));
      WeighIsEven(1.0, q.lat - p.lat);
      WeighIsEven(1.0, q'.lat - p.lat);
      assert q.lng - p.lng == 0.0 && q'.lng - p.lng == 0.0;
      assert -(q.lat - p.lat) == p.lat - q.lat && -(q'.lat - p.lat) == p.lat - q'.lat;
    }
  }

  const PICKUP := LatLng(0.0099, 0.0099)

  /**
   * A wider ring does not hold only drivers that are further away, whatever the distance: `nearby` names
   * a driver two cells to the south and leaves out one just beyond ring 1, half as far to the north.
   */
  lemma WiderRingCanBeNearer(distance: Distance)
    requires GrowsOnMeridian(distance, PICKUP)
    ensures exists drivers, list: seq<(Driver, real)>, d ::
              NearbyAnswer(drivers, PICKUP, 0, 3, distance, list) && NearerOneLeftOut(drivers, PICKUP, 0, distance, list, d)
  {
    var a, b := LatLng(-0.0099, 0.0099), LatLng(0.0201, 0.0099);
    assert CellIndex(0.0099) == 0 && CellIndex(-0.0099) == -1 && CellIndex(0.0201) == 2;
    RingOneAnswers(PICKUP, a, b, distance);
    assert LatitudeApart(PICKUP, b) < LatitudeApart(PICKUP, a) <= 1.0;
    assert A != B && TwoDrivers(a, b)[B].position == b;
    assert NearerOneLeftOut(TwoDrivers(a, b), PICKUP, 0, distance, [(Driver(A, a, 0), distance(PICKUP, a))], B);
  }

  const NORTHERN := LatLng(60.005, 10.0195)

  /**
   * Being within r cells of degrees is not enough at 60 degrees north, where a degree of longitude is
   * half as long: the driver named is less than one cell away, the one left out is nearer.
   */
  lemma DegreesAreNotEnough()
    ensures exists drivers, list: seq<(Driver, real)>, d ::
              && NearbyAnswer(drivers, NORTHERN, 0, 3, Scaled(0.25), list)
              && NearerOneLeftOut(drivers, NORTHERN, 0, Scaled(0.25), list, d)
              && CloserThan(NORTHERN, list[0].0.position, 1.0 * CELL_DEG)
  {
    var a, b := LatLng(60.0145, 10.0195), LatLng(60.005, 10.0305);
    assert CellIndex(60.005) == 6000 && CellIndex(60.0145) == 6001;
    assert CellIndex(10.0195) == 1001 && CellIndex(10.0305) == 1003;
    RingOneAnswers(NORTHERN, a, b, Scaled(0.25));
    assert A != B && TwoDrivers(a, b)[B].position == b;
    assert Scaled(0.25)(NORTHERN, a) == 0.00009025 && Scaled(0.25)(NORTHERN, b) == 0.00003025;
    var list := [(Driver(A, a, 0), Scaled(0.25)(NORTHERN, a))];
    assert NearerOneLeftOut(TwoDrivers(a, b), NORTHERN, 0, Scaled(0.25), list, B);
  }

  method ToSeq<T(==)>(s: set<T>) returns (out: seq<T>)
    ensures Distinct(out) && forall x :: x in out <==> x in s
  {
    out := [];
    var todo := s;
    while todo != {}
      invariant todo <= s && Distinct(out) && forall x :: x in out <==> x in s - todo
      decreases todo
    {
      var x :| x in todo;
      todo := todo - {x};
      assert x !in out;
      out := out + [x];
    }
  }
}
