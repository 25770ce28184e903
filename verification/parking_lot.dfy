/**
 * The parking lot: its floors, the running revenue and the fine scheme in
 * force, with the lot-wide spot queries built on the floors' spot lists.
 */
module Lots {
  import opened Wrappers
  import opened SpotKinds
  import opened Vehicles
  import opened FineSchemes
  import opened Spots
  import opened Floors
  import opened Layout

  /** The spots of the floors, floor after floor, each floor in row order. */
  function SpotsOf(fs: seq<Floor>): seq<ParkingSpot>
    reads fs
  {
    if fs == [] then [] else SpotsOf(fs[..|fs| - 1]) + fs[|fs| - 1].Spots()
  }

  /** The switch of `getAvailableSpotsByVehicle`: the categories a requested vehicle type may take. */
  function SwitchAllows(t: VehicleType, c: ParkingSpotType): bool {
    match t
    case MOTORCYCLE => c == COMPACT
    case CAR => c == COMPACT || c == REGULAR
    case SUV => c == REGULAR
    case HANDICAPPED => true
  }

  /** The lot's switch agrees with `canParkIn` of the class the factory builds for that type. */
  lemma SwitchMatchesVehicleClass(t: VehicleType, c: ParkingSpotType)
    ensures SwitchAllows(t, c) <==> CanParkIn(ClassFor(t), c)
  {
  }

  /** The available spots a vehicle type may take, in list order. */
  function AvailableFor(spots: seq<ParkingSpot>, t: VehicleType): (r: seq<ParkingSpot>)
    reads spots
    ensures |r| <= |spots|
  {
    if spots == [] then []
    else
      var last := spots[|spots| - 1];
      AvailableFor(spots[..|spots| - 1], t) + (if last.status == AVAILABLE && SwitchAllows(t, last.spotType) then [last] else [])
  }

  /** A spot is offered exactly when it is in the list, AVAILABLE, and of a category the type may take. */
  lemma {:induction false} AvailableForMembers(spots: seq<ParkingSpot>, t: VehicleType, x: ParkingSpot)
    ensures x in AvailableFor(spots, t) <==> x in spots && x.status == AVAILABLE && SwitchAllows(t, x.spotType)
  {
    if spots != [] {
      var init := spots[..|spots| - 1];
      AvailableForMembers(init, t, x);
      assert spots == init + [spots[|spots| - 1]];
    }
  }

  /** Occupied spots as a percentage of all spots, and 0 for a lot without spots. */
  function OccupancyRate(occupied: nat, total: nat): (rate: real)
    requires occupied <= total
    ensures 0.0 <= rate <= 100.0
    ensures rate == 0.0 <==> occupied == 0
    ensures rate == 100.0 <==> total > 0 && occupied == total
  {
    if total > 0 then occupied as real * 100.0 / total as real else 0.0
  }

  class ParkingLot {
    var floors: seq<Floor>
    var totalRevenue: real
    /** None until a scheme is set or first asked for. */
    var fineScheme: Option<FineScheme>

    constructor()
      ensures floors == [] && totalRevenue == 0.0 && fineScheme == None
    {
      floors := [];
      totalRevenue := 0.0;
      fineScheme := None;
    }

    /** Every spot of the lot, floor after floor. */
    function AllSpots(): seq<ParkingSpot>
      reads this`floors, floors
    {
      SpotsOf(floors)
    }

    /**
     * Appends five floors numbered 1 to 5, each of three rows of ten new
     * AVAILABLE spots laid out as `Layout` describes; the spots already in
     * the lot are left where they were.
     */
    method InitializeDefault()
      modifies this`floors
      ensures |floors| == |old(floors)| + FLOORS && floors[..|old(floors)|] == old(floors)
      ensures |AllSpots()| == |old(AllSpots())| + DEFAULT_SPOTS
      ensures AllSpots()[..|old(AllSpots())|] == old(AllSpots())
      ensures IsDefaultLayout(AllSpots()[|old(AllSpots())|..])
      ensures AllFree(AllSpots()[|old(AllSpots())|..])
      ensures DefaultFloorsFrom(floors, |old(floors)|)
    {
      ghost var base := AllSpots();
      ghost var added := AddDefaultFloors();
      assert AllSpots()[|base|..] == added;
      DefaultLayoutFromInfos(added, FLOORS);
      assert |AllSpots()| == |base| + DEFAULT_SPOTS;
    }

    /** The floor loop of `initializeDefault`: floors 1 to 5 are built and added in turn. */
    method AddDefaultFloors() returns (ghost added: seq<ParkingSpot>)
      modifies this`floors
      ensures |floors| == |old(floors)| + FLOORS && floors[..|old(floors)|] == old(floors)
      ensures AllSpots() == old(AllSpots()) + added
      ensures Infos(added) == LayoutInfos(FLOORS) && AllFree(added)
      ensures DefaultFloorsFrom(floors, |old(floors)|)
    {
      ghost var floors0 := floors;
      ghost var base := AllSpots();
      added := [];
      for f := 1 to FLOORS + 1
        invariant |floors| == |floors0| + (f - 1) && floors[..|floors0|] == floors0
        invariant AllSpots() == base + added
        invariant Infos(added) == LayoutInfos(f - 1)
        invariant AllFree(added) && forall x :: x in added ==> allocated(x)
        invariant DefaultFloorsFrom(floors, |floors0|)
      {
        ghost var spots := AddDefaultFloor(f, base, added, |floors0|);
        LayoutStep(added, spots, f);
        added := added + spots;
      }
    }

    /**
     * One pass of the floor loop: floor f is built and its spots are added
     * after all spots listed so far, `base` followed by `done`; the floors
     * from index `first` on are the default floors numbered from 1.
     */
    method AddDefaultFloor(f: nat, ghost base: seq<ParkingSpot>, ghost done: seq<ParkingSpot>, ghost first: nat)
      returns (ghost spots: seq<ParkingSpot>)
      requires AllSpots() == base + done
      requires first <= |floors| && |floors| - first == f - 1
      requires DefaultFloorsFrom(floors, first)
      requires AllFree(done) && forall x :: x in done ==> allocated(x)
      modifies this`floors
      ensures |floors| == |old(floors)| + 1 && floors[..|old(floors)|] == old(floors)
      ensures AllSpots() == base + (done + spots)
      ensures Infos(spots) == FloorInfos(f, ROWS_PER_FLOOR)
      ensures IsDefaultFloor(floors[|floors| - 1], f)
      ensures DefaultFloorsFrom(floors, first)
      ensures AllFree(done + spots) && forall x :: x in done + spots ==> allocated(x)
    {
      var floor := BuildFloor(f);
      spots := floor.Spots();
      assert AllFree(done) && AllFree(spots);
      ghost var before := floors;
      assert DefaultFloorsFrom(before, first);
      AddFloor(floor);
      assert floor.Spots() == spots;
      DefaultFloorsAppend(before, first, floor);
      assert AllFree(done) && AllFree(spots);
      AllFreeAppend(done, spots);
      forall x | x in done + spots
        ensures allocated(x)
      {
        if x !in done {
          assert x in spots;
        }
      }
      AppendAssoc(base, done, spots);
    }

    /** `addFloor`: the floor goes last, and its spots after all others. */
    method AddFloor(floor: Floor)
      modifies this`floors
      ensures floors == old(floors) + [floor]
      ensures AllSpots() == old(AllSpots()) + floor.Spots()
    {
      floors := floors + [floor];
      assert floors[..|floors| - 1] == old(floors);
    }

    /** `getFloor`: the first floor with that number, or null. */
    method GetFloor(floorNumber: int) returns (floor: Floor?)
      ensures floor == null ==> forall i :: 0 <= i < |floors| ==> floors[i].floorNumber != floorNumber
      ensures floor != null ==> exists i :: 0 <= i < |floors| && floors[i] == floor && floor.floorNumber == floorNumber &&
                                            (forall j :: 0 <= j < i ==> floors[j].floorNumber != floorNumber)
    {
      for i := 0 to |floors|
        invariant forall j :: 0 <= j < i ==> floors[j].floorNumber != floorNumber
      {
        if floors[i].floorNumber == floorNumber {
          return floors[i];
        }
      }
      return null;
    }

    method GetAllSpots() returns (all: seq<ParkingSpot>)
      ensures all == AllSpots()
    {
      all := [];
      for i := 0 to |floors|
        invariant all == SpotsOf(floors[..i])
      {
        assert floors[..i + 1][..i] == floors[..i];
        var rowSpots := floors[i].GetSpots();
        all := all + rowSpots;
      }
      assert floors[..|floors|] == floors;
    }

    /** The AVAILABLE spots whose category the requested type may take. */
    method GetAvailableSpotsByVehicle(t: VehicleType) returns (available: seq<ParkingSpot>)
      ensures available == AvailableFor(AllSpots(), t)
    {
      var all := GetAllSpots();
      available := [];
      for i := 0 to |all|
        invariant available == AvailableFor(all[..i], t)
      {
        assert all[..i + 1][..i] == all[..i];
        var spot := all[i];
        if spot.IsAvailable() {
          match t {
            case MOTORCYCLE =>
              if spot.spotType == COMPACT {
                available := available + [spot];
              }
            case CAR =>
              if spot.spotType == COMPACT || spot.spotType == REGULAR {
                available := available + [spot];
              }
            case SUV =>
              if spot.spotType == REGULAR {
                available := available + [spot];
              }
            case HANDICAPPED =>
              available := available + [spot];
          }
        }
      }
      assert all[..|all|] == all;
    }

    /** `getSpot`: the first spot with that id, or null. */
    method GetSpot(spotId: string) returns (spot: ParkingSpot?)
      ensures spot == SpotWithId(AllSpots(), spotId)
      ensures spot != null ==> spot in AllSpots() && spot.spotId == spotId
    {
      var all := GetAllSpots();
      for i := 0 to |all|
        invariant forall j :: 0 <= j < i ==> all[j].spotId != spotId
      {
        if all[i].spotId == spotId {
          return all[i];
        }
      }
      return null;
    }

    method GetTotalSpots() returns (total: nat)
      ensures total == |AllSpots()|
    {
      var all := GetAllSpots();
      total := |all|;
    }

    method GetOccupiedSpots() returns (occupied: nat)
      ensures occupied == CountStatus(AllSpots(), OCCUPIED)
      ensures occupied <= |AllSpots()|
    {
      var all := GetAllSpots();
      occupied := 0;
      for i := 0 to |all|
        invariant occupied == CountStatus(all[..i], OCCUPIED)
      {
        assert all[..i + 1][..i] == all[..i];
        if all[i].status == OCCUPIED {
          occupied := occupied + 1;
        }
      }
      assert all[..|all|] == all;
    }

    /** Occupied spots as a percentage of all spots (0 when there are none). */
    method GetOccupancyRate() returns (rate: real)
      ensures rate == OccupancyRate(CountStatus(AllSpots(), OCCUPIED), |AllSpots()|)
      ensures 0.0 <= rate <= 100.0
    {
      var total := GetTotalSpots();
      var occupied := GetOccupiedSpots();
      rate := if total > 0 then occupied as real * 100.0 / total as real else 0.0;
    }

    method AddRevenue(amount: real)
      modifies this`totalRevenue
      ensures totalRevenue == old(totalRevenue) + amount
    {
      totalRevenue := totalRevenue + amount;
    }

    method SetTotalRevenue(revenue: real)
      modifies this`totalRevenue
      ensures totalRevenue == revenue
    {
      totalRevenue := revenue;
    }

    method SetFineScheme(scheme: FineScheme)
      modifies this`fineScheme
      ensures fineScheme == Some(scheme)
    {
      fineScheme := Some(scheme);
    }

    /** The scheme in force; a lot that never had one gets the fixed scheme, which then stays. */
    method GetFineScheme() returns (scheme: FineScheme)
      modifies this`fineScheme
      ensures old(fineScheme).Some? ==> scheme == old(fineScheme).value && fineScheme == old(fineScheme)
      ensures old(fineScheme).None? ==> scheme == FixedFineScheme && fineScheme == Some(FixedFineScheme)
    {
      if fineScheme.None? {
        fineScheme := Some(FixedFineScheme);
      }
      scheme := fineScheme.value;
    }
  }

  /** Every spot of the list is AVAILABLE and holds no vehicle. */
  ghost predicate AllFree(spots: seq<ParkingSpot>)
    reads spots
  {
    forall j :: 0 <= j < |spots| ==> spots[j].status == AVAILABLE && spots[j].currentVehicle == null
  }

  lemma AllFreeAppend(a: seq<ParkingSpot>, b: seq<ParkingSpot>)
    requires AllFree(a) && AllFree(b)
    ensures AllFree(a + b)
  {
    forall j | 0 <= j < |a + b|
      ensures (a + b)[j].status == AVAILABLE && (a + b)[j].currentVehicle == null
    {
      if j < |a| {
        assert (a + b)[j] == a[j];
      } else {
        assert (a + b)[j] == b[j - |a|];
      }
    }
  }

  lemma AppendAssoc<T>(a: seq<T>, b: seq<T>, c: seq<T>)
    ensures a + b + c == a + (b + c)
  {
  }

  /** Each stored row r holds the ten spots of row r of floor f in the default layout. */
  ghost predicate LayoutRows(rows: map<int, seq<ParkingSpot>>, f: nat) {
    forall r: nat :: r in rows ==> Infos(rows[r]) == RowInfos(f, r, SPOTS_PER_ROW)
  }

  /** Storing row r of the layout keeps every stored row a row of the layout. */
  lemma LayoutRowsStore(rows: map<int, seq<ParkingSpot>>, f: nat, r: nat, spots: seq<ParkingSpot>)
    requires LayoutRows(rows, f) && Infos(spots) == RowInfos(f, r, SPOTS_PER_ROW)
    ensures LayoutRows(rows[r := spots], f)
  {
  }

  /**
   * Floor f as the default layout builds it: rows 1 to 3 in that order,
   * row r holding the ten spots of row r, and a spot count of thirty.
   */
  ghost predicate IsDefaultFloor(floor: Floor, f: nat)
    reads floor
  {
    floor.Valid() && floor.floorNumber == f && floor.rowOrder == [1, 2, 3] && LayoutRows(floor.rows, f) &&
    floor.totalSpots == ROWS_PER_FLOOR * SPOTS_PER_ROW
  }

  /** The row numbers 1 to n, ascending. */
  function RowNumbers(n: nat): seq<int> {
    if n == 0 then [] else RowNumbers(n - 1) + [n]
  }

  lemma RowNumbersOfFloor()
    ensures RowNumbers(ROWS_PER_FLOOR) == [1, 2, 3]
  {
    assert RowNumbers(1) == [1];
    assert RowNumbers(2) == [1, 2];
  }

  /** The floors from index `first` on are default floors numbered 1, 2, ... */
  ghost predicate DefaultFloorsFrom(fs: seq<Floor>, first: nat)
    reads fs
  {
    forall k :: first <= k < |fs| ==> IsDefaultFloor(fs[k], k - first + 1)
  }

  /** A default floor numbered one past the last keeps the run of default floors going. */
  lemma DefaultFloorsAppend(fs: seq<Floor>, first: nat, floor: Floor)
    requires first <= |fs| && DefaultFloorsFrom(fs, first) && IsDefaultFloor(floor, |fs| - first + 1)
    ensures DefaultFloorsFrom(fs + [floor], first)
  {
  }

  /** Floor f of the default layout: rows 1 to 3 of ten new free spots each. */
  method BuildFloor(f: nat) returns (floor: Floor)
    ensures fresh(floor) && floor.Valid() && floor.floorNumber == f
    ensures IsDefaultFloor(floor, f)
    ensures floor.totalSpots == |floor.Spots()|
    ensures Infos(floor.Spots()) == FloorInfos(f, ROWS_PER_FLOOR)
    ensures AllFree(floor.Spots()) && forall x :: x in floor.Spots() ==> allocated(x)
  {
    floor := new Floor(f);
    for r := 1 to ROWS_PER_FLOOR + 1
      modifies floor
      invariant floor.Valid() && floor.floorNumber == f
      invariant forall x :: x in floor.rows ==> x < r
      invariant floor.rowOrder == RowNumbers(r - 1) && LayoutRows(floor.rows, f)
      invariant floor.totalSpots == |floor.Spots()|
      invariant Infos(floor.Spots()) == FloorInfos(f, r - 1)
      invariant AllFree(floor.Spots()) && forall x :: x in floor.Spots() ==> allocated(x)
    {
      ghost var rows0 := floor.rows;
      ghost var rowSpots := AddDefaultRow(floor, f, r);
      LayoutRowsStore(rows0, f, r, rowSpots);
    }
    RowNumbersOfFloor();
  }

  /** One pass of the row loop: row r of floor f is built and added after the rows before it. */
  method AddDefaultRow(floor: Floor, f: nat, r: nat) returns (ghost rowSpots: seq<ParkingSpot>)
    requires r >= 1 && floor.Valid() && forall x :: x in floor.rows ==> x < r
    requires floor.totalSpots == |floor.Spots()|
    requires Infos(floor.Spots()) == FloorInfos(f, r - 1)
    requires AllFree(floor.Spots()) && forall x :: x in floor.Spots() ==> allocated(x)
    modifies floor
    ensures floor.Valid() && forall x :: x in floor.rows ==> x <= r
    ensures floor.rows == old(floor.rows)[r := rowSpots] && floor.rowOrder == old(floor.rowOrder) + [r]
    ensures Infos(rowSpots) == RowInfos(f, r, SPOTS_PER_ROW)
    ensures floor.totalSpots == |floor.Spots()|
    ensures Infos(floor.Spots()) == FloorInfos(f, r)
    ensures AllFree(floor.Spots()) && forall x :: x in floor.Spots() ==> allocated(x)
  {
    ghost var done := floor.Spots();
    assert AllFree(done);
    var row := BuildRow(f, r);
    rowSpots := row;
    assert AllFree(done);
    floor.AddRow(r, row);
    assert AllFree(done) && AllFree(row);
    InfosAppend(done, row);
    AllFreeAppend(done, row);
  }

  /** Row r of floor f in the default layout: spots 1 to 10, new and free. */
  method BuildRow(f: nat, r: nat) returns (rowSpots: seq<ParkingSpot>)
    ensures Infos(rowSpots) == RowInfos(f, r, SPOTS_PER_ROW)
    ensures AllFree(rowSpots)
  {
    rowSpots := [];
    for s := 1 to SPOTS_PER_ROW + 1
      invariant Infos(rowSpots) == RowInfos(f, r, s - 1)
      invariant AllFree(rowSpots)
    {
      var (spotType, rate) := Classify(f, r, s);
      var spot := new ParkingSpot(SpotIdFor(f, r, s), spotType, rate, f, r);
      InfosAppend(rowSpots, [spot]);
      AllFreeAppend(rowSpots, [spot]);
      rowSpots := rowSpots + [spot];
    }
  }

  /**
   * `getInstance` followed by `initializeDefault`: a lot of 150 spots with
   * unique ids, all free, 2 HANDICAPPED, 3 RESERVED, 43 COMPACT and 102
   * REGULAR, the fixed fine scheme not yet chosen and no revenue.
   */
  method NewDefaultLot() returns (lot: ParkingLot)
    ensures fresh(lot)
    ensures |lot.AllSpots()| == DEFAULT_SPOTS && UniqueIds(lot.AllSpots())
    ensures CountType(lot.AllSpots(), ParkingSpotType.HANDICAPPED) == 2
    ensures CountType(lot.AllSpots(), ParkingSpotType.RESERVED) == 3
    ensures CountType(lot.AllSpots(), COMPACT) == 43
    ensures CountType(lot.AllSpots(), REGULAR) == 102
    ensures CountStatus(lot.AllSpots(), AVAILABLE) == DEFAULT_SPOTS && CountStatus(lot.AllSpots(), OCCUPIED) == 0
    ensures lot.totalRevenue == 0.0 && lot.fineScheme == None
  {
    lot := new ParkingLot();
    lot.InitializeDefault();
    assert lot.AllSpots()[0..] == lot.AllSpots();
    DefaultLayoutFacts(lot.AllSpots());
    AllAvailable(lot.AllSpots());
  }

  /** Free spots count as available and none as occupied. */
  lemma {:induction false} AllAvailable(spots: seq<ParkingSpot>)
    requires AllFree(spots)
    ensures CountStatus(spots, AVAILABLE) == |spots|
    ensures CountStatus(spots, OCCUPIED) == 0
  {
    if spots != [] {
      AllAvailable(spots[..|spots| - 1]);
    }
  }
}
