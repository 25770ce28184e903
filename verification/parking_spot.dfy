/**
 * A parking spot: fixed identity, category and rate, and a status that moves
 * between AVAILABLE and OCCUPIED together with the vehicle it holds. Also the
 * read-only queries over a list of spots that the floor and the lot share.
 */
module Spots {
  import opened Wrappers
  import opened SpotKinds
  import opened Vehicles

  /** The fields of a spot that never change after construction. */
  datatype SpotInfo = SpotInfo(spotId: string, spotType: ParkingSpotType, hourlyRate: real, floorNum: int, rowNum: int)

  class ParkingSpot {
    const spotId: string
    const spotType: ParkingSpotType
    const hourlyRate: real
    const floorNum: int
    const rowNum: int
    var status: SpotStatus
    var currentVehicle: Vehicle?

    /** The occupancy invariant: a vehicle is present exactly when the spot is OCCUPIED. */
    ghost predicate Consistent()
      reads this
    {
      (currentVehicle != null) <==> (status == OCCUPIED)
    }

    /** Identity, category, rate, floor and row: there are no setters for these. */
    function Info(): SpotInfo {
      SpotInfo(spotId, spotType, hourlyRate, floorNum, rowNum)
    }

    constructor(spotId: string, spotType: ParkingSpotType, hourlyRate: real, floorNum: int, rowNum: int)
      ensures Info() == SpotInfo(spotId, spotType, hourlyRate, floorNum, rowNum)
      ensures status == AVAILABLE && currentVehicle == null && Consistent()
    {
      this.spotId := spotId;
      this.spotType := spotType;
      this.hourlyRate := hourlyRate;
      this.floorNum := floorNum;
      this.rowNum := rowNum;
      this.status := AVAILABLE;
      this.currentVehicle := null;
    }

    /** Puts v in the spot and marks it OCCUPIED; the invariant holds afterwards whenever v is a vehicle. */
    method AssignVehicle(v: Vehicle?)
      modifies this`currentVehicle, this`status
      ensures currentVehicle == v && status == OCCUPIED
      ensures v != null ==> Consistent()
    {
      currentVehicle := v;
      status := OCCUPIED;
    }

    /** Takes the vehicle out, returning it, and marks the spot AVAILABLE. */
    method RemoveVehicle() returns (vehicle: Vehicle?)
      modifies this`currentVehicle, this`status
      ensures vehicle == old(currentVehicle)
      ensures currentVehicle == null && status == AVAILABLE && Consistent()
    {
      vehicle := currentVehicle;
      currentVehicle := null;
      status := AVAILABLE;
    }

    predicate IsAvailable()
      reads this
    {
      status == AVAILABLE
    }

    /** Overwrites the status alone; the vehicle is left as it was. */
    method SetStatus(status: SpotStatus)
      modifies this`status
      ensures this.status == status
    {
      this.status := status;
    }
  }

  /** Assigning and then removing hands back the same vehicle and leaves the spot free. */
  method AssignThenRemove(spot: ParkingSpot, v: Vehicle) returns (back: Vehicle?)
    modifies spot
    ensures back == v
    ensures spot.status == AVAILABLE && spot.currentVehicle == null
  {
    spot.AssignVehicle(v);
    back := spot.RemoveVehicle();
  }

  /** Number of spots in the list whose status is st. */
  function CountStatus(spots: seq<ParkingSpot>, st: SpotStatus): (n: nat)
    reads spots
    ensures n <= |spots|
  {
    if spots == [] then 0
    else CountStatus(spots[..|spots| - 1], st) + (if spots[|spots| - 1].status == st then 1 else 0)
  }

  /** A spot has one status, so spots counted under two different statuses are never counted twice. */
  lemma {:induction false} CountTwoStatuses(spots: seq<ParkingSpot>, a: SpotStatus, b: SpotStatus)
    requires a != b
    ensures CountStatus(spots, a) + CountStatus(spots, b) <= |spots|
  {
    if spots != [] {
      CountTwoStatuses(spots[..|spots| - 1], a, b);
    }
  }

  /** Number of spots in the list of category t. */
  function CountType(spots: seq<ParkingSpot>, t: ParkingSpotType): (n: nat)
    ensures n <= |spots|
  {
    if spots == [] then 0
    else CountType(spots[..|spots| - 1], t) + (if spots[|spots| - 1].spotType == t then 1 else 0)
  }

  /** The position of the first spot with the given id, if any. */
  function IndexOfId(spots: seq<ParkingSpot>, id: string): (r: Option<nat>)
    ensures r.Some? ==> r.value < |spots| && spots[r.value].spotId == id
    ensures r.Some? ==> forall j :: 0 <= j < r.value ==> spots[j].spotId != id
    ensures r.None? ==> forall j :: 0 <= j < |spots| ==> spots[j].spotId != id
  {
    if spots == [] then None
    else if spots[0].spotId == id then Some(0)
    else match IndexOfId(spots[1..], id)
      case None => None
      case Some(i) => Some(i + 1)
  }

  /** The first spot with the given id, or null. */
  function SpotWithId(spots: seq<ParkingSpot>, id: string): ParkingSpot? {
    match IndexOfId(spots, id)
    case None => null
    case Some(i) => spots[i]
  }

  predicate UniqueIds(spots: seq<ParkingSpot>) {
    forall i, j :: 0 <= i < j < |spots| ==> spots[i].spotId != spots[j].spotId
  }

  /** With unique ids, looking a spot up by its own id finds that very spot. */
  lemma LookupOwnId(spots: seq<ParkingSpot>, i: nat)
    requires UniqueIds(spots) && i < |spots|
    ensures SpotWithId(spots, spots[i].spotId) == spots[i]
  {
  }
}
