/**
 * The rules `exitVehicle` applies, as values: which spot holds a plate, the
 * parking fee, the fines an exit issues and what they add up to, and what
 * the receipt and the freed spot look like afterwards.
 */
module Exits {
  import opened Wrappers
  import opened Text
  import opened Clock
  import opened SpotKinds
  import opened Vehicles
  import opened FineSchemes
  import opened Spots
  import opened Tickets
  import opened Fines
  import opened Receipts

  const RESERVED_FINE: real := 100.0
  const RESERVED_REASON: string := "Unauthorized use of reserved spot"
  /** Hours of parking after which the overstay fine applies. */
  const FREE_HOURS: int := 24

  /** The spot is OCCUPIED by a vehicle with exactly this plate. */
  predicate Holds(spot: ParkingSpot, plate: string)
    reads spot
  {
    spot.status == OCCUPIED && spot.currentVehicle != null && spot.currentVehicle.licensePlate == plate
  }

  /** Position of the first spot holding the plate, in the lot's order. */
  function FirstHolding(spots: seq<ParkingSpot>, plate: string): (r: Option<nat>)
    reads spots
    ensures r.Some? ==> r.value < |spots| && Holds(spots[r.value], plate)
    ensures r.Some? ==> forall j :: 0 <= j < r.value ==> !Holds(spots[j], plate)
    ensures r.None? ==> forall j :: 0 <= j < |spots| ==> !Holds(spots[j], plate)
  {
    if spots == [] then None
    else if Holds(spots[0], plate) then Some(0)
    else match FirstHolding(spots[1..], plate)
      case None => None
      case Some(i) => Some(i + 1)
  }

  /**
   * The parking fee, in the source's order of rules: a card holder in a
   * HANDICAPPED spot pays nothing; otherwise a HandicappedVehicle pays 2.0 an
   * hour; otherwise the spot's hourly rate applies.
   */
  function ParkingFee(hours: int, spotRate: real, spotType: ParkingSpotType, hasCard: bool, c: VehicleClass): real {
    if hasCard && spotType == ParkingSpotType.HANDICAPPED then 0.0
    else if c == HandicappedVehicleClass then hours as real * 2.0
    else hours as real * spotRate
  }

  /** A HandicappedVehicle (which always has the card) parks free in a HANDICAPPED spot and at 2.0 an hour anywhere else. */
  lemma HandicappedVehicleFee(hours: int, spotRate: real, spotType: ParkingSpotType)
    ensures ParkingFee(hours, spotRate, spotType, true, HandicappedVehicleClass) ==
      if spotType == ParkingSpotType.HANDICAPPED then 0.0 else hours as real * 2.0
  {
  }

  /** Away from HANDICAPPED spots the card makes no difference. */
  lemma CardOnlyCountsInHandicappedSpots(hours: int, spotRate: real, spotType: ParkingSpotType, c: VehicleClass)
    requires spotType != ParkingSpotType.HANDICAPPED
    ensures ParkingFee(hours, spotRate, spotType, true, c) == ParkingFee(hours, spotRate, spotType, false, c)
  {
  }

  /** The fee is never negative and never above the hours at the larger of the spot rate and 2.0. */
  lemma FeeBounds(hours: int, spotRate: real, spotType: ParkingSpotType, hasCard: bool, c: VehicleClass)
    requires hours >= 0 && spotRate >= 0.0
    ensures 0.0 <= ParkingFee(hours, spotRate, spotType, hasCard, c)
    ensures ParkingFee(hours, spotRate, spotType, hasCard, c) <= hours as real * (if spotRate >= 2.0 then spotRate else 2.0)
  {
  }

  /** A fine still to be issued: its amount and its reason. */
  datatype Charge = Charge(amount: real, reason: string)

  function ChargeOf(f: Fine): Charge {
    Charge(f.amount, f.reason)
  }

  /** The amount and reason of each fine, in order. */
  function Charges(fines: seq<Fine>): (cs: seq<Charge>)
    ensures |cs| == |fines|
  {
    seq(|fines|, i requires 0 <= i < |fines| => ChargeOf(fines[i]))
  }

  lemma ChargesAppend(a: seq<Fine>, b: seq<Fine>)
    ensures Charges(a + b) == Charges(a) + Charges(b)
  {
  }

  function SumCharges(cs: seq<Charge>): real {
    if cs == [] then 0.0 else SumCharges(cs[..|cs| - 1]) + cs[|cs| - 1].amount
  }

  lemma {:induction false} SumChargesOf(fines: seq<Fine>)
    ensures SumCharges(Charges(fines)) == SumAmounts(fines)
  {
    if fines != [] {
      SumChargesOf(fines[..|fines| - 1]);
      assert Charges(fines)[..|fines| - 1] == Charges(fines[..|fines| - 1]);
    }
  }

  function OverstayReason(hours: nat, scheme: FineScheme): string {
    "Overstaying (" + NatToString(hours) + " hours) - " + scheme.Name()
  }

  /**
   * The fines an exit adds: for a stay over 24 hours the scheme's fine on
   * the hours beyond 24, then for a RESERVED spot a flat 100.0.
   */
  function ExitCharges(hours: int, scheme: FineScheme, spotType: ParkingSpotType): seq<Charge> {
    (if hours > FREE_HOURS then [Charge(scheme.CalculateFine(hours - FREE_HOURS), OverstayReason(hours, scheme))] else [])
    + (if spotType == ParkingSpotType.RESERVED then [Charge(RESERVED_FINE, RESERVED_REASON)] else [])
  }

  /**
   * An overstay fine is charged exactly when the stay passes 24 hours, and
   * the reserved-spot fine exactly when the spot is RESERVED; together they
   * come to the scheme's fine on the extra hours plus 100.0.
   */
  lemma ExitChargesFacts(hours: int, scheme: FineScheme, spotType: ParkingSpotType)
    ensures var cs := ExitCharges(hours, scheme, spotType);
      |cs| == (if hours > 24 then 1 else 0) + (if spotType == ParkingSpotType.RESERVED then 1 else 0)
    ensures var cs := ExitCharges(hours, scheme, spotType);
      (exists i :: 0 <= i < |cs| && cs[i].amount == RESERVED_FINE && cs[i].reason == RESERVED_REASON)
      <==> spotType == ParkingSpotType.RESERVED
    ensures SumCharges(ExitCharges(hours, scheme, spotType)) ==
      (if hours > 24 then scheme.CalculateFine(hours - 24) else 0.0) +
      (if spotType == ParkingSpotType.RESERVED then 100.0 else 0.0)
  {
    var cs := ExitCharges(hours, scheme, spotType);
    if hours > 24 {
      var reason := OverstayReason(hours, scheme);
      assert reason[..2] == "Ov";
      assert RESERVED_REASON[..2] == "Un";
      assert reason != RESERVED_REASON;
    }
    if spotType == ParkingSpotType.RESERVED {
      assert cs[|cs| - 1] == Charge(RESERVED_FINE, RESERVED_REASON);
    }
    if |cs| == 2 {
      assert cs[..1][..0] == [];
      assert SumCharges(cs) == SumCharges(cs[..1]) + cs[1].amount;
    }
  }

  /** The scheme `getFineScheme` hands out for the lot's setting: the fixed scheme when none is set. */
  function SchemeInForce(setting: Option<FineScheme>): FineScheme {
    if setting.Some? then setting.value else FixedFineScheme
  }

  /**
   * What an exit receipt comes to: the fee, the unpaid fines carried in, and
   * the fines the exit issued, which add up to the scheme's overstay fine
   * past 24 hours and 100.0 for a RESERVED spot.
   */
  lemma ExitTotal(fee: real, unpaid: seq<Fine>, issued: seq<Fine>, hours: int, scheme: FineScheme, spotType: ParkingSpotType)
    requires Charges(issued) == ExitCharges(hours, scheme, spotType)
    ensures fee + SumAmounts(unpaid + issued) == fee + SumAmounts(unpaid) +
      (if hours > 24 then scheme.CalculateFine(hours - 24) else 0.0) +
      (if spotType == ParkingSpotType.RESERVED then 100.0 else 0.0)
  {
    SumAmountsAppend(unpaid, issued);
    SumChargesOf(issued);
    ExitChargesFacts(hours, scheme, spotType);
  }

  /**
   * What `exitVehicle` leaves in a receipt for a vehicle that entered at
   * `entry`, parked in `spot` and leaves at `now`: the ticket for them, the
   * fee for the hours the receipt records, the unpaid fines given followed
   * by the fines the exit issued under the scheme setting it found, still
   * unpaid and for the vehicle's plate, and the total of the fee and all the
   * fines.
   */
  ghost predicate ExitReceipt(receipt: Receipt, spot: ParkingSpot, vehicle: Vehicle, entry: DateTime, now: DateTime,
                              unpaid: seq<Fine>, setting: Option<FineScheme>, receiptId: Uuid)
    reads receipt, receipt.fines
  {
    var t := receipt.ticket;
    var hours := receipt.durationHours;
    t.vehicle == vehicle && t.spot == spot && t.ticketId == TicketId(vehicle.licensePlate, entry) &&
    receipt.receiptId == ShortId("RCP-", receiptId) && receipt.exitTime == now &&
    receipt.parkingFee == ParkingFee(hours, spot.hourlyRate, spot.spotType, vehicle.hasHandicappedCard, vehicle.vehicleClass) &&
    |unpaid| <= |receipt.fines| && receipt.fines[..|unpaid|] == unpaid &&
    Charges(receipt.fines[|unpaid|..]) == ExitCharges(hours, SchemeInForce(setting), spot.spotType) &&
    (forall i :: |unpaid| <= i < |receipt.fines| ==> receipt.fines[i].licensePlate == vehicle.licensePlate && !receipt.fines[i].isPaid) &&
    receipt.Valid() && receipt.totalAmount == receipt.parkingFee + SumAmounts(receipt.fines)
  }

  /**
   * The spot the id of `spot` looks up holds nothing and is AVAILABLE; with
   * distinct ids that is `spot` itself.
   */
  ghost predicate Freed(spots: seq<ParkingSpot>, spot: ParkingSpot)
    reads spots, spot
  {
    var s := SpotWithId(spots, spot.spotId);
    s != null && s.status == AVAILABLE && s.currentVehicle == null &&
    (UniqueIds(spots) ==> spot.status == AVAILABLE && spot.currentVehicle == null)
  }

}
