/**
 * The billing engine's front door: parking a vehicle in a chosen spot,
 * taking it out again with the fee, the fines and the receipt, freeing a
 * spot, paying fines and choosing the fine scheme. The database the source
 * writes to is left out; the unpaid fines it would read are an input.
 */
module Facade {
  import opened Wrappers
  import opened Text
  import opened Clock
  import opened SpotKinds
  import opened Vehicles
  import opened FineSchemes
  import opened Spots
  import opened Lots
  import opened Tickets
  import opened Fines
  import opened Receipts
  import opened Exits

  /** The exceptions the facade throws: an `IllegalStateException` with its message, or a null dereference. */
  datatype Failure = IllegalState(message: string) | NullPointer

  const SPOT_NOT_AVAILABLE: string := "Spot not available"

  function NoVehicleMessage(plate: string): string {
    "No vehicle found with plate: " + plate
  }

  /** The spot a lookup by id finds, as a frame: empty when there is none. */
  function SpotSet(spots: seq<ParkingSpot>, id: string): (frame: set<ParkingSpot>)
    ensures SpotWithId(spots, id) == null ==> frame == {}
    ensures SpotWithId(spots, id) != null ==> frame == {SpotWithId(spots, id)}
  {
    var s := SpotWithId(spots, id);
    if s == null then {} else {s}
  }

  /** The spot an exit frees: the one the id of the spot found for the plate looks up. */
  function ExitSpotFrame(spots: seq<ParkingSpot>, plate: string): set<ParkingSpot>
    reads spots
  {
    match FirstHolding(spots, plate)
    case None => {}
    case Some(i) => SpotSet(spots, spots[i].spotId)
  }

  /** The vehicle an exit stamps with its exit time: the one in the spot found for the plate. */
  function ExitVehicleFrame(spots: seq<ParkingSpot>, plate: string): set<Vehicle>
    reads spots
  {
    match FirstHolding(spots, plate)
    case None => {}
    case Some(i) => {spots[i].currentVehicle}
  }

  /** Position of a spot known to be in the list. */
  function IndexIn(spots: seq<ParkingSpot>, x: ParkingSpot): (i: nat)
    requires x in spots
    ensures i < |spots| && spots[i] == x
  {
    if spots[0] == x then 0 else 1 + IndexIn(spots[1..], x)
  }

  /**
   * The receipt part of `exitVehicle`: a new receipt for the ticket with the
   * fee, the hours and the exit time, the fines added one by one, and the
   * total worked out.
   */
  method MakeReceipt(ticket: Ticket, parkingFee: real, hours: int, fines: seq<Fine>, receiptId: Uuid, now: DateTime)
    returns (receipt: Receipt)
    ensures fresh(receipt)
    ensures receipt.ticket == ticket && receipt.receiptId == ShortId("RCP-", receiptId)
    ensures receipt.parkingFee == parkingFee && receipt.durationHours == hours && receipt.exitTime == now
    ensures receipt.fines == fines && receipt.Valid()
    ensures receipt.totalAmount == parkingFee + SumAmounts(fines)
    ensures receipt.payment == null
  {
    receipt := new Receipt(ticket, receiptId, now);
    receipt.SetParkingFee(parkingFee);
    receipt.SetDurationHours(hours);
    receipt.SetExitTime(now);
    AddFines(receipt, fines);
    var _ := receipt.CalculateTotal();
  }

  class ParkingFacade {
    const lot: ParkingLot

    /** The facade over a lot, which is switched to the fixed fine scheme. */
    constructor(lot: ParkingLot)
      modifies lot`fineScheme
      ensures this.lot == lot && lot.fineScheme == Some(FixedFineScheme)
    {
      this.lot := lot;
      lot.SetFineScheme(FixedFineScheme);
    }

    /** Frees the first spot with the id, if there is one: no vehicle, AVAILABLE. No other spot changes. */
    method FreeSpot(spotId: string)
      modifies SpotSet(lot.AllSpots(), spotId)
      ensures lot.AllSpots() == old(lot.AllSpots())
      ensures var s := SpotWithId(lot.AllSpots(), spotId);
        s != null ==> s.status == AVAILABLE && s.currentVehicle == null
    {
      var spot := lot.GetSpot(spotId);
      if spot != null {
        var _ := spot.RemoveVehicle();
        spot.SetStatus(AVAILABLE);
      }
    }

    /**
     * Parks a new vehicle of the given plate and type in the spot with the
     * given id; no other spot changes. Fails, changing nothing, when there is
     * no such spot or it is not AVAILABLE; the vehicle's eligibility and
     * whether the plate is already parked are not checked.
     */
    method ParkVehicle(licensePlate: string, vehicleType: VehicleType, hasHandicappedCard: bool,
                       spotId: string, now: DateTime) returns (r: Result<Ticket, Failure>)
      modifies SpotSet(lot.AllSpots(), spotId)
      ensures lot.AllSpots() == old(lot.AllSpots())
      ensures var s := SpotWithId(lot.AllSpots(), spotId);
        r.Err? <==> s == null || old(s.status) != AVAILABLE
      ensures var s := SpotWithId(lot.AllSpots(), spotId);
        r.Err? ==> (r.error == IllegalState(SPOT_NOT_AVAILABLE) &&
          (s != null ==> s.status == old(s.status) && s.currentVehicle == old(s.currentVehicle)))
      ensures r.Ok? ==> var t := r.value; var v := t.vehicle;
        fresh(t) && fresh(v) && t.spot == SpotWithId(lot.AllSpots(), spotId) &&
        t.spot.status == OCCUPIED && t.spot.currentVehicle == v &&
        v.licensePlate == licensePlate && v.vehicleType == vehicleType && v.vehicleClass == ClassFor(vehicleType) &&
        v.hasHandicappedCard == (hasHandicappedCard || vehicleType == VehicleType.HANDICAPPED) &&
        v.entryTime == Some(now) && v.exitTime == None &&
        t.entryTime == now && t.ticketId == TicketId(licensePlate, now) && t.isActive
    {
      ghost var target := SpotWithId(lot.AllSpots(), spotId);
      var spot := lot.GetSpot(spotId);
      assert spot == target;
      if spot == null || !spot.IsAvailable() {
        return Err(IllegalState(SPOT_NOT_AVAILABLE));
      }
      var vehicle := CreateVehicle(licensePlate, vehicleType, hasHandicappedCard);
      vehicle.SetEntryTime(Some(now));
      spot.AssignVehicle(vehicle);
      spot.SetStatus(OCCUPIED);
      var ticket := new Ticket(vehicle, spot);
      r := Ok(ticket);
    }

    /**
     * The fines an exit issues, in order: the overstay fine past 24 hours,
     * priced by the scheme in force (asking for it installs the fixed scheme
     * when none is set), then the reserved-spot fine.
     */
    method IssueExitFines(licensePlate: string, hours: int, spotType: ParkingSpotType,
                          overstayId: Uuid, reservedId: Uuid, now: DateTime) returns (fines: seq<Fine>)
      modifies lot`fineScheme
      ensures Charges(fines) == ExitCharges(hours, SchemeInForce(old(lot.fineScheme)), spotType)
      ensures lot.fineScheme == (if hours > FREE_HOURS then Some(SchemeInForce(old(lot.fineScheme))) else old(lot.fineScheme))
      ensures forall i :: 0 <= i < |fines| ==>
        fresh(fines[i]) && fines[i].licensePlate == licensePlate && !fines[i].isPaid && fines[i].issuedDate == now
      ensures forall i :: 0 <= i < |fines| ==>
        fines[i].fineId == ShortId("FINE-", if i == 0 && hours > FREE_HOURS then overstayId else reservedId)
    {
      var overstay: seq<Fine> := [];
      if hours > FREE_HOURS {
        var overstayHours := hours - FREE_HOURS;
        var scheme := lot.GetFineScheme();
        var fineAmount := scheme.CalculateFine(overstayHours);
        var overstayFine := new Fine(licensePlate, fineAmount, OverstayReason(hours, scheme), overstayId, now);
        overstay := [overstayFine];
      }
      var reserved: seq<Fine> := [];
      if spotType == ParkingSpotType.RESERVED {
        var reservedFine := new Fine(licensePlate, RESERVED_FINE, RESERVED_REASON, reservedId, now);
        reserved := [reservedFine];
      }
      fines := overstay + reserved;
      ChargesAppend(overstay, reserved);
    }

    /**
     * The billing part of `exitVehicle`, for a ticket whose hours and fee are
     * worked out: the fines this exit issues are appended to the unpaid ones
     * and a receipt is made for the ticket.
     */
    method Bill(ticket: Ticket, hours: int, parkingFee: real, unpaid: seq<Fine>,
                overstayId: Uuid, reservedId: Uuid, receiptId: Uuid, now: DateTime) returns (receipt: Receipt)
      requires ticket.ticketId == TicketId(ticket.vehicle.licensePlate, ticket.entryTime)
      requires parkingFee == ParkingFee(hours, ticket.spot.hourlyRate, ticket.spot.spotType,
                                        ticket.vehicle.hasHandicappedCard, ticket.vehicle.vehicleClass)
      modifies lot`fineScheme
      ensures lot.AllSpots() == old(lot.AllSpots())
      ensures fresh(receipt) && forall i :: |unpaid| <= i < |receipt.fines| ==> fresh(receipt.fines[i])
      ensures receipt.durationHours == hours
      ensures ExitReceipt(receipt, ticket.spot, ticket.vehicle, ticket.entryTime, now, unpaid, old(lot.fineScheme), receiptId)
      ensures lot.fineScheme == (if hours > FREE_HOURS then Some(SchemeInForce(old(lot.fineScheme))) else old(lot.fineScheme))
    {
      ghost var spots := lot.AllSpots();
      var newFines := IssueExitFines(ticket.vehicle.licensePlate, hours, ticket.spot.spotType, overstayId, reservedId, now);
      assert lot.AllSpots() == spots;
      receipt := MakeReceipt(ticket, parkingFee, hours, unpaid + newFines, receiptId, now);
      assert lot.AllSpots() == spots;
      assert receipt.fines[..|unpaid|] == unpaid && receipt.fines[|unpaid|..] == newFines;
      forall i | |unpaid| <= i < |receipt.fines|
        ensures receipt.fines[i] == newFines[i - |unpaid|]
      {
      }
    }

    /** The closing part of `exitVehicle`: the spot the id looks up is freed and the total joins the revenue. */
    method Settle(spot: ParkingSpot, total: real)
      requires spot in lot.AllSpots()
      modifies lot`totalRevenue, SpotSet(lot.AllSpots(), spot.spotId)
      ensures lot.AllSpots() == old(lot.AllSpots())
      ensures lot.totalRevenue == old(lot.totalRevenue) + total
      ensures Freed(lot.AllSpots(), spot)
    {
      ghost var freed := SpotWithId(lot.AllSpots(), spot.spotId);
      FreeSpot(spot.spotId);
      lot.AddRevenue(total);
      if UniqueIds(lot.AllSpots()) {
        LookupOwnId(lot.AllSpots(), IndexIn(lot.AllSpots(), spot));
      }
    }

    /**
     * The end of `exitVehicle` for a vehicle with an entry time, once the
     * hours and the fee are worked out: a ticket, the receipt with the fines
     * this exit issues after the unpaid ones given, then the spot its id
     * looks up is freed and the total joins the lot's revenue.
     */
    method Conclude(spot: ParkingSpot, vehicle: Vehicle, hours: int, parkingFee: real, now: DateTime, unpaid: seq<Fine>,
                    overstayId: Uuid, reservedId: Uuid, receiptId: Uuid) returns (receipt: Receipt)
      requires spot in lot.AllSpots() && vehicle.entryTime.Some?
      requires parkingFee == ParkingFee(hours, spot.hourlyRate, spot.spotType, vehicle.hasHandicappedCard, vehicle.vehicleClass)
      modifies lot`totalRevenue, lot`fineScheme, SpotSet(lot.AllSpots(), spot.spotId)
      ensures lot.AllSpots() == old(lot.AllSpots())
      ensures fresh(receipt) && forall i :: |unpaid| <= i < |receipt.fines| ==> fresh(receipt.fines[i])
      ensures receipt.durationHours == hours
      ensures ExitReceipt(receipt, spot, vehicle, vehicle.entryTime.value, now, unpaid, old(lot.fineScheme), receiptId)
      ensures lot.totalRevenue == old(lot.totalRevenue) + receipt.totalAmount
      ensures lot.fineScheme == (if hours > FREE_HOURS then Some(SchemeInForce(old(lot.fineScheme))) else old(lot.fineScheme))
      ensures Freed(lot.AllSpots(), spot)
    {
      ghost var spots := lot.AllSpots();
      var ticket := new Ticket(vehicle, spot);
      assert lot.AllSpots() == spots;
      receipt := Bill(ticket, hours, parkingFee, unpaid, overstayId, reservedId, receiptId, now);
      Settle(spot, receipt.totalAmount);
    }

    /**
     * The rest of `exitVehicle` once the vehicle is found in its spot: the
     * exit time is set to now and the hours and the fee worked out; without
     * an entry time the ticket then fails and nothing else changes;
     * otherwise the exit is billed, the spot its id looks up is freed and the
     * total joins the lot's revenue.
     */
    method CheckOut(spot: ParkingSpot, vehicle: Vehicle, now: DateTime, unpaid: seq<Fine>,
                    overstayId: Uuid, reservedId: Uuid, receiptId: Uuid) returns (r: Result<Receipt, Failure>)
      requires spot in lot.AllSpots()
      modifies lot`totalRevenue, lot`fineScheme, vehicle`exitTime, SpotSet(lot.AllSpots(), spot.spotId)
      ensures lot.AllSpots() == old(lot.AllSpots())
      ensures vehicle.exitTime == Some(now)
      ensures r.Err? <==> old(vehicle.entryTime).None?
      ensures r.Err? ==> (r.error == NullPointer && lot.totalRevenue == old(lot.totalRevenue) &&
        lot.fineScheme == old(lot.fineScheme) && spot.status == old(spot.status) && spot.currentVehicle == old(spot.currentVehicle))
      ensures r.Ok? ==> fresh(r.value) && forall i :: |unpaid| <= i < |r.value.fines| ==> fresh(r.value.fines[i])
      ensures r.Ok? ==> r.value.durationHours == DurationHours(old(vehicle.entryTime), Some(now))
      ensures r.Ok? ==> ExitReceipt(r.value, spot, vehicle, old(vehicle.entryTime).value, now, unpaid, old(lot.fineScheme), receiptId)
      ensures r.Ok? ==> lot.totalRevenue == old(lot.totalRevenue) + r.value.totalAmount
      ensures r.Ok? ==> (lot.fineScheme ==
        if r.value.durationHours > FREE_HOURS then Some(SchemeInForce(old(lot.fineScheme))) else old(lot.fineScheme))
      ensures r.Ok? ==> Freed(lot.AllSpots(), spot)
    {
      vehicle.SetExitTime(Some(now));
      var hours := vehicle.CalculateDuration();
      var parkingFee := ParkingFee(hours, spot.hourlyRate, spot.spotType, vehicle.hasHandicappedCard, vehicle.vehicleClass);
      if vehicle.entryTime.None? {
        return Err(NullPointer);
      }
      var receipt := Conclude(spot, vehicle, hours, parkingFee, now, unpaid, overstayId, reservedId, receiptId);
      r := Ok(receipt);
    }

    /**
     * `exitVehicle`: finds the first spot, in the lot's order, OCCUPIED by a
     * vehicle with the plate and checks it out. Fails, changing nothing, when
     * there is none. The spot and the vehicle found are returned alongside
     * for the contract.
     */
    method ExitVehicle(licensePlate: string, now: DateTime, unpaid: seq<Fine>,
                       overstayId: Uuid, reservedId: Uuid, receiptId: Uuid)
      returns (r: Result<Receipt, Failure>, ghost spot: ParkingSpot?, ghost vehicle: Vehicle?)
      modifies lot`totalRevenue, lot`fineScheme, ExitVehicleFrame(lot.AllSpots(), licensePlate)`exitTime,
        ExitSpotFrame(lot.AllSpots(), licensePlate)
      ensures lot.AllSpots() == old(lot.AllSpots())
      ensures old(FirstHolding(lot.AllSpots(), licensePlate)).None? ==>
        spot == null && vehicle == null && r == Err(IllegalState(NoVehicleMessage(licensePlate))) &&
        lot.totalRevenue == old(lot.totalRevenue) && lot.fineScheme == old(lot.fineScheme)
      ensures old(FirstHolding(lot.AllSpots(), licensePlate)).Some? ==>
        spot == old(lot.AllSpots()[FirstHolding(lot.AllSpots(), licensePlate).value]) &&
        vehicle == old(spot.currentVehicle) && vehicle != null && vehicle.licensePlate == licensePlate
      ensures spot != null && vehicle != null ==>
        vehicle.exitTime == Some(now) && vehicle.entryTime == old(vehicle.entryTime) && (r.Err? <==> old(vehicle.entryTime).None?)
      ensures spot != null && vehicle != null && r.Err? ==>
        r.error == NullPointer && lot.totalRevenue == old(lot.totalRevenue) && lot.fineScheme == old(lot.fineScheme) &&
        spot.status == old(spot.status) && spot.currentVehicle == old(spot.currentVehicle)
      ensures spot != null && vehicle != null && r.Ok? ==>
        fresh(r.value) && forall i :: |unpaid| <= i < |r.value.fines| ==> fresh(r.value.fines[i])
      ensures spot != null && vehicle != null && r.Ok? ==>
        r.value.durationHours == DurationHours(old(vehicle.entryTime), Some(now))
      ensures spot != null && vehicle != null && r.Ok? ==>
        ExitReceipt(r.value, spot, vehicle, old(vehicle.entryTime).value, now, unpaid, old(lot.fineScheme), receiptId)
      ensures spot != null && vehicle != null && r.Ok? ==>
        lot.totalRevenue == old(lot.totalRevenue) + r.value.totalAmount &&
        lot.fineScheme == (if r.value.durationHours > FREE_HOURS then Some(SchemeInForce(old(lot.fineScheme))) else old(lot.fineScheme))
      ensures spot != null && vehicle != null && r.Ok? ==> Freed(lot.AllSpots(), spot)
    {
      var all := lot.AllSpots();
      ghost var first := FirstHolding(all, licensePlate);
      var occupiedSpot: ParkingSpot? := null;
      var parked: Vehicle? := null;
      for i := 0 to |all|
        invariant occupiedSpot == null && parked == null
        invariant forall j :: 0 <= j < i ==> !Holds(all[j], licensePlate)
      {
        if all[i].status == OCCUPIED && all[i].currentVehicle != null && all[i].currentVehicle.licensePlate == licensePlate {
          occupiedSpot, parked := all[i], all[i].currentVehicle;
          assert first == Some(i);
          break;
        }
      }
      spot, vehicle := occupiedSpot, parked;
      if parked == null || occupiedSpot == null {
        return Err(IllegalState(NoVehicleMessage(licensePlate))), spot, vehicle;
      }
      r := CheckOut(occupiedSpot, parked, now, unpaid, overstayId, reservedId, receiptId);
    }

    /** Marks every unpaid fine in the list paid now; fines already paid keep their date. */
    method PayFines(licensePlate: string, fines: seq<Fine>, now: DateTime)
      modifies fines
      ensures forall f :: f in fines ==> f.isPaid && f.fineId == old(f.fineId)
      ensures forall f :: f in fines && old(f.isPaid) ==> f.paidDate == old(f.paidDate)
      ensures forall f :: f in fines && !old(f.isPaid) ==> f.paidDate == Some(now)
    {
      for i := 0 to |fines|
        invariant forall f :: f in fines ==> f.fineId == old(f.fineId)
        invariant forall f :: f in fines[..i] ==> f.isPaid
        invariant forall f :: f in fines && old(f.isPaid) ==> f.isPaid && f.paidDate == old(f.paidDate)
        invariant forall f :: f in fines && !old(f.isPaid) ==>
          if f in fines[..i] then f.paidDate == Some(now) else !f.isPaid && f.paidDate == old(f.paidDate)
      {
        var fine := fines[i];
        if !fine.isPaid {
          fine.MarkPaid(now);
        }
        assert fines[..i + 1] == fines[..i] + [fine];
      }
      assert fines[..|fines|] == fines;
    }

    /** Installs the scheme of the given type. */
    method SetFineScheme(schemeType: FineSchemeType)
      modifies lot`fineScheme
      ensures lot.fineScheme.Some? && lot.fineScheme.value.Type() == schemeType
      ensures lot.fineScheme == Some(SchemeFor(schemeType))
    {
      lot.SetFineScheme(SchemeFor(schemeType));
      SchemeTypeRoundTrip(schemeType, SchemeFor(schemeType));
    }

    /** The scheme in force; the fixed scheme when none was chosen. */
    method GetCurrentFineScheme() returns (scheme: FineScheme)
      modifies lot`fineScheme
      ensures lot.fineScheme == Some(scheme)
      ensures old(lot.fineScheme).Some? ==> scheme == old(lot.fineScheme).value
      ensures old(lot.fineScheme).None? ==> scheme == FixedFineScheme
    {
      scheme := lot.GetFineScheme();
    }
  }

  /** Choosing a scheme by type and then asking for the scheme in force gives back a scheme of that type. */
  method SetThenGetScheme(facade: ParkingFacade, t: FineSchemeType) returns (scheme: FineScheme)
    modifies facade.lot`fineScheme
    ensures scheme.Type() == t
  {
    facade.SetFineScheme(t);
    scheme := facade.GetCurrentFineScheme();
  }
}
