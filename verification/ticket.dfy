/**
 * Parking tickets: the id "T-<plate>-<yyyyMMddHHmm>" built from the plate
 * and the entry minute, and the active flag that `deactivate` clears.
 */
module Tickets {
  import opened Wrappers
  import opened Clock
  import opened Spots
  import opened Vehicles

  /** `generateTicketId`: "T-", the plate, "-", the entry time as yyyyMMddHHmm. */
  function TicketId(plate: string, entry: DateTime): (id: string)
    ensures |id| == |plate| + 15
    ensures id[..2] == "T-" && id[|id| - 13] == '-'
  {
    "T-" + plate + "-" + FormatMinute(entry)
  }

  /** Reads the plate and the entry minute back out of a ticket id: the timestamp is the last 12 characters. */
  function ParseTicketId(id: string): Option<(string, LocalDateTime)> {
    if |id| < 15 || id[..2] != "T-" || id[|id| - 13] != '-' then None
    else Some((id[2..|id| - 13], ParseMinute(id[|id| - 12..])))
  }

  /** The id gives back the plate and the entry time to the minute. */
  lemma TicketIdRoundTrip(plate: string, entry: DateTime)
    ensures ParseTicketId(TicketId(plate, entry)) == Some((plate, ToMinute(entry)))
  {
    var id := TicketId(plate, entry);
    assert id[2..|id| - 13] == plate;
    assert id[|id| - 12..] == FormatMinute(entry);
    FormatMinuteRoundTrip(entry);
  }

  /**
   * Two tickets have the same id exactly when they are for the same plate
   * and were issued in the same minute; the seconds do not count.
   */
  lemma TicketIdEqual(plate: string, entry: DateTime, plate': string, entry': DateTime)
    ensures TicketId(plate, entry) == TicketId(plate', entry') <==>
      plate == plate' && ToMinute(entry) == ToMinute(entry')
  {
    if TicketId(plate, entry) == TicketId(plate', entry') {
      TicketIdRoundTrip(plate, entry);
      TicketIdRoundTrip(plate', entry');
    }
    if plate == plate' && ToMinute(entry) == ToMinute(entry') {
      assert FormatMinute(entry) == FormatMinute(entry');
    }
  }

  class Ticket {
    const ticketId: string
    const vehicle: Vehicle
    const spot: ParkingSpot
    const entryTime: DateTime
    var isActive: bool

    /**
     * A ticket for the vehicle in the spot, stamped with the vehicle's entry
     * time. The source formats that time, so it fails when there is none;
     * callers check for it first.
     */
    constructor(vehicle: Vehicle, spot: ParkingSpot)
      requires vehicle.entryTime.Some?
      ensures this.vehicle == vehicle && this.spot == spot
      ensures entryTime == vehicle.entryTime.value
      ensures ticketId == TicketId(vehicle.licensePlate, entryTime)
      ensures isActive
    {
      this.vehicle := vehicle;
      this.spot := spot;
      this.entryTime := vehicle.entryTime.value;
      this.isActive := true;
      this.ticketId := TicketId(vehicle.licensePlate, vehicle.entryTime.value);
    }

    /** Closes the ticket; there is no way to reopen it. */
    method Deactivate()
      modifies this`isActive
      ensures !isActive
    {
      isActive := false;
    }
  }
}
