/**
 * Vehicles: the four vehicle classes with their eligibility rules, the
 * factory that picks the class from a requested type, and the stay duration
 * rounded up to whole hours.
 */
module Vehicles {
  import opened Wrappers
  import opened SpotKinds
  import opened Clock

  /** The type a driver asks for at entry. */
  datatype VehicleType = MOTORCYCLE | CAR | SUV | HANDICAPPED

  /** The concrete vehicle class (Motorcycle, Car, SUV or HandicappedVehicle). */
  datatype VehicleClass = MotorcycleClass | CarClass | SuvClass | HandicappedVehicleClass

  /** `canParkIn` of each vehicle class. */
  function CanParkIn(c: VehicleClass, t: ParkingSpotType): bool {
    match c
    case MotorcycleClass => t == COMPACT
    case CarClass => t == COMPACT || t == REGULAR
    case SuvClass => t == REGULAR
    case HandicappedVehicleClass => true
  }

  lemma MotorcycleEligibility(t: ParkingSpotType)
    ensures CanParkIn(MotorcycleClass, t) <==> t == COMPACT
    ensures !CanParkIn(MotorcycleClass, REGULAR) && !CanParkIn(MotorcycleClass, ParkingSpotType.HANDICAPPED)
    ensures !CanParkIn(MotorcycleClass, ParkingSpotType.RESERVED)
  {
  }

  lemma CarEligibility(t: ParkingSpotType)
    ensures CanParkIn(CarClass, t) <==> t == COMPACT || t == REGULAR
    ensures !CanParkIn(CarClass, ParkingSpotType.HANDICAPPED) && !CanParkIn(CarClass, ParkingSpotType.RESERVED)
    ensures CanParkIn(MotorcycleClass, t) ==> CanParkIn(CarClass, t)
  {
  }

  lemma SuvEligibility(t: ParkingSpotType)
    ensures CanParkIn(SuvClass, t) <==> t == REGULAR
    ensures !(CanParkIn(SuvClass, t) && CanParkIn(MotorcycleClass, t))
  {
  }

  /** A HandicappedVehicle may use every category, so it may go wherever any other class may. */
  lemma HandicappedEligibility(c: VehicleClass, t: ParkingSpotType)
    ensures CanParkIn(HandicappedVehicleClass, t)
    ensures CanParkIn(c, t) ==> CanParkIn(HandicappedVehicleClass, t)
  {
  }

  /** Only a HandicappedVehicle is ever eligible for a HANDICAPPED or RESERVED spot. */
  lemma PrivilegedSpots(c: VehicleClass, t: ParkingSpotType)
    requires t == ParkingSpotType.HANDICAPPED || t == ParkingSpotType.RESERVED
    ensures CanParkIn(c, t) <==> c == HandicappedVehicleClass
  {
  }

  /** `HandicappedVehicle.getDiscountedRate`: the flat handicapped rate. */
  function DiscountedRate(originalRate: real): (rate: real)
    ensures rate == 2.0
  {
    2.0
  }

  /** The class `VehicleFactory.createVehicle` builds for a requested type. */
  function ClassFor(t: VehicleType): VehicleClass {
    match t
    case MOTORCYCLE => MotorcycleClass
    case CAR => CarClass
    case SUV => SuvClass
    case HANDICAPPED => HandicappedVehicleClass
  }

  /** The factory is one-to-one: the class it builds determines the requested type. */
  lemma ClassForInjective(t: VehicleType, t': VehicleType)
    requires ClassFor(t) == ClassFor(t')
    ensures t == t'
  {
  }

  /**
   * Rounds a signed number of whole minutes up to whole hours the way
   * `calculateDuration` does: Java division, plus one when the Java remainder
   * is positive.
   */
  function HoursFromMinutes(minutes: int): (hours: int)
    ensures (hours - 1) * 60 < minutes <= hours * 60
    ensures minutes >= 0 ==> hours >= 0
  {
    var h := JavaDiv(minutes, 60);
    if JavaRem(minutes, 60) > 0 then h + 1 else h
  }

  /** `calculateDuration` over the two optional timestamps: 0 when either is missing. */
  function DurationHours(entry: Option<DateTime>, exit: Option<DateTime>): (hours: int)
    ensures entry.None? || exit.None? ==> hours == 0
    ensures entry.Some? && exit.Some? ==>
      var m := ElapsedMinutes(entry.value, exit.value);
      (hours - 1) * 60 < m <= hours * 60
  {
    if entry.None? || exit.None? then 0
    else HoursFromMinutes(ElapsedMinutes(entry.value, exit.value))
  }

  lemma DurationExamples()
    ensures HoursFromMinutes(0) == 0
    ensures HoursFromMinutes(1) == 1
    ensures HoursFromMinutes(60) == 1
    ensures HoursFromMinutes(61) == 2
    ensures HoursFromMinutes(30 * 60) == 30
  {
  }

  /** Rounding up never decreases: a longer stay is charged at least as many hours. */
  lemma HoursMonotone(m: int, m': int)
    requires m <= m'
    ensures HoursFromMinutes(m) <= HoursFromMinutes(m')
  {
  }

  /** The stay duration never decreases as the exit time moves later. */
  lemma DurationMonotoneInExit(entry: DateTime, exit: DateTime, exit': DateTime)
    requires Before(exit, exit')
    ensures DurationHours(Some(entry), Some(exit)) <= DurationHours(Some(entry), Some(exit'))
  {
    ElapsedMinutesMonotone(entry, exit, exit');
    HoursMonotone(ElapsedMinutes(entry, exit), ElapsedMinutes(entry, exit'));
  }

  /** Same-day clock readings: 10:00 to 10:01 is one hour, to 11:00 one, to 11:01 two, none at all is zero. */
  lemma SameDayDurations(d: DateTime)
    requires d.hour == 10 && d.minute == 0 && d.second == 0
    ensures DurationHours(Some(d), Some(d)) == 0
    ensures DurationHours(Some(d), Some(d.(minute := 1))) == 1
    ensures DurationHours(Some(d), Some(d.(hour := 11))) == 1
    ensures DurationHours(Some(d), Some(d.(hour := 11, minute := 1))) == 2
  {
    assert EpochNano(d.(minute := 1)) == EpochNano(d) + 60 * NANOS_PER_SECOND;
    assert EpochNano(d.(hour := 11)) == EpochNano(d) + 3600 * NANOS_PER_SECOND;
    assert EpochNano(d.(hour := 11, minute := 1)) == EpochNano(d) + 3660 * NANOS_PER_SECOND;
  }

  /**
   * Fractions of a second count: from 10:00:00.9, an exit at 10:01:00.1 is
   * 59.2 seconds later and costs no hour, one at 10:01:00.9 costs one.
   */
  lemma SubSecondDurations(d: DateTime)
    requires d.hour == 10 && d.minute == 0 && d.second == 0 && d.nano == 900_000_000
    ensures DurationHours(Some(d), Some(d.(minute := 1, nano := 100_000_000))) == 0
    ensures DurationHours(Some(d), Some(d.(minute := 1))) == 1
  {
    assert EpochNano(d.(minute := 1, nano := 100_000_000)) == EpochNano(d) + 59_200_000_000;
    assert EpochNano(d.(minute := 1)) == EpochNano(d) + 60 * NANOS_PER_SECOND;
  }

  /** A vehicle: the plate, type tag and card flag are fixed; entry and exit times are set later. */
  class Vehicle {
    const licensePlate: string
    const vehicleType: VehicleType
    const hasHandicappedCard: bool
    const vehicleClass: VehicleClass
    var entryTime: Option<DateTime>
    var exitTime: Option<DateTime>

    constructor Motorcycle(licensePlate: string, hasHandicappedCard: bool)
      ensures this.licensePlate == licensePlate && this.hasHandicappedCard == hasHandicappedCard
      ensures vehicleType == MOTORCYCLE && vehicleClass == MotorcycleClass
      ensures entryTime == None && exitTime == None
    {
      this.licensePlate := licensePlate;
      this.vehicleType := VehicleType.MOTORCYCLE;
      this.hasHandicappedCard := hasHandicappedCard;
      this.vehicleClass := MotorcycleClass;
      this.entryTime := None;
      this.exitTime := None;
    }

    constructor Car(licensePlate: string, hasHandicappedCard: bool)
      ensures this.licensePlate == licensePlate && this.hasHandicappedCard == hasHandicappedCard
      ensures vehicleType == CAR && vehicleClass == CarClass
      ensures entryTime == None && exitTime == None
    {
      this.licensePlate := licensePlate;
      this.vehicleType := VehicleType.CAR;
      this.hasHandicappedCard := hasHandicappedCard;
      this.vehicleClass := CarClass;
      this.entryTime := None;
      this.exitTime := None;
    }

    constructor Suv(licensePlate: string, hasHandicappedCard: bool)
      ensures this.licensePlate == licensePlate && this.hasHandicappedCard == hasHandicappedCard
      ensures vehicleType == SUV && vehicleClass == SuvClass
      ensures entryTime == None && exitTime == None
    {
      this.licensePlate := licensePlate;
      this.vehicleType := VehicleType.SUV;
      this.hasHandicappedCard := hasHandicappedCard;
      this.vehicleClass := SuvClass;
      this.entryTime := None;
      this.exitTime := None;
    }

    /** A HandicappedVehicle always carries the card; its type tag is the one passed in. */
    constructor Handicapped(licensePlate: string, vehicleType: VehicleType)
      ensures this.licensePlate == licensePlate && this.vehicleType == vehicleType
      ensures hasHandicappedCard && vehicleClass == HandicappedVehicleClass
      ensures entryTime == None && exitTime == None
    {
      this.licensePlate := licensePlate;
      this.vehicleType := vehicleType;
      this.hasHandicappedCard := true;
      this.vehicleClass := HandicappedVehicleClass;
      this.entryTime := None;
      this.exitTime := None;
    }

    method SetEntryTime(t: Option<DateTime>)
      modifies this`entryTime
      ensures entryTime == t
    {
      entryTime := t;
    }

    method SetExitTime(t: Option<DateTime>)
      modifies this`exitTime
      ensures exitTime == t
    {
      exitTime := t;
    }

    /** Whole hours between entry and exit, rounded up; 0 while either time is unset. */
    function CalculateDuration(): (hours: int)
      reads this
      ensures entryTime.None? || exitTime.None? ==> hours == 0
      ensures entryTime.Some? && exitTime.Some? ==>
        var m := ElapsedMinutes(entryTime.value, exitTime.value);
        (hours - 1) * 60 < m <= hours * 60
    {
      DurationHours(entryTime, exitTime)
    }

    function CanPark(t: ParkingSpotType): bool {
      CanParkIn(vehicleClass, t)
    }
  }

  /**
   * `VehicleFactory.createVehicle`: a new vehicle of the class matching the
   * type. The match is exhaustive, so the source's "unknown type" branch
   * cannot be reached.
   */
  method CreateVehicle(licensePlate: string, t: VehicleType, hasHandicappedCard: bool) returns (v: Vehicle)
    ensures fresh(v)
    ensures v.licensePlate == licensePlate && v.vehicleType == t
    ensures v.vehicleClass == ClassFor(t)
    ensures v.hasHandicappedCard == (hasHandicappedCard || t == VehicleType.HANDICAPPED)
    ensures v.entryTime == None && v.exitTime == None
  {
    if t == MOTORCYCLE {
      v := new Vehicle.Motorcycle(licensePlate, hasHandicappedCard);
    } else if t == CAR {
      v := new Vehicle.Car(licensePlate, hasHandicappedCard);
    } else if t == SUV {
      v := new Vehicle.Suv(licensePlate, hasHandicappedCard);
    } else {
      v := new Vehicle.Handicapped(licensePlate, t);
    }
  }
}
