/** The enumerations of spot categories and spot states. */
module SpotKinds {

  /** The category of a spot; it decides eligibility and the base rate. */
  datatype ParkingSpotType = COMPACT | REGULAR | HANDICAPPED | RESERVED

  /** The state of a spot. Only AVAILABLE and OCCUPIED are ever set by the engine. */
  datatype SpotStatus = AVAILABLE | OCCUPIED | RESERVED | OUT_OF_SERVICE
}
