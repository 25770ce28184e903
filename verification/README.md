# Parking allocation and billing engine, in Dafny

This project models the in-memory engine of a multi-floor car park:
- the spot inventory: a lot of floors, floors of numbered rows, and rows of spots;
- the vehicle classes and which spot categories each may use;
- entry tickets;
- the three fine schemes: fixed, hourly and progressive;
- fines, receipts, and cash and card payments;
- the facade that parks a vehicle, checks it out and bills it.

Objects whose fields the engine updates in place are classes with `modifies` frames:
- `ParkingSpot`, `Floor`, `ParkingLot`;
- `Vehicle`, `Ticket`;
- `Fine`, `Receipt`, `Payment`;
- `ParkingFacade`.

The pure rules are functions, and lemmas state their properties:
- eligibility, the default layout and the duration rounding;
- the fee rule, the fine schemes and the exit charges;
- the ticket id and the card mask.

Modules, one per file:
- `Wrappers`: `Option` and `Result`.
- `Text`: digits and the short ids cut from a UUID.
- `Clock`: calendar date-times, elapsed minutes and the `yyyyMMddHHmm` stamp.
- `SpotKinds`: spot categories and states.
- `Vehicles`: classes, eligibility, duration, the factory.
- `FineSchemes`: the three fine policies.
- `Spots`: the spot cell and counting over spots.
- `Floors`: rows kept in row-number order.
- `Layout`: the 5 × 3 × 10 default layout as values.
- `Lots`: the lot.
- `Tickets`, `Fines`, `Payments`, `Receipts`: the objects of the same names.
- `Exits`: the exit rules as values.
- `Facade`: the orchestration.

Two facts of the code shape the eligibility and state rules:
- **Eligibility.** Only a `HandicappedVehicle` may take a RESERVED or HANDICAPPED spot. Its `canParkIn` admits every category (vehicle/HandicappedVehicle.java:12-14), while the other classes admit only COMPACT or REGULAR spots. The available-spot filter likewise offers those two categories only to the HANDICAPPED vehicle type (model/ParkingLot.java:92-112).
- **Spot states.** The engine only ever sets AVAILABLE and OCCUPIED (model/ParkingSpot.java:20-32, facade/ParkingFacade.java:48, 66 and 182).

## Model

| member | source | states |
|---|---|---|
| Text.DigitChar | model/ParkingLot.java:35 | a digit below ten is rendered as a decimal digit character |
| Text.NatToString | facade/ParkingFacade.java:117 | the decimal rendering of a count is non-empty, all digits, and a single digit for values below ten |
| Text.PadDigits | vehicle/Ticket.java:23-24 | a zero-padded field has exactly the requested width |
| Text.ParsePadDigits | vehicle/Ticket.java:23-24 | reading a zero-padded field back gives the number written |
| Text.ParseNatToString | facade/ParkingFacade.java:117 | reading a decimal rendering back gives the number written |
| Text.NatToStringInjective | model/ParkingLot.java:35 | distinct numbers have distinct decimal renderings |
| Text.PadDigitsInjective | vehicle/Ticket.java:23-24 | distinct numbers have distinct padded renderings of the same width |
| Text.UpperAscii | payment/Fine.java:16 | upper-casing keeps the length, turns each lower-case letter into the matching upper-case letter, and leaves every other character as it was |
| Text.ShortId | payment/Fine.java:16 | a short id is the prefix followed by the first eight characters of the UUID, upper-cased: lower-case letters become the matching upper-case letters and other characters are kept |
| Clock.DaysInMonth | vehicle/Vehicle.java:55 | a month has between 28 and 31 days |
| Clock.YearLength | vehicle/Vehicle.java:55 | a year spans 366 days when it is a leap year and 365 otherwise, both by day count and by summing its months |
| Clock.EpochSecondMonotone | vehicle/Vehicle.java:55 | a strictly later date-time never has a smaller second count, and with an equal second count it has the larger nanosecond |
| Clock.EpochNanoMonotone | vehicle/Vehicle.java:55 | a strictly later date-time has a strictly larger nanosecond count |
| Clock.SecondsMonotone | vehicle/Vehicle.java:55-56 | a longer interval in nanoseconds never has fewer whole seconds |
| Clock.ElapsedMinutes | vehicle/Vehicle.java:55-56 | for a non-negative interval, measured to the nanosecond, the minutes are the whole minutes in it, with leftover seconds and fractions of a second dropped |
| Clock.WholeMinutes | vehicle/Vehicle.java:55-56 | rounding a forward interval down to whole seconds and then to whole minutes gives its whole minutes |
| Clock.ElapsedMinutesMonotone | vehicle/Vehicle.java:55-56 | a later end never gives fewer elapsed minutes |
| Clock.FormatMinute | vehicle/Ticket.java:23-24 | the `yyyyMMddHHmm` stamp is always twelve characters |
| Clock.FormatMinuteRoundTrip | vehicle/Ticket.java:23-24 | the stamp reads back as the same date-time with the seconds and nanoseconds dropped |
| Vehicles.CanParkIn | vehicle/Vehicle.java:66 | `canParkIn` of each class; what it allows is stated per class by the four eligibility lemmas and PrivilegedSpots below |
| Vehicles.MotorcycleEligibility | vehicle/Motorcycle.java:12-14 | a motorcycle may park in a COMPACT spot and in no other category |
| Vehicles.CarEligibility | vehicle/Car.java:12-15 | a car may park in COMPACT or REGULAR and nothing else; it may use every spot a motorcycle may |
| Vehicles.SuvEligibility | vehicle/SUV.java:12-14 | an SUV may park in REGULAR only; no category suits both an SUV and a motorcycle |
| Vehicles.HandicappedEligibility | vehicle/HandicappedVehicle.java:12-14 | a handicapped vehicle may park in every category, so it may park wherever any class may |
| Vehicles.PrivilegedSpots | vehicle/HandicappedVehicle.java:12-14 | HANDICAPPED and RESERVED spots accept a vehicle exactly when it is of the handicapped class |
| Vehicles.DiscountedRate | vehicle/HandicappedVehicle.java:16-18 | the discounted rate is 2.0 whatever the original rate |
| Vehicles.ClassFor | vehicle/VehicleFactory.java:5-17 | the class the factory builds for a type; ClassForInjective and Lots.SwitchMatchesVehicleClass state its properties |
| Vehicles.ClassForInjective | vehicle/VehicleFactory.java:5-17 | different vehicle types are built as different classes |
| Vehicles.HoursFromMinutes | vehicle/Vehicle.java:57-61 | the hours are the minutes rounded up to a whole hour, and never negative for a non-negative count |
| Vehicles.DurationHours | vehicle/Vehicle.java:50-64 | 0 when either time is missing; otherwise the elapsed minutes rounded up to whole hours |
| Vehicles.DurationExamples | vehicle/Vehicle.java:57-61 | 0, 1, 60, 61 and 1800 minutes give 0, 1, 1, 2 and 30 hours |
| Vehicles.HoursMonotone | vehicle/Vehicle.java:57-61 | more minutes never give fewer hours |
| Vehicles.DurationMonotoneInExit | vehicle/Vehicle.java:50-64 | a later exit never gives a shorter duration |
| Vehicles.SameDayDurations | vehicle/Vehicle.java:50-64 | from 10:00, an exit at 10:00, 10:01, 11:00 and 11:01 gives 0, 1, 1 and 2 hours |
| Vehicles.SubSecondDurations | vehicle/Vehicle.java:55-61 | fractions of a second count: from 10:00:00.9, an exit at 10:01:00.1 (59.2 seconds) gives 0 hours and one at 10:01:00.9 gives 1 |
| Vehicles.Vehicle.Motorcycle | vehicle/Motorcycle.java:7-9 | a new motorcycle has the given plate and card flag, type MOTORCYCLE, and no entry or exit time |
| Vehicles.Vehicle.Car | vehicle/Car.java:7-9 | a new car has the given plate and card flag, type CAR, and no entry or exit time |
| Vehicles.Vehicle.Suv | vehicle/SUV.java:7-9 | a new SUV has the given plate and card flag, type SUV, and no entry or exit time |
| Vehicles.Vehicle.Handicapped | vehicle/HandicappedVehicle.java:7-9 | a new handicapped vehicle has the given plate and type, always holds the card, and has no entry or exit time |
| Vehicles.Vehicle.SetEntryTime | vehicle/Vehicle.java:34-36 | only the entry time changes, to the value given |
| Vehicles.Vehicle.SetExitTime | vehicle/Vehicle.java:42-44 | only the exit time changes, to the value given |
| Vehicles.Vehicle.CalculateDuration | vehicle/Vehicle.java:50-64 | 0 while either time is unset; otherwise the elapsed minutes rounded up to whole hours |
| Vehicles.CreateVehicle | vehicle/VehicleFactory.java:5-17 | a new vehicle of the class for the type, with that type and plate; the card flag is passed through, except that HANDICAPPED forces it on; no times are set |
| FineSchemes.FineScheme.Name | payment/FineScheme.java:14-16 | the name each scheme is built with; OverstayReason puts it in the overstay fine's reason |
| FineSchemes.FineScheme.Type | payment/FineScheme.java:18-20 | the type each scheme is built with; SchemeTypeRoundTrip states that it identifies the scheme |
| FineSchemes.FineScheme.CalculateFine | payment/FineScheme.java:12 | dispatches to the scheme's own rule; OverstayExamples and Exits.ExitChargesFacts state its results |
| FineSchemes.FixedFine | payment/FixedFineScheme.java:10-12 | the fixed fine is 50.0 |
| FineSchemes.ProgressiveFine | payment/ProgressiveFineScheme.java:10-20 | the progressive fine lies between 50.0 and 500.0 |
| FineSchemes.FixedFineConstant | payment/FixedFineScheme.java:10-12 | the fixed fine does not depend on the overstay |
| FineSchemes.HourlyFine | payment/HourlyFineScheme.java:11-13 | 20.0 per overstay hour; HourlyFineLinear states that it is additive and strictly increasing |
| FineSchemes.HourlyFineLinear | payment/HourlyFineScheme.java:11-13 | the hourly fine is additive in the hours and strictly increasing |
| FineSchemes.ProgressiveFineMonotone | payment/ProgressiveFineScheme.java:10-20 | a longer overstay never gives a smaller progressive fine |
| FineSchemes.ProgressiveFineBoundaries | payment/ProgressiveFineScheme.java:11-19 | 24, 25, 48, 49, 72 and 73 hours give 50, 150, 150, 300, 300 and 500 |
| FineSchemes.SchemeFor | facade/ParkingFacade.java:224-241 | the scheme `setFineScheme` builds for a type; SchemeTypeRoundTrip states that it has that type and that every scheme is built this way |
| FineSchemes.SchemeTypeRoundTrip | payment/FineScheme.java:7-20 | the scheme built for a type reports that type, and every scheme is the one built for its own type |
| FineSchemes.OverstayExamples | payment/FineScheme.java:12 | a 30-hour stay is fined 50.0 under the fixed scheme and 120.0 under the hourly scheme; an overstay of 30 hours is fined 150.0 under the progressive scheme |
| Spots.ParkingSpot.constructor | model/ParkingSpot.java:14-22 | a new spot has the given id, category, rate, floor and row, is AVAILABLE and holds no vehicle |
| Spots.ParkingSpot.AssignVehicle | model/ParkingSpot.java:24-27 | the spot holds the vehicle and is OCCUPIED; with a real vehicle, "holds a vehicle iff OCCUPIED" holds |
| Spots.ParkingSpot.RemoveVehicle | model/ParkingSpot.java:29-34 | returns the vehicle held before, and leaves the spot empty and AVAILABLE |
| Spots.ParkingSpot.IsAvailable | model/ParkingSpot.java:36-38 | whether the spot is AVAILABLE; Lots.AvailableForMembers states that the lot offers exactly such spots |
| Spots.ParkingSpot.SetStatus | model/ParkingSpot.java:68-70 | only the status changes, to the value given |
| Spots.AssignThenRemove | model/ParkingSpot.java:24-34 | assigning a vehicle and then removing it gives that vehicle back and leaves the spot empty and AVAILABLE |
| Spots.CountStatus | model/ParkingLot.java:145-153 | a count of spots in one state never exceeds the number of spots |
| Spots.CountTwoStatuses | model/Floor.java:37-55 | the spots in two different states together never outnumber the spots |
| Spots.CountType | model/ParkingLot.java:39-51 | a count of spots of one category never exceeds the number of spots |
| Spots.IndexOfId | model/ParkingLot.java:119-126 | finds the first position holding the id, or reports that no spot has it |
| Spots.LookupOwnId | model/ParkingLot.java:119-126 | when ids are distinct, looking up a spot's own id finds that spot |
| Floors.InsertSorted | model/Floor.java:16-17 | inserting a row number adds exactly that number to the row order |
| Floors.InsertSortedAscending | model/Floor.java:16-17 | inserting a new row number keeps the row order strictly ascending |
| Floors.InsertSortedLast | model/Floor.java:16-17 | a row number larger than all others goes at the end |
| Floors.RowsConcatOtherRow | model/Floor.java:21-27 | storing a row not yet listed leaves the listed spots unchanged |
| Floors.RowsConcatSplit | model/Floor.java:21-27 | the spots of two runs of rows are the spots of each run, one after the other |
| Floors.AppendRow | model/Floor.java:16-27 | adding a row numbered after all others appends its spots to the floor's spots |
| Floors.InsertRowLength | model/Floor.java:16-27 | adding a new row grows the floor's spot list by the row's size |
| Floors.RowsConcatMembers | model/Floor.java:21-27 | a spot is on the floor exactly when it is in one of the floor's rows |
| Floors.Floor.constructor | model/Floor.java:10-14 | a new floor has its number, no rows, no spots and a spot count of 0 |
| Floors.Floor.AddRow | model/Floor.java:16-19 | the row is stored under its number and the count grows by its size; for a new row the count stays equal to the spots listed; a row numbered after all others appends its spots |
| Floors.Floor.GetSpots | model/Floor.java:21-27 | returns the concatenation of the rows in row-number order |
| Floors.Floor.GetSpotsByRow | model/Floor.java:29-31 | returns the stored row, or an empty list for an unknown row |
| Floors.Floor.GetAvailableCount | model/Floor.java:37-45 | returns the number of AVAILABLE spots on the floor |
| Floors.Floor.GetOccupiedCount | model/Floor.java:47-55 | returns the number of OCCUPIED spots on the floor |
| Floors.AvailablePlusOccupied | model/Floor.java:37-55 | available plus occupied never exceeds the floor's spots |
| Layout.SpotIdFor | model/ParkingLot.java:35 | the id `F<f>-R<r>-S<s>`; SpotIdParts and SpotIdInjective state what it carries and that it is unique |
| Layout.Classify | model/ParkingLot.java:39-51 | category and rate by position; DefaultCategory, DefaultRate and the count lemmas below state its results |
| Layout.LayoutPosition | model/ParkingLot.java:28-60 | the spot built for floor f, row r and position s is at place 30(f-1) + 10(r-1) + (s-1) of the default layout |
| Layout.LayoutCoordinates | model/ParkingLot.java:28-60 | every place of the default layout lies on floors 1 to 5 and rows 1 to 3, and is located by its floor, row and position |
| Layout.DefaultCategory | model/ParkingLot.java:39-51 | each place of the default layout gets the category of its position rule |
| Layout.DefaultRate | model/ParkingLot.java:39-51 | the rate goes with the category: 2.0 for HANDICAPPED and COMPACT, 5.0 for REGULAR, 10.0 for RESERVED |
| Layout.LayoutCount | model/ParkingLot.java:39-51 | the number of spots of a category among the first places never exceeds the places counted |
| Layout.LayoutCountTotal | model/ParkingLot.java:39-51 | the four category counts add up to the number of places |
| Layout.HandicappedCount | model/ParkingLot.java:39-41 | the first n places hold min(n, 2) HANDICAPPED spots |
| Layout.ReservedCount | model/ParkingLot.java:42-44 | RESERVED spots are exactly the last three places |
| Layout.CompactCount | model/ParkingLot.java:45-47 | COMPACT spots are the first three of each row, minus the two HANDICAPPED ones |
| Layout.DefaultLayoutCounts | model/ParkingLot.java:39-51 | the layout has 2 HANDICAPPED, 3 RESERVED, 43 COMPACT and 102 REGULAR spots |
| Layout.SpotIdParts | model/ParkingLot.java:35 | a spot id `F<f>-R<r>-S<s>` carries the floor digit, the row digit and the position in decimal at fixed places |
| Layout.SpotIdInjective | model/ParkingLot.java:35 | different positions get different ids |
| Layout.DefaultIdsDistinct | model/ParkingLot.java:28-60 | any two spots of the default layout have different ids |
| Layout.RowInfos | model/ParkingLot.java:34-55 | a row of the layout has as many spots as requested |
| Layout.FloorInfos | model/ParkingLot.java:31-58 | a floor of the layout has ten spots per row |
| Layout.LayoutInfos | model/ParkingLot.java:28-61 | the layout has thirty spots per floor |
| Layout.LayoutStep | model/ParkingLot.java:28-61 | appending floor f's spots to those of the floors before it gives the layout up to floor f |
| Layout.Infos | model/ParkingSpot.java:14-22 | a spot's fixed attributes are read off, one per spot |
| Layout.RowInfosAt | model/ParkingLot.java:34-55 | place s of row r holds the spot built for position s + 1 |
| Layout.FloorInfosAt | model/ParkingLot.java:31-58 | a floor places row r position s at 10(r-1) + (s-1) |
| Layout.LayoutInfosAt | model/ParkingLot.java:28-61 | the layout places floor f, row r and position s at 30(f-1) + 10(r-1) + (s-1) |
| Layout.DefaultLayoutFromInfos | model/ParkingLot.java:28-61 | spots carrying the layout's attributes, in order, form the default layout |
| Layout.InfosAppend | model/ParkingLot.java:79-85 | the attributes of joined spot lists are the attributes of each, joined |
| Layout.CountTypeLayout | model/ParkingLot.java:39-51 | spots whose categories follow the position rule have the rule's category counts |
| Layout.DefaultLayoutIds | model/ParkingLot.java:28-61 | the default layout's ids are all distinct |
| Layout.DefaultLayoutCategories | model/ParkingLot.java:39-51 | every spot of the default layout has the category its position dictates |
| Layout.DefaultLayoutFacts | model/ParkingLot.java:28-61 | the default layout has distinct ids and 2 HANDICAPPED, 3 RESERVED, 43 COMPACT and 102 REGULAR spots |
| Lots.SwitchAllows | model/ParkingLot.java:92-112 | the per-type category test of the available-spot filter; SwitchMatchesVehicleClass states that it agrees with `canParkIn` |
| Lots.SwitchMatchesVehicleClass | model/ParkingLot.java:92-112 | the filter's per-type category test agrees with the eligibility of the class built for that type |
| Lots.AvailableFor | model/ParkingLot.java:87-117 | the filtered list is never longer than the lot |
| Lots.AvailableForMembers | model/ParkingLot.java:87-117 | a spot is offered exactly when it is in the lot, AVAILABLE and of a category the type's branch accepts |
| Lots.OccupancyRate | model/ParkingLot.java:128-139 | the rate lies in [0, 100]; it is 0 exactly when nothing is occupied, and 100 exactly when a non-empty lot is full |
| Lots.ParkingLot.constructor | model/ParkingLot.java:15-18 | a new lot has no floors, no revenue and no fine scheme |
| Lots.ParkingLot.InitializeDefault | model/ParkingLot.java:27-64 | appends five floors numbered 1 to 5, each holding rows 1 to 3 in order with a spot count of 30, so the lot gains 150 spots after the existing ones; the new spots form the default layout, all AVAILABLE and empty |
| Lots.ParkingLot.AddDefaultFloors | model/ParkingLot.java:28-61 | the floor loop appends floors numbered 1 to 5 of the layout, each with rows 1 to 3 in order and a spot count of 30, whose spots follow the lot's existing spots, all AVAILABLE |
| Lots.ParkingLot.AddDefaultFloor | model/ParkingLot.java:29-60 | appends one floor numbered f, with rows 1 to 3 in order and a spot count of 30, whose spots are floor f of the layout, all AVAILABLE and empty |
| Lots.ParkingLot.AddFloor | model/ParkingLot.java:66-68 | the floor is appended and its spots follow the lot's existing spots |
| Lots.ParkingLot.GetFloor | model/ParkingLot.java:70-77 | returns the first floor with the number, or null when no floor has it |
| Lots.ParkingLot.GetAllSpots | model/ParkingLot.java:79-85 | returns every floor's spots, floor after floor |
| Lots.ParkingLot.GetAvailableSpotsByVehicle | model/ParkingLot.java:87-117 | returns the AVAILABLE spots the vehicle type may use, in lot order |
| Lots.ParkingLot.GetSpot | model/ParkingLot.java:119-126 | returns the first spot with the id, or null when there is none |
| Lots.ParkingLot.GetTotalSpots | model/ParkingLot.java:141-143 | returns the number of spots in the lot |
| Lots.ParkingLot.GetOccupiedSpots | model/ParkingLot.java:145-153 | returns the number of OCCUPIED spots, never more than the total |
| Lots.ParkingLot.GetOccupancyRate | model/ParkingLot.java:128-139 | returns occupied × 100 / total, or 0 for an empty lot, within [0, 100] |
| Lots.ParkingLot.AddRevenue | model/ParkingLot.java:159-161 | revenue grows by exactly the amount |
| Lots.ParkingLot.SetTotalRevenue | model/ParkingLot.java:176-178 | revenue becomes the value given |
| Lots.ParkingLot.SetFineScheme | model/ParkingLot.java:163-166 | the scheme given becomes the scheme in force |
| Lots.ParkingLot.GetFineScheme | model/ParkingLot.java:168-173 | returns the last scheme set; when none was set, installs and returns the fixed scheme |
| Lots.AllFreeAppend | model/ParkingLot.java:79-85 | joining two lists of free spots gives a list of free spots |
| Lots.BuildFloor | model/ParkingLot.java:29-58 | builds floor f of the layout: numbered f, rows 1 to 3 in order, each the ten spots of that row, all free, with a spot count of 30, equal to its spots |
| Lots.AddDefaultRow | model/ParkingLot.java:31-57 | stores row r of the layout under r and appends r to the row order; the floor's spots are then rows 1 to r of the layout, all free |
| Lots.LayoutRowsStore | model/ParkingLot.java:31-57 | storing row r of the layout keeps every stored row a row of the layout |
| Lots.BuildRow | model/ParkingLot.java:32-55 | builds the ten free spots of row r of the layout |
| Lots.NewDefaultLot | model/ParkingLot.java:27-64 | an initialized new lot has 150 spots with distinct ids: 2 HANDICAPPED, 3 RESERVED, 43 COMPACT and 102 REGULAR, all AVAILABLE; it has no revenue and no scheme |
| Lots.AllAvailable | model/ParkingLot.java:128-153 | in a list of free spots, every spot counts as AVAILABLE and none as OCCUPIED |
| Tickets.TicketId | vehicle/Ticket.java:22-26 | the id starts with "T-", is 15 characters longer than the plate, and has a dash before the 12-character stamp |
| Tickets.TicketIdRoundTrip | vehicle/Ticket.java:22-26 | the plate and the entry minute can be read back from the id |
| Tickets.TicketIdEqual | vehicle/Ticket.java:22-26 | two ids are equal exactly when the plates are equal and the entries fall in the same minute |
| Tickets.Ticket.constructor | vehicle/Ticket.java:14-20 | a new ticket is active for the vehicle and spot, takes the vehicle's entry time, and has the id for the plate and that time |
| Tickets.Ticket.Deactivate | vehicle/Ticket.java:48-50 | the ticket is no longer active |
| Fines.Fine.constructor | payment/Fine.java:15-23 | a new fine has a "FINE-" id, the given plate, amount and reason, and an issue time; it is unpaid, with no paid date |
| Fines.Fine.MarkPaid | payment/Fine.java:25-28 | the fine is paid, with the paid date recorded; nothing else changes |
| Fines.Fine.SetFineId | payment/Fine.java:34-36 | only the id changes |
| Fines.SumAmountsAppend | payment/Receipt.java:29-32 | the amounts of two lists of fines together sum to the sum of each |
| Fines.SumAmountsBounds | payment/Receipt.java:29-32 | with non-negative amounts, the sum is non-negative and at least any single amount |
| Payments.CalculateChange | payment/CashPayment.java:13-15 | the cash tendered minus the amount; ChangeNonNegativeIffValid relates it to validation |
| Payments.CashValid | payment/CashPayment.java:18-20 | enough cash was tendered; ChangeNonNegativeIffValid and ProcessCash state its role |
| Payments.ChangeNonNegativeIffValid | payment/CashPayment.java:13-20 | the change is non-negative exactly when the cash payment validates |
| Payments.ValidateCard | payment/CardPayment.java:19-30 | a card is valid exactly when it has a 16-character number, a 4-character expiry and a 3-character CVV, none missing |
| Payments.MaskCardNumber | payment/CardPayment.java:32-37 | four stars followed by the last four characters when the number has at least four; otherwise only the four stars |
| Payments.MaskHidesPrefix | payment/CardPayment.java:32-37 | numbers ending in the same four characters mask alike |
| Payments.Payment.Cash | payment/CashPayment.java:7-11 | a new cash payment is PENDING, with its amount and tendered cash, and its change fixed at construction |
| Payments.Payment.Card | payment/CardPayment.java:10-17 | a new card payment is PENDING, with its amount and card fields, and its mask fixed at construction |
| Payments.Payment.Validate | payment/CardPayment.java:40-42 | `validate` of the concrete kind: CashValid for cash, ValidateCard for a card; ProcessPayment records its answer |
| Payments.Payment.ProcessPayment | payment/CashPayment.java:23-31 | returns whether the payment validates, and records COMPLETED if so and FAILED otherwise |
| Payments.Payment.SetStatus | payment/Payment.java:38-40 | only the status changes |
| Payments.ProcessTwice | payment/CardPayment.java:45-53 | processing twice gives the same answer and status as processing once |
| Payments.ProcessCash | payment/CashPayment.java:7-31 | a cash payment completes exactly when the change is non-negative, and fails otherwise |
| Receipts.Receipt.constructor | payment/Receipt.java:21-27 | a new receipt has a "RCP-" id, the ticket, an exit time, no fines and a fine total of 0 |
| Receipts.Receipt.AddFine | payment/Receipt.java:29-32 | the fine is appended at the end and the fine total grows by its amount, so the total stays the sum of the listed fines |
| Receipts.Receipt.CalculateTotal | payment/Receipt.java:34-37 | the total is fixed at fee plus fine total, and returned |
| Receipts.Receipt.SetExitTime | payment/Receipt.java:51-53 | only the exit time changes |
| Receipts.Receipt.SetDurationHours | payment/Receipt.java:59-61 | only the duration changes |
| Receipts.Receipt.SetParkingFee | payment/Receipt.java:67-69 | only the fee changes |
| Receipts.Receipt.SetPayment | payment/Receipt.java:87-89 | only the payment changes |
| Receipts.AddFines | facade/ParkingFacade.java:137-139 | adding fines one by one appends exactly them, in order, and grows the fine total by their sum |
| Exits.FirstHolding | facade/ParkingFacade.java:81-89 | finds the first OCCUPIED spot holding a vehicle with exactly the plate, or reports that no spot does |
| Exits.HandicappedVehicleFee | facade/ParkingFacade.java:98-104 | a handicapped vehicle parks free in a HANDICAPPED spot and at 2.0 an hour anywhere else |
| Exits.CardOnlyCountsInHandicappedSpots | facade/ParkingFacade.java:98-104 | outside HANDICAPPED spots the card does not change the fee |
| Exits.ParkingFee | facade/ParkingFacade.java:98-104 | the fee rule in the source's order; HandicappedVehicleFee, CardOnlyCountsInHandicappedSpots and FeeBounds state its results |
| Exits.FeeBounds | facade/ParkingFacade.java:98-104 | the fee is never negative, and never more than the hours at the larger of the spot's rate and 2.0 |
| Exits.Charges | facade/ParkingFacade.java:116-129 | the amount and reason of each fine the exit issues, one charge per fine |
| Exits.ChargesAppend | facade/ParkingFacade.java:111-130 | the charges of joined fine lists are the charges of each, joined |
| Exits.SumChargesOf | payment/Receipt.java:29-32 | the charges sum to the fines' amounts |
| Exits.OverstayReason | facade/ParkingFacade.java:116-117 | the overstay fine's reason: the total hours and the scheme's name |
| Exits.ExitCharges | facade/ParkingFacade.java:111-130 | the fines an exit adds, overstay first; ExitChargesFacts states when each is charged and what they sum to |
| Exits.ExitChargesFacts | facade/ParkingFacade.java:111-130 | one overstay charge exactly when the stay exceeds 24 hours; a 100.0 reserved-spot charge exactly when the spot is RESERVED; their sum is the scheme's fine on the hours beyond 24, plus 100.0 for a RESERVED spot |
| Exits.ExitTotal | facade/ParkingFacade.java:108-141 | the receipt total is the fee, plus the unpaid fines, plus the overstay fine past 24 hours, plus 100.0 for a RESERVED spot |
| Facade.MakeReceipt | facade/ParkingFacade.java:132-141 | a new receipt with the ticket, fee, hours and exit time, listing exactly the fines given, with total = fee + their sum |
| Facade.ParkingFacade.constructor | facade/ParkingFacade.java:15-19 | the facade works on the lot and puts the fixed scheme in force |
| Facade.ParkingFacade.FreeSpot | facade/ParkingFacade.java:44-51 | the first spot with the id, if any, becomes empty and AVAILABLE; no other spot may change |
| Facade.ParkingFacade.ParkVehicle | facade/ParkingFacade.java:55-75 | fails with "Spot not available", changing nothing, exactly when no spot has the id or it is not AVAILABLE; otherwise the spot holds a new vehicle of the plate, type and class, with entry time now, and is OCCUPIED; the ticket is active and has the vehicle, the spot and the id for plate and entry; category and plate reuse are not checked; no other spot may change |
| Facade.ParkingFacade.IssueExitFines | facade/ParkingFacade.java:111-130 | issues the exit charges under the scheme in force, as new unpaid fines for the plate, overstay first; the fixed scheme is installed if none was set and the overstay fine needed a scheme |
| Facade.ParkingFacade.Bill | facade/ParkingFacade.java:106-141 | the receipt lists the unpaid fines, then the exit's new fines; it carries the ticket's fee and hours, and its total is the fee plus all fines |
| Facade.ParkingFacade.Settle | facade/ParkingFacade.java:143-146 | revenue grows by the total and the spot looked up by the exited spot's id is freed; that is the exited spot when ids are distinct |
| Facade.ParkingFacade.Conclude | facade/ParkingFacade.java:106-148 | for a vehicle with an entry time: the exit receipt is issued, revenue grows by its total, and the spot is freed |
| Facade.ParkingFacade.CheckOut | facade/ParkingFacade.java:95-148 | the exit time is now; it fails with a null-reference error, leaving spot, revenue and scheme as they were, exactly when the vehicle has no entry time; otherwise the receipt records the rounded-up hours, the fee rule, the unpaid fines and the exit fines, and a total that revenue grows by; the spot is freed |
| Facade.ParkingFacade.ExitVehicle | facade/ParkingFacade.java:77-149 | fails with "No vehicle found with plate", changing nothing, exactly when no OCCUPIED spot holds the plate; otherwise it checks out the first such spot, with the receipt and revenue of CheckOut; it may change only the vehicle's exit time, the spot that spot's id looks up, the revenue and the scheme, so the entry time is kept |
| Facade.ParkingFacade.PayFines | facade/ParkingFacade.java:209-216 | every fine in the list ends paid; those already paid keep their paid date, the others are paid now; ids do not change |
| Facade.ParkingFacade.SetFineScheme | facade/ParkingFacade.java:224-241 | the scheme in force is the one for the type, and it reports that type |
| Facade.ParkingFacade.GetCurrentFineScheme | facade/ParkingFacade.java:243-245 | returns the scheme in force, or installs and returns the fixed scheme when none was set |
| Facade.SetThenGetScheme | facade/ParkingFacade.java:224-245 | choosing a scheme type and then asking for the scheme in force gives a scheme of that type |

## Left out

- Database access is not part of this model:
  - `getUnpaidFines` is an input sequence of fines;
  - the saves, `updateParkingSpot`, `markFineAsPaid` and `setActiveFineScheme` have no effect on the in-memory state and are omitted;
  - `initializeSystem`'s connection call is omitted.
- The Swing user interface, `Main` and `TestDB` are not part of this model. Plates are compared exactly, as the engine does; trimming and upper-casing happen only in the user interface.
- `loadParkedVehiclesFromDB` is not modelled: it calls a database method that does not exist.
- `processPayment` of the facade is not modelled: it casts an untyped object and uses a hard-coded card. The payment objects themselves are modelled.
- The report builders, `printReceipt` and the `toString` methods are not modelled: they only format text.
- The singletons `getInstance` are replaced by an explicit lot and facade object. Concurrency does not arise.
- `initializeSystem`, `getAvailableSpots` and `getSpot` of the facade only delegate to the lot operations modelled in `Lots`.
- `SpotNotAvailableException` is not modelled: it is never thrown; the facade reports an illegal-state error instead.
- Clock and randomness:
  - `LocalDateTime.now()` is a `now` parameter;
  - `UUID.randomUUID()` is an id parameter.
  - All clock reads in `exitVehicle` are taken as one instant `now`: the exit time, the issue time of each new fine and the receipt time. The receipt constructor's own clock read is then overwritten by the exit time, as in the source.
  - Date-times span years 1 to 9999, to the nanosecond, with no time zone.
  - `payFines` reads the clock once per fine, inside `markPaid`; `Facade.ParkingFacade.PayFines` gives every fine it marks paid the same instant `now`.
- Strings are sequences of Unicode characters. Java's `length()` and `substring` count UTF-16 code units, so a string holding a character outside the Basic Multilingual Plane is one longer in Java: the card checks of `Payments.ValidateCard` and the mask of `Payments.MaskCardNumber` agree with the source only on strings without such characters (every digit string among them).
- The console messages `initializeDefault` and `setFineScheme` print with `System.out.println` are not modelled: they change no state.
- Amounts are `real`: the engine's `double` rounding is not modelled. All amounts in the engine are small exact constants and their sums and products.
- Floor rows are listed in row-number order, where the source iterates a hash map in unspecified order. For the default layout, which adds rows 1, 2, 3 in turn, both give the same spots.
- The local `totalFines` in `exitVehicle` is computed but never read, so it is not modelled.
- Exiting a vehicle with no entry time fails in the source with a null-pointer exception while the ticket is built. The model returns `Err(NullPointer)` at the same point: the exit time is already set and nothing else has changed.
- Facade.ParkingFacade.FreeSpot: like the source, `exitVehicle` frees the first spot with the exited spot's id. `Exits.Freed` states that this is the exited spot itself only when spot ids are distinct, as `Layout.DefaultLayoutIds` proves for the default layout.
- Floors.Floor.AddRow: "the count equals the spots listed" is stated only for a row number not already present, because the source counts a replaced row twice.
- `getTotalSpots` of a floor is the `totalSpots` field itself, with no separate accessor.
