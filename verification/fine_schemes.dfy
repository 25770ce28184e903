/**
 * The overstay fine strategies. The source's abstract `FineScheme` with its
 * three subclasses is a closed variant here; name and type are fixed per variant.
 */
module FineSchemes {

  datatype FineSchemeType = FIXED | PROGRESSIVE | HOURLY

  const HOURLY_RATE: real := 20.0

  datatype FineScheme = FixedFineScheme | HourlyFineScheme | ProgressiveFineScheme {

    function Name(): string {
      match this
      case FixedFineScheme => "Fixed Fine (RM50 flat)"
      case HourlyFineScheme => "Hourly Fine (RM20/hr)"
      case ProgressiveFineScheme => "Progressive Fine"
    }

    function Type(): FineSchemeType {
      match this
      case FixedFineScheme => FIXED
      case HourlyFineScheme => HOURLY
      case ProgressiveFineScheme => PROGRESSIVE
    }

    /** The fine for the given number of overstay hours. */
    function CalculateFine(overstayHours: int): real {
      match this
      case FixedFineScheme => FixedFine(overstayHours)
      case HourlyFineScheme => HourlyFine(overstayHours)
      case ProgressiveFineScheme => ProgressiveFine(overstayHours)
    }
  }

  /** A flat 50 whatever the overstay. */
  function FixedFine(overstayHours: int): (fine: real)
    ensures fine == 50.0
  {
    50.0
  }

  /** 20 per overstay hour. */
  function HourlyFine(overstayHours: int): real {
    overstayHours as real * HOURLY_RATE
  }

  /** Four tiers on the overstay hours: up to 24, 48, 72, and beyond. */
  function ProgressiveFine(overstayHours: int): (fine: real)
    ensures 50.0 <= fine <= 500.0
  {
    if overstayHours <= 24 then 50.0
    else if overstayHours <= 48 then 150.0
    else if overstayHours <= 72 then 300.0
    else 500.0
  }

  /** The fixed fine ignores its argument. */
  lemma FixedFineConstant(a: int, b: int)
    ensures FixedFine(a) == FixedFine(b)
  {
  }

  /** The hourly fine is additive and strictly increasing. */
  lemma HourlyFineLinear(a: int, b: int)
    ensures HourlyFine(a + b) == HourlyFine(a) + HourlyFine(b)
    ensures a < b ==> HourlyFine(a) < HourlyFine(b)
  {
  }

  /** The progressive fine never decreases as the overstay grows. */
  lemma ProgressiveFineMonotone(a: int, b: int)
    requires a <= b
    ensures ProgressiveFine(a) <= ProgressiveFine(b)
  {
  }

  lemma ProgressiveFineBoundaries()
    ensures ProgressiveFine(24) == 50.0 && ProgressiveFine(25) == 150.0
    ensures ProgressiveFine(48) == 150.0 && ProgressiveFine(49) == 300.0
    ensures ProgressiveFine(72) == 300.0 && ProgressiveFine(73) == 500.0
  {
  }

  /** The scheme `setFineScheme` installs for a type. */
  function SchemeFor(t: FineSchemeType): (s: FineScheme) {
    match t
    case FIXED => FixedFineScheme
    case PROGRESSIVE => ProgressiveFineScheme
    case HOURLY => HourlyFineScheme
  }

  /** Choosing a scheme by type and asking its type gives the type back, and vice versa. */
  lemma SchemeTypeRoundTrip(t: FineSchemeType, s: FineScheme)
    ensures SchemeFor(t).Type() == t
    ensures SchemeFor(s.Type()) == s
  {
  }

  /** A 30-hour stay overstays by 6 hours: fixed 50, hourly 120; a 30-hour overstay is 150 progressive. */
  lemma OverstayExamples()
    ensures FixedFineScheme.CalculateFine(30 - 24) == 50.0
    ensures HourlyFineScheme.CalculateFine(30 - 24) == 120.0
    ensures ProgressiveFineScheme.CalculateFine(30) == 150.0
  {
  }
}
