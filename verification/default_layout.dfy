/**
 * The default layout `ParkingLot.initializeDefault` builds: 5 floors of
 * 3 rows of 10 spots, created floor by floor, row by row, spot by spot.
 * Spot k of that sequence (0 <= k < 150) is described here in closed form,
 * with its category counts and the distinctness of its ids.
 */
module Layout {
  import opened Text
  import opened SpotKinds
  import opened Spots

  const FLOORS: nat := 5
  const ROWS_PER_FLOOR: nat := 3
  const SPOTS_PER_ROW: nat := 10
  const DEFAULT_SPOTS: nat := 150

  /** The id "F<f>-R<r>-S<s>" with the numbers written in decimal. */
  function SpotIdFor(f: nat, r: nat, s: nat): string {
    "F" + NatToString(f) + "-R" + NatToString(r) + "-S" + NatToString(s)
  }

  /** Category and hourly rate of spot s in row r on floor f. */
  function Classify(f: int, r: int, s: int): (ParkingSpotType, real) {
    if f == 1 && r == 1 && s <= 2 then (ParkingSpotType.HANDICAPPED, 2.0)
    else if f == 5 && r == 3 && s >= 8 then (ParkingSpotType.RESERVED, 10.0)
    else if s <= 3 then (COMPACT, 2.0)
    else (REGULAR, 5.0)
  }

  /** The fixed fields of spot s in row r on floor f. */
  function DefaultSpot(f: nat, r: nat, s: nat): SpotInfo {
    SpotInfo(SpotIdFor(f, r, s), Classify(f, r, s).0, Classify(f, r, s).1, f, r)
  }

  /** The k-th spot created: floors outermost, then rows, then spots, all counted from 1. */
  function DefaultLayoutAt(k: nat): SpotInfo
    requires k < DEFAULT_SPOTS
  {
    DefaultSpot(k / 30 + 1, k % 30 / 10 + 1, k % 10 + 1)
  }

  /** Spot s of row r on floor f is created at position (f-1)*30 + (r-1)*10 + (s-1). */
  lemma LayoutPosition(f: nat, r: nat, s: nat)
    requires 1 <= f <= FLOORS && 1 <= r <= ROWS_PER_FLOOR && 1 <= s <= SPOTS_PER_ROW
    ensures (f - 1) * 30 + (r - 1) * 10 + (s - 1) < DEFAULT_SPOTS
    ensures DefaultLayoutAt((f - 1) * 30 + (r - 1) * 10 + (s - 1)) == DefaultSpot(f, r, s)
  {
    var k := (f - 1) * 30 + (r - 1) * 10 + (s - 1);
    assert k / 30 == f - 1 && k % 30 == (r - 1) * 10 + (s - 1);
    assert k % 30 / 10 == r - 1 && k % 10 == s - 1;
  }

  /** Floor and row of the k-th spot, and where it sits in its row. */
  lemma LayoutCoordinates(k: nat)
    requires k < DEFAULT_SPOTS
    ensures 1 <= DefaultLayoutAt(k).floorNum <= FLOORS
    ensures 1 <= DefaultLayoutAt(k).rowNum <= ROWS_PER_FLOOR
    ensures k == (DefaultLayoutAt(k).floorNum - 1) * 30 + (DefaultLayoutAt(k).rowNum - 1) * 10 + k % 10
  {
  }

  /**
   * The category of the k-th spot in closed form: the first two are
   * HANDICAPPED, the last three RESERVED, and otherwise the first three of
   * every row COMPACT and the rest REGULAR.
   */
  function CategoryAt(k: nat): ParkingSpotType {
    if k <= 1 then ParkingSpotType.HANDICAPPED
    else if k >= 147 then ParkingSpotType.RESERVED
    else if k % 10 <= 2 then COMPACT
    else REGULAR
  }

  /** The if-chain of `initializeDefault` gives the k-th spot the closed-form category. */
  lemma DefaultCategory(k: nat)
    requires k < DEFAULT_SPOTS
    ensures DefaultLayoutAt(k).spotType == CategoryAt(k)
  {
    var f, r, s := k / 30 + 1, k % 30 / 10 + 1, k % 10 + 1;
    assert f == 1 && r == 1 && s <= 2 <==> k <= 1;
    assert f == 5 && r == 3 && s >= 8 <==> k >= 147;
  }

  /** The rate goes with the category: 2.0 for COMPACT and HANDICAPPED, 5.0 for REGULAR, 10.0 for RESERVED. */
  lemma DefaultRate(f: nat, r: nat, s: nat)
    ensures var (t, rate) := Classify(f, r, s);
      rate == match t
        case COMPACT => 2.0
        case HANDICAPPED => 2.0
        case REGULAR => 5.0
        case RESERVED => 10.0
  {
  }

  /** How many of the first n spots created are of category t. */
  function LayoutCount(n: nat, t: ParkingSpotType): (c: nat)
    requires n <= DEFAULT_SPOTS
    ensures c <= n
  {
    if n == 0 then 0
    else LayoutCount(n - 1, t) + (if CategoryAt(n - 1) == t then 1 else 0)
  }

  function Min(a: int, b: int): int {
    if a <= b then a else b
  }

  /** Every spot has exactly one category. */
  lemma {:induction false} LayoutCountTotal(n: nat)
    requires n <= DEFAULT_SPOTS
    ensures LayoutCount(n, ParkingSpotType.HANDICAPPED) + LayoutCount(n, ParkingSpotType.RESERVED)
      + LayoutCount(n, COMPACT) + LayoutCount(n, REGULAR) == n
  {
    if n > 0 {
      LayoutCountTotal(n - 1);
      match CategoryAt(n - 1)
      case HANDICAPPED =>
      case RESERVED =>
      case COMPACT =>
      case REGULAR =>
    }
  }

  /** The first two spots are the HANDICAPPED ones. */
  lemma {:induction false} HandicappedCount(n: nat)
    requires n <= DEFAULT_SPOTS
    ensures LayoutCount(n, ParkingSpotType.HANDICAPPED) == Min(n, 2)
  {
    if n > 0 {
      HandicappedCount(n - 1);
    }
  }

  /** The last three spots are the RESERVED ones. */
  lemma {:induction false} ReservedCount(n: nat)
    requires n <= DEFAULT_SPOTS
    ensures LayoutCount(n, ParkingSpotType.RESERVED) == if n > 147 then n - 147 else 0
  {
    if n > 0 {
      ReservedCount(n - 1);
    }
  }

  lemma ModTen(q: nat, r: nat)
    requires r < 10
    ensures (10 * q + r) % 10 == r
  {
  }

  /** Three COMPACT spots open every row of ten, less the two HANDICAPPED ones. */
  lemma {:induction false} CompactCount(q: nat, r: nat)
    requires r < 10 && 10 * q + r <= DEFAULT_SPOTS
    ensures LayoutCount(10 * q + r, COMPACT) == 3 * q + Min(r, 3) - Min(10 * q + r, 2)
  {
    if r > 0 {
      CompactCount(q, r - 1);
      ModTen(q, r - 1);
    } else if q > 0 {
      CompactCount(q - 1, 9);
      ModTen(q - 1, 9);
      assert 10 * (q - 1) + 9 + 1 == 10 * q;
    }
  }

  /** The default layout has 2 HANDICAPPED, 3 RESERVED, 43 COMPACT and 102 REGULAR spots. */
  lemma DefaultLayoutCounts(n: nat)
    requires n == DEFAULT_SPOTS
    ensures LayoutCount(n, ParkingSpotType.HANDICAPPED) == 2
    ensures LayoutCount(n, ParkingSpotType.RESERVED) == 3
    ensures LayoutCount(n, COMPACT) == 43
    ensures LayoutCount(n, REGULAR) == 102
  {
    HandicappedCount(n);
    ReservedCount(n);
    CompactCount(15, 0);
    LayoutCountTotal(n);
  }

  lemma DigitCharInjective(a: nat, b: nat)
    requires a < 10 && b < 10 && DigitChar(a) == DigitChar(b)
    ensures a == b
  {
    assert DigitChar(a) as int == '0' as int + a;
    assert DigitChar(b) as int == '0' as int + b;
  }

  /** The id of a spot on floor and row below 10 spells both numbers as single digits. */
  lemma SpotIdParts(f: nat, r: nat, s: nat)
    requires f < 10 && r < 10
    ensures var id := SpotIdFor(f, r, s);
      |id| >= 8 && id[1] == DigitChar(f) && id[4] == DigitChar(r) && id[7..] == NatToString(s)
  {
    var id := SpotIdFor(f, r, s);
    assert id == ['F', DigitChar(f), '-', 'R', DigitChar(r), '-', 'S'] + NatToString(s);
  }

  /** Distinct ids for distinct (floor, row, spot) positions, floors and rows below 10. */
  lemma SpotIdInjective(f: nat, r: nat, s: nat, f': nat, r': nat, s': nat)
    requires f < 10 && r < 10 && f' < 10 && r' < 10
    requires SpotIdFor(f, r, s) == SpotIdFor(f', r', s')
    ensures f == f' && r == r' && s == s'
  {
    SpotIdParts(f, r, s);
    SpotIdParts(f', r', s');
    DigitCharInjective(f, f');
    DigitCharInjective(r, r');
    NatToStringInjective(s, s');
  }

  /** No two spots of the default layout share an id. */
  lemma DefaultIdsDistinct(i: nat, j: nat)
    requires i < j < DEFAULT_SPOTS
    ensures DefaultLayoutAt(i).spotId != DefaultLayoutAt(j).spotId
  {
    var a, b := DefaultLayoutAt(i), DefaultLayoutAt(j);
    LayoutCoordinates(i);
    LayoutCoordinates(j);
    assert a.spotId == SpotIdFor(a.floorNum, a.rowNum, i % 10 + 1);
    assert b.spotId == SpotIdFor(b.floorNum, b.rowNum, j % 10 + 1);
    if a.spotId == b.spotId {
      SpotIdInjective(a.floorNum, a.rowNum, i % 10 + 1, b.floorNum, b.rowNum, j % 10 + 1);
    }
  }

  /** Spots 1 to n of row r on floor f, in creation order. */
  function RowInfos(f: nat, r: nat, n: nat): (infos: seq<SpotInfo>)
    ensures |infos| == n
  {
    if n == 0 then [] else RowInfos(f, r, n - 1) + [DefaultSpot(f, r, n)]
  }

  /** Rows 1 to n of floor f, in creation order. */
  function FloorInfos(f: nat, n: nat): (infos: seq<SpotInfo>)
    ensures |infos| == n * 10
  {
    if n == 0 then [] else FloorInfos(f, n - 1) + RowInfos(f, n, SPOTS_PER_ROW)
  }

  /** Floors 1 to n, in creation order. */
  function LayoutInfos(n: nat): (infos: seq<SpotInfo>)
    ensures |infos| == n * 30
  {
    if n == 0 then [] else LayoutInfos(n - 1) + FloorInfos(n, ROWS_PER_FLOOR)
  }

  /** Spots laid out for floors 1 to f-1 followed by the spots of floor f are laid out for floors 1 to f. */
  lemma LayoutStep(done: seq<ParkingSpot>, floor: seq<ParkingSpot>, f: nat)
    requires f >= 1 && Infos(done) == LayoutInfos(f - 1) && Infos(floor) == FloorInfos(f, ROWS_PER_FLOOR)
    ensures Infos(done + floor) == LayoutInfos(f)
  {
    InfosAppend(done, floor);
  }

  /** The fixed fields of each spot of a list. */
  function Infos(spots: seq<ParkingSpot>): (infos: seq<SpotInfo>)
    ensures |infos| == |spots|
  {
    seq(|spots|, k requires 0 <= k < |spots| => spots[k].Info())
  }

  lemma RowInfosAt(f: nat, r: nat, n: nat, s: nat)
    requires s < n
    ensures RowInfos(f, r, n)[s] == DefaultSpot(f, r, s + 1)
  {
    if s < n - 1 {
      RowInfosAt(f, r, n - 1, s);
    }
  }

  lemma {:induction false} FloorInfosAt(f: nat, n: nat, r: nat, s: nat)
    requires 1 <= r <= n && 1 <= s <= SPOTS_PER_ROW
    ensures (r - 1) * 10 + (s - 1) < |FloorInfos(f, n)|
    ensures FloorInfos(f, n)[(r - 1) * 10 + (s - 1)] == DefaultSpot(f, r, s)
  {
    if r < n {
      FloorInfosAt(f, n - 1, r, s);
    } else {
      RowInfosAt(f, n, SPOTS_PER_ROW, s - 1);
    }
  }

  lemma {:induction false} LayoutInfosAt(n: nat, f: nat, r: nat, s: nat)
    requires 1 <= f <= n && 1 <= r <= ROWS_PER_FLOOR && 1 <= s <= SPOTS_PER_ROW
    ensures (f - 1) * 30 + (r - 1) * 10 + (s - 1) < |LayoutInfos(n)|
    ensures LayoutInfos(n)[(f - 1) * 30 + (r - 1) * 10 + (s - 1)] == DefaultSpot(f, r, s)
  {
    if f < n {
      LayoutInfosAt(n - 1, f, r, s);
    } else {
      FloorInfosAt(n, ROWS_PER_FLOOR, r, s);
    }
  }

  /** Spots whose fixed fields are, in order, those the five default floors list carry the default layout. */
  lemma DefaultLayoutFromInfos(spots: seq<ParkingSpot>, n: nat)
    requires n == FLOORS && Infos(spots) == LayoutInfos(n)
    ensures IsDefaultLayout(spots)
  {
    forall k | 0 <= k < |spots|
      ensures spots[k].Info() == DefaultLayoutAt(k)
    {
      LayoutCoordinates(k);
      var info := DefaultLayoutAt(k);
      LayoutInfosAt(n, info.floorNum, info.rowNum, k % 10 + 1);
    }
  }

  lemma InfosAppend(a: seq<ParkingSpot>, b: seq<ParkingSpot>)
    ensures Infos(a + b) == Infos(a) + Infos(b)
  {
  }

  /** The spots carry the default layout, in creation order. */
  ghost predicate IsDefaultLayout(spots: seq<ParkingSpot>) {
    |spots| == DEFAULT_SPOTS && forall k :: 0 <= k < |spots| ==> spots[k].Info() == DefaultLayoutAt(k)
  }

  lemma {:induction false} CountTypeLayout(spots: seq<ParkingSpot>, n: nat, t: ParkingSpotType)
    requires n <= |spots| && n <= DEFAULT_SPOTS
    requires forall k :: 0 <= k < n ==> spots[k].spotType == CategoryAt(k)
    ensures CountType(spots[..n], t) == LayoutCount(n, t)
  {
    if n > 0 {
      assert spots[..n][..n - 1] == spots[..n - 1];
      CountTypeLayout(spots, n - 1, t);
    }
  }

  lemma DefaultLayoutIds(spots: seq<ParkingSpot>)
    requires IsDefaultLayout(spots)
    ensures UniqueIds(spots)
  {
    forall i, j | 0 <= i < j < |spots|
      ensures spots[i].spotId != spots[j].spotId
    {
      DefaultIdsDistinct(i, j);
    }
  }

  lemma DefaultLayoutCategories(spots: seq<ParkingSpot>)
    requires IsDefaultLayout(spots)
    ensures forall k :: 0 <= k < |spots| ==> spots[k].spotType == CategoryAt(k)
  {
    forall k | 0 <= k < |spots|
      ensures spots[k].spotType == CategoryAt(k)
    {
      DefaultCategory(k);
    }
  }

  /**
   * Spots laid out by default have unique ids, so a lookup by id finds each
   * of them, and they split 2 / 3 / 43 / 102 over HANDICAPPED, RESERVED,
   * COMPACT and REGULAR.
   */
  lemma DefaultLayoutFacts(spots: seq<ParkingSpot>)
    requires IsDefaultLayout(spots)
    ensures UniqueIds(spots)
    ensures CountType(spots, ParkingSpotType.HANDICAPPED) == 2
    ensures CountType(spots, ParkingSpotType.RESERVED) == 3
    ensures CountType(spots, COMPACT) == 43
    ensures CountType(spots, REGULAR) == 102
  {
    DefaultLayoutIds(spots);
    DefaultLayoutCategories(spots);
    assert spots[..|spots|] == spots;
    DefaultLayoutCounts(|spots|);
    CountTypeLayout(spots, |spots|, ParkingSpotType.HANDICAPPED);
    CountTypeLayout(spots, |spots|, ParkingSpotType.RESERVED);
    CountTypeLayout(spots, |spots|, COMPACT);
    CountTypeLayout(spots, |spots|, REGULAR);
  }
}
