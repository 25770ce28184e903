/**
 * A floor groups spots into numbered rows. Rows are kept in row-number
 * order; a running `totalSpots` counter is bumped on every `addRow`.
 */
module Floors {
  import opened SpotKinds
  import opened Spots

  predicate Ascending(xs: seq<int>) {
    forall i, j :: 0 <= i < j < |xs| ==> xs[i] < xs[j]
  }

  /** Places a new row number into an ascending list of row numbers. */
  function InsertSorted(xs: seq<int>, r: int): (ys: seq<int>)
    ensures |ys| == |xs| + 1
    ensures forall x :: x in ys <==> x in xs || x == r
  {
    if xs == [] || r < xs[0] then [r] + xs
    else [xs[0]] + InsertSorted(xs[1..], r)
  }

  /** The inserted list is still ascending. */
  lemma {:induction false} InsertSortedAscending(xs: seq<int>, r: int)
    requires Ascending(xs) && r !in xs
    ensures Ascending(InsertSorted(xs, r))
  {
    if xs != [] && r >= xs[0] {
      var rest := InsertSorted(xs[1..], r);
      InsertSortedAscending(xs[1..], r);
      forall k | 0 <= k < |rest|
        ensures xs[0] < rest[k]
      {
        assert rest[k] in rest;
        if rest[k] != r {
          var j :| 0 <= j < |xs[1..]| && xs[1..][j] == rest[k];
          assert xs[j + 1] == rest[k];
        }
      }
    }
  }

  /** A row number above all present ones goes at the end. */
  lemma {:induction false} InsertSortedLast(xs: seq<int>, r: int)
    requires forall x :: x in xs ==> x < r
    ensures InsertSorted(xs, r) == xs + [r]
  {
    if xs != [] {
      assert xs[0] in xs;
      assert forall x :: x in xs[1..] ==> x in xs;
      InsertSortedLast(xs[1..], r);
      assert xs == [xs[0]] + xs[1..];
    }
  }

  /** The spots of the listed rows, one row after another. */
  function RowsConcat(order: seq<int>, rows: map<int, seq<ParkingSpot>>): seq<ParkingSpot> {
    if order == [] then []
    else
      var last := order[|order| - 1];
      RowsConcat(order[..|order| - 1], rows) + (if last in rows then rows[last] else [])
  }

  /** Replacing a row that is not listed does not change the concatenation. */
  lemma {:induction false} RowsConcatOtherRow(order: seq<int>, rows: map<int, seq<ParkingSpot>>, r: int, spots: seq<ParkingSpot>)
    requires r !in order
    ensures RowsConcat(order, rows[r := spots]) == RowsConcat(order, rows)
  {
    if order != [] {
      RowsConcatOtherRow(order[..|order| - 1], rows, r, spots);
    }
  }

  lemma {:induction false} RowsConcatSplit(a: seq<int>, b: seq<int>, rows: map<int, seq<ParkingSpot>>)
    ensures RowsConcat(a + b, rows) == RowsConcat(a, rows) + RowsConcat(b, rows)
  {
    if b != [] {
      assert (a + b)[..|a + b| - 1] == a + b[..|b| - 1];
      RowsConcatSplit(a, b[..|b| - 1], rows);
    } else {
      assert a + b == a;
    }
  }

  /** A new row numbered above all present ones lands at the end of the concatenation. */
  lemma AppendRow(order: seq<int>, rows: map<int, seq<ParkingSpot>>, r: int, spots: seq<ParkingSpot>)
    requires r !in order
    ensures (forall x :: x in order ==> x < r) ==>
      RowsConcat(InsertSorted(order, r), rows[r := spots]) == RowsConcat(order, rows) + spots
  {
    if forall x :: x in order ==> x < r {
      InsertSortedLast(order, r);
      RowsConcatSplit(order, [r], rows[r := spots]);
      assert RowsConcat([r], rows[r := spots]) == RowsConcat([], rows[r := spots]) + spots;
      RowsConcatOtherRow(order, rows, r, spots);
    }
  }

  /** Inserting a new row adds exactly its spots to the concatenation. */
  lemma {:induction false} InsertRowLength(order: seq<int>, rows: map<int, seq<ParkingSpot>>, r: int, spots: seq<ParkingSpot>)
    requires Ascending(order) && r !in order
    ensures |RowsConcat(InsertSorted(order, r), rows[r := spots])| == |RowsConcat(order, rows)| + |spots|
  {
    var rows' := rows[r := spots];
    if order == [] {
      assert RowsConcat([r], rows') == RowsConcat([], rows') + spots;
    } else if r < order[0] {
      RowsConcatSplit([r], order, rows');
      assert RowsConcat([r], rows') == RowsConcat([], rows') + spots;
      RowsConcatOtherRow(order, rows, r, spots);
    } else {
      assert order == [order[0]] + order[1..];
      RowsConcatSplit([order[0]], InsertSorted(order[1..], r), rows');
      RowsConcatSplit([order[0]], order[1..], rows);
      InsertRowLength(order[1..], rows, r, spots);
      RowsConcatOtherRow([order[0]], rows, r, spots);
    }
  }

  /** Every spot of the concatenation belongs to one of the listed rows, and every spot of a listed row is in it. */
  lemma {:induction false} RowsConcatMembers(order: seq<int>, rows: map<int, seq<ParkingSpot>>, x: ParkingSpot)
    ensures x in RowsConcat(order, rows) <==> exists r :: r in order && r in rows && x in rows[r]
  {
    if order != [] {
      var init, last := order[..|order| - 1], order[|order| - 1];
      RowsConcatMembers(init, rows, x);
      assert order == init + [last];
      if x in RowsConcat(order, rows) && x !in RowsConcat(init, rows) {
        assert last in order && last in rows && x in rows[last];
      }
      if exists r :: r in order && r in rows && x in rows[r] {
        var r :| r in order && r in rows && x in rows[r];
        if r != last {
          assert r in init;
        }
      }
    }
  }

  class Floor {
    const floorNumber: int
    var rows: map<int, seq<ParkingSpot>>
    /** The row numbers of `rows`, ascending. */
    var rowOrder: seq<int>
    var totalSpots: int

    ghost predicate Valid()
      reads this
    {
      Ascending(rowOrder) && forall r :: r in rowOrder <==> r in rows
    }

    /** All spots of the floor, row after row in row-number order. */
    function Spots(): seq<ParkingSpot>
      reads this
    {
      RowsConcat(rowOrder, rows)
    }

    constructor(floorNumber: int)
      ensures Valid() && this.floorNumber == floorNumber
      ensures rows == map[] && rowOrder == [] && totalSpots == 0 && Spots() == []
    {
      this.floorNumber := floorNumber;
      rows := map[];
      rowOrder := [];
      totalSpots := 0;
    }

    /**
     * Stores the row (replacing a row with the same number) and adds its size
     * to `totalSpots`. While row numbers are distinct, `totalSpots` stays the
     * number of spots on the floor.
     */
    method AddRow(rowNumber: int, spots: seq<ParkingSpot>)
      requires Valid()
      modifies this`rows, this`rowOrder, this`totalSpots
      ensures Valid()
      ensures rows == old(rows)[rowNumber := spots]
      ensures totalSpots == old(totalSpots) + |spots|
      ensures rowNumber !in old(rows) && old(totalSpots) == |old(Spots())| ==> totalSpots == |Spots()|
      ensures rowNumber !in old(rows) && (forall r :: r in old(rows) ==> r < rowNumber) ==>
        Spots() == old(Spots()) + spots
      ensures rowNumber !in old(rows) && (forall r :: r in old(rows) ==> r < rowNumber) ==>
        rowOrder == old(rowOrder) + [rowNumber]
    {
      if rowNumber !in rows {
        if forall r :: r in rows ==> r < rowNumber {
          InsertSortedLast(rowOrder, rowNumber);
        }
        InsertSortedAscending(rowOrder, rowNumber);
        AppendRow(rowOrder, rows, rowNumber, spots);
        InsertRowLength(rowOrder, rows, rowNumber, spots);
        RowsConcatOtherRow(rowOrder, rows, rowNumber, spots);
        rowOrder := InsertSorted(rowOrder, rowNumber);
      }
      rows := rows[rowNumber := spots];
      totalSpots := totalSpots + |spots|;
    }

    method GetSpots() returns (all: seq<ParkingSpot>)
      ensures all == Spots()
    {
      all := [];
      for i := 0 to |rowOrder|
        invariant all == RowsConcat(rowOrder[..i], rows)
      {
        assert rowOrder[..i + 1][..i] == rowOrder[..i];
        var r := rowOrder[i];
        all := all + (if r in rows then rows[r] else []);
      }
      assert rowOrder[..|rowOrder|] == rowOrder;
    }

    /** The stored row, or an empty list for a row number never added. */
    method GetSpotsByRow(rowNumber: int) returns (spots: seq<ParkingSpot>)
      ensures rowNumber in rows ==> spots == rows[rowNumber]
      ensures rowNumber !in rows ==> spots == []
    {
      spots := if rowNumber in rows then rows[rowNumber] else [];
    }

    method GetAvailableCount() returns (count: nat)
      ensures count == CountStatus(Spots(), AVAILABLE)
      ensures count <= |Spots()|
    {
      var all := GetSpots();
      count := 0;
      for i := 0 to |all|
        invariant count == CountStatus(all[..i], AVAILABLE)
      {
        assert all[..i + 1][..i] == all[..i];
        if all[i].IsAvailable() {
          count := count + 1;
        }
      }
      assert all[..|all|] == all;
    }

    method GetOccupiedCount() returns (count: nat)
      ensures count == CountStatus(Spots(), OCCUPIED)
      ensures count <= |Spots()|
    {
      var all := GetSpots();
      count := 0;
      for i := 0 to |all|
        invariant count == CountStatus(all[..i], OCCUPIED)
      {
        assert all[..i + 1][..i] == all[..i];
        if all[i].status == OCCUPIED {
          count := count + 1;
        }
      }
      assert all[..|all|] == all;
    }
  }

  /** No spot is counted both as available and as occupied. */
  lemma AvailablePlusOccupied(floor: Floor)
    ensures CountStatus(floor.Spots(), AVAILABLE) + CountStatus(floor.Spots(), OCCUPIED) <= |floor.Spots()|
  {
    CountTwoStatuses(floor.Spots(), AVAILABLE, OCCUPIED);
  }
}
