/**
 * The exit receipt: the ticket it settles, the fee and duration, the fines
 * charged with a running total, and the grand total.
 */
module Receipts {
  import opened Text
  import opened Clock
  import opened Tickets
  import opened Fines
  import opened Payments

  class Receipt {
    const receiptId: string
    const ticket: Ticket
    var exitTime: DateTime
    var durationHours: int
    var parkingFee: real
    var fines: seq<Fine>
    var totalFines: real
    var totalAmount: real
    var payment: Payment?

    /** The running total is the sum of the fines listed. */
    ghost predicate Valid()
      reads this
    {
      totalFines == SumAmounts(fines)
    }

    /** A receipt for the ticket, id "RCP-" and eight characters of a fresh UUID, with no fines yet. */
    constructor(ticket: Ticket, uuid: Uuid, now: DateTime)
      ensures receiptId == ShortId("RCP-", uuid) && receiptId[..4] == "RCP-"
      ensures this.ticket == ticket && exitTime == now
      ensures fines == [] && totalFines == 0.0 && Valid()
      ensures durationHours == 0 && parkingFee == 0.0 && totalAmount == 0.0 && payment == null
    {
      receiptId := ShortId("RCP-", uuid);
      this.ticket := ticket;
      exitTime := now;
      fines := [];
      totalFines := 0.0;
      durationHours := 0;
      parkingFee := 0.0;
      totalAmount := 0.0;
      payment := null;
    }

    /** Appends the fine and adds its amount to the running total, which stays the sum of the list. */
    method AddFine(fine: Fine)
      modifies this`fines, this`totalFines
      ensures fines == old(fines) + [fine]
      ensures totalFines == old(totalFines) + fine.amount
      ensures old(Valid()) ==> Valid()
    {
      fines := fines + [fine];
      totalFines := totalFines + fine.amount;
      assert fines[..|fines| - 1] == old(fines);
    }

    /** Fixes the grand total at fee plus fines and returns it. */
    method CalculateTotal() returns (total: real)
      modifies this`totalAmount
      ensures totalAmount == parkingFee + totalFines
      ensures total == totalAmount
    {
      totalAmount := parkingFee + totalFines;
      total := totalAmount;
    }

    method SetExitTime(exitTime: DateTime)
      modifies this`exitTime
      ensures this.exitTime == exitTime
    {
      this.exitTime := exitTime;
    }

    method SetDurationHours(durationHours: int)
      modifies this`durationHours
      ensures this.durationHours == durationHours
    {
      this.durationHours := durationHours;
    }

    method SetParkingFee(parkingFee: real)
      modifies this`parkingFee
      ensures this.parkingFee == parkingFee
    {
      this.parkingFee := parkingFee;
    }

    method SetPayment(payment: Payment?)
      modifies this`payment
      ensures this.payment == payment
    {
      this.payment := payment;
    }
  }

  /**
   * Adds the fines one by one, in order: the list grows by exactly them and
   * the running total by exactly their sum.
   */
  method AddFines(receipt: Receipt, fines: seq<Fine>)
    requires receipt.Valid()
    modifies receipt`fines, receipt`totalFines
    ensures receipt.fines == old(receipt.fines) + fines
    ensures receipt.Valid()
    ensures receipt.totalFines == old(receipt.totalFines) + SumAmounts(fines)
  {
    for i := 0 to |fines|
      invariant receipt.fines == old(receipt.fines) + fines[..i]
      invariant receipt.Valid()
    {
      receipt.AddFine(fines[i]);
      assert fines[..i + 1] == fines[..i] + [fines[i]];
    }
    assert fines[..|fines|] == fines;
    SumAmountsAppend(old(receipt.fines), fines);
  }
}
