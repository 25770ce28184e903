/**
 * A fine issued to a plate: a fixed amount and reason, and a paid flag with
 * the date it was paid.
 */
module Fines {
  import opened Wrappers
  import opened Text
  import opened Clock

  class Fine {
    var fineId: string
    const licensePlate: string
    const amount: real
    const issuedDate: DateTime
    const reason: string
    var isPaid: bool
    var paidDate: Option<DateTime>

    /** A new unpaid fine, id "FINE-" and eight characters of a fresh UUID, issued now. */
    constructor(licensePlate: string, amount: real, reason: string, uuid: Uuid, now: DateTime)
      ensures fineId == ShortId("FINE-", uuid) && fineId[..5] == "FINE-"
      ensures this.licensePlate == licensePlate && this.amount == amount && this.reason == reason
      ensures issuedDate == now
      ensures !isPaid && paidDate == None
    {
      fineId := ShortId("FINE-", uuid);
      this.licensePlate := licensePlate;
      this.amount := amount;
      this.reason := reason;
      issuedDate := now;
      isPaid := false;
      paidDate := None;
    }

    /** Records payment now; calling it again keeps the fine paid and moves the date. */
    method MarkPaid(now: DateTime)
      modifies this`isPaid, this`paidDate
      ensures isPaid && paidDate == Some(now)
    {
      isPaid := true;
      paidDate := Some(now);
    }

    method SetFineId(fineId: string)
      modifies this`fineId
      ensures this.fineId == fineId
    {
      this.fineId := fineId;
    }
  }

  /** Sum of the amounts, in list order. */
  function SumAmounts(fines: seq<Fine>): real {
    if fines == [] then 0.0 else SumAmounts(fines[..|fines| - 1]) + fines[|fines| - 1].amount
  }

  lemma {:induction false} SumAmountsAppend(a: seq<Fine>, b: seq<Fine>)
    ensures SumAmounts(a + b) == SumAmounts(a) + SumAmounts(b)
  {
    if b != [] {
      assert (a + b)[..|a + b| - 1] == a + b[..|b| - 1];
      SumAmountsAppend(a, b[..|b| - 1]);
    } else {
      assert a + b == a;
    }
  }

  /** Fines of non-negative amounts add up to a non-negative total that bounds each of them. */
  lemma {:induction false} SumAmountsBounds(fines: seq<Fine>)
    requires forall i :: 0 <= i < |fines| ==> fines[i].amount >= 0.0
    ensures SumAmounts(fines) >= 0.0
    ensures forall i :: 0 <= i < |fines| ==> fines[i].amount <= SumAmounts(fines)
  {
    if fines != [] {
      SumAmountsBounds(fines[..|fines| - 1]);
    }
  }
}
