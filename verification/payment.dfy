/**
 * Payments: a common part (id, amount, time, status text) and the cash or
 * card details. Each kind validates its details and moves the status from
 * PENDING to COMPLETED or FAILED when processed.
 */
module Payments {
  import opened Wrappers
  import opened Text
  import opened Clock

  const PENDING: string := "PENDING"
  const COMPLETED: string := "COMPLETED"
  const FAILED: string := "FAILED"

  /** `CashPayment.calculateChange`: what is handed back, negative when too little was tendered. */
  function CalculateChange(amount: real, cashTendered: real): real {
    cashTendered - amount
  }

  /** `CashPayment.validate`: enough cash was tendered. */
  predicate CashValid(amount: real, cashTendered: real) {
    cashTendered >= amount
  }

  /** The change is never negative for a valid cash payment, and only then. */
  lemma ChangeNonNegativeIffValid(amount: real, cashTendered: real)
    ensures CalculateChange(amount, cashTendered) >= 0.0 <==> CashValid(amount, cashTendered)
  {
  }

  /** Length of an optional text; a missing text has none. */
  function LengthIs(s: Option<string>, n: nat): bool {
    s.Some? && |s.value| == n
  }

  /** `validateCard`: a 16-character number, a 4-character expiry and a 3-character CVV, none of them missing. */
  function ValidateCard(cardNumber: Option<string>, expiryDate: Option<string>, cvv: Option<string>): (ok: bool)
    ensures ok <==> cardNumber.Some? && |cardNumber.value| == 16 &&
                    expiryDate.Some? && |expiryDate.value| == 4 &&
                    cvv.Some? && |cvv.value| == 3
  {
    if !LengthIs(cardNumber, 16) then false
    else if !LengthIs(expiryDate, 4) then false
    else if !LengthIs(cvv, 3) then false
    else true
  }

  /**
   * `maskCardNumber`: four stars, then the last four characters of the number
   * when it has at least four; a shorter or missing number shows stars only.
   */
  function MaskCardNumber(cardNumber: Option<string>): (masked: string)
    ensures |masked| >= 4 && masked[..4] == "****"
    ensures |masked| == 8 <==> cardNumber.Some? && |cardNumber.value| >= 4
    ensures |masked| != 8 ==> masked == "****"
    ensures |masked| == 8 ==> masked[4..] == cardNumber.value[|cardNumber.value| - 4..]
  {
    if cardNumber.Some? && |cardNumber.value| >= 4 then
      "****" + cardNumber.value[|cardNumber.value| - 4..]
    else "****"
  }

  /** A masked number shows nothing of the card number but its last four characters. */
  lemma MaskHidesPrefix(n: string, n': string)
    requires |n| >= 4 && |n'| >= 4 && n[|n| - 4..] == n'[|n'| - 4..]
    ensures MaskCardNumber(Some(n)) == MaskCardNumber(Some(n'))
  {
  }

  /** What a payment carries besides the common fields: cash tendered and change, or the card fields and the mask. */
  datatype PaymentDetails =
    | Cash(cashTendered: real, change: real)
    | Card(cardNumber: Option<string>, cardHolder: Option<string>, expiryDate: Option<string>,
           cvv: Option<string>, cardLastFour: string)

  /** The status `processPayment` leaves behind for a validation outcome. */
  function StatusAfter(valid: bool): string {
    if valid then COMPLETED else FAILED
  }

  class Payment {
    const paymentId: string
    const amount: real
    const paymentTime: DateTime
    var status: string
    const details: PaymentDetails

    /** A cash payment: the change is worked out once, here. */
    constructor Cash(amount: real, cashTendered: real, paymentId: Uuid, now: DateTime)
      ensures this.paymentId == paymentId && this.amount == amount && paymentTime == now
      ensures status == PENDING
      ensures details == PaymentDetails.Cash(cashTendered, CalculateChange(amount, cashTendered))
    {
      this.paymentId := paymentId;
      this.amount := amount;
      paymentTime := now;
      status := PENDING;
      details := PaymentDetails.Cash(cashTendered, CalculateChange(amount, cashTendered));
    }

    /** A card payment: the masked number is worked out once, here. */
    constructor Card(amount: real, cardNumber: Option<string>, cardHolder: Option<string>,
                     expiryDate: Option<string>, cvv: Option<string>, paymentId: Uuid, now: DateTime)
      ensures this.paymentId == paymentId && this.amount == amount && paymentTime == now
      ensures status == PENDING
      ensures details == PaymentDetails.Card(cardNumber, cardHolder, expiryDate, cvv, MaskCardNumber(cardNumber))
    {
      this.paymentId := paymentId;
      this.amount := amount;
      paymentTime := now;
      status := PENDING;
      details := PaymentDetails.Card(cardNumber, cardHolder, expiryDate, cvv, MaskCardNumber(cardNumber));
    }

    /** `validate` of the concrete kind. */
    predicate Validate() {
      match details
      case Cash(cashTendered, _) => CashValid(amount, cashTendered)
      case Card(cardNumber, _, expiryDate, cvv, _) => ValidateCard(cardNumber, expiryDate, cvv)
    }

    /** Validates, records COMPLETED or FAILED, and reports which. */
    method ProcessPayment() returns (ok: bool)
      modifies this`status
      ensures ok == Validate()
      ensures status == StatusAfter(ok)
    {
      if Validate() {
        status := COMPLETED;
        ok := true;
      } else {
        status := FAILED;
        ok := false;
      }
    }

    method SetStatus(status: string)
      modifies this`status
      ensures this.status == status
    {
      this.status := status;
    }
  }

  /** Processing twice gives the same answer and leaves the same status as processing once. */
  method ProcessTwice(p: Payment) returns (first: bool, second: bool)
    modifies p`status
    ensures first == second
    ensures p.status == StatusAfter(first)
  {
    first := p.ProcessPayment();
    second := p.ProcessPayment();
  }

  /** A cash payment ends COMPLETED exactly when the change it computed is not negative. */
  method ProcessCash(amount: real, cashTendered: real, paymentId: Uuid, now: DateTime) returns (p: Payment, ok: bool)
    ensures fresh(p)
    ensures ok <==> CalculateChange(amount, cashTendered) >= 0.0
    ensures p.status == (if CalculateChange(amount, cashTendered) >= 0.0 then COMPLETED else FAILED)
  {
    p := new Payment.Cash(amount, cashTendered, paymentId, now);
    ok := p.ProcessPayment();
    ChangeNonNegativeIffValid(amount, cashTendered);
  }
}
