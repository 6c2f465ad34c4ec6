/** A bill and its `beforeSave` hook: every save (create or update) derives
    the subtotal, discount, tax, total, outstanding balance and payment status
    from the service lines, the discount and tax inputs and the paid amount. */
module Billing {
  import opened Common

  /** One entry of the bill's `services` array; `quantity` may be absent. */
  datatype ServiceLine = ServiceLine(price: real, quantity: Option<real>)

  datatype PaymentStatus = Unpaid | Partial | Paid | Refunded

  /** The money fields of a bill. `services` is `None` when the stored value
      is not an array, in which case the hook keeps the stored subtotal. */
  datatype BillFields = BillFields(
    services: Option<seq<ServiceLine>>,
    subtotal: real,
    discountAmount: real,
    discountPercentage: real,
    taxAmount: real,
    taxPercentage: real,
    totalAmount: real,
    paidAmount: real,
    outstandingAmount: real,
    paymentStatus: PaymentStatus)

  /** The column default of `taxPercentage` (GST). */
  const DefaultTaxPercentage: real := 18.0

  /** A new bill's fields before the hook runs: the column defaults for
      everything the request does not supply. */
  function NewBill(services: Option<seq<ServiceLine>>, discountAmount: real, discountPercentage: real,
                   taxPercentage: Option<real>): BillFields
  {
    BillFields(services, 0.0, discountAmount, discountPercentage, 0.0,
               taxPercentage.GetOr(DefaultTaxPercentage), 0.0, 0.0, 0.0, Unpaid)
  }

  /** `price * (quantity || 1)`. */
  function LineAmount(l: ServiceLine): real {
    l.price * OrNumber(l.quantity, 1.0)
  }

  /** `services.reduce((sum, s) => sum + price * (quantity || 1), 0)`. */
  function Subtotal(lines: seq<ServiceLine>): real
    decreases |lines|
  {
    if lines == [] then 0.0 else Subtotal(lines[..|lines| - 1]) + LineAmount(lines[|lines| - 1])
  }

  /** A percentage discount wins over a supplied amount. */
  function DiscountFor(subtotal: real, percentage: real, supplied: real): real {
    if percentage > 0.0 then subtotal * percentage / 100.0 else supplied
  }

  function StatusFor(paid: real, total: real): PaymentStatus {
    if paid >= total then Paid else if paid > 0.0 then Partial else Unpaid
  }

  /** The hook, as a function of the fields before the save. */
  function Hook(b: BillFields): BillFields {
    var subtotal := if b.services.Some? then Subtotal(b.services.value) else b.subtotal;
    var discount := DiscountFor(subtotal, b.discountPercentage, b.discountAmount);
    var afterDiscount := subtotal - discount;
    var tax := afterDiscount * (b.taxPercentage / 100.0);
    var total := afterDiscount + tax;
    b.(subtotal := subtotal, discountAmount := discount, taxAmount := tax, totalAmount := total,
       outstandingAmount := total - b.paidAmount, paymentStatus := StatusFor(b.paidAmount, total))
  }

  /** A bill as the hook leaves it. */
  predicate Consistent(b: BillFields) {
    Hook(b) == b
  }

  // ---------------------------------------------------------------------
  // Properties of the hook

  /** The subtotal is the sum of the line amounts, a missing quantity
      counting as 1. */
  lemma {:induction false} SubtotalAppend(lines: seq<ServiceLine>, price: real, quantity: Option<real>)
    ensures Subtotal(lines + [ServiceLine(price, quantity)]) ==
            Subtotal(lines) + price * (if quantity.Some? && quantity.value != 0.0 then quantity.value else 1.0)
  {
    var l := ServiceLine(price, quantity);
    assert (lines + [l])[..|lines + [l]| - 1] == lines;
  }

  lemma {:induction false} SubtotalConcat(xs: seq<ServiceLine>, ys: seq<ServiceLine>)
    ensures Subtotal(xs + ys) == Subtotal(xs) + Subtotal(ys)
    decreases |ys|
  {
    if ys == [] {
      assert xs + ys == xs;
    } else {
      var ys' := ys[..|ys| - 1];
      assert (xs + ys)[..|xs + ys| - 1] == xs + ys';
      SubtotalConcat(xs, ys');
    }
  }

  /** How each derived field relates to the others: discount before tax,
      total = subtotal - discount + tax, outstanding = total - paid (never
      clamped); the inputs are kept. */
  lemma HookDerivation(b: BillFields)
    ensures var r := Hook(b);
      && r.subtotal == (if b.services.Some? then Subtotal(b.services.value) else b.subtotal)
      && (b.discountPercentage > 0.0 ==> r.discountAmount == r.subtotal * b.discountPercentage / 100.0)
      && (b.discountPercentage <= 0.0 ==> r.discountAmount == b.discountAmount)
      && r.taxAmount == (r.subtotal - r.discountAmount) * b.taxPercentage / 100.0
      && r.totalAmount == r.subtotal - r.discountAmount + r.taxAmount
      && r.outstandingAmount == r.totalAmount - b.paidAmount
      && r.services == b.services && r.discountPercentage == b.discountPercentage
      && r.taxPercentage == b.taxPercentage && r.paidAmount == b.paidAmount
  {
    var r := Hook(b);
    var after := r.subtotal - r.discountAmount;
    assert r.taxAmount == after * (b.taxPercentage / 100.0);
    assert after * (b.taxPercentage / 100.0) == after * b.taxPercentage / 100.0;
  }

  /** The status rule: paid iff paid >= total, partial iff 0 < paid < total,
      unpaid otherwise; the hook never produces `refunded`. */
  lemma HookStatus(b: BillFields)
    ensures var r := Hook(b);
      && (r.paymentStatus == Paid <==> b.paidAmount >= r.totalAmount)
      && (r.paymentStatus == Partial <==> 0.0 < b.paidAmount < r.totalAmount)
      && (r.paymentStatus == Unpaid <==> b.paidAmount <= 0.0 && b.paidAmount < r.totalAmount)
      && r.paymentStatus != Refunded
  {
  }

  /** Saving again without changing an input changes nothing. */
  lemma HookIdempotent(b: BillFields)
    ensures Consistent(Hook(b))
  {
    var r := Hook(b);
    var r2 := Hook(r);
    assert r2.subtotal == r.subtotal;
    assert r2.discountAmount == r.discountAmount;
  }

  /** The outstanding balance is not clamped: an overpaid bill has a negative
      one (and is `paid`). */
  lemma OverpaidIsNegative(b: BillFields)
    requires b.paidAmount > Hook(b).totalAmount
    ensures Hook(b).outstandingAmount < 0.0 && Hook(b).paymentStatus == Paid
  {
  }

  /** Two lines of 100, a 10% discount and the default 18% tax give
      200 / 20 / 32.4 / 212.4. */
  lemma HookExample()
    ensures var r := Hook(NewBill(Some([ServiceLine(100.0, Some(2.0))]), 0.0, 10.0, None));
      r.subtotal == 200.0 && r.discountAmount == 20.0 && r.taxAmount == 32.4 &&
      r.totalAmount == 212.4 && r.outstandingAmount == 212.4 && r.paymentStatus == Unpaid
  {
    var lines := [ServiceLine(100.0, Some(2.0))];
    assert lines == [] + [ServiceLine(100.0, Some(2.0))];
    SubtotalAppend([], 100.0, Some(2.0));
  }

  // ---------------------------------------------------------------------
  // The stored bill

  class Bill {
    /** Primary key (`id`), human-readable `billId` and the patient. */
    const id: string
    const billId: string
    const patientId: string

    var services: Option<seq<ServiceLine>>
    var subtotal: real
    var discountAmount: real
    var discountPercentage: real
    var taxAmount: real
    var taxPercentage: real
    var totalAmount: real
    var paidAmount: real
    var outstandingAmount: real
    var paymentStatus: PaymentStatus

    function Fields(): BillFields
      reads this
    {
      BillFields(services, subtotal, discountAmount, discountPercentage, taxAmount, taxPercentage,
                 totalAmount, paidAmount, outstandingAmount, paymentStatus)
    }

    /** `Billing.create`: the row is written through the hook. */
    constructor (id: string, billId: string, patientId: string, f: BillFields)
      ensures this.id == id && this.billId == billId && this.patientId == patientId
      ensures Fields() == Hook(f)
    {
      this.id, this.billId, this.patientId := id, billId, patientId;
      services, subtotal, discountAmount, discountPercentage := f.services, f.subtotal, f.discountAmount, f.discountPercentage;
      taxAmount, taxPercentage, totalAmount := f.taxAmount, f.taxPercentage, f.totalAmount;
      paidAmount, outstandingAmount, paymentStatus := f.paidAmount, f.outstandingAmount, f.paymentStatus;
      new;
      Recompute();
    }

    /** The `beforeSave` hook, field by field. */
    method Recompute()
      modifies this
      ensures Fields() == Hook(old(Fields()))
    {
      if services.Some? {
        subtotal := Subtotal(services.value);
      }
      var discountAmt := if discountPercentage > 0.0 then subtotal * discountPercentage / 100.0
                         else discountAmount;
      discountAmount := discountAmt;
      var afterDiscount := subtotal - discountAmt;
      taxAmount := afterDiscount * (taxPercentage / 100.0);
      totalAmount := afterDiscount + taxAmount;
      outstandingAmount := totalAmount - paidAmount;
      if paidAmount >= totalAmount {
        paymentStatus := Paid;
      } else if paidAmount > 0.0 {
        paymentStatus := Partial;
      } else {
        paymentStatus := Unpaid;
      }
    }

    /** `bill.update({ paidAmount, outstandingAmount, paymentStatus })`: the
        values are assigned and then the hook runs on the save. */
    method UpdatePayment(paid: real, outstanding: real, status: PaymentStatus)
      modifies this
      ensures Fields() == Hook(old(Fields()).(paidAmount := paid, outstandingAmount := outstanding,
                                               paymentStatus := status))
    {
      paidAmount, outstandingAmount, paymentStatus := paid, outstanding, status;
      Recompute();
    }
  }
}
