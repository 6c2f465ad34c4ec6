/** The billing desk: bills keyed by primary key, the payments taken, and
    `processPayment`, which checks a payment against the outstanding balance,
    records it, and writes the new paid amount, balance and status back to the
    bill (whose save hook then runs again). Bill and payment IDs come from the
    shared day-scoped sequence generator. */
module BillingController {
  import opened Common
  import opened Ids
  import opened Billing

  /** A payment row's own status column. */
  datatype TxStatus = TxPending | TxSuccess | TxFailed | TxRefunded

  datatype PaymentRecord = PaymentRecord(
    paymentId: string,
    billKey: string,
    patientId: string,
    amount: real,
    paymentMethod: string,
    transactionId: Option<string>,
    status: TxStatus,
    notes: Option<string>)

  /** What `processPayment` answers: 404, 400, or the payment and the bill
      figures it reports. */
  datatype PaymentOutcome =
    | BillNotFound
    | ExceedsOutstanding
    | Processed(payment: PaymentRecord, paidAmount: real, outstandingAmount: real, status: PaymentStatus)

  function PaymentIdsOf(ps: seq<PaymentRecord>): (r: seq<string>)
    ensures |r| == |ps| && forall i :: 0 <= i < |ps| ==> r[i] == ps[i].paymentId
  {
    if ps == [] then [] else PaymentIdsOf(ps[..|ps| - 1]) + [ps[|ps| - 1].paymentId]
  }

  /** The status the controller computes, with its 0.01 tolerance. */
  function ControllerStatus(newPaid: real, newOutstanding: real): PaymentStatus {
    if newOutstanding <= 0.01 then Paid else if newPaid <= 0.01 then Unpaid else Partial
  }

  /** The bill's fields once `bill.update` has saved a payment of `amount`. */
  function AfterPayment(b: BillFields, amount: real): BillFields {
    var newPaid := b.paidAmount + amount;
    var newOutstanding := b.totalAmount - newPaid;
    Hook(b.(paidAmount := newPaid, outstandingAmount := Max(0.0, newOutstanding),
            paymentStatus := ControllerStatus(newPaid, newOutstanding)))
  }

  // ---------------------------------------------------------------------
  // Properties of a payment

  /** A save recomputes the total from the services and the discount and tax
      inputs alone, so the payment fields written before it do not matter. */
  lemma HookIgnoresPaymentFields(b: BillFields, paid: real, outstanding: real, status: PaymentStatus)
    ensures Hook(b.(paidAmount := paid, outstandingAmount := outstanding, paymentStatus := status)).totalAmount
            == Hook(b).totalAmount
  {
  }

  /** What is persisted follows the hook's rule, not the controller's: the
      balance is `total - paid` without the clamp and the status is the
      hook's `paid >= total` rule; the paid amount grows by exactly `amount`. */
  lemma PersistedAfterPayment(b: BillFields, amount: real)
    requires Consistent(b)
    ensures var r := AfterPayment(b, amount);
      && r.paidAmount == b.paidAmount + amount
      && r.totalAmount == b.totalAmount
      && r.outstandingAmount == b.totalAmount - (b.paidAmount + amount)
      && r.paymentStatus == StatusFor(b.paidAmount + amount, b.totalAmount)
      && Consistent(r)
  {
    var newPaid := b.paidAmount + amount;
    var newOutstanding := b.totalAmount - newPaid;
    HookIgnoresPaymentFields(b, newPaid, Max(0.0, newOutstanding), ControllerStatus(newPaid, newOutstanding));
    HookIdempotent(b.(paidAmount := newPaid, outstandingAmount := Max(0.0, newOutstanding),
                      paymentStatus := ControllerStatus(newPaid, newOutstanding)));
  }

  /** Away from the 0.01 tolerance band the controller's status and the
      hook's agree. */
  lemma ControllerAgreesWithHook(paid: real, total: real)
    requires total - paid <= 0.0 || total - paid > 0.01
    requires paid <= 0.0 || paid > 0.01
    ensures ControllerStatus(paid, total - paid) == StatusFor(paid, total)
  {
  }

  /** Inside the band they disagree: paying 99.995 of a 100.00 bill is
      reported as `paid` but stored as `partial`. */
  lemma ResponseDisagreesWithStored()
    ensures var b := Hook(NewBill(Some([ServiceLine(100.0, None)]), 0.0, 0.0, Some(0.0)));
      && Consistent(b)
      && ControllerStatus(99.995, b.totalAmount - 99.995) == Paid
      && AfterPayment(b, 99.995).paymentStatus == Partial
  {
    var f := NewBill(Some([ServiceLine(100.0, None)]), 0.0, 0.0, Some(0.0));
    SubtotalAppend([], 100.0, None);
    assert [] + [ServiceLine(100.0, None)] == [ServiceLine(100.0, None)];
    HookIdempotent(f);
    PersistedAfterPayment(Hook(f), 99.995);
  }

  /** On a consistent bill, an accepted payment never lifts the paid amount
      above the total. */
  lemma NoOverpayment(b: BillFields, amount: real)
    requires Consistent(b) && amount <= b.outstandingAmount
    ensures b.paidAmount + amount <= b.totalAmount
    ensures AfterPayment(b, amount).outstandingAmount >= 0.0
  {
    PersistedAfterPayment(b, amount);
  }

  // ---------------------------------------------------------------------
  // The desk

  class BillingDesk {
    /** Bills by primary key. */
    var bills: map<string, Bill>
    /** Every bill's `billId`, in creation order. */
    var billIds: seq<string>
    /** Every payment, in creation order. */
    var payments: seq<PaymentRecord>

    ghost predicate Valid()
      reads this, bills.Values
    {
      forall k :: k in bills ==> bills[k].id == k && Consistent(bills[k].Fields())
    }

    constructor ()
      ensures bills == map[] && billIds == [] && payments == [] && Valid()
    {
      bills, billIds, payments := map[], [], [];
    }

    /** `createBill`: the next bill ID of the day, then `Billing.create`
        (which runs the hook). `key` is the new row's primary key. */
    method CreateBill(key: string, patientId: string, f: BillFields, today: string) returns (bill: Bill)
      requires Valid() && key !in bills
      modifies this
      ensures Valid()
      ensures fresh(bill) && bills == old(bills)[key := bill] && payments == old(payments)
      ensures bill.billId == NextId(BillIds, today, old(billIds)) && billIds == old(billIds) + [bill.billId]
      ensures bill.id == key && bill.patientId == patientId && bill.Fields() == Hook(f)
    {
      var billId := NextId(BillIds, today, billIds);
      bill := new Bill(key, billId, patientId, f);
      HookIdempotent(f);
      bills := bills[key := bill];
      billIds := billIds + [billId];
    }

    /** `processPayment`. */
    method ProcessPayment(key: string, amount: real, paymentMethod: string, transactionId: Option<string>,
                          notes: Option<string>, today: string) returns (r: PaymentOutcome)
      requires Valid()
      modifies this, bills.Values
      ensures Valid()
      ensures bills == old(bills) && billIds == old(billIds)
      ensures key !in bills ==> r == BillNotFound && payments == old(payments) && unchanged(bills.Values)
      ensures key in bills && amount > old(bills[key].outstandingAmount) ==>
                r == ExceedsOutstanding && payments == old(payments) && unchanged(bills.Values)
      ensures key in bills && amount <= old(bills[key].outstandingAmount) ==>
                var b := bills[key];
                var newPaid := old(b.paidAmount) + amount;
                var newOutstanding := old(b.totalAmount) - newPaid;
                var p := PaymentRecord(NextId(PaymentIds, today, PaymentIdsOf(old(payments))),
                                       key, b.patientId, amount, paymentMethod, transactionId, TxSuccess, notes);
                && r == Processed(p, newPaid, Max(0.0, newOutstanding), ControllerStatus(newPaid, newOutstanding))
                && payments == old(payments) + [p]
                && b.Fields() == AfterPayment(old(b.Fields()), amount)
                && unchanged(bills.Values - {b})
    {
      if key !in bills {
        return BillNotFound;
      }
      if amount > bills[key].outstandingAmount {
        return ExceedsOutstanding;
      }
      r := RecordPayment(key, amount, paymentMethod, transactionId, notes, today);
    }

    /** The accepted branch of `processPayment`: append the payment, then
        write the controller's amounts to the bill. */
    method RecordPayment(key: string, amount: real, paymentMethod: string, transactionId: Option<string>,
                         notes: Option<string>, today: string) returns (r: PaymentOutcome)
      requires Valid() && key in bills && amount <= bills[key].outstandingAmount
      modifies this, bills[key]
      ensures Valid()
      ensures bills == old(bills) && billIds == old(billIds)
      ensures var b := bills[key];
                var newPaid := old(b.paidAmount) + amount;
                var newOutstanding := old(b.totalAmount) - newPaid;
                var p := PaymentRecord(NextId(PaymentIds, today, PaymentIdsOf(old(payments))),
                                       key, b.patientId, amount, paymentMethod, transactionId, TxSuccess, notes);
                && r == Processed(p, newPaid, Max(0.0, newOutstanding), ControllerStatus(newPaid, newOutstanding))
                && payments == old(payments) + [p]
                && b.Fields() == AfterPayment(old(b.Fields()), amount)
    {
      var bill := bills[key];
      var paymentId := NextId(PaymentIds, today, PaymentIdsOf(payments));
      var payment := PaymentRecord(paymentId, bill.id, bill.patientId, amount, paymentMethod, transactionId,
                                   TxSuccess, notes);
      payments := payments + [payment];
      ghost var before := bill.Fields();
      var newPaidAmount, newOutstanding, paymentStatus := ApplyPayment(bill, amount);
      forall k | k in bills
        ensures bills[k].id == k && Consistent(bills[k].Fields())
      {
        if bills[k] == bill {
          PersistedAfterPayment(before, amount);
        }
      }
      r := Processed(payment, newPaidAmount, Max(0.0, newOutstanding), paymentStatus);
    }
  }

  /** The controller arithmetic on one bill, then `bill.update`. */
  method ApplyPayment(bill: Bill, amount: real) returns (newPaidAmount: real, newOutstanding: real, paymentStatus: PaymentStatus)
    modifies bill
    ensures newPaidAmount == old(bill.paidAmount) + amount
    ensures newOutstanding == old(bill.totalAmount) - newPaidAmount
    ensures paymentStatus == ControllerStatus(newPaidAmount, newOutstanding)
    ensures bill.Fields() == AfterPayment(old(bill.Fields()), amount)
  {
    newPaidAmount := bill.paidAmount + amount;
    newOutstanding := bill.totalAmount - newPaidAmount;
    paymentStatus := Partial;
    if newOutstanding <= 0.01 {
      paymentStatus := Paid;
    } else if newPaidAmount <= 0.01 {
      paymentStatus := Unpaid;
    }
    bill.UpdatePayment(newPaidAmount, Max(0.0, newOutstanding), paymentStatus);
  }

}
