/** The pharmacy desk: `fulfillPrescription` checks and dispenses the lines
    of a prescription one by one, accumulating the price and decrementing
    each drug as it goes (a later refusal does not undo earlier lines), then
    records the fulfilment; `getPharmacyAlerts` lists low-stock, expiring and
    out-of-stock drugs; drug codes and fulfilment IDs come from the shared
    sequence generator. */
module Pharmacy {
  import opened Common
  import opened Ids
  import opened DrugInventory

  /** One entry of `dispensedMedications`. */
  datatype DispenseLine = DispenseLine(drugId: string, quantity: int)

  /** Why a dispense stopped: the 404 naming the drug ID, or the 400 naming
      the drug with its available and required quantities. */
  datatype DispenseError =
    | DrugNotFound(drugId: string)
    | NotEnoughStock(drugName: string, available: int, required: int)

  /** The drugs, the running `totalAmount`, and the error that stopped the
      loop, if any. */
  datatype Dispensing = Dispensing(drugs: map<string, Drug>, total: real, error: Option<DispenseError>)

  /** One pass of the loop body; once stopped, nothing more happens. */
  function Step(st: Dispensing, line: DispenseLine): Dispensing {
    if st.error.Some? then st
    else if line.drugId !in st.drugs then st.(error := Some(DrugNotFound(line.drugId)))
    else
      var d := st.drugs[line.drugId];
      if d.quantityInStock < line.quantity then
        st.(error := Some(NotEnoughStock(d.drugName, d.quantityInStock, line.quantity)))
      else
        Dispensing(st.drugs[line.drugId := d.(quantityInStock := d.quantityInStock - line.quantity)],
                   st.total + d.sellingPrice * line.quantity as real, None)
  }

  /** The loop over `dispensedMedications`, from the drugs before it. */
  function Dispense(drugs: map<string, Drug>, lines: seq<DispenseLine>): Dispensing
    decreases |lines|
  {
    if lines == [] then Dispensing(drugs, 0.0, None)
    else Step(Dispense(drugs, lines[..|lines| - 1]), lines[|lines| - 1])
  }

  datatype FulfillmentStatus = FulfillmentPending | FulfillmentPartial | FulfillmentCompleted | FulfillmentCancelled

  datatype Fulfillment = Fulfillment(
    fulfillmentId: string,
    prescriptionId: string,
    patientId: string,
    pharmacistId: string,
    dispensedMedications: seq<DispenseLine>,
    totalAmount: real,
    insuranceCovered: real,
    patientPayable: real,
    paymentMethod: string,
    status: FulfillmentStatus)

  datatype FulfillOutcome =
    | PrescriptionNotFound
    | Refused(error: DispenseError)
    | Fulfilled(record: Fulfillment)

  /** The record `PrescriptionFulfillment.create` writes: insurance defaults
      to 0 and the patient pays the rest, unclamped. */
  function FulfillmentFor(id: string, prescriptionId: string, patientId: string, pharmacistId: string,
                          lines: seq<DispenseLine>, total: real, insuranceCovered: Option<real>,
                          paymentMethod: string): (f: Fulfillment)
    ensures f.status == FulfillmentCompleted && f.totalAmount == total
    ensures f.insuranceCovered == (if insuranceCovered.Some? && insuranceCovered.value != 0.0 then insuranceCovered.value else 0.0)
    ensures f.patientPayable == f.totalAmount - f.insuranceCovered
    ensures insuranceCovered.Some? && insuranceCovered.value > total ==> f.patientPayable < 0.0
  {
    var covered := OrNumber(insuranceCovered, 0.0);
    Fulfillment(id, prescriptionId, patientId, pharmacistId, lines, total, covered, total - covered,
                paymentMethod, FulfillmentCompleted)
  }

  function FulfillmentIdsOf(fs: seq<Fulfillment>): (r: seq<string>)
    ensures |r| == |fs| && forall i :: 0 <= i < |fs| ==> r[i] == fs[i].fulfillmentId
  {
    if fs == [] then [] else FulfillmentIdsOf(fs[..|fs| - 1]) + [fs[|fs| - 1].fulfillmentId]
  }

  /** `generateFulfillmentId`: `FUL<yyyymmdd><nnnn>`. */
  function NextFulfillmentId(today: string, fs: seq<Fulfillment>): string {
    NextId(FulfillmentIds, today, FulfillmentIdsOf(fs))
  }

  /** Each fulfillment ID continues the day's sequence, up to number 9999. */
  lemma NextFulfillmentIdContinues(today: string, fs: seq<Fulfillment>, n: nat)
    requires n < 10000
    requires LastIssued(FulfillmentIds, today, FulfillmentIdsOf(fs)) == Some(Format(FulfillmentIds, today, n))
    ensures NextFulfillmentId(today, fs) == Format(FulfillmentIds, today, n + 1)
  {
    DatedContinues("FUL", today, FulfillmentIdsOf(fs), n);
  }

  /** `generateDrugCode(category)`. */
  function NextDrugCode(category: string, codes: seq<string>): string {
    NextId(CategoryScheme(DrugPrefix(category)), "", codes)
  }

  // ---------------------------------------------------------------------
  // Properties of a dispense

  /** Once a line is refused the rest of the list changes nothing. */
  lemma {:induction false} ErrorPersists(drugs: map<string, Drug>, lines: seq<DispenseLine>, k: nat)
    requires k <= |lines| && Dispense(drugs, lines[..k]).error.Some?
    ensures Dispense(drugs, lines) == Dispense(drugs, lines[..k])
    decreases |lines| - k
  {
    if k < |lines| {
      assert lines[..k + 1][..k] == lines[..k];
      assert Dispense(drugs, lines[..k + 1]) == Dispense(drugs, lines[..k]);
      ErrorPersists(drugs, lines, k + 1);
    } else {
      assert lines[..k] == lines;
    }
  }

  /** A refusal at line `k` leaves the drugs as lines `0..k` made them: the
      earlier decrements stay. */
  lemma NoRollback(drugs: map<string, Drug>, lines: seq<DispenseLine>, k: nat)
    requires k < |lines| && Dispense(drugs, lines[..k]).error.None?
    requires Dispense(drugs, lines[..k + 1]).error.Some?
    ensures Dispense(drugs, lines).drugs == Dispense(drugs, lines[..k]).drugs
    ensures Dispense(drugs, lines).error == Dispense(drugs, lines[..k + 1]).error
  {
    assert lines[..k + 1][..k] == lines[..k];
    ErrorPersists(drugs, lines, k + 1);
  }

  /** The dispense changes nothing but stock: the same drugs, with the same
      names, prices and expiry dates. */
  lemma {:induction false} DispenseKeepsCatalogue(drugs: map<string, Drug>, lines: seq<DispenseLine>)
    ensures Dispense(drugs, lines).drugs.Keys == drugs.Keys
    ensures forall k :: k in drugs ==>
              Dispense(drugs, lines).drugs[k] == drugs[k].(quantityInStock := Dispense(drugs, lines).drugs[k].quantityInStock)
    decreases |lines|
  {
    if lines != [] {
      DispenseKeepsCatalogue(drugs, lines[..|lines| - 1]);
    }
  }

  /** `Σ sellingPrice × quantity` over the lines, at the prices before the
      dispense. */
  function ListPrice(drugs: map<string, Drug>, lines: seq<DispenseLine>): real
    decreases |lines|
  {
    if lines == [] then 0.0
    else
      var l := lines[|lines| - 1];
      ListPrice(drugs, lines[..|lines| - 1]) + (if l.drugId in drugs then drugs[l.drugId].sellingPrice * l.quantity as real else 0.0)
  }

  /** One accepted line: its drug was there, the total grows by its price
      times its quantity, and no drug appears or disappears. */
  lemma StepAccepted(st: Dispensing, l: DispenseLine)
    requires st.error.None? && Step(st, l).error.None?
    ensures l.drugId in st.drugs && Step(st, l).drugs.Keys == st.drugs.Keys
    ensures Step(st, l).total == st.total + st.drugs[l.drugId].sellingPrice * l.quantity as real
  {
  }

  /** One accepted line decrements its drug and touches no other. */
  lemma StepDecrements(st: Dispensing, l: DispenseLine)
    requires st.error.None? && Step(st, l).error.None?
    ensures l.drugId in st.drugs && Step(st, l).drugs.Keys == st.drugs.Keys
    ensures Step(st, l).drugs[l.drugId].quantityInStock == st.drugs[l.drugId].quantityInStock - l.quantity
    ensures forall k :: k in st.drugs && k != l.drugId ==> Step(st, l).drugs[k] == st.drugs[k]
  {
  }

  lemma DispenseKeepsPrice(drugs: map<string, Drug>, lines: seq<DispenseLine>, k: string)
    requires k in drugs
    ensures k in Dispense(drugs, lines).drugs && Dispense(drugs, lines).drugs[k].sellingPrice == drugs[k].sellingPrice
  {
    DispenseKeepsCatalogue(drugs, lines);
  }

  /** A dispense that goes through has seen every drug. */
  lemma {:induction false} DispenseSeesAll(drugs: map<string, Drug>, lines: seq<DispenseLine>)
    requires Dispense(drugs, lines).error.None?
    ensures forall i :: 0 <= i < |lines| ==> lines[i].drugId in drugs
    decreases |lines|
  {
    if lines != [] {
      var n := |lines| - 1;
      var init := lines[..n];
      var st := Dispense(drugs, init);
      assert st.error.None?;
      DispenseSeesAll(drugs, init);
      StepAccepted(st, lines[n]);
      DispenseKeepsCatalogue(drugs, init);
      assert forall i :: 0 <= i < n ==> lines[i] == init[i];
    }
  }

  /** A dispense that goes through has seen every drug, and its total is the
      list price of the lines. */
  lemma {:induction false} DispenseTotal(drugs: map<string, Drug>, lines: seq<DispenseLine>)
    requires Dispense(drugs, lines).error.None?
    ensures forall l :: l in lines ==> l.drugId in drugs
    ensures Dispense(drugs, lines).total == ListPrice(drugs, lines)
    decreases |lines|
  {
    DispenseSeesAll(drugs, lines);
    if lines != [] {
      var init := lines[..|lines| - 1];
      var l := lines[|lines| - 1];
      var st := Dispense(drugs, init);
      assert st.error.None?;
      DispenseTotal(drugs, init);
      StepAccepted(st, l);
      DispenseKeepsPrice(drugs, init, l.drugId);
    }
  }

  /** A stock that starts non-negative stays non-negative, whether or not
      the dispense is refused part-way (a line never takes more than the
      stock it finds). */
  lemma {:induction false} DispenseKeepsStockNonNegative(drugs: map<string, Drug>, lines: seq<DispenseLine>)
    requires forall k :: k in drugs ==> drugs[k].quantityInStock >= 0
    ensures forall k :: k in Dispense(drugs, lines).drugs ==> Dispense(drugs, lines).drugs[k].quantityInStock >= 0
    decreases |lines|
  {
    if lines != [] {
      DispenseKeepsStockNonNegative(drugs, lines[..|lines| - 1]);
    }
  }

  predicate DistinctDrugs(lines: seq<DispenseLine>) {
    forall i, j :: 0 <= i < j < |lines| ==> lines[i].drugId != lines[j].drugId
  }

  /** A drug no line names is left as it was. */
  lemma {:induction false} DispenseUntouched(drugs: map<string, Drug>, lines: seq<DispenseLine>, k: string)
    requires k in drugs && forall i :: 0 <= i < |lines| ==> lines[i].drugId != k
    ensures k in Dispense(drugs, lines).drugs && Dispense(drugs, lines).drugs[k] == drugs[k]
    decreases |lines|
  {
    if lines != [] {
      var init := lines[..|lines| - 1];
      assert forall i :: 0 <= i < |init| ==> init[i] == lines[i];
      DispenseUntouched(drugs, init, k);
    }
  }

  /** With each drug on one line, a dispense that goes through leaves every
      listed drug at its old stock minus its quantity (and, by
      `DispenseUntouched`, every other drug as it was). */
  lemma {:induction false} DispenseDecrements(drugs: map<string, Drug>, lines: seq<DispenseLine>)
    requires DistinctDrugs(lines) && Dispense(drugs, lines).error.None?
    ensures forall i :: 0 <= i < |lines| ==>
              lines[i].drugId in drugs && lines[i].drugId in Dispense(drugs, lines).drugs &&
              Dispense(drugs, lines).drugs[lines[i].drugId].quantityInStock ==
              drugs[lines[i].drugId].quantityInStock - lines[i].quantity
    decreases |lines|
  {
    if lines != [] {
      var n := |lines| - 1;
      var init := lines[..n];
      var l := lines[n];
      assert forall i :: 0 <= i < n ==> init[i] == lines[i];
      assert DistinctDrugs(init);
      var st := Dispense(drugs, init);
      assert st.error.None?;
      DispenseDecrements(drugs, init);
      StepDecrements(st, l);
      DispenseKeepsCatalogue(drugs, init);
      assert l.drugId in drugs;
      DispenseUntouched(drugs, init, l.drugId);
      forall i | 0 <= i < |lines|
        ensures lines[i].drugId in drugs && lines[i].drugId in Dispense(drugs, lines).drugs &&
                Dispense(drugs, lines).drugs[lines[i].drugId].quantityInStock ==
                drugs[lines[i].drugId].quantityInStock - lines[i].quantity
      {
        if i < n {
          assert lines[i] == init[i] && lines[i].drugId != l.drugId;
        }
      }
    }
  }

  /** A refusal reports what the line asked for against what the drug had. */
  lemma {:induction false} RefusalNamesLine(drugs: map<string, Drug>, lines: seq<DispenseLine>)
    ensures match Dispense(drugs, lines).error
      case None => true
      case Some(DrugNotFound(id)) => exists l :: l in lines && l.drugId == id && id !in drugs
      case Some(NotEnoughStock(name, available, required)) =>
        available < required && exists l :: l in lines && l.quantity == required
    decreases |lines|
  {
    if lines != [] {
      var init := lines[..|lines| - 1];
      var l := lines[|lines| - 1];
      RefusalNamesLine(drugs, init);
      DispenseKeepsCatalogue(drugs, init);
      assert forall x :: x in init ==> x in lines;
      assert l in lines;
    }
  }

  // ---------------------------------------------------------------------
  // The desk

  class PharmacyDesk {
    /** Drugs by primary key. */
    var drugs: map<string, Drug>
    /** Prescriptions by primary key, with each one's patient. */
    var prescriptions: map<string, string>
    /** Fulfilment records, in creation order. */
    var fulfillments: seq<Fulfillment>

    /** No drug holds negative stock. */
    ghost predicate Valid()
      reads this
    {
      forall k :: k in drugs ==> drugs[k].quantityInStock >= 0
    }

    constructor (drugs: map<string, Drug>, prescriptions: map<string, string>)
      ensures this.drugs == drugs && this.prescriptions == prescriptions && fulfillments == []
    {
      this.drugs, this.prescriptions, fulfillments := drugs, prescriptions, [];
    }

    /** `fulfillPrescription`. */
    method FulfillPrescription(prescriptionId: string, lines: seq<DispenseLine>, paymentMethod: string,
                               insuranceCovered: Option<real>, pharmacistId: string, today: string)
      returns (r: FulfillOutcome)
      modifies this
      ensures old(Valid()) ==> Valid()
      ensures prescriptions == old(prescriptions)
      ensures prescriptionId !in prescriptions ==> r == PrescriptionNotFound && unchanged(this)
      ensures prescriptionId in prescriptions ==>
                var d := Dispense(old(drugs), lines);
                && drugs == d.drugs
                && (d.error.Some? ==> r == Refused(d.error.value) && fulfillments == old(fulfillments))
                && (d.error.None? ==>
                      var f := FulfillmentFor(NextFulfillmentId(today, old(fulfillments)), prescriptionId,
                                              prescriptions[prescriptionId], pharmacistId, lines, d.total,
                                              insuranceCovered, paymentMethod);
                      r == Fulfilled(f) && fulfillments == old(fulfillments) + [f])
    {
      if prescriptionId !in prescriptions {
        return PrescriptionNotFound;
      }
      ghost var before := drugs;
      var totalAmount, error := DispenseLines(lines);
      if old(Valid()) {
        DispenseKeepsStockNonNegative(before, lines);
      }
      if error.Some? {
        return Refused(error.value);
      }
      var fulfillmentId := NextFulfillmentId(today, fulfillments);
      var f := FulfillmentFor(fulfillmentId, prescriptionId, prescriptions[prescriptionId], pharmacistId, lines,
                              totalAmount, insuranceCovered, paymentMethod);
      fulfillments := fulfillments + [f];
      r := Fulfilled(f);
    }

    /** The loop: each line is looked up, checked against the stock it
        finds, priced and decremented before the next line is read. */
    method DispenseLines(lines: seq<DispenseLine>) returns (totalAmount: real, error: Option<DispenseError>)
      modifies this
      ensures Dispensing(drugs, totalAmount, error) == Dispense(old(drugs), lines)
      ensures prescriptions == old(prescriptions) && fulfillments == old(fulfillments)
    {
      totalAmount := 0.0;
      var i := 0;
      while i < |lines|
        invariant 0 <= i <= |lines|
        invariant Dispense(old(drugs), lines[..i]) == Dispensing(drugs, totalAmount, None)
        invariant prescriptions == old(prescriptions) && fulfillments == old(fulfillments)
      {
        var line := lines[i];
        assert lines[..i + 1][..i] == lines[..i];
        if line.drugId !in drugs {
          error := Some(DrugNotFound(line.drugId));
          ErrorPersists(old(drugs), lines, i + 1);
          return;
        }
        var drug := drugs[line.drugId];
        if drug.quantityInStock < line.quantity {
          error := Some(NotEnoughStock(drug.drugName, drug.quantityInStock, line.quantity));
          ErrorPersists(old(drugs), lines, i + 1);
          return;
        }
        totalAmount := totalAmount + drug.sellingPrice * line.quantity as real;
        drugs := drugs[line.drugId := drug.(quantityInStock := drug.quantityInStock - line.quantity)];
        i := i + 1;
      }
      assert lines[..i] == lines;
      error := None;
    }
  }

  // ---------------------------------------------------------------------
  // Alert lists

  /** Active drugs at or below their reorder level (zero stock included). */
  function LowStockDrugs(ds: seq<Drug>): seq<Drug> {
    Filter(ds, (d: Drug) => d.isActive && d.quantityInStock <= d.reorderLevel)
  }

  /** Active, in-stock drugs expiring within thirty days. */
  function ExpiringDrugs(ds: seq<Drug>, now: int): seq<Drug> {
    Filter(ds, (d: Drug) => d.isActive && d.expiryDate <= ThirtyDaysFrom(now) && d.quantityInStock > 0)
  }

  function OutOfStockDrugs(ds: seq<Drug>): seq<Drug> {
    Filter(ds, (d: Drug) => d.isActive && d.quantityInStock == 0)
  }

  /** With non-negative reorder levels every out-of-stock drug is also in
      the low-stock list, so the out-of-stock count never exceeds the
      low-stock count; an expiring drug is never out of stock. */
  lemma AlertListsOverlap(ds: seq<Drug>, now: int)
    requires forall d :: d in ds ==> d.reorderLevel >= 0
    ensures forall d :: d in OutOfStockDrugs(ds) ==> d in LowStockDrugs(ds)
    ensures |OutOfStockDrugs(ds)| <= |LowStockDrugs(ds)|
    ensures forall d :: d in ExpiringDrugs(ds, now) ==> d !in OutOfStockDrugs(ds)
  {
    var out := (d: Drug) => d.isActive && d.quantityInStock == 0;
    var low := (d: Drug) => d.isActive && d.quantityInStock <= d.reorderLevel;
    forall d | d in OutOfStockDrugs(ds) ensures d in LowStockDrugs(ds) {
      FilterComplete(ds, low, d);
    }
    FilterMonotone(ds, out, low);
  }

  /** The lists agree with the save hook's alerts: an active drug is listed
      out of stock iff a save of it raises the out-of-stock alert, is listed
      expiring iff it is in stock and a save raises the expiry alert, and
      (with non-negative stock and reorder level) is listed low iff a save
      raises either stock alert. */
  lemma AlertListsMatchHook(ds: seq<Drug>, now: int, d: Drug)
    requires d in ds && d.isActive
    ensures d in OutOfStockDrugs(ds) <==> OutOfStockAlert in AfterUpdateAlerts(d, now)
    ensures d in ExpiringDrugs(ds, now) <==> d.quantityInStock > 0 && ExpiryAlert in AfterUpdateAlerts(d, now)
    ensures d.quantityInStock >= 0 && d.reorderLevel >= 0 ==>
              (d in LowStockDrugs(ds) <==>
               ReorderAlert in AfterUpdateAlerts(d, now) || OutOfStockAlert in AfterUpdateAlerts(d, now))
  {
    AlertConditions(d, now);
    var out := (x: Drug) => x.isActive && x.quantityInStock == 0;
    var low := (x: Drug) => x.isActive && x.quantityInStock <= x.reorderLevel;
    var exp := (x: Drug) => x.isActive && x.expiryDate <= ThirtyDaysFrom(now) && x.quantityInStock > 0;
    if out(d) { FilterComplete(ds, out, d); }
    if low(d) { FilterComplete(ds, low, d); }
    if exp(d) { FilterComplete(ds, exp, d); }
  }

  // ---------------------------------------------------------------------
  // Codes

  /** `slice(3)` cuts exactly the three-letter prefix, so drug codes of a
      category continue for every sequence number. */
  lemma DrugCodesContinue(category: string, codes: seq<string>, n: nat)
    requires LastIssued(CategoryScheme(DrugPrefix(category)), "", codes) ==
             Some(Format(CategoryScheme(DrugPrefix(category)), "", n))
    ensures NextDrugCode(category, codes) == Format(CategoryScheme(DrugPrefix(category)), "", n + 1)
  {
    UndatedScope(CategoryScheme(DrugPrefix(category)), "");
    NextAfterDropScope(CategoryScheme(DrugPrefix(category)), "", codes, n);
  }
}
