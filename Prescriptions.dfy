/** Prescriptions: the drug-interaction scan over every ordered pair of a
    prescription's medications, and what `createPrescription` does with its
    result (reports it, never refuses because of it). Prescription IDs come
    from the shared sequence generator. */
module Prescriptions {
  import opened Common
  import opened Ids

  /** One entry of `medications`; only the name is read by the scan. */
  datatype Medication = Medication(name: string)

  datatype Interaction = Interaction(drug1: string, drug2: string, severity: string, description: string)

  /** `toLowerCase` on ASCII letters. */
  function Lower(s: string): (r: string)
    ensures |r| == |s|
    ensures forall i :: 0 <= i < |s| ==> ('A' <= s[i] <= 'Z' ==> r[i] == (s[i] as int + 32) as char) &&
                                         (!('A' <= s[i] <= 'Z') ==> r[i] == s[i])
  {
    if s == [] then []
    else
      var c := s[0];
      [if 'A' <= c <= 'Z' then (c as int + 32) as char else c] + Lower(s[1..])
  }

  /** `interactionDatabase`: the drugs each key is listed against. */
  function InteractionEntry(drug: string): Option<seq<string>> {
    match drug
    case "warfarin" => Some(["aspirin", "ibuprofen"])
    case "aspirin" => Some(["warfarin", "metformin"])
    case "lisinopril" => Some(["potassium", "spironolactone"])
    case _ => None
  }

  /** The test inside the loops: the earlier drug's entry lists the later
      one, both lower-cased. */
  predicate Flagged(m1: Medication, m2: Medication) {
    var e := InteractionEntry(Lower(m1.name));
    e.Some? && Lower(m2.name) in e.value
  }

  /** The pushed record, under the original (not lower-cased) names. */
  function Report(m1: Medication, m2: Medication): (x: Interaction)
    ensures x.drug1 == m1.name && x.drug2 == m2.name && x.severity == "moderate"
  {
    Interaction(m1.name, m2.name, "moderate", "Potential interaction between " + m1.name + " and " + m2.name)
  }

  /** The reports for pairs `(i, k)` with `i < k < hi`, in order of `k`,
      under the pair test `flagged`. */
  function Row(meds: seq<Medication>, flagged: (Medication, Medication) -> bool, i: nat, hi: nat): seq<Interaction>
    requires i < hi <= |meds|
    decreases hi
  {
    if hi == i + 1 then []
    else Row(meds, flagged, i, hi - 1) + (if flagged(meds[i], meds[hi - 1]) then [Report(meds[i], meds[hi - 1])] else [])
  }

  /** The reports of the first `n` rows. */
  function Rows(meds: seq<Medication>, flagged: (Medication, Medication) -> bool, n: nat): seq<Interaction>
    requires n <= |meds|
  {
    if n == 0 then [] else Rows(meds, flagged, n - 1) + Row(meds, flagged, n - 1, |meds|)
  }

  /** What `checkDrugInteractions(medications)` returns. */
  function Interactions(meds: seq<Medication>): seq<Interaction> {
    Rows(meds, Flagged, |meds|)
  }

  /** Row `i` up to `j + 1` is row `i` up to `j`, then the report for `j`
      if the pair is flagged. */
  lemma RowStep(meds: seq<Medication>, flagged: (Medication, Medication) -> bool, i: nat, j: nat)
    requires i < j < |meds|
    ensures flagged(meds[i], meds[j]) ==> Row(meds, flagged, i, j + 1) == Row(meds, flagged, i, j) + [Report(meds[i], meds[j])]
    ensures !flagged(meds[i], meds[j]) ==> Row(meds, flagged, i, j + 1) == Row(meds, flagged, i, j)
  {
  }

  /** The two index loops of `checkDrugInteractions`, under the pair test
      `flagged`: every pair `i < j`, in order, pushing a report for each
      flagged pair. */
  method ScanPairs(meds: seq<Medication>, flagged: (Medication, Medication) -> bool) returns (interactions: seq<Interaction>)
    ensures interactions == Rows(meds, flagged, |meds|)
  {
    interactions := [];
    var i := 0;
    while i < |meds|
      invariant 0 <= i <= |meds|
      invariant interactions == Rows(meds, flagged, i)
    {
      var j := i + 1;
      while j < |meds|
        invariant i + 1 <= j <= |meds|
        invariant interactions == Rows(meds, flagged, i) + Row(meds, flagged, i, j)
      {
        RowStep(meds, flagged, i, j);
        if flagged(meds[i], meds[j]) {
          interactions := interactions + [Report(meds[i], meds[j])];
        }
        j := j + 1;
      }
      i := i + 1;
    }
  }

  /** `checkDrugInteractions`: the scan under the interaction table. */
  method CheckDrugInteractions(meds: seq<Medication>) returns (interactions: seq<Interaction>)
    ensures interactions == Interactions(meds)
  {
    interactions := ScanPairs(meds, Flagged);
  }

  // ---------------------------------------------------------------------
  // Properties of the scan

  lemma {:induction false} RowExactly(meds: seq<Medication>, flagged: (Medication, Medication) -> bool, i: nat, hi: nat)
    requires i < hi <= |meds|
    ensures forall x :: x in Row(meds, flagged, i, hi) ==>
              exists k :: i < k < hi && flagged(meds[i], meds[k]) && x == Report(meds[i], meds[k])
    ensures forall k :: i < k < hi && flagged(meds[i], meds[k]) ==> Report(meds[i], meds[k]) in Row(meds, flagged, i, hi)
    decreases hi
  {
    if hi > i + 1 {
      RowExactly(meds, flagged, i, hi - 1);
    }
  }

  /** Every report of the first `n` rows comes from a flagged pair. */
  lemma {:induction false} RowsSound(meds: seq<Medication>, flagged: (Medication, Medication) -> bool, n: nat)
    requires n <= |meds|
    ensures forall x :: x in Rows(meds, flagged, n) ==>
              exists i, j :: 0 <= i < n && i < j < |meds| && flagged(meds[i], meds[j]) && x == Report(meds[i], meds[j])
  {
    if n > 0 {
      RowsSound(meds, flagged, n - 1);
      RowExactly(meds, flagged, n - 1, |meds|);
    }
  }

  /** Every flagged pair of the first `n` rows is reported. */
  lemma {:induction false} RowsComplete(meds: seq<Medication>, flagged: (Medication, Medication) -> bool, n: nat)
    requires n <= |meds|
    ensures forall i, j :: 0 <= i < n && i < j < |meds| && flagged(meds[i], meds[j]) ==>
              Report(meds[i], meds[j]) in Rows(meds, flagged, n)
  {
    if n > 0 {
      RowsComplete(meds, flagged, n - 1);
      RowExactly(meds, flagged, n - 1, |meds|);
      var earlier := Rows(meds, flagged, n - 1);
      var last := Row(meds, flagged, n - 1, |meds|);
      assert Rows(meds, flagged, n) == earlier + last;
      forall i, j | 0 <= i < n && i < j < |meds| && flagged(meds[i], meds[j])
        ensures Report(meds[i], meds[j]) in earlier + last
      {
        if i < n - 1 {
          assert Report(meds[i], meds[j]) in earlier;
        } else {
          assert Report(meds[i], meds[j]) in last;
        }
      }
    }
  }

  /** A report is produced exactly for the pairs `i < j` whose earlier drug's
      entry lists the later one; it names `medications[i]` first and
      `medications[j]` second and always says `moderate`. */
  lemma InteractionsExactly(meds: seq<Medication>)
    ensures forall x :: x in Interactions(meds) ==>
              x.severity == "moderate" &&
              exists i, j :: 0 <= i < j < |meds| && Flagged(meds[i], meds[j]) &&
                             x.drug1 == meds[i].name && x.drug2 == meds[j].name
    ensures forall i, j :: 0 <= i < j < |meds| && Flagged(meds[i], meds[j]) ==>
              Report(meds[i], meds[j]) in Interactions(meds)
  {
    RowsSound(meds, Flagged, |meds|);
    RowsComplete(meds, Flagged, |meds|);
  }

  lemma {:induction false} RowLength(meds: seq<Medication>, flagged: (Medication, Medication) -> bool, i: nat, hi: nat)
    requires i < hi <= |meds|
    ensures |Row(meds, flagged, i, hi)| <= hi - i - 1
    decreases hi
  {
    if hi > i + 1 {
      RowLength(meds, flagged, i, hi - 1);
    }
  }

  /** `n(2m - n - 1)`: twice the number of pairs `i < j < m` with `i < n`. */
  function PairBound(n: int, m: int): int {
    n * (2 * m - n - 1)
  }

  lemma {:induction false} RowsLength(meds: seq<Medication>, flagged: (Medication, Medication) -> bool, n: nat)
    requires n <= |meds|
    ensures 2 * |Rows(meds, flagged, n)| <= PairBound(n, |meds|)
  {
    if n > 0 {
      var m := |meds|;
      RowsLength(meds, flagged, n - 1);
      RowLength(meds, flagged, n - 1, m);
      assert |Rows(meds, flagged, n)| == |Rows(meds, flagged, n - 1)| + |Row(meds, flagged, n - 1, m)|;
      PairCountStep(n, m);
    }
  }

  lemma PairCountStep(n: int, m: int)
    ensures PairBound(n - 1, m) + 2 * (m - n) == PairBound(n, m)
  {
  }

  /** At most one report per unordered pair: `n(n-1)/2`; none for fewer
      than two medications. */
  lemma InteractionsBound(meds: seq<Medication>)
    ensures 2 * |Interactions(meds)| <= |meds| * (|meds| - 1)
    ensures |meds| < 2 ==> Interactions(meds) == []
  {
    RowsLength(meds, Flagged, |meds|);
    assert PairBound(|meds|, |meds|) == |meds| * (|meds| - 1);
  }

  /** Two medications give one report or none, by the one test. */
  lemma TwoMedications(a: Medication, b: Medication)
    ensures Interactions([a, b]) == (if Flagged(a, b) then [Report(a, b)] else [])
  {
    var ms := [a, b];
    assert Row(ms, Flagged, 1, 2) == [];
    assert Row(ms, Flagged, 0, 1) == [];
    assert Rows(ms, Flagged, 1) == [] + Row(ms, Flagged, 0, 2);
  }

  lemma LowerAspirin(s: string)
    requires s == "Aspirin"
    ensures Lower(s) == "aspirin"
  {
    forall i | 0 <= i < 7 ensures Lower(s)[i] == "aspirin"[i] {
    }
  }

  lemma LowerMetformin(s: string)
    requires s == "Metformin"
    ensures Lower(s) == "metformin"
  {
    forall i | 0 <= i < 9 ensures Lower(s)[i] == "metformin"[i] {
    }
  }

  lemma AspirinListsMetformin(a: Medication, m: Medication)
    requires a == Medication("Aspirin") && m == Medication("Metformin")
    ensures Flagged(a, m)
  {
    LowerAspirin(a.name);
    LowerMetformin(m.name);
    assert InteractionEntry("aspirin") == Some(["warfarin", "metformin"]);
  }

  lemma MetforminListsNothing(m: Medication, other: Medication)
    requires m == Medication("Metformin")
    ensures !Flagged(m, other)
  {
    LowerMetformin(m.name);
    NoMetforminEntry(Lower(m.name));
  }

  lemma NoMetforminEntry(s: string)
    requires s == "metformin"
    ensures InteractionEntry(s).None?
  {
  }

  /** The match is one-directional: aspirin then metformin is reported,
      metformin then aspirin is not. */
  lemma OneDirectional()
    ensures Interactions([Medication("Aspirin"), Medication("Metformin")]) ==
            [Report(Medication("Aspirin"), Medication("Metformin"))]
    ensures Interactions([Medication("Metformin"), Medication("Aspirin")]) == []
  {
    AspirinListsMetformin(Medication("Aspirin"), Medication("Metformin"));
    MetforminListsNothing(Medication("Metformin"), Medication("Aspirin"));
    TwoMedications(Medication("Aspirin"), Medication("Metformin"));
    TwoMedications(Medication("Metformin"), Medication("Aspirin"));
  }

  // ---------------------------------------------------------------------
  // Creating a prescription

  datatype CreateOutcome =
    | PatientNotFound
    | Created(prescriptionId: string, drugInteractions: Option<seq<Interaction>>)

  /** `createPrescription` once the doctor is known: the patient must exist;
      the scan's result is only reported (`null` when empty). */
  function CreatePrescription(patientFound: bool, meds: seq<Medication>, today: string, existing: seq<string>)
    : (r: CreateOutcome)
    ensures patientFound <==> r.Created?
  {
    if !patientFound then PatientNotFound
    else
      var found := Interactions(meds);
      Created(NextId(PrescriptionIds, today, existing), if |found| > 0 then Some(found) else None)
  }

  /** Interactions never block creation: the same prescription ID is issued
      whatever the medications, and the reported list is the scan's. */
  lemma InteractionsNeverBlock(meds: seq<Medication>, others: seq<Medication>, today: string, existing: seq<string>)
    ensures CreatePrescription(true, meds, today, existing).prescriptionId ==
            CreatePrescription(true, others, today, existing).prescriptionId
    ensures CreatePrescription(true, meds, today, existing).drugInteractions.None? <==> Interactions(meds) == []
    ensures CreatePrescription(true, meds, today, existing).drugInteractions.Some? ==>
            CreatePrescription(true, meds, today, existing).drugInteractions.value == Interactions(meds)
  {
  }
}
