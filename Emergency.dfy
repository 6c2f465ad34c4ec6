/** The emergency department: the triage colour and priority of a new case,
    `updateCaseStatus` with its one-time treatment start and wait time, the
    dashboard's average wait, and emergency IDs from the shared sequence
    generator. Instants are milliseconds, waits whole minutes. */
module Emergency {
  import opened Common
  import opened Ids

  datatype TriageLevel = Critical | Urgent | SemiUrgent | NonUrgent | Deceased

  datatype TriageColor = Red | Orange | Yellow | Green | Black

  /** `triageColorMap[triageLevel]`. */
  function TriageColorOf(level: TriageLevel): TriageColor {
    match level
    case Critical => Red
    case Urgent => Orange
    case SemiUrgent => Yellow
    case NonUrgent => Green
    case Deceased => Black
  }

  /** The bounds the `priority` column validates. */
  const HighestPriority: int := 1
  const LowestPriority: int := 5

  /** `priorityMap[triageLevel]` (1 is the most urgent). */
  function PriorityOf(level: TriageLevel): (p: int)
    ensures HighestPriority <= p <= LowestPriority
  {
    match level
    case Critical => 1
    case Urgent => 2
    case SemiUrgent => 3
    case NonUrgent => 4
    case Deceased => 5
  }

  /** The order of the levels from most to least urgent. */
  function Rank(level: TriageLevel): nat {
    match level
    case Critical => 0
    case Urgent => 1
    case SemiUrgent => 2
    case NonUrgent => 3
    case Deceased => 4
  }

  /** Priorities follow the urgency order strictly, so no two levels share
      one, and neither do two levels share a colour. */
  lemma TriageMapsOrdered(a: TriageLevel, b: TriageLevel)
    ensures Rank(a) < Rank(b) <==> PriorityOf(a) < PriorityOf(b)
    ensures a != b ==> PriorityOf(a) != PriorityOf(b) && TriageColorOf(a) != TriageColorOf(b)
  {
  }

  /** Only a critical case is priority 1 and red. */
  lemma OnlyCriticalIsFirst(level: TriageLevel)
    ensures PriorityOf(level) == HighestPriority <==> level == Critical
    ensures TriageColorOf(level) == Red <==> level == Critical
  {
  }

  // ---------------------------------------------------------------------
  // Case status updates

  /** The case statuses of the table; `Died` is the stored `deceased`. */
  datatype CaseStatus = Arrived | Triaged | InTreatment | Admitted | Discharged | Transferred | Died

  /** The fields `updateCaseStatus` reads or writes. */
  datatype CaseFields = CaseFields(
    emergencyId: string,
    status: CaseStatus,
    arrivalTime: int,
    treatmentStartTime: Option<int>,
    actualWaitTime: Option<int>,
    dischargeTime: Option<int>,
    bedId: Option<string>,
    assignedDoctorId: Option<string>,
    treatmentNotes: Option<string>)

  const MsPerMinute: int := 60 * 1000

  /** `Math.round(ms / 60000)`: to the nearest minute, halves upwards. */
  function RoundMinutes(ms: int): int {
    (2 * ms + MsPerMinute) / (2 * MsPerMinute)
  }

  /** The rounded wait is within half a minute of the exact one, and a
      non-negative wait rounds to a non-negative number of minutes. */
  lemma RoundMinutesNearest(ms: int)
    ensures RoundMinutes(ms) * MsPerMinute - MsPerMinute / 2 <= ms < RoundMinutes(ms) * MsPerMinute + MsPerMinute / 2
    ensures ms >= 0 ==> RoundMinutes(ms) >= 0
  {
    var q := RoundMinutes(ms);
    var n := 2 * ms + MsPerMinute;
    assert n == q * (2 * MsPerMinute) + n % (2 * MsPerMinute);
  }

  /** `updateData`: the fields one request writes (`None` = left out; a
      status missing from the body is `undefined`, which `update` skips). */
  datatype UpdateData = UpdateData(
    status: Option<CaseStatus>,
    treatmentStartTime: Option<int>,
    actualWaitTime: Option<int>,
    dischargeTime: Option<int>,
    bedId: Option<string>,
    assignedDoctorId: Option<string>,
    treatmentNotes: Option<string>)

  /** `emergencyCase.update(updateData)`. */
  function Apply(c: CaseFields, u: UpdateData): CaseFields {
    c.(status := u.status.GetOr(c.status),
       treatmentStartTime := if u.treatmentStartTime.Some? then u.treatmentStartTime else c.treatmentStartTime,
       actualWaitTime := if u.actualWaitTime.Some? then u.actualWaitTime else c.actualWaitTime,
       dischargeTime := if u.dischargeTime.Some? then u.dischargeTime else c.dischargeTime,
       bedId := if u.bedId.Some? then u.bedId else c.bedId,
       assignedDoctorId := if u.assignedDoctorId.Some? then u.assignedDoctorId else c.assignedDoctorId,
       treatmentNotes := if u.treatmentNotes.Some? then u.treatmentNotes else c.treatmentNotes)
  }

  /** The `updateData` built for a request at instant `now`. */
  function UpdateFor(c: CaseFields, status: Option<CaseStatus>, bedId: Option<string>, assignedDoctorId: Option<string>,
                     notes: Option<string>, now: int): UpdateData
  {
    var starts := status == Some(InTreatment) && c.treatmentStartTime.None?;
    UpdateData(status,
               if starts then Some(now) else None,
               if starts then Some(RoundMinutes(now - c.arrivalTime)) else None,
               if status == Some(Discharged) || status == Some(Admitted) then Some(now) else None,
               if Truthy(bedId) then bedId else None,
               if Truthy(assignedDoctorId) then assignedDoctorId else None,
               if Truthy(notes) then notes else None)
  }

  /** A case after one `updateCaseStatus` request. */
  function UpdateStatus(c: CaseFields, status: Option<CaseStatus>, bedId: Option<string>, assignedDoctorId: Option<string>,
                        notes: Option<string>, now: int): CaseFields
  {
    Apply(c, UpdateFor(c, status, bedId, assignedDoctorId, notes, now))
  }

  datatype UpdateOutcome = CaseNotFound | StatusUpdated(emergencyId: string, status: CaseStatus, waitTime: Option<int>)

  class EmergencyDesk {
    var cases: map<string, CaseFields>

    constructor (initial: map<string, CaseFields>)
      ensures cases == initial
    {
      cases := initial;
    }

    /** `updateCaseStatus`: look the case up, build `updateData` step by
        step, write it. */
    method UpdateCaseStatus(id: string, status: Option<CaseStatus>, bedId: Option<string>, assignedDoctorId: Option<string>,
                            notes: Option<string>, now: int) returns (r: UpdateOutcome)
      modifies this
      ensures id !in old(cases) ==> r == CaseNotFound && cases == old(cases)
      ensures id in old(cases) ==>
        && cases == old(cases)[id := UpdateStatus(old(cases)[id], status, bedId, assignedDoctorId, notes, now)]
        && r == StatusUpdated(cases[id].emergencyId, cases[id].status, cases[id].actualWaitTime)
    {
      if id !in cases {
        return CaseNotFound;
      }
      var c := cases[id];
      var updateData := UpdateData(status, None, None, None, None, None, None);
      if status == Some(InTreatment) && c.treatmentStartTime.None? {
        updateData := updateData.(treatmentStartTime := Some(now));
        var waitTime := now - c.arrivalTime;
        updateData := updateData.(actualWaitTime := Some(RoundMinutes(waitTime)));
      }
      if status == Some(Discharged) || status == Some(Admitted) {
        updateData := updateData.(dischargeTime := Some(now));
      }
      if Truthy(bedId) {
        updateData := updateData.(bedId := bedId);
      }
      if Truthy(assignedDoctorId) {
        updateData := updateData.(assignedDoctorId := assignedDoctorId);
      }
      if Truthy(notes) {
        updateData := updateData.(treatmentNotes := notes);
      }
      assert updateData == UpdateFor(c, status, bedId, assignedDoctorId, notes, now);
      var updated := Apply(c, updateData);
      cases := cases[id := updated];
      r := StatusUpdated(updated.emergencyId, updated.status, updated.actualWaitTime);
    }
  }

  // ---------------------------------------------------------------------
  // Properties of the update

  /** The status is written when supplied; bed, doctor and notes only when
      a non-empty value is supplied; the arrival time and the ID never. */
  lemma StatusAndSuppliedFields(c: CaseFields, status: Option<CaseStatus>, bedId: Option<string>,
                                assignedDoctorId: Option<string>, notes: Option<string>, now: int)
    ensures var u := UpdateStatus(c, status, bedId, assignedDoctorId, notes, now);
      && u.status == (if status.Some? then status.value else c.status)
      && u.bedId == (if Truthy(bedId) then bedId else c.bedId)
      && u.assignedDoctorId == (if Truthy(assignedDoctorId) then assignedDoctorId else c.assignedDoctorId)
      && u.treatmentNotes == (if Truthy(notes) then notes else c.treatmentNotes)
      && u.emergencyId == c.emergencyId && u.arrivalTime == c.arrivalTime
  {
  }

  /** Moving to `in_treatment` starts treatment and fixes the wait (rounded
      minutes since arrival) only the first time; every other update keeps
      both. */
  lemma TreatmentStartsOnce(c: CaseFields, status: Option<CaseStatus>, bedId: Option<string>,
                            assignedDoctorId: Option<string>, notes: Option<string>, now: int)
    ensures var u := UpdateStatus(c, status, bedId, assignedDoctorId, notes, now);
      && (status == Some(InTreatment) && c.treatmentStartTime.None? ==>
            u.treatmentStartTime == Some(now) && u.actualWaitTime == Some(RoundMinutes(now - c.arrivalTime)))
      && (status != Some(InTreatment) || c.treatmentStartTime.Some? ==>
            u.treatmentStartTime == c.treatmentStartTime && u.actualWaitTime == c.actualWaitTime)
  {
  }

  /** Discharge and admission stamp the discharge time; other statuses,
      and a request without one, leave it. */
  lemma DischargeStamped(c: CaseFields, status: Option<CaseStatus>, bedId: Option<string>,
                         assignedDoctorId: Option<string>, notes: Option<string>, now: int)
    ensures var u := UpdateStatus(c, status, bedId, assignedDoctorId, notes, now);
      && (status == Some(Discharged) || status == Some(Admitted) ==> u.dischargeTime == Some(now))
      && (status != Some(Discharged) && status != Some(Admitted) ==> u.dischargeTime == c.dischargeTime)
  {
  }

  /** Repeating `in_treatment` later moves neither the treatment start nor
      the wait. */
  lemma SecondTreatmentKeepsWait(c: CaseFields, t1: int, t2: int, bedId: Option<string>,
                                 assignedDoctorId: Option<string>, notes: Option<string>)
    requires c.treatmentStartTime.None?
    ensures var u1 := UpdateStatus(c, Some(InTreatment), bedId, assignedDoctorId, notes, t1);
      var u2 := UpdateStatus(u1, Some(InTreatment), None, None, None, t2);
      u2.treatmentStartTime == Some(t1) && u2.actualWaitTime == Some(RoundMinutes(t1 - c.arrivalTime))
  {
    var u1 := UpdateStatus(c, Some(InTreatment), bedId, assignedDoctorId, notes, t1);
    TreatmentStartsOnce(c, Some(InTreatment), bedId, assignedDoctorId, notes, t1);
    TreatmentStartsOnce(u1, Some(InTreatment), None, None, None, t2);
  }

  // ---------------------------------------------------------------------
  // Average wait

  /** A case counted by the dashboard's average: discharged or admitted,
      arrived since the start of `today`, with a recorded wait. */
  predicate Completed(c: CaseFields, today: int) {
    (c.status == Discharged || c.status == Admitted) && c.arrivalTime >= today && c.actualWaitTime.Some?
  }

  function CompletedCases(cases: seq<CaseFields>, today: int): seq<CaseFields> {
    Filter(cases, (c: CaseFields) => Completed(c, today))
  }

  /** The recorded wait of a case (`null` adds as 0). */
  function WaitOf(c: CaseFields): int {
    c.actualWaitTime.GetOr(0)
  }

  /** `reduce((sum, c) => sum + c.actualWaitTime, 0)`. */
  function SumWaits(cases: seq<CaseFields>): int
    decreases |cases|
  {
    if cases == [] then 0
    else SumWaits(cases[..|cases| - 1]) + WaitOf(cases[|cases| - 1])
  }

  /** The mean wait of the completed cases, or 0 when there are none. */
  function AverageWait(cases: seq<CaseFields>, today: int): real {
    var done := CompletedCases(cases, today);
    if |done| > 0 then SumWaits(done) as real / |done| as real else 0.0
  }

  /** `n * x` by repeated addition, so that bounds on sums stay linear. */
  function Times(n: nat, x: real): real {
    if n == 0 then 0.0 else Times(n - 1, x) + x
  }

  lemma {:induction false} TimesIsProduct(n: nat, x: real)
    ensures Times(n, x) == n as real * x
  {
    if n > 0 {
      TimesIsProduct(n - 1, x);
      assert n as real * x == (n - 1) as real * x + x;
    }
  }

  lemma {:induction false} SumWaitsBounds(cases: seq<CaseFields>, lo: real, hi: real)
    requires forall i :: 0 <= i < |cases| ==> lo <= WaitOf(cases[i]) as real <= hi
    ensures Times(|cases|, lo) <= SumWaits(cases) as real <= Times(|cases|, hi)
    decreases |cases|
  {
    if cases != [] {
      var init := cases[..|cases| - 1];
      assert forall i :: 0 <= i < |init| ==> init[i] == cases[i];
      SumWaitsBounds(init, lo, hi);
      assert lo <= WaitOf(cases[|cases| - 1]) as real <= hi;
    }
  }

  /** A sum between `n * lo` and `n * hi` has its mean between `lo` and
      `hi`. */
  lemma MeanBounds(sum: real, n: real, lo: real, hi: real)
    requires n > 0.0 && n * lo <= sum <= n * hi
    ensures lo <= sum / n <= hi
  {
    var avg := sum / n;
    assert avg * n == sum;
    if avg < lo {
      MulStrict(avg, lo, n);
    }
    if avg > hi {
      MulStrict(hi, avg, n);
    }
  }

  lemma CompletedWaitsBounded(cases: seq<CaseFields>, today: int, lo: real, hi: real)
    requires forall c :: c in cases && Completed(c, today) ==> lo <= c.actualWaitTime.value as real <= hi
    ensures forall i :: 0 <= i < |CompletedCases(cases, today)| ==> lo <= WaitOf(CompletedCases(cases, today)[i]) as real <= hi
  {
    var done := CompletedCases(cases, today);
    forall i | 0 <= i < |done|
      ensures lo <= WaitOf(done[i]) as real <= hi
    {
      var c := done[i];
      assert c in done;
    }
  }

  /** The average lies between the shortest and the longest completed wait;
      it is 0 when no case has completed. */
  lemma AverageWaitBounds(cases: seq<CaseFields>, today: int, lo: real, hi: real)
    requires forall c :: c in cases && Completed(c, today) ==> lo <= c.actualWaitTime.value as real <= hi
    ensures CompletedCases(cases, today) == [] ==> AverageWait(cases, today) == 0.0
    ensures CompletedCases(cases, today) != [] ==> lo <= AverageWait(cases, today) <= hi
  {
    var done := CompletedCases(cases, today);
    if done != [] {
      CompletedWaitsBounded(cases, today, lo, hi);
      MeanOfBounded(done, lo, hi);
    }
  }

  lemma MeanOfBounded(done: seq<CaseFields>, lo: real, hi: real)
    requires done != []
    requires forall i :: 0 <= i < |done| ==> lo <= WaitOf(done[i]) as real <= hi
    ensures lo <= SumWaits(done) as real / |done| as real <= hi
  {
    SumWaitsBounds(done, lo, hi);
    TimesIsProduct(|done|, lo);
    TimesIsProduct(|done|, hi);
    MeanBounds(SumWaits(done) as real, |done| as real, lo, hi);
  }

  /** `generateEmergencyId`: `EM<yyyymmdd><nnnn>`. */
  function NextEmergencyId(today: string, existing: seq<string>): string {
    NextId(EmergencyIds, today, existing)
  }

  /** Each emergency ID continues the day's sequence, up to number 9999. */
  lemma NextEmergencyIdContinues(today: string, existing: seq<string>, n: nat)
    requires n < 10000
    requires LastIssued(EmergencyIds, today, existing) == Some(Format(EmergencyIds, today, n))
    ensures NextEmergencyId(today, existing) == Format(EmergencyIds, today, n + 1)
  {
    DatedContinues("EM", today, existing, n);
  }
}
