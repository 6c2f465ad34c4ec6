/** Staff: the attendance clock (`clockAttendance`), the shift-conflict
    check and hours of `createSchedule`, the attendance rate of the staff
    statistics, and schedule IDs from the shared sequence generator. Clock
    and shift times are seconds after midnight; dates are `YYYY-MM-DD`
    strings. */
module Staff {
  import opened Common
  import opened Ids
  import opened StaffSchedule

  const SecondsPerHour: int := 60 * 60

  /** `(to - from) / (1000 * 60 * 60)` on two times of the same day: the
      hours between them, negative when `to` is the earlier one. */
  function HoursBetween(from: int, to: int): (h: real)
    ensures h < 0.0 <==> to < from
    ensures h == 0.0 <==> to == from
    ensures h * SecondsPerHour as real == (to - from) as real
  {
    (to - from) as real / SecondsPerHour as real
  }

  /** Within one day (`00:00:00` to `23:59:59`) a forward span is under 24
      hours. */
  lemma HoursWithinDay(from: int, to: int)
    requires 0 <= from <= to < 24 * SecondsPerHour
    ensures 0.0 <= HoursBetween(from, to) < 24.0
  {
    var h := HoursBetween(from, to);
    assert h * SecondsPerHour as real < 24.0 * SecondsPerHour as real;
  }

  // ---------------------------------------------------------------------
  // Attendance records and the clock

  datatype AttendanceStatus = Present | Absent | Late | EarlyOut | Overtime | OnLeave | HalfDay

  datatype Attendance = Attendance(
    attendanceId: string,
    userId: string,
    scheduleId: Option<string>,
    attendanceDate: string,
    clockInTime: Option<int>,
    clockOutTime: Option<int>,
    status: AttendanceStatus,
    workHours: real,
    location: Option<string>)

  /** The column default of `workHours`. */
  const DefaultWorkHours: real := 0.0

  /** The `scheduleId` the lookup uses: `scheduleId || null`. */
  function LookupKey(scheduleId: Option<string>): Option<string> {
    if Truthy(scheduleId) then scheduleId else None
  }

  /** The `where` of the lookup: this user, today, this schedule. */
  predicate SameSlot(a: Attendance, userId: string, date: string, key: Option<string>) {
    a.userId == userId && a.attendanceDate == date && a.scheduleId == key
  }

  /** `Attendance.findOne(...)`: the first matching record. */
  function FindAttendance(records: seq<Attendance>, userId: string, date: string, key: Option<string>): (r: Option<nat>)
    ensures r.Some? ==> r.value < |records| && SameSlot(records[r.value], userId, date, key)
    ensures r.Some? ==> forall j :: 0 <= j < r.value ==> !SameSlot(records[j], userId, date, key)
    ensures r.None? ==> forall j :: 0 <= j < |records| ==> !SameSlot(records[j], userId, date, key)
  {
    if records == [] then None
    else if SameSlot(records[0], userId, date, key) then Some(0)
    else
      match FindAttendance(records[1..], userId, date, key)
      case None => None
      case Some(j) => Some(j + 1)
  }

  datatype ClockOutcome =
    | AlreadyClockedIn
    | ClockedIn(attendance: Attendance)
    | MustClockInFirst
    | AlreadyClockedOut
    | ClockedOut(attendance: Attendance)
    | NoResponse

  datatype ClockResult = ClockResult(outcome: ClockOutcome, records: seq<Attendance>)

  /** What one `clockAttendance` request does to the attendance table.
      `now` is the time of day of the request and `attendanceId` the random
      ID a new record would get. */
  function Clock(records: seq<Attendance>, action: string, userId: string, scheduleId: Option<string>,
                 location: Option<string>, today: string, now: int, attendanceId: string): ClockResult
  {
    var found := FindAttendance(records, userId, today, LookupKey(scheduleId));
    if action == "in" then
      if found.Some? && records[found.value].clockInTime.Some? then ClockResult(AlreadyClockedIn, records)
      else if found.None? then
        var a := Attendance(attendanceId, userId, scheduleId, today, Some(now), None, Present, DefaultWorkHours, location);
        ClockResult(ClockedIn(a), records + [a])
      else
        var a := records[found.value].(clockInTime := Some(now), status := Present, location := location);
        ClockResult(ClockedIn(a), records[found.value := a])
    else if action == "out" then
      if found.None? || records[found.value].clockInTime.None? then ClockResult(MustClockInFirst, records)
      else if records[found.value].clockOutTime.Some? then ClockResult(AlreadyClockedOut, records)
      else
        var prior := records[found.value];
        var a := prior.(clockOutTime := Some(now), workHours := HoursBetween(prior.clockInTime.value, now),
                        status := Present);
        ClockResult(ClockedOut(a), records[found.value := a])
    else ClockResult(NoResponse, records)
  }

  /** A record is never clocked out without having been clocked in. */
  predicate ClockOrder(records: seq<Attendance>) {
    forall i :: 0 <= i < |records| ==> records[i].clockOutTime.Some? ==> records[i].clockInTime.Some?
  }

  class AttendanceBook {
    var records: seq<Attendance>

    constructor (initial: seq<Attendance>)
      ensures records == initial
    {
      records := initial;
    }

    /** `clockAttendance`: create or update today's record. */
    method ClockAttendance(action: string, userId: string, scheduleId: Option<string>, location: Option<string>,
                           today: string, now: int, attendanceId: string) returns (r: ClockOutcome)
      modifies this
      ensures ClockResult(r, records) == Clock(old(records), action, userId, scheduleId, location, today, now, attendanceId)
      ensures old(ClockOrder(records)) ==> ClockOrder(records)
    {
      if ClockOrder(records) {
        ClockKeepsOrder(records, action, userId, scheduleId, location, today, now, attendanceId);
      }
      var found := FindAttendance(records, userId, today, LookupKey(scheduleId));
      if action == "in" {
        if found.Some? && records[found.value].clockInTime.Some? {
          return AlreadyClockedIn;
        }
        if found.None? {
          var a := Attendance(attendanceId, userId, scheduleId, today, Some(now), None, Present, DefaultWorkHours, location);
          records := records + [a];
          r := ClockedIn(a);
        } else {
          var a := records[found.value];
          a := a.(clockInTime := Some(now));
          a := a.(status := Present);
          a := a.(location := location);
          records := records[found.value := a];
          r := ClockedIn(a);
        }
      } else if action == "out" {
        if found.None? || records[found.value].clockInTime.None? {
          return MustClockInFirst;
        }
        if records[found.value].clockOutTime.Some? {
          return AlreadyClockedOut;
        }
        var a := records[found.value];
        var workHours := HoursBetween(a.clockInTime.value, now);
        a := a.(clockOutTime := Some(now), workHours := workHours, status := Present);
        records := records[found.value := a];
        r := ClockedOut(a);
      } else {
        r := NoResponse;
      }
    }
  }

  // ---------------------------------------------------------------------
  // Properties of the clock

  /** Clocking in is refused exactly when today's record already has a
      clock-in time; otherwise the record (new, or the existing one) is
      `present` from `now`, and no other record changes. */
  lemma ClockInRules(records: seq<Attendance>, userId: string, scheduleId: Option<string>, location: Option<string>,
                     today: string, now: int, attendanceId: string)
    ensures var found := FindAttendance(records, userId, today, LookupKey(scheduleId));
      var r := Clock(records, "in", userId, scheduleId, location, today, now, attendanceId);
      && (r.outcome == AlreadyClockedIn <==> found.Some? && records[found.value].clockInTime.Some?)
      && (r.outcome == AlreadyClockedIn ==> r.records == records)
      && (r.outcome != AlreadyClockedIn ==>
            && r.outcome.ClockedIn?
            && r.outcome.attendance.clockInTime == Some(now)
            && r.outcome.attendance.status == Present
            && r.outcome.attendance.location == location
            && r.outcome.attendance.userId == userId
            && r.outcome.attendance.attendanceDate == today)
      && (found.None? ==> r.records == records + [r.outcome.attendance] &&
                          r.outcome.attendance.attendanceId == attendanceId &&
                          r.outcome.attendance.scheduleId == scheduleId &&
                          r.outcome.attendance.clockOutTime.None?)
      && (found.Some? && r.outcome.ClockedIn? ==>
            && |r.records| == |records|
            && r.records[found.value] == r.outcome.attendance
            && r.outcome.attendance.attendanceId == records[found.value].attendanceId
            && r.outcome.attendance.clockOutTime == records[found.value].clockOutTime
            && forall j :: 0 <= j < |records| && j != found.value ==> r.records[j] == records[j])
  {
  }

  /** Clocking out is refused without a clock-in and after a clock-out;
      otherwise it stamps `now`, records the hours since the clock-in and
      keeps the record `present`, touching no other record. */
  lemma ClockOutRules(records: seq<Attendance>, userId: string, scheduleId: Option<string>, location: Option<string>,
                      today: string, now: int, attendanceId: string)
    ensures var found := FindAttendance(records, userId, today, LookupKey(scheduleId));
      var r := Clock(records, "out", userId, scheduleId, location, today, now, attendanceId);
      && (r.outcome == MustClockInFirst <==> found.None? || records[found.value].clockInTime.None?)
      && (r.outcome == AlreadyClockedOut <==>
            found.Some? && records[found.value].clockInTime.Some? && records[found.value].clockOutTime.Some?)
      && (r.outcome == MustClockInFirst || r.outcome == AlreadyClockedOut ==> r.records == records)
      && (r.outcome.ClockedOut? ==>
            && found.Some?
            && r.outcome.attendance.clockOutTime == Some(now)
            && r.outcome.attendance.clockInTime == records[found.value].clockInTime
            && r.outcome.attendance.workHours * SecondsPerHour as real ==
               (now - records[found.value].clockInTime.value) as real
            && r.outcome.attendance.status == Present
            && r.outcome.attendance.location == records[found.value].location
            && r.records == records[found.value := r.outcome.attendance])
      && (r.outcome == MustClockInFirst || r.outcome == AlreadyClockedOut || r.outcome.ClockedOut?)
  {
  }

  /** Any other action leaves the table as it is and sends nothing. */
  lemma OtherActionsChangeNothing(records: seq<Attendance>, action: string, userId: string, scheduleId: Option<string>,
                                  location: Option<string>, today: string, now: int, attendanceId: string)
    requires action != "in" && action != "out"
    ensures Clock(records, action, userId, scheduleId, location, today, now, attendanceId) == ClockResult(NoResponse, records)
  {
  }

  /** No request makes a record clocked out but not in. */
  lemma ClockKeepsOrder(records: seq<Attendance>, action: string, userId: string, scheduleId: Option<string>,
                        location: Option<string>, today: string, now: int, attendanceId: string)
    requires ClockOrder(records)
    ensures ClockOrder(Clock(records, action, userId, scheduleId, location, today, now, attendanceId).records)
  {
  }

  lemma FindAppended(records: seq<Attendance>, a: Attendance, userId: string, date: string, key: Option<string>)
    requires FindAttendance(records, userId, date, key).None?
    ensures FindAttendance(records + [a], userId, date, key) ==
            (if SameSlot(a, userId, date, key) then Some(|records|) else None)
  {
    var r := FindAttendance(records + [a], userId, date, key);
    assert (records + [a])[|records|] == a;
    assert forall j :: 0 <= j < |records| ==> (records + [a])[j] == records[j];
  }

  lemma FindUpdated(records: seq<Attendance>, i: nat, a: Attendance, userId: string, date: string, key: Option<string>)
    requires FindAttendance(records, userId, date, key) == Some(i)
    requires SameSlot(a, userId, date, key)
    ensures FindAttendance(records[i := a], userId, date, key) == Some(i)
  {
    assert records[i := a][i] == a;
    assert forall j :: 0 <= j < i ==> records[i := a][j] == records[j];
  }

  /** A whole day for one slot, from no record: clock in at `start`, clock
      out at `end` (the hours worked are `end - start`), and then both
      actions are refused. */
  lemma ClockDay(records: seq<Attendance>, userId: string, scheduleId: Option<string>, location: Option<string>,
                 today: string, start: int, end: int, attendanceId: string, later: int)
    requires LookupKey(scheduleId) == scheduleId
    requires FindAttendance(records, userId, today, scheduleId).None?
    ensures var r1 := Clock(records, "in", userId, scheduleId, location, today, start, attendanceId);
      var r2 := Clock(r1.records, "out", userId, scheduleId, location, today, end, attendanceId);
      && r1.outcome.ClockedIn?
      && r2.outcome.ClockedOut?
      && r2.outcome.attendance.workHours == HoursBetween(start, end)
      && Clock(r2.records, "in", userId, scheduleId, location, today, later, attendanceId).outcome == AlreadyClockedIn
      && Clock(r2.records, "out", userId, scheduleId, location, today, later, attendanceId).outcome == AlreadyClockedOut
  {
    var r1 := Clock(records, "in", userId, scheduleId, location, today, start, attendanceId);
    var a := r1.outcome.attendance;
    assert r1.records == records + [a];
    FindAppended(records, a, userId, today, scheduleId);
    var r2 := Clock(r1.records, "out", userId, scheduleId, location, today, end, attendanceId);
    var b := r2.outcome.attendance;
    assert r2.records == r1.records[|records| := b];
    FindUpdated(r1.records, |records|, b, userId, today, scheduleId);
  }

  // ---------------------------------------------------------------------
  // Creating a shift

  predicate Active(s: ShiftFields) {
    s.status == Scheduled || s.status == Confirmed
  }

  /** SQL `x BETWEEN lo AND hi`: inclusive, and empty when `lo > hi`. */
  predicate Between(x: int, lo: int, hi: int) {
    lo <= x <= hi
  }

  /** The lookup of `createSchedule` as written: an active shift of the
      same user that day whose start or end lies within the new shift. */
  predicate ClashesAsWritten(s: ShiftFields, userId: string, date: string, start: int, end: int) {
    s.userId == userId && s.shiftDate == date && Active(s) &&
    (Between(s.shiftStart, start, end) || Between(s.shiftEnd, start, end))
  }

  predicate ConflictAsWritten(existing: seq<ShiftFields>, userId: string, date: string, start: int, end: int) {
    exists i :: 0 <= i < |existing| && ClashesAsWritten(existing[i], userId, date, start, end)
  }

  /** The check as intended: the two shifts share an instant (bounds still
      inclusive). */
  predicate Clashes(s: ShiftFields, userId: string, date: string, start: int, end: int) {
    s.userId == userId && s.shiftDate == date && Active(s) && s.shiftStart <= end && start <= s.shiftEnd
  }

  predicate ConflictExists(existing: seq<ShiftFields>, userId: string, date: string, start: int, end: int) {
    exists i :: 0 <= i < |existing| && Clashes(existing[i], userId, date, start, end)
  }

  /** As written, an active shift that strictly contains the new one is not
      seen: 08:00-16:00 booked, 10:00-12:00 requested. */
  lemma ContainingShiftMissed(s: ShiftFields, userId: string, date: string)
    requires s.userId == userId && s.shiftDate == date && s.status == Scheduled
    requires s.shiftStart == 8 * SecondsPerHour && s.shiftEnd == 16 * SecondsPerHour
    ensures !ConflictAsWritten([s], userId, date, 10 * SecondsPerHour, 12 * SecondsPerHour)
    ensures ConflictExists([s], userId, date, 10 * SecondsPerHour, 12 * SecondsPerHour)
  {
    assert Clashes([s][0], userId, date, 10 * SecondsPerHour, 12 * SecondsPerHour);
  }

  /** The intended check holds exactly when the two shifts share an
      instant. */
  lemma ClashesIffSharedInstant(s: ShiftFields, userId: string, date: string, start: int, end: int)
    requires start <= end && s.shiftStart <= s.shiftEnd
    ensures Clashes(s, userId, date, start, end) <==>
            s.userId == userId && s.shiftDate == date && Active(s) &&
            exists t :: Between(t, start, end) && Between(t, s.shiftStart, s.shiftEnd)
  {
    if Clashes(s, userId, date, start, end) {
      var t := if start <= s.shiftStart then s.shiftStart else start;
      assert Between(t, start, end) && Between(t, s.shiftStart, s.shiftEnd);
    }
  }

  /** Every clash the written check finds is a real one, and the only real
      ones it misses are the shifts that strictly contain the new one. */
  lemma AsWrittenMissesOnlyContaining(s: ShiftFields, userId: string, date: string, start: int, end: int)
    requires start <= end && s.shiftStart <= s.shiftEnd
    ensures ClashesAsWritten(s, userId, date, start, end) ==> Clashes(s, userId, date, start, end)
    ensures Clashes(s, userId, date, start, end) && !ClashesAsWritten(s, userId, date, start, end) <==>
            s.userId == userId && s.shiftDate == date && Active(s) && s.shiftStart < start && end < s.shiftEnd
  {
  }

  /** A shift crossing midnight (`end < start`) matches nothing in the
      written check (`BETWEEN` with its bounds reversed) and its hours are
      negative. */
  lemma OvernightShift(existing: seq<ShiftFields>, userId: string, date: string, start: int, end: int)
    requires end < start
    ensures !ConflictAsWritten(existing, userId, date, start, end)
    ensures HoursBetween(start, end) < 0.0
  {
  }

  datatype ScheduleOutcome = ScheduleConflict | ScheduleCreated(shift: ShiftFields)

  /** The row `createSchedule` stores, before the hook: the default status,
      no overtime, and the hours between start and end. Rates not supplied
      take their column default. */
  function NewShift(scheduleId: string, userId: string, date: string, start: int, end: int,
                    hourlyRate: Option<real>, overtimeRate: Option<real>): (f: ShiftFields)
    ensures f.scheduleId == scheduleId && f.userId == userId && f.shiftDate == date
    ensures f.shiftStart == start && f.shiftEnd == end && f.status == Scheduled
    ensures f.totalHours == HoursBetween(start, end) && f.overtimeHours == Some(DefaultOvertimeHours)
    ensures f.hourlyRate == Some(hourlyRate.GetOr(DefaultRate))
  {
    ShiftFields(scheduleId, userId, date, start, end, DefaultShiftStatus, HoursBetween(start, end),
                Some(DefaultOvertimeHours), Some(hourlyRate.GetOr(DefaultRate)), Some(overtimeRate.GetOr(DefaultRate)), 0.0)
  }

  /** `createSchedule` once validated: refuse a clash found by the lookup
      as written, otherwise store the new shift under the next ID, through
      the pay hook. */
  function CreateSchedule(existing: seq<ShiftFields>, userId: string, date: string, start: int, end: int,
                          hourlyRate: Option<real>, overtimeRate: Option<real>, today: string, ids: seq<string>)
    : (r: ScheduleOutcome)
    ensures r.ScheduleConflict? <==> ConflictAsWritten(existing, userId, date, start, end)
    ensures r.ScheduleCreated? ==> r.shift == Hook(NewShift(NextScheduleId(today, ids), userId, date, start, end,
                                                            hourlyRate, overtimeRate))
  {
    if ConflictAsWritten(existing, userId, date, start, end) then ScheduleConflict
    else ScheduleCreated(Hook(NewShift(NextScheduleId(today, ids), userId, date, start, end, hourlyRate, overtimeRate)))
  }

  /** Whatever its ID, a new shift counts the hours from start to end and,
      as no overtime is booked, the hook pays those hours at the hourly
      rate. */
  lemma NewShiftPay(scheduleId: string, userId: string, date: string, start: int, end: int,
                    hourlyRate: Option<real>, overtimeRate: Option<real>)
    ensures var s := Hook(NewShift(scheduleId, userId, date, start, end, hourlyRate, overtimeRate));
      && s.totalHours == HoursBetween(start, end)
      && s.totalPay == HoursBetween(start, end) * hourlyRate.GetOr(DefaultRate)
  {
    var f := NewShift(scheduleId, userId, date, start, end, hourlyRate, overtimeRate);
    PayRules(f);
  }

  /** A shift is created exactly when the lookup as written finds no clash;
      a created shift keeps the requested user, day and times, is
      `scheduled`, counts the hours from start to end (negative overnight,
      see `HoursBetween`) and pays those hours at the hourly rate (0 when
      none is given). */
  lemma CreatedShift(existing: seq<ShiftFields>, userId: string, date: string, start: int, end: int,
                     hourlyRate: Option<real>, overtimeRate: Option<real>, today: string, ids: seq<string>)
    ensures var r := CreateSchedule(existing, userId, date, start, end, hourlyRate, overtimeRate, today, ids);
      r.ScheduleCreated? <==> !ConflictAsWritten(existing, userId, date, start, end)
    ensures var r := CreateSchedule(existing, userId, date, start, end, hourlyRate, overtimeRate, today, ids);
      r.ScheduleCreated? ==>
      && r.shift.userId == userId && r.shift.shiftDate == date
      && r.shift.shiftStart == start && r.shift.shiftEnd == end
      && r.shift.status == Scheduled
      && r.shift.totalHours == HoursBetween(start, end)
      && r.shift.totalPay == HoursBetween(start, end) * hourlyRate.GetOr(DefaultRate)
  {
    var id := NextScheduleId(today, ids);
    NewShiftPay(id, userId, date, start, end, hourlyRate, overtimeRate);
  }

  /** As written, `createSchedule` books a second shift inside one the user
      already has: 10:00-12:00 is created beside an active 08:00-16:00,
      which the intended check refuses. */
  lemma DoubleShiftCreated(s: ShiftFields, userId: string, date: string, hourlyRate: Option<real>,
                           overtimeRate: Option<real>, today: string, ids: seq<string>)
    requires s.userId == userId && s.shiftDate == date && s.status == Scheduled
    requires s.shiftStart == 8 * SecondsPerHour && s.shiftEnd == 16 * SecondsPerHour
    ensures CreateSchedule([s], userId, date, 10 * SecondsPerHour, 12 * SecondsPerHour, hourlyRate, overtimeRate,
                           today, ids).ScheduleCreated?
    ensures ConflictExists([s], userId, date, 10 * SecondsPerHour, 12 * SecondsPerHour)
  {
    ContainingShiftMissed(s, userId, date);
  }

  // ---------------------------------------------------------------------
  // Attendance rate

  /** `todayScheduled`: active shifts of the day. */
  function ScheduledToday(shifts: seq<ShiftFields>, today: string): nat {
    |Filter(shifts, (s: ShiftFields) => s.shiftDate == today && Active(s))|
  }

  /** `todayPresent`: present records of the day with a clock-in. */
  function PresentToday(records: seq<Attendance>, today: string): nat {
    |Filter(records, (a: Attendance) => a.attendanceDate == today && a.status == Present && a.clockInTime.Some?)|
  }

  /** A first clock-in of the day adds one to `todayPresent`. */
  lemma FirstClockInCounted(records: seq<Attendance>, userId: string, scheduleId: Option<string>,
                            location: Option<string>, today: string, now: int, attendanceId: string)
    requires FindAttendance(records, userId, today, LookupKey(scheduleId)).None?
    ensures PresentToday(Clock(records, "in", userId, scheduleId, location, today, now, attendanceId).records, today) ==
            PresentToday(records, today) + 1
  {
    var r := Clock(records, "in", userId, scheduleId, location, today, now, attendanceId);
    assert r.records[..|r.records| - 1] == records;
  }

  /** `todayPresent / todayScheduled * 100`, or 0 with nothing scheduled. */
  function AttendanceRate(present: nat, scheduled: nat): (rate: real)
    ensures scheduled == 0 ==> rate == 0.0
    ensures scheduled > 0 ==> rate * scheduled as real == 100.0 * present as real
    ensures rate >= 0.0
  {
    if scheduled > 0 then present as real / scheduled as real * 100.0 else 0.0
  }

  /** The rate is a percentage when no more staff are present than
      scheduled, 100 exactly when all are; presence without a schedule can
      push it over 100. */
  lemma AttendanceRateRange(present: nat, scheduled: nat)
    requires scheduled > 0
    ensures present <= scheduled ==> AttendanceRate(present, scheduled) <= 100.0
    ensures AttendanceRate(present, scheduled) == 100.0 <==> present == scheduled
    ensures present > scheduled ==> AttendanceRate(present, scheduled) > 100.0
  {
    PercentOfCount(AttendanceRate(present, scheduled), present as real, scheduled as real);
  }

  /** A percentage `rate` of `n` with `rate * n == 100 * p` is below, at or
      above 100 exactly as `p` is below, at or above `n`. */
  lemma PercentOfCount(rate: real, p: real, n: real)
    requires n > 0.0 && rate * n == 100.0 * p
    ensures rate < 100.0 <==> p < n
    ensures rate == 100.0 <==> p == n
    ensures rate > 100.0 <==> p > n
  {
    if rate < 100.0 {
      MulStrict(rate, 100.0, n);
    } else if rate > 100.0 {
      MulStrict(100.0, rate, n);
    }
  }

  /** `generateScheduleId`: `SCH<yyyymmdd><nnnn>`. */
  function NextScheduleId(today: string, existing: seq<string>): string {
    NextId(ScheduleIds, today, existing)
  }

  /** Each schedule ID continues the day's sequence, up to number 9999. */
  lemma NextScheduleIdContinues(today: string, existing: seq<string>, n: nat)
    requires n < 10000
    requires LastIssued(ScheduleIds, today, existing) == Some(Format(ScheduleIds, today, n))
    ensures NextScheduleId(today, existing) == Format(ScheduleIds, today, n + 1)
  {
    DatedContinues("SCH", today, existing, n);
  }
}
