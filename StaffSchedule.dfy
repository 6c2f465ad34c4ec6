/** A staff shift and its `beforeSave` hook, which derives `totalPay` from
    the hours and the two rates on every save. Shift times are seconds
    after midnight. */
module StaffSchedule {
  import opened Common

  datatype ShiftStatus = Scheduled | Confirmed | Completed | Cancelled | NoShow

  /** The fields of a shift the staff rules read and write. The rates and
      `overtimeHours` are `None` when the stored value is `null`. */
  datatype ShiftFields = ShiftFields(
    scheduleId: string,
    userId: string,
    shiftDate: string,
    shiftStart: int,
    shiftEnd: int,
    status: ShiftStatus,
    totalHours: real,
    overtimeHours: Option<real>,
    hourlyRate: Option<real>,
    overtimeRate: Option<real>,
    totalPay: real)

  /** The column defaults of `overtimeHours`, `hourlyRate`, `overtimeRate`
      and `status`. */
  const DefaultOvertimeHours: real := 0.0
  const DefaultRate: real := 0.0
  const DefaultShiftStatus: ShiftStatus := Scheduled

  /** `totalHours * (hourlyRate || 0) + overtimeHours * (overtimeRate || 0)`;
      a `null` `overtimeHours` multiplies as 0. */
  function TotalPay(f: ShiftFields): real {
    f.totalHours * OrNumber(f.hourlyRate, 0.0) + f.overtimeHours.GetOr(0.0) * OrNumber(f.overtimeRate, 0.0)
  }

  /** The hook, as a function of the fields before the save. */
  function Hook(f: ShiftFields): ShiftFields {
    f.(totalPay := TotalPay(f))
  }

  // ---------------------------------------------------------------------
  // Properties of the hook

  /** The hook writes `totalPay` and nothing else, whatever value was
      supplied for it, and saving again changes nothing. */
  lemma HookOnlyWritesPay(f: ShiftFields, supplied: real)
    ensures Hook(f).(totalPay := f.totalPay) == f
    ensures Hook(f.(totalPay := supplied)) == Hook(f)
    ensures Hook(Hook(f)) == Hook(f)
  {
  }

  /** A missing or zero rate pays nothing for its hours; with no overtime
      (the default, or `null`) the pay is the regular hours times the hourly
      rate. */
  lemma PayRules(f: ShiftFields)
    ensures (f.hourlyRate.None? || f.hourlyRate == Some(0.0)) && (f.overtimeRate.None? || f.overtimeRate == Some(0.0)) ==>
            Hook(f).totalPay == 0.0
    ensures (f.overtimeHours.None? || f.overtimeHours == Some(DefaultOvertimeHours)) && f.hourlyRate.Some? ==>
            Hook(f).totalPay == f.totalHours * f.hourlyRate.value
    ensures f.overtimeRate.None? && f.hourlyRate.Some? ==> Hook(f).totalPay == f.totalHours * f.hourlyRate.value
  {
  }

  /** Non-negative hours and rates give a non-negative pay, which grows with
      the regular hours. */
  lemma PayMonotone(f: ShiftFields, longer: real)
    requires f.totalHours >= 0.0 && f.overtimeHours.GetOr(0.0) >= 0.0
    requires f.hourlyRate.GetOr(0.0) >= 0.0 && f.overtimeRate.GetOr(0.0) >= 0.0
    requires longer >= f.totalHours
    ensures Hook(f).totalPay >= 0.0
    ensures Hook(f.(totalHours := longer)).totalPay >= Hook(f).totalPay
  {
    var h := OrNumber(f.hourlyRate, 0.0);
    var o := OrNumber(f.overtimeRate, 0.0);
    MulNonNegative(f.totalHours, h);
    MulNonNegative(f.overtimeHours.GetOr(0.0), o);
    MulMonotone(f.totalHours, longer, h);
  }

  /** Eight hours at 25 with two overtime hours at 37.5 pay 275. */
  lemma PayExample(f: ShiftFields)
    requires f.totalHours == 8.0 && f.hourlyRate == Some(25.0)
    requires f.overtimeHours == Some(2.0) && f.overtimeRate == Some(37.5)
    ensures Hook(f).totalPay == 275.0
  {
  }

  // ---------------------------------------------------------------------
  // The stored shift

  class Shift {
    const scheduleId: string
    const userId: string
    var shiftDate: string
    var shiftStart: int
    var shiftEnd: int
    var status: ShiftStatus
    var totalHours: real
    var overtimeHours: Option<real>
    var hourlyRate: Option<real>
    var overtimeRate: Option<real>
    var totalPay: real

    function Fields(): ShiftFields
      reads this
    {
      ShiftFields(scheduleId, userId, shiftDate, shiftStart, shiftEnd, status, totalHours,
                  overtimeHours, hourlyRate, overtimeRate, totalPay)
    }

    /** `StaffSchedule.create`: the row is written through the hook. */
    constructor (f: ShiftFields)
      ensures Fields() == Hook(f)
    {
      scheduleId, userId, shiftDate, shiftStart, shiftEnd := f.scheduleId, f.userId, f.shiftDate, f.shiftStart, f.shiftEnd;
      status, totalHours, overtimeHours := f.status, f.totalHours, f.overtimeHours;
      hourlyRate, overtimeRate, totalPay := f.hourlyRate, f.overtimeRate, f.totalPay;
      new;
      BeforeSave();
    }

    /** The `beforeSave` hook. */
    method BeforeSave()
      modifies this
      ensures Fields() == Hook(old(Fields()))
    {
      var regularPay := totalHours * OrNumber(hourlyRate, 0.0);
      var overtimePay := overtimeHours.GetOr(0.0) * OrNumber(overtimeRate, 0.0);
      totalPay := regularPay + overtimePay;
    }
  }
}
