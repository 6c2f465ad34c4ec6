/** Appointments: the doctor's day grid of 30-minute slots between 09:00 and
    18:00 with each slot's availability, the booking-conflict check, and
    appointment IDs from the shared sequence generator. Times of day are
    minutes after midnight. */
module Appointments {
  import opened Common
  import opened Ids

  datatype AppointmentStatus = Scheduled | Confirmed | InProgress | Completed | Cancelled | NoShow

  datatype Appointment = Appointment(
    id: string,
    doctorId: string,
    appointmentDate: string,
    appointmentTime: int,
    duration: Option<int>,
    status: AppointmentStatus)

  const MinutesPerDay: int := 24 * 60

  /** Cancelled and no-show appointments hold no time. */
  predicate Counted(a: Appointment) {
    a.status != Cancelled && a.status != NoShow
  }

  /** `apt.duration || 30`. */
  function DurationOf(a: Appointment): (d: int)
    ensures a.duration.None? || a.duration.value == 0 ==> d == 30
    ensures a.duration.Some? && a.duration.value != 0 ==> d == a.duration.value
  {
    if a.duration.Some? && a.duration.value != 0 then a.duration.value else 30
  }

  // ---------------------------------------------------------------------
  // The day grid

  const GridStart: int := 9 * 60
  const GridEnd: int := 18 * 60
  const SlotMinutes: int := 30

  datatype Slot = Slot(time: int, available: bool)

  /** The query behind the grid: the doctor's counted appointments that day. */
  function DayAppointments(all: seq<Appointment>, doctorId: string, date: string): seq<Appointment> {
    Filter(all, (a: Appointment) => a.doctorId == doctorId && a.appointmentDate == date && Counted(a))
  }

  /** The `some` callback: the slot starting at `s` and the appointment
      share time (touching ends do not count). */
  predicate SlotOverlaps(a: Appointment, s: int) {
    s < a.appointmentTime + DurationOf(a) && s + SlotMinutes > a.appointmentTime
  }

  predicate SlotFree(apts: seq<Appointment>, s: int) {
    !exists i :: 0 <= i < |apts| && SlotOverlaps(apts[i], s)
  }

  /** `getDoctorAvailability`: the `while` loop from 09:00 while before
      18:00, one slot per 30 minutes. */
  method DoctorAvailability(all: seq<Appointment>, doctorId: string, date: string) returns (slots: seq<Slot>)
    ensures |slots| == 18
    ensures forall k :: 0 <= k < |slots| ==>
              slots[k].time == GridStart + SlotMinutes * k &&
              slots[k].available == SlotFree(DayAppointments(all, doctorId, date), GridStart + SlotMinutes * k)
  {
    var apts := DayAppointments(all, doctorId, date);
    slots := [];
    var currentTime := GridStart;
    while currentTime < GridEnd
      invariant currentTime == GridStart + SlotMinutes * |slots| && |slots| <= 18
      invariant forall k :: 0 <= k < |slots| ==>
                  slots[k].time == GridStart + SlotMinutes * k &&
                  slots[k].available == SlotFree(apts, GridStart + SlotMinutes * k)
    {
      var isAvailable := !exists i :: 0 <= i < |apts| && SlotOverlaps(apts[i], currentTime);
      slots := slots + [Slot(currentTime, isAvailable)];
      currentTime := currentTime + SlotMinutes;
    }
  }

  /** The grid runs 09:00, 09:30, ..., 17:30, strictly increasing. */
  lemma GridTimes(k: int)
    requires 0 <= k < 18
    ensures GridStart <= GridStart + SlotMinutes * k <= 17 * 60 + 30
    ensures GridStart + SlotMinutes * k + SlotMinutes <= GridEnd
  {
  }

  /** With no counted appointment every slot is free. */
  lemma EmptyDayAllFree(all: seq<Appointment>, doctorId: string, date: string, s: int)
    requires forall a :: a in all && a.doctorId == doctorId && a.appointmentDate == date ==> !Counted(a)
    ensures SlotFree(DayAppointments(all, doctorId, date), s)
  {
    var apts := DayAppointments(all, doctorId, date);
    assert forall i :: 0 <= i < |apts| ==> apts[i] in apts;
  }

  /** Adding a cancelled or no-show appointment changes nothing. */
  lemma UncountedIgnored(all: seq<Appointment>, doctorId: string, date: string, a: Appointment)
    requires !Counted(a)
    ensures DayAppointments(all + [a], doctorId, date) == DayAppointments(all, doctorId, date)
  {
    assert (all + [a])[..|all + [a]| - 1] == all;
  }

  /** An appointment ending exactly when a slot starts, or starting exactly
      when it ends, leaves the slot free. */
  lemma BackToBackFree(a: Appointment, s: int)
    requires a.appointmentTime + DurationOf(a) == s || a.appointmentTime == s + SlotMinutes
    ensures SlotFree([a], s)
  {
  }

  // ---------------------------------------------------------------------
  // The booking check

  /** The `where` clause of `checkDoctorAvailability` as written: a counted
      appointment of the doctor that day whose start lies in
      `[start, end)`, where `end` is `start + duration` formatted as a time
      of day (so it wraps past midnight); `excludeId` drops the appointment
      being rescheduled. */
  function ConflictsAsWritten(all: seq<Appointment>, doctorId: string, date: string, start: int, duration: int,
                              excludeId: Option<string>): seq<Appointment> {
    var endOfDay := (start + duration) % MinutesPerDay;
    Filter(all, (a: Appointment) => a.doctorId == doctorId && a.appointmentDate == date && Counted(a)
                                    && a.appointmentTime < endOfDay && a.appointmentTime >= start
                                    && !(Truthy(excludeId) && a.id == excludeId.value))
  }

  /** Interval overlap, the test the comment in the query describes and the
      day grid applies. */
  predicate Overlaps(a: Appointment, start: int, duration: int) {
    a.appointmentTime < start + duration && a.appointmentTime + DurationOf(a) > start
  }

  /** The booking check with interval overlap. */
  function Conflicts(all: seq<Appointment>, doctorId: string, date: string, start: int, duration: int,
                     excludeId: Option<string>): seq<Appointment> {
    Filter(all, (a: Appointment) => a.doctorId == doctorId && a.appointmentDate == date && Counted(a)
                                    && Overlaps(a, start, duration)
                                    && !(Truthy(excludeId) && a.id == excludeId.value))
  }

  predicate Within(t: int, start: int, duration: int) {
    start <= t < start + duration
  }

  /** Overlap means some minute belongs to both appointments. */
  lemma OverlapsIffSharedMinute(a: Appointment, start: int, duration: int)
    requires duration > 0 && DurationOf(a) > 0
    ensures Overlaps(a, start, duration) <==>
            exists t :: Within(t, start, duration) && Within(t, a.appointmentTime, DurationOf(a))
  {
    if Overlaps(a, start, duration) {
      var t := if a.appointmentTime > start then a.appointmentTime else start;
      assert Within(t, start, duration) && Within(t, a.appointmentTime, DurationOf(a));
    }
  }

  /** A booking conflicts exactly with the counted appointments of that
      doctor and day that share a minute with it, other than the one being
      rescheduled. */
  lemma ConflictsExactly(all: seq<Appointment>, doctorId: string, date: string, start: int, duration: int,
                         excludeId: Option<string>, a: Appointment)
    requires duration > 0 && DurationOf(a) > 0 && a in all
    ensures a in Conflicts(all, doctorId, date, start, duration, excludeId) <==>
            && a.doctorId == doctorId && a.appointmentDate == date && Counted(a)
            && !(Truthy(excludeId) && a.id == excludeId.value)
            && exists t :: Within(t, start, duration) && Within(t, a.appointmentTime, DurationOf(a))
  {
    OverlapsIffSharedMinute(a, start, duration);
    var p := (x: Appointment) => x.doctorId == doctorId && x.appointmentDate == date && Counted(x)
                                 && Overlaps(x, start, duration)
                                 && !(Truthy(excludeId) && x.id == excludeId.value);
    if p(a) {
      FilterComplete(all, p, a);
    }
  }

  /** A rescheduled appointment never conflicts with itself. */
  lemma SelfExcluded(all: seq<Appointment>, a: Appointment, start: int, duration: int)
    requires a.id != ""
    ensures a !in Conflicts(all, a.doctorId, a.appointmentDate, start, duration, Some(a.id))
    ensures a !in ConflictsAsWritten(all, a.doctorId, a.appointmentDate, start, duration, Some(a.id))
  {
  }

  /** A slot of the grid is free exactly when a 30-minute booking there has
      no conflict. */
  lemma SlotFreeIffNoConflict(all: seq<Appointment>, doctorId: string, date: string, s: int)
    ensures SlotFree(DayAppointments(all, doctorId, date), s) <==> Conflicts(all, doctorId, date, s, SlotMinutes, None) == []
  {
    var day := (a: Appointment) => a.doctorId == doctorId && a.appointmentDate == date && Counted(a);
    var p := (x: Appointment) => x.doctorId == doctorId && x.appointmentDate == date && Counted(x)
                                 && Overlaps(x, s, SlotMinutes)
                                 && !(Truthy(None) && x.id == None.value);
    var apts := DayAppointments(all, doctorId, date);
    FilterEmpty(all, p);
    forall x | x in all && p(x) ensures !SlotFree(apts, s) {
      FilterComplete(all, day, x);
      var i :| 0 <= i < |apts| && apts[i] == x;
      assert SlotOverlaps(apts[i], s);
    }
    if !SlotFree(apts, s) {
      var i :| 0 <= i < |apts| && SlotOverlaps(apts[i], s);
      assert apts[i] in apts;
      assert p(apts[i]);
    }
  }

  /** The check as written misses an appointment that starts before the
      booking and runs into it (09:00 for an hour against a booking at
      09:30), which the overlap test catches. */
  lemma EarlierOverlapMissed(all: seq<Appointment>, a: Appointment, start: int, duration: int)
    requires a in all && Counted(a) && duration > 0
    requires a.appointmentTime < start < a.appointmentTime + DurationOf(a)
    ensures a !in ConflictsAsWritten(all, a.doctorId, a.appointmentDate, start, duration, None)
    ensures a in Conflicts(all, a.doctorId, a.appointmentDate, start, duration, None)
  {
    var c := (x: Appointment) => x.doctorId == a.doctorId && x.appointmentDate == a.appointmentDate && Counted(x)
                                 && Overlaps(x, start, duration)
                                 && !(Truthy(None) && x.id == None.value);
    FilterComplete(all, c, a);
  }

  /** A booking that runs past midnight (23:45 for 30 minutes) has its end
      formatted as an earlier time of day, so the check as written finds no
      conflict at all, whatever is booked. */
  lemma MidnightBookingNeverConflicts(all: seq<Appointment>, doctorId: string, date: string, start: int,
                                      duration: int, excludeId: Option<string>)
    requires 0 <= start < MinutesPerDay && MinutesPerDay - start <= duration <= MinutesPerDay
    ensures ConflictsAsWritten(all, doctorId, date, start, duration, excludeId) == []
  {
    var w := (a: Appointment) => a.doctorId == doctorId && a.appointmentDate == date && Counted(a)
                                 && a.appointmentTime < (start + duration) % MinutesPerDay && a.appointmentTime >= start
                                 && !(Truthy(excludeId) && a.id == excludeId.value);
    assert (start + duration) % MinutesPerDay == start + duration - MinutesPerDay;
    FilterEmpty(all, w);
  }

  /** On a booking that starts no later than every existing appointment of
      the day and ends before midnight, the check as written and the overlap
      test agree. */
  lemma AsWrittenAgreesWhenFirst(all: seq<Appointment>, doctorId: string, date: string, start: int,
                                 duration: int, excludeId: Option<string>)
    requires 0 <= start && duration > 0 && start + duration < MinutesPerDay
    requires forall a :: a in all ==> a.appointmentTime >= start && DurationOf(a) > 0
    ensures ConflictsAsWritten(all, doctorId, date, start, duration, excludeId) ==
            Conflicts(all, doctorId, date, start, duration, excludeId)
  {
    var w := (a: Appointment) => a.doctorId == doctorId && a.appointmentDate == date && Counted(a)
                                 && a.appointmentTime < (start + duration) % MinutesPerDay && a.appointmentTime >= start
                                 && !(Truthy(excludeId) && a.id == excludeId.value);
    var c := (a: Appointment) => a.doctorId == doctorId && a.appointmentDate == date && Counted(a)
                                 && Overlaps(a, start, duration)
                                 && !(Truthy(excludeId) && a.id == excludeId.value);
    assert (start + duration) % MinutesPerDay == start + duration;
    FilterSame(all, w, c);
  }

  // ---------------------------------------------------------------------
  // Creating and rescheduling

  datatype BookingOutcome =
    | PatientNotFound
    | DoctorNotFound
    | NotAvailable(conflicts: seq<Appointment>)
    | InThePast
    | Booked(appointmentId: string, duration: int)

  /** `createAppointment`: patient, doctor, availability (the query as
      written, with `duration || 30`), not in the past, then the next
      appointment ID. `startsAt` and `now` are instants in minutes. */
  function CreateAppointment(patientFound: bool, doctorFound: bool, all: seq<Appointment>, doctorId: string,
                             date: string, time: int, duration: Option<int>, startsAt: int, now: int,
                             today: string, existing: seq<string>): (r: BookingOutcome)
    ensures r.Booked? <==> patientFound && doctorFound &&
                           ConflictsAsWritten(all, doctorId, date, time, OrInt(duration, 30), None) == [] &&
                           startsAt >= now
    ensures r.NotAvailable? ==> r.conflicts == ConflictsAsWritten(all, doctorId, date, time, OrInt(duration, 30), None)
    ensures r.Booked? ==> r.duration == OrInt(duration, 30) && r.duration != 0
    ensures r.Booked? ==> r.appointmentId == NextId(AppointmentIds, today, existing)
  {
    var d := OrInt(duration, 30);
    if !patientFound then PatientNotFound
    else if !doctorFound then DoctorNotFound
    else
      var conflicts := ConflictsAsWritten(all, doctorId, date, time, d, None);
      if conflicts != [] then NotAvailable(conflicts)
      else if startsAt < now then InThePast
      else Booked(NextId(AppointmentIds, today, existing), d)
  }

  /** The booking check as written lets a double booking through: with a
      counted appointment already running at `time`, a booking that starts
      inside it is made, although the two share a minute. */
  lemma DoubleBookingAccepted(a: Appointment, time: int, startsAt: int, now: int, today: string,
                              existing: seq<string>)
    requires Counted(a) && a.appointmentTime < time < a.appointmentTime + DurationOf(a) && startsAt >= now
    ensures CreateAppointment(true, true, [a], a.doctorId, a.appointmentDate, time, None, startsAt, now,
                              today, existing).Booked?
    ensures a in Conflicts([a], a.doctorId, a.appointmentDate, time, 30, None)
  {
    EarlierOverlapMissed([a], a, time, 30);
  }

  /** `x || d` for an optional integer. */
  function OrInt(x: Option<int>, d: int): (r: int)
    ensures x.Some? && x.value != 0 ==> r == x.value
    ensures (x.None? || x.value == 0) ==> r == d
  {
    if x.Some? && x.value != 0 then x.value else d
  }

  /** The check in `updateAppointment` (the query as written): run only
      when the doctor, date, time or duration is supplied, on the supplied
      values or the current ones, excluding the appointment itself. A time is a non-empty string and so
      always counts as supplied; a stored duration that is null is passed on
      as such and adds no minutes. */
  function RescheduleConflicts(all: seq<Appointment>, current: Appointment, doctorId: Option<string>,
                               date: Option<string>, time: Option<int>, duration: Option<int>)
    : (r: seq<Appointment>)
    ensures !(Truthy(doctorId) || Truthy(date) || time.Some? || (duration.Some? && duration.value != 0)) ==> r == []
    ensures current.id != "" ==> current !in r
  {
    if Truthy(doctorId) || Truthy(date) || time.Some? || (duration.Some? && duration.value != 0) then
      ConflictsAsWritten(all, if Truthy(doctorId) then doctorId.value else current.doctorId,
                if Truthy(date) then date.value else current.appointmentDate,
                time.GetOr(current.appointmentTime), OrInt(duration, current.duration.GetOr(0)), Some(current.id))
    else []
  }
}
