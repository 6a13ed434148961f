/** Spending periods: the stretch of time a summary covers. */
module Periods {
  import opened Base
  import opened Calendar
  import opened Zones
  import opened Schedule

  /** From `start` up to, not including, `end`. */
  datatype Period = Period(start: Time, end: Time)

  predicate Covers(p: Period, t: Time) { p.start <= t < p.end }

  /** Midnight of date `d`, or the first valid time after it. */
  function DateStart(z: Zone, d: int): Result<Time, ScheduleError> { DeliveryOn(z, d, 0) }

  function Between(start: Result<Time, ScheduleError>, end: Result<Time, ScheduleError>): Result<Period, ScheduleError> {
    if start.Err? then Err(start.error) else if end.Err? then Err(end.error) else Ok(Period(start.value, end.value))
  }

  function Earlier(a: Result<Time, ScheduleError>, b: Result<Time, ScheduleError>): Result<Time, ScheduleError> {
    if a.Err? then a else if b.Err? then b else if a.value > b.value then b else a
  }

  function Today(z: Zone, now: Time): Result<Period, ScheduleError> {
    Between(DateStart(z, Date(z, now)), DateStart(z, Date(z, now) + 1))
  }

  function Yesterday(z: Zone, anchor: Time): Result<Period, ScheduleError> {
    Between(DateStart(z, Date(z, anchor) - 1), DateStart(z, Date(z, anchor)))
  }

  function WeekStart(z: Zone, anchor: Time): Result<Time, ScheduleError> {
    DateStart(z, Date(z, anchor) - Weekday(Date(z, anchor)))
  }

  function ThisWeek(z: Zone, now: Time): Result<Period, ScheduleError> {
    var start := WeekStart(z, now);
    if start.Err? then Err(start.error)
    else Between(start, Earlier(DateStart(z, Date(z, start.value) + 7), DateStart(z, Date(z, now) + 1)))
  }

  function LastWeek(z: Zone, anchor: Time): Result<Period, ScheduleError> {
    var end := WeekStart(z, anchor);
    if end.Err? then Err(end.error) else Between(DateStart(z, Date(z, end.value) - 7), end)
  }

  function MonthStart(z: Zone, anchor: Time): Result<Time, ScheduleError> {
    DateStart(z, FirstDay(MonthOf(Date(z, anchor))))
  }

  function ThisMonth(z: Zone, now: Time): Result<Period, ScheduleError> {
    var start := MonthStart(z, now);
    if start.Err? then Err(start.error)
    else Between(start, Earlier(DateStart(z, FirstDay(MonthOf(Date(z, start.value)) + 1)), DateStart(z, Date(z, now) + 1)))
  }

  function LastMonth(z: Zone, anchor: Time): Result<Period, ScheduleError> {
    var end := MonthStart(z, anchor);
    if end.Err? then Err(end.error) else Between(DateStart(z, FirstDay(MonthOf(Date(z, end.value)) - 1)), end)
  }

  function InteractivePeriod(z: Zone, f: Frequency, now: Time): Result<Period, ScheduleError> {
    match f
    case Daily => Today(z, now)
    case Weekly => ThisWeek(z, now)
    case Monthly => ThisMonth(z, now)
  }

  function ScheduledPeriod(z: Zone, f: Frequency, scheduledFor: Time): Result<Period, ScheduleError> {
    match f
    case Daily => Yesterday(z, scheduledFor)
    case Weekly => LastWeek(z, scheduledFor)
    case Monthly => LastMonth(z, scheduledFor)
  }

  // ----- scheduled periods tile time -----

  /** A delivery covers the time from the start of the delivery date before it to the start of its
      own, whatever the delivery minute. */
  lemma ScheduledPeriodIs(z: Zone, f: Frequency, minute: int, d: int)
    requires Regular(z, minute) && Regular(z, 0) && IsDeliveryDate(f, d)
    ensures ScheduledPeriod(z, f, DeliveryOn(z, d, minute).value)
            == Ok(Period(DateStart(z, DateUpTo(f, d - 1)).value, DateStart(z, d).value))
  {
    match f
    case Daily => assert Date(z, DeliveryOn(z, d, minute).value) == d;
    case Weekly => LastWeekIs(z, minute, d);
    case Monthly => LastMonthIs(z, minute, d);
  }

  lemma LastWeekIs(z: Zone, minute: int, d: int)
    requires Stable(z, minute) && Stable(z, 0) && Weekday(d) == 0
    ensures LastWeek(z, DeliveryOn(z, d, minute).value) == Between(DateStart(z, d - 7), DateStart(z, d)) && DateUpTo(Weekly, d - 1) == d - 7
  {
    assert Date(z, DeliveryOn(z, d, minute).value) == d && Date(z, DateStart(z, d).value) == d;
  }

  lemma LastMonthIs(z: Zone, minute: int, d: int)
    requires Stable(z, minute) && Stable(z, 0) && d == FirstDay(MonthOf(d))
    ensures LastMonth(z, DeliveryOn(z, d, minute).value) == Between(DateStart(z, DateUpTo(Monthly, d - 1)), DateStart(z, d))
  {
    assert Date(z, DeliveryOn(z, d, minute).value) == d && Date(z, DateStart(z, d).value) == d;
    MonthLength(MonthOf(d) - 1);
    MonthOfIs(d - 1, MonthOf(d) - 1);
  }

  lemma NextAfterDelivery(z: Zone, f: Frequency, minute: int, d: int)
    requires Regular(z, minute) && IsDeliveryDate(f, d)
    ensures NextOf(z, DeliveryOn(z, d, minute).value, f, minute) == DeliveryOn(z, DateAfter(f, d), minute)
  {
  }

  lemma NeighbourDates(f: Frequency, d: int, e: int)
    requires IsDeliveryDate(f, d) && e == DateAfter(f, d)
    ensures DateUpTo(f, e - 1) == d && IsDeliveryDate(f, e) && DateUpTo(f, d - 1) < d
  {
    DatesAlternate(f, d);
    DateAfterIsFirst(f, d, d);
    DateUpToIsLast(f, d - 1, d);
  }

  /** The periods of two consecutive delivery dates meet. */
  lemma DatesTile(z: Zone, f: Frequency, minute: int, d: int)
    requires Regular(z, minute) && Regular(z, 0) && IsDeliveryDate(f, d)
    ensures var earlier := ScheduledPeriod(z, f, DeliveryOn(z, d, minute).value);
      var later := ScheduledPeriod(z, f, DeliveryOn(z, DateAfter(f, d), minute).value);
      earlier.Ok? && later.Ok? && later.value.start == earlier.value.end && earlier.value.start < earlier.value.end
  {
    var e := DateAfter(f, d);
    NeighbourDates(f, d, e);
    ScheduledPeriodIs(z, f, minute, d);
    ScheduledPeriodIs(z, f, minute, e);
    DeliveriesIncrease(z, 0, DateUpTo(f, d - 1), d);
  }

  /** Of two consecutive deliveries, the later period starts where the earlier one ends. */
  lemma PeriodsTile(z: Zone, f: Frequency, minute: int, t: Time)
    requires Regular(z, minute) && Regular(z, 0) && IsScheduled(z, f, minute, t)
    ensures NextOf(z, t, f, minute).Ok?
    ensures var earlier, later := ScheduledPeriod(z, f, t), ScheduledPeriod(z, f, NextOf(z, t, f, minute).value);
      earlier.Ok? && later.Ok? && later.value.start == earlier.value.end && earlier.value.start < earlier.value.end
  {
    var d :| IsDeliveryDate(f, d) && DeliveryOn(z, d, minute) == Ok(t);
    NextAfterDelivery(z, f, minute, d);
    DatesTile(z, f, minute, d);
  }

  /** `t` falls into the period of the delivery of date `d`. */
  ghost predicate InPeriodOf(z: Zone, f: Frequency, minute: int, d: int, t: Time) {
    && IsDeliveryDate(f, d) && DeliveryOn(z, d, minute).Ok?
    && var p := ScheduledPeriod(z, f, DeliveryOn(z, d, minute).value); p.Ok? && Covers(p.value, t)
  }

  /** The starts of delivery dates around an instant. */
  lemma StartsAround(z: Zone, f: Frequency, t: Time, d: int)
    requires Regular(z, 0) && IsDeliveryDate(f, d)
    ensures DateStart(z, DateUpTo(f, d - 1)).value <= t < DateStart(z, d).value <==> d == NextDate(z, t, f, 0)
  {
    var n := NextDate(z, t, f, 0);
    var before := DateUpTo(f, d - 1);
    NextDateIsFirst(z, t, f, 0, d);
    NextDateIsFirst(z, t, f, 0, before);
    DateUpToIsLast(f, d - 1, n);
    if d > n {
      DeliveriesIncrease(z, 0, n, before);
    }
  }

  /** Every instant falls into exactly one scheduled period. */
  lemma EveryInstantInOnePeriod(z: Zone, f: Frequency, minute: int, t: Time, d: int)
    requires Regular(z, minute) && Regular(z, 0)
    ensures InPeriodOf(z, f, minute, d, t) <==> d == NextDate(z, t, f, 0)
  {
    if IsDeliveryDate(f, d) {
      ScheduledPeriodIs(z, f, minute, d);
      StartsAround(z, f, t, d);
    } else {
      NextDateIsFirst(z, t, f, 0, d);
    }
  }

  // ----- interactive periods -----

  /** From the start of the current day, week or month to the end of today. */
  lemma InteractivePeriodIs(z: Zone, f: Frequency, now: Time)
    requires Regular(z, 0)
    ensures var today := Date(z, now);
      && DateStart(z, DateUpTo(f, today)).Ok? && DateStart(z, today + 1).Ok?
      && InteractivePeriod(z, f, now) == Ok(Period(DateStart(z, DateUpTo(f, today)).value, DateStart(z, today + 1).value))
  {
    var today := Date(z, now);
    assert today < DateAfter(f, today) by {
      DateAfterIsFirst(f, today, today);
    }
    DeliveriesIncrease(z, 0, today + 1, DateAfter(f, today));
    ToTheEarlierEnd(z, f, now);
  }

  lemma ToTheEarlierEnd(z: Zone, f: Frequency, now: Time)
    requires Regular(z, 0)
    ensures var today := Date(z, now);
      InteractivePeriod(z, f, now) == Between(DateStart(z, DateUpTo(f, today)),
                                              Earlier(DateStart(z, DateAfter(f, today)), DateStart(z, today + 1)))
  {
    var today := Date(z, now);
    match f
    case Daily =>
    case Weekly => assert Date(z, DateStart(z, today - Weekday(today)).value) == today - Weekday(today);
    case Monthly => ThisMonthIs(z, now);
  }

  lemma ThisMonthIs(z: Zone, now: Time)
    requires Regular(z, 0)
    ensures var m := MonthOf(Date(z, now));
      ThisMonth(z, now) == Between(DateStart(z, FirstDay(m)), Earlier(DateStart(z, FirstDay(m + 1)), DateStart(z, Date(z, now) + 1)))
  {
    var m := MonthOf(Date(z, now));
    assert Date(z, DateStart(z, FirstDay(m)).value) == FirstDay(m);
    FirstDayIsInMonth(m);
  }
}
