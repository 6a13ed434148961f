/** Delivery instants and spending periods of summary schedules.

    The `…Of` functions say what the code computes; the methods compute it the way the code does. A
    local midnight that cannot be resolved makes the code panic: here the period is an error. */
module Schedule {
  import opened Base
  import opened Calendar
  import opened Zones

  datatype ScheduleError = InvalidTimezone | InvalidDeliveryMinute

  predicate ValidMinute(minute: int) { 0 <= minute < 24 * 60 }

  // ----- local times -----

  /** The first shown local time `step`, `step + 1`, .. 180 minutes after `naive`. */
  function ScanFrom(z: Zone, naive: int, step: nat): Result<Time, ScheduleError>
    decreases 181 - step
  {
    if step > 180 then Err(InvalidTimezone)
    else
      var t := FromLocal(z, naive + step * MINUTE);
      if t.Some? then Ok(t.value) else ScanFrom(z, naive, step + 1)
  }

  function Resolve(z: Zone, naive: int): Result<Time, ScheduleError> {
    var t := FromLocal(z, naive);
    var later := FromLocal(z, naive + HOUR);
    if t.Some? then Ok(t.value) else if later.Some? then Ok(later.value) else ScanFrom(z, naive, 1)
  }

  method ScanForwardLocal(z: Zone, naive: int) returns (r: Result<Time, ScheduleError>)
    ensures r == ScanFrom(z, naive, 1)
  {
    for step := 1 to 181
      invariant ScanFrom(z, naive, 1) == ScanFrom(z, naive, step)
    {
      var t := FromLocal(z, naive + step * MINUTE);
      if t.Some? {
        return Ok(t.value);
      }
    }
    return Err(InvalidTimezone);
  }

  method ResolveLocalDatetime(z: Zone, naive: int) returns (r: Result<Time, ScheduleError>)
    ensures r == Resolve(z, naive)
  {
    var t := FromLocal(z, naive);
    if t.Some? {
      return Ok(t.value);
    }
    var later := FromLocal(z, naive + HOUR);
    if later.Some? {
      return Ok(later.value);
    }
    r := ScanForwardLocal(z, naive);
  }

  /** The delivery of date `d`. */
  function DeliveryOn(z: Zone, d: int, minute: int): Result<Time, ScheduleError> { Resolve(z, d * DAY + minute * MINUTE) }

  method LocalDeliveryDatetime(z: Zone, d: int, minute: int) returns (r: Result<Time, ScheduleError>)
    ensures r == DeliveryOn(z, d, minute)
  {
    r := ResolveLocalDatetime(z, d * DAY + minute * MINUTE);
  }

  // ----- next and latest delivery -----

  /** The delivery on a date as far from the candidate's own date as `shift` says. */
  function Shifted(z: Zone, candidate: Time, shift: int, minute: int): Result<Time, ScheduleError> {
    DeliveryOn(z, Date(z, candidate) + shift, minute)
  }

  function NextOf(z: Zone, now: Time, f: Frequency, minute: int): Result<Time, ScheduleError> {
    var today := DeliveryOn(z, Date(z, now), minute);
    if today.Err? then today
    else match f
      case Daily => if today.value > now then today else Shifted(z, today.value, 1, minute)
      case Weekly =>
        var w := Weekday(Date(z, today.value));
        var monday := if w == 0 then today else Shifted(z, today.value, 7 - w, minute);
        if monday.Err? || monday.value > now then monday else Shifted(z, monday.value, 7, minute)
      case Monthly =>
        var m := MonthOf(Date(z, now));
        FirstAfter(DeliveryOn(z, FirstDay(m), minute), DeliveryOn(z, FirstDay(m + 1), minute), now)
  }

  function FirstAfter(a: Result<Time, ScheduleError>, b: Result<Time, ScheduleError>, now: Time): Result<Time, ScheduleError> {
    if a.Err? || a.value > now then a else b
  }

  function LatestOf(z: Zone, now: Time, f: Frequency, minute: int): Result<Time, ScheduleError> {
    var today := DeliveryOn(z, Date(z, now), minute);
    if today.Err? then today
    else match f
      case Daily => if today.value <= now then today else Shifted(z, today.value, -1, minute)
      case Weekly =>
        var monday := Shifted(z, today.value, -Weekday(Date(z, today.value)), minute);
        if monday.Err? || monday.value <= now then monday else Shifted(z, monday.value, -7, minute)
      case Monthly =>
        var m := MonthOf(Date(z, now));
        var first := DeliveryOn(z, FirstDay(m), minute);
        if first.Err? || first.value <= now then first else DeliveryOn(z, FirstDay(m - 1), minute)
  }

  /** `zone` is what the timezone name parses to. */
  method NextDelivery(now: Time, zone: Option<Zone>, f: Frequency, minute: int) returns (r: Result<Time, ScheduleError>)
    ensures r == if !ValidMinute(minute) then Err(InvalidDeliveryMinute)
                 else if zone.None? then Err(InvalidTimezone)
                 else NextOf(zone.value, now, f, minute)
  {
    if !ValidMinute(minute) {
      return Err(InvalidDeliveryMinute);
    }
    if zone.None? {
      return Err(InvalidTimezone);
    }
    var z := zone.value;
    var date := Date(z, now);
    var candidate := LocalDeliveryDatetime(z, date, minute);
    if candidate.Err? {
      return candidate;
    }
    match f {
    case Daily =>
      if candidate.value <= now {
        candidate := LocalDeliveryDatetime(z, Date(z, candidate.value) + 1, minute);
      }
    case Weekly =>
      var untilMonday := (0 - Weekday(Date(z, candidate.value)) + 7) % 7;
      if untilMonday > 0 {
        candidate := LocalDeliveryDatetime(z, Date(z, candidate.value) + untilMonday, minute);
        if candidate.Err? {
          return candidate;
        }
      }
      if candidate.value <= now {
        candidate := LocalDeliveryDatetime(z, Date(z, candidate.value) + 7, minute);
      }
    case Monthly =>
      var month := MonthOf(date);
      candidate := LocalDeliveryDatetime(z, FirstDay(month), minute);
      if candidate.Err? {
        return candidate;
      }
      if candidate.value <= now {
        candidate := LocalDeliveryDatetime(z, FirstDay(month + 1), minute);
      }
    }
    return candidate;
  }

  method LatestDelivery(now: Time, zone: Option<Zone>, f: Frequency, minute: int) returns (r: Result<Time, ScheduleError>)
    ensures r == if !ValidMinute(minute) then Err(InvalidDeliveryMinute)
                 else if zone.None? then Err(InvalidTimezone)
                 else LatestOf(zone.value, now, f, minute)
  {
    if !ValidMinute(minute) {
      return Err(InvalidDeliveryMinute);
    }
    if zone.None? {
      return Err(InvalidTimezone);
    }
    var z := zone.value;
    var date := Date(z, now);
    var candidate := LocalDeliveryDatetime(z, date, minute);
    if candidate.Err? {
      return candidate;
    }
    match f {
    case Daily =>
      if candidate.value > now {
        candidate := LocalDeliveryDatetime(z, Date(z, candidate.value) - 1, minute);
      }
    case Weekly =>
      var monday := Date(z, candidate.value) - Weekday(Date(z, candidate.value));
      candidate := LocalDeliveryDatetime(z, monday, minute);
      if candidate.Err? {
        return candidate;
      }
      if candidate.value > now {
        candidate := LocalDeliveryDatetime(z, Date(z, candidate.value) - 7, minute);
      }
    case Monthly =>
      var month := MonthOf(date);
      candidate := LocalDeliveryDatetime(z, FirstDay(month), minute);
      if candidate.Err? {
        return candidate;
      }
      if candidate.value > now {
        candidate := LocalDeliveryDatetime(z, FirstDay(month - 1), minute);
      }
    }
    return candidate;
  }

  // ----- the neighbours of now -----

  /** Every date has its delivery, on that date. */
  ghost predicate Stable(z: Zone, minute: int) {
    forall d :: DeliveryOn(z, d, minute).Ok? && Date(z, DeliveryOn(z, d, minute).value) == d
  }

  ghost predicate Regular(z: Zone, minute: int) { DatesForward(z) && Stable(z, minute) }

  /** `t` is a delivery of the schedule. */
  ghost predicate IsScheduled(z: Zone, f: Frequency, minute: int, t: Time) {
    exists d :: IsDeliveryDate(f, d) && DeliveryOn(z, d, minute) == Ok(t)
  }

  lemma DeliveriesFollowDates(z: Zone, minute: int, d: int, now: Time)
    requires Regular(z, minute)
    ensures d > Date(z, now) ==> DeliveryOn(z, d, minute).value > now
    ensures d < Date(z, now) ==> DeliveryOn(z, d, minute).value < now
  {
  }

  /** The delivery date that comes next after `now`: the last one up to today, if its delivery is
      still to come, or the one after it. */
  ghost function NextDate(z: Zone, now: Time, f: Frequency, minute: int): int {
    var c := DateUpTo(f, Date(z, now));
    var due := DeliveryOn(z, c, minute);
    if due.Ok? && due.value > now then c else DateAfter(f, c)
  }

  ghost function LatestDate(z: Zone, now: Time, f: Frequency, minute: int): int {
    var c := DateUpTo(f, Date(z, now));
    var due := DeliveryOn(z, c, minute);
    if due.Ok? && due.value > now then DateUpTo(f, c - 1) else c
  }

  lemma WeeklyNext(z: Zone, now: Time, minute: int)
    requires Regular(z, minute)
    ensures NextOf(z, now, Weekly, minute) == DeliveryOn(z, NextDate(z, now, Weekly, minute), minute)
  {
    var today := Date(z, now);
    var c := today - Weekday(today);
    var t := DeliveryOn(z, today, minute).value;
    assert Date(z, t) == today && Weekday(c) == 0;
    DeliveriesFollowDates(z, minute, c, now);
    DeliveriesFollowDates(z, minute, c + 7, now);
  }

  lemma MonthlyNext(z: Zone, now: Time, minute: int)
    requires Regular(z, minute)
    ensures NextOf(z, now, Monthly, minute) == DeliveryOn(z, NextDate(z, now, Monthly, minute), minute)
  {
    var d := Date(z, now);
    var m := MonthOf(d);
    var c := DateUpTo(Monthly, d);
    assert c == FirstDay(m) && DateAfter(Monthly, c) == FirstDay(m + 1) by {
      FirstDayIsInMonth(m);
    }
    assert DeliveryOn(z, d, minute).Ok? && DeliveryOn(z, c, minute).Ok?;
    assert NextOf(z, now, Monthly, minute) == FirstAfter(DeliveryOn(z, c, minute), DeliveryOn(z, FirstDay(m + 1), minute), now);
  }

  lemma NextIsOnNextDate(z: Zone, now: Time, f: Frequency, minute: int)
    requires Regular(z, minute)
    ensures NextOf(z, now, f, minute) == DeliveryOn(z, NextDate(z, now, f, minute), minute)
  {
    match f
    case Daily => assert Date(z, DeliveryOn(z, Date(z, now), minute).value) == Date(z, now);
    case Weekly => WeeklyNext(z, now, minute);
    case Monthly => MonthlyNext(z, now, minute);
  }

  lemma WeeklyLatest(z: Zone, now: Time, minute: int)
    requires Stable(z, minute)
    ensures LatestOf(z, now, Weekly, minute) == DeliveryOn(z, LatestDate(z, now, Weekly, minute), minute)
  {
    var today := Date(z, now);
    var c := today - Weekday(today);
    assert Date(z, DeliveryOn(z, today, minute).value) == today && Date(z, DeliveryOn(z, c, minute).value) == c;
    assert Weekday(c - 1) == 6;
  }

  lemma MonthlyLatest(z: Zone, now: Time, minute: int)
    requires Stable(z, minute)
    ensures LatestOf(z, now, Monthly, minute) == DeliveryOn(z, LatestDate(z, now, Monthly, minute), minute)
  {
    var m := MonthOf(Date(z, now));
    MonthLength(m - 1);
    MonthOfIs(FirstDay(m) - 1, m - 1);
  }

  lemma LatestIsOnLatestDate(z: Zone, now: Time, f: Frequency, minute: int)
    requires Stable(z, minute)
    ensures LatestOf(z, now, f, minute) == DeliveryOn(z, LatestDate(z, now, f, minute), minute)
  {
    match f
    case Daily => assert Date(z, DeliveryOn(z, Date(z, now), minute).value) == Date(z, now);
    case Weekly => WeeklyLatest(z, now, minute);
    case Monthly => MonthlyLatest(z, now, minute);
  }

  /** Deliveries are in the order of their dates. */
  lemma DeliveriesIncrease(z: Zone, minute: int, d: int, e: int)
    requires Regular(z, minute) && d <= e
    ensures DeliveryOn(z, d, minute).value <= DeliveryOn(z, e, minute).value
    ensures d < e ==> DeliveryOn(z, d, minute).value < DeliveryOn(z, e, minute).value
  {
  }

  lemma NextDateIsFirst(z: Zone, now: Time, f: Frequency, minute: int, d: int)
    requires Regular(z, minute)
    ensures var n := NextDate(z, now, f, minute);
      && IsDeliveryDate(f, n) && DeliveryOn(z, n, minute).value > now
      && (IsDeliveryDate(f, d) && DeliveryOn(z, d, minute).value > now ==> d >= n)
  {
    var today := Date(z, now);
    var c := DateUpTo(f, today);
    DateUpToIsLast(f, today, d);
    DateAfterIsFirst(f, c, d);
    DeliveriesFollowDates(z, minute, d, now);
    DateUpToIsLast(f, today, DateAfter(f, c));
    DeliveriesFollowDates(z, minute, DateAfter(f, c), now);
  }

  lemma LatestDateIsLast(z: Zone, now: Time, f: Frequency, minute: int, d: int)
    requires Regular(z, minute)
    ensures var n := LatestDate(z, now, f, minute);
      && IsDeliveryDate(f, n) && DeliveryOn(z, n, minute).value <= now
      && (IsDeliveryDate(f, d) && DeliveryOn(z, d, minute).value <= now ==> d <= n)
  {
    var today := Date(z, now);
    var c := DateUpTo(f, today);
    DateUpToIsLast(f, today, d);
    DateUpToIsLast(f, c - 1, d);
    DeliveriesFollowDates(z, minute, d, now);
    DeliveriesFollowDates(z, minute, DateUpTo(f, c - 1), now);
  }

  /** `next_delivery` is the least scheduled instant after `now`. */
  lemma NextIsLeast(z: Zone, now: Time, f: Frequency, minute: int, t: Time)
    requires Regular(z, minute)
    ensures NextOf(z, now, f, minute).Ok? && NextOf(z, now, f, minute).value > now
    ensures IsScheduled(z, f, minute, NextOf(z, now, f, minute).value)
    ensures IsScheduled(z, f, minute, t) && t > now ==> t >= NextOf(z, now, f, minute).value
  {
    var n := NextDate(z, now, f, minute);
    NextIsOnNextDate(z, now, f, minute);
    NextDateIsFirst(z, now, f, minute, n);
    if IsScheduled(z, f, minute, t) && t > now {
      var d :| IsDeliveryDate(f, d) && DeliveryOn(z, d, minute) == Ok(t);
      NextDateIsFirst(z, now, f, minute, d);
      DeliveriesIncrease(z, minute, n, d);
    }
  }

  /** `latest_delivery` is the greatest scheduled instant up to `now`. */
  lemma LatestIsGreatest(z: Zone, now: Time, f: Frequency, minute: int, t: Time)
    requires Regular(z, minute)
    ensures LatestOf(z, now, f, minute).Ok? && LatestOf(z, now, f, minute).value <= now
    ensures IsScheduled(z, f, minute, LatestOf(z, now, f, minute).value)
    ensures IsScheduled(z, f, minute, t) && t <= now ==> t <= LatestOf(z, now, f, minute).value
  {
    var n := LatestDate(z, now, f, minute);
    LatestIsOnLatestDate(z, now, f, minute);
    LatestDateIsLast(z, now, f, minute, n);
    if IsScheduled(z, f, minute, t) && t <= now {
      var d :| IsDeliveryDate(f, d) && DeliveryOn(z, d, minute) == Ok(t);
      LatestDateIsLast(z, now, f, minute, d);
      DeliveriesIncrease(z, minute, d, n);
    }
  }

  // ----- which zones are regular -----

  /** Where the clock skips a delivery, an hour later is still the same date. */
  ghost predicate NotPushed(z: Zone, minute: int) {
    forall d :: FromLocal(z, d * DAY + minute * MINUTE).None? ==> minute * MINUTE + HOUR < DAY
  }

  lemma DateOfLocal(d: int, rest: int)
    requires 0 <= rest < DAY
    ensures (d * DAY + rest) / DAY == d
  {
  }

  /** Zones with forward dates and short gaps that do not push the delivery off its date, which is
      what the time zone database holds apart from a few historical exceptions. */
  lemma ShortGapsAreRegular(z: Zone, minute: int)
    requires ValidZone(z) && NoBackwardMidnight(z) && ShortGaps(z) && ValidMinute(minute) && NotPushed(z, minute)
    ensures Regular(z, minute)
  {
    DatesForwardExactly(z);
    forall d ensures DeliveryOn(z, d, minute).Ok? && Date(z, DeliveryOn(z, d, minute).value) == d {
      var naive := d * DAY + minute * MINUTE;
      if FromLocal(z, naive).None? {
        HourLaterIsShown(z, naive);
        FromLocalExact(z, naive + HOUR, FromLocal(z, naive + HOUR).value);
        DateOfLocal(d, minute * MINUTE + HOUR);
      } else {
        FromLocalExact(z, naive, FromLocal(z, naive).value);
        DateOfLocal(d, minute * MINUTE);
      }
    }
  }

  /** A zone whose clock falls back across midnight, from 00:30 to 23:30. */
  const FALLS_BACK := Zone(0, [Change(DAY + 30 * MINUTE, -HOUR)])

  lemma FallsBack()
    ensures ValidZone(FALLS_BACK) && ShortGaps(FALLS_BACK) && !NoBackwardMidnight(FALLS_BACK)
    ensures DeliveryOn(FALLS_BACK, 0, 10) == Ok(10 * MINUTE) && DeliveryOn(FALLS_BACK, 1, 10) == Ok(DAY + 10 * MINUTE)
  {
    var z := FALLS_BACK;
    assert Offset(z, 0) == 0 && Offset(z, 1) == -HOUR;
    assert !NoBackwardMidnight(z) by {
      assert (z.changes[0].at - 1 + Offset(z, 0)) / DAY == 1;
      assert (z.changes[0].at + Offset(z, 1)) / DAY == 0;
    }
    assert InSegment(z, 0, 10 * MINUTE) && InSegment(z, 0, DAY + 10 * MINUTE);
    assert FromLocal(z, 10 * MINUTE) == Some(10 * MINUTE);
    assert FromLocal(z, DAY + 10 * MINUTE) == Some(DAY + 10 * MINUTE);
  }

  /** There, with a delivery at 00:10 and a reading during the second 23:35, `next_delivery` lies in
      the past. */
  lemma NextDeliveryMayBePast()
    ensures var now := DAY + 35 * MINUTE;
      && ValidZone(FALLS_BACK) && ShortGaps(FALLS_BACK) && !NoBackwardMidnight(FALLS_BACK)
      && NextOf(FALLS_BACK, now, Daily, 10) == Ok(DAY + 10 * MINUTE) && DAY + 10 * MINUTE < now
  {
    FallsBack();
    SegmentIsUnique(FALLS_BACK, DAY + 35 * MINUTE, 1);
    SegmentIsUnique(FALLS_BACK, 10 * MINUTE, 0);
    assert Date(FALLS_BACK, DAY + 35 * MINUTE) == 0 && Date(FALLS_BACK, 10 * MINUTE) == 0;
  }

  lemma {:induction false} ScanFailsExactly(z: Zone, naive: int, step: nat)
    ensures ScanFrom(z, naive, step).Err? <==> forall k :: step <= k <= 180 ==> FromLocal(z, naive + k * MINUTE).None?
    decreases 181 - step
  {
    if step <= 180 {
      ScanFailsExactly(z, naive, step + 1);
    }
  }

  /** A local time fails to resolve exactly when the clock shows neither it nor any minute of the
      three hours after it. */
  lemma ResolveFailsExactly(z: Zone, naive: int)
    ensures Resolve(z, naive).Err? <==> forall k :: 0 <= k <= 180 ==> FromLocal(z, naive + k * MINUTE).None?
  {
    ScanFailsExactly(z, naive, 1);
    assert naive + 0 * MINUTE == naive && naive + 60 * MINUTE == naive + HOUR;
  }

  /** Where a whole day is skipped, its delivery cannot be computed. */
  lemma SkippedDayIsAnError(minute: int)
    requires 0 <= minute < 21 * 60
    ensures var z := Zone(0, [Change(DAY, DAY)]);
      ValidZone(z) && NoBackwardMidnight(z) && !ShortGaps(z) && NextOf(z, DAY - 1, Daily, minute).Err?
  {
    var z := Zone(0, [Change(DAY, DAY)]);
    assert Offset(z, 0) == 0 && Offset(z, 1) == DAY;
    assert !ShortGap(z, 0);
    SkippedDelivery(z, minute);
    SegmentIsUnique(z, DAY - 1, 0);
    SegmentIsUnique(z, minute * MINUTE, 0);
    assert InSegment(z, 0, minute * MINUTE);
    assert DeliveryOn(z, 0, minute) == Ok(minute * MINUTE) by {
      assert FromLocalIn(z, minute * MINUTE, 0) == Some(minute * MINUTE);
    }
    assert Date(z, DAY - 1) == 0 && Date(z, minute * MINUTE) == 0;
    assert NextOf(z, DAY - 1, Daily, minute) == DeliveryOn(z, 1, minute);
  }

  lemma SkippedDelivery(z: Zone, minute: int)
    requires z == Zone(0, [Change(DAY, DAY)]) && 0 <= minute < 21 * 60
    ensures DeliveryOn(z, 1, minute).Err?
  {
    forall k | 0 <= k <= 180 ensures FromLocal(z, DAY + minute * MINUTE + k * MINUTE).None? {
      NoneInSkippedDay(z, DAY + minute * MINUTE + k * MINUTE);
    }
    ResolveFailsExactly(z, DAY + minute * MINUTE);
  }

  lemma NoneInSkippedDay(z: Zone, naive: int)
    requires z == Zone(0, [Change(DAY, DAY)]) && DAY <= naive < 2 * DAY
    ensures FromLocal(z, naive).None?
  {
    assert FromLocalIn(z, naive, 2).None?;
    assert FromLocalIn(z, naive, 1).None?;
  }
}
