/** Exactly which zones make `latest_delivery` the most recent delivery and `next_delivery` the first
    one to come.

    The deliveries of a schedule are numbered. The clock shows the number of the last delivery date up
    to the local date, or of the one tried first; the rest is module Turns. */
module DeliveryOrder {
  import opened Base
  import opened Calendar
  import opened Zones
  import opened Schedule
  import opened ScheduleExact
  import opened Turns

  // ----- numbers -----

  /** The date of delivery `j`. */
  function NthDate(f: Frequency, j: int): int {
    match f
    case Daily => j
    case Weekly => 7 * j - 3
    case Monthly => FirstDay(j)
  }

  /** The last delivery date up to `d`. */
  function NumberOf(f: Frequency, d: int): int {
    match f
    case Daily => d
    case Weekly => (d + 3) / 7
    case Monthly => MonthOf(d)
  }

  /** The one `next_delivery` tries first on `d`. */
  function TryOf(f: Frequency, d: int): int {
    match f
    case Daily => d
    case Weekly => (d + 9) / 7
    case Monthly => MonthOf(d)
  }

  /** The date from which on that is `j`. */
  function TriedFrom(f: Frequency, j: int): int {
    match f
    case Daily => j
    case Weekly => 7 * j - 9
    case Monthly => FirstDay(j)
  }

  lemma MonthGalois(d: int, m: int)
    ensures d < FirstDay(m) <==> MonthOf(d) < m
  {
    var k := MonthOf(d);
    if k + 1 < m {
      MonthsIncrease(k + 1, m);
    } else if m < k {
      MonthsIncrease(m, k);
    }
  }

  lemma NumberIs(f: Frequency, d: int, j: int)
    ensures d < NthDate(f, j) <==> NumberOf(f, d) < j
    ensures d < TriedFrom(f, j) <==> TryOf(f, d) < j
  {
    if f.Monthly? {
      MonthGalois(d, j);
    }
  }

  lemma NumbersIncrease(f: Frequency, j: int)
    ensures NthDate(f, j) < NthDate(f, j + 1) && TriedFrom(f, j) <= NthDate(f, j) < TriedFrom(f, j + 1)
  {
    if f.Monthly? {
      MonthLength(j);
    }
  }

  lemma WeeklyDates(d: int)
    ensures DateUpTo(Weekly, d) == NthDate(Weekly, NumberOf(Weekly, d))
    ensures FirstTry(Weekly, d) == NthDate(Weekly, TryOf(Weekly, d))
  {
  }

  lemma DatesAreNumbered(f: Frequency, d: int)
    ensures DateUpTo(f, d) == NthDate(f, NumberOf(f, d)) && FirstTry(f, d) == NthDate(f, TryOf(f, d))
    ensures IsDeliveryDate(f, d) <==> d == NthDate(f, NumberOf(f, d))
  {
    if f.Weekly? {
      WeeklyDates(d);
    }
  }

  /** What the calendar says of delivery `j`, on date `d`. */
  predicate IsNth(f: Frequency, j: int, d: int) {
    && NumberOf(f, d) == j && IsDeliveryDate(f, d)
    && DateUpTo(f, d - 1) == NthDate(f, j - 1) && DateAfter(f, d) == NthDate(f, j + 1)
  }

  lemma NthDateIsNumbered(f: Frequency, j: int)
    ensures IsNth(f, j, NthDate(f, j))
  {
    match f
    case Daily =>
    case Weekly => NthWeek(j);
    case Monthly =>
      MonthBefore(j);
      NthMonth(j, FirstDay(j));
  }

  lemma NthMonth(j: int, d: int)
    requires d == FirstDay(j) && MonthOf(d) == j && MonthOf(d - 1) == j - 1
    ensures IsNth(Monthly, j, d)
  {
  }

  lemma NthWeek(j: int)
    ensures IsNth(Weekly, j, 7 * j - 3)
  {
  }

  lemma MonthBefore(m: int)
    ensures MonthOf(FirstDay(m)) == m && MonthOf(FirstDay(m) - 1) == m - 1
  {
    FirstDayIsInMonth(m);
    MonthLength(m - 1);
    MonthOfIs(FirstDay(m) - 1, m - 1);
  }

  // ----- the clock -----

  function Day(z: Zone): Clock { t => Date(z, t) }

  function DueOn(z: Zone, minute: int): Due { d => var t := DeliveryOn(z, d, minute); if t.Ok? then t.value else 0 }

  lemma LocalIn(z: Zone, k: nat, t: Time)
    requires ValidZone(z) && InSegment(z, k, t)
    ensures Local(z, t) == t + Offset(z, k)
  {
    SegmentIsUnique(z, t, k);
  }

  lemma DatesGrow(z: Zone, k: nat, t: Time, u: Time)
    requires ValidZone(z) && Together(z, k, t, u)
    ensures Date(z, t) <= Date(z, u)
  {
    LocalIn(z, k, t);
    LocalIn(z, k, u);
    DivideMonotone(Local(z, t), Local(z, u));
  }

  /** What a segment has come to has been shown. */
  lemma ShownBy(z: Zone, k: nat, naive: int, u: Time)
    requires ValidZone(z) && InSegment(z, k, u) && naive <= Local(z, u)
    requires k > 0 ==> z.changes[k - 1].at + Offset(z, k) <= naive
    ensures FromLocal(z, naive).Some? && FromLocal(z, naive).value <= u
  {
    var v := naive - Offset(z, k);
    LocalIn(z, k, u);
    LocalIn(z, k, v);
    FromLocalExact(z, naive, v);
  }

  lemma MinuteOfDay(d: int, minute: int, local: int)
    requires ValidMinute(minute)
    ensures local / DAY < d ==> local < d * DAY + minute * MINUTE
    ensures d < local / DAY ==> d * DAY + minute * MINUTE <= local
    ensures d <= local / DAY ==> d * DAY <= local
  {
  }

  /** A date a segment runs through has its delivery by then. */
  lemma DueBy(z: Zone, minute: int, k: nat, u: Time, d: int)
    requires ValidZone(z) && ValidMinute(minute) && InSegment(z, k, u) && DeliveryOn(z, d, minute).Ok?
    requires k > 0 ==> z.changes[k - 1].at + Offset(z, k) < d * DAY
    requires d < Date(z, u) || (minute == 0 && d == Date(z, u))
    ensures DeliveryOn(z, d, minute).value <= u
  {
    MinuteOfDay(d, minute, Local(z, u));
    ShownBy(z, k, d * DAY + minute * MINUTE, u);
  }

  lemma LaterDate(z: Zone, k: nat, t: Time, d: int)
    requires ValidZone(z) && InSegment(z, k, t) && Date(z, t) < d
    ensures k > 0 ==> z.changes[k - 1].at + Offset(z, k) < d * DAY
  {
    LocalIn(z, k, t);
    MinuteOfDay(d, 0, Local(z, t));
  }

  lemma DueIs(z: Zone, minute: int, d: int)
    requires Stable(z, minute)
    ensures DeliveryOn(z, d, minute) == Ok(DueOn(z, minute)(d)) && Day(z)(DueOn(z, minute)(d)) == d
  {
  }

  lemma PassedIsDue(z: Zone, minute: int, k: nat, t: Time, u: Time, d: int)
    requires ValidZone(z) && Stable(z, minute) && ValidMinute(minute) && Together(z, k, t, u)
    requires Day(z)(t) < d && (d < Day(z)(u) || (minute == 0 && d == Day(z)(u)))
    ensures DueOn(z, minute)(d) <= u
  {
    DueIs(z, minute, d);
    LaterDate(z, k, t, d);
    DueBy(z, minute, k, u, d);
  }

  lemma PastIsDue(z: Zone, minute: int, t: Time, d: int)
    requires ValidZone(z) && Stable(z, minute) && ValidMinute(minute) && InSegment(z, 0, t) && d < Day(z)(t)
    ensures DueOn(z, minute)(d) <= t
  {
    DueIs(z, minute, d);
    DueBy(z, minute, 0, t, d);
  }

  lemma DaysPass(z: Zone, minute: int)
    requires ValidZone(z) && Stable(z, minute) && ValidMinute(minute)
    ensures Passes(z, Day(z), DueOn(z, minute)) && HasPassed(z, Day(z), DueOn(z, minute))
  {
    var day, due := Day(z), DueOn(z, minute);
    forall k: nat, t, u, d ensures PassesBy(z, day, due, k, t, u, d) {
      if Together(z, k, t, u) && day(t) < d < day(u) {
        PassedIsDue(z, minute, k, t, u, d);
      }
    }
    forall t, d | InSegment(z, 0, t) && d < day(t) ensures due(d) <= t {
      PastIsDue(z, minute, t, d);
    }
  }

  /** The first instant of a date in a segment. */
  lemma DateBegins(z: Zone, k: nat, t: Time, u: Time, d: int) returns (v: Time)
    requires ValidZone(z) && Together(z, k, t, u) && Date(z, t) < d <= Date(z, u)
    ensures t < v <= u && InSegment(z, k, v - 1) && InSegment(z, k, v) && Date(z, v) == d && Date(z, v - 1) == d - 1
  {
    v := d * DAY - Offset(z, k);
    LocalIn(z, k, t);
    LocalIn(z, k, u);
    MinuteOfDay(d, 0, Local(z, t));
    MinuteOfDay(d, 0, Local(z, u));
    LocalIn(z, k, v);
    LocalIn(z, k, v - 1);
    DateOfLocal(d, 0);
    DateOfLocal(d - 1, DAY - 1);
  }

  lemma DaysLeaveNoneOut(z: Zone)
    requires ValidZone(z)
    ensures NoneLeftOut(z, Day(z))
  {
    var day := Day(z);
    forall k: nat, t, u, d | Together(z, k, t, u) && day(t) < d <= day(u) ensures EntersBetween(z, day, k, t, u, d) {
      var v := DateBegins(z, k, t, u, d);
      assert Enters(z, day, k, d, v);
    }
    forall d ensures EventuallyShows(z, day, d) {
      var u := Reached(z, d * DAY);
      LocalIn(z, |z.changes|, u);
      DivideMonotone(d * DAY, Local(z, u));
      DateOfLocal(d, 0);
      assert day(u) >= d;
    }
  }

  /** The local date is an orderly clock, between changes. */
  lemma DaysAreOrderly(z: Zone, minute: int)
    requires ValidZone(z) && Stable(z, minute) && ValidMinute(minute)
    ensures Orderly(z, Day(z), DueOn(z, minute))
  {
    var day, due := Day(z), DueOn(z, minute);
    forall k: nat, t, u | Together(z, k, t, u) ensures day(t) <= day(u) {
      DatesGrow(z, k, t, u);
    }
    DaysPass(z, minute);
    DaysLeaveNoneOut(z);
    forall d ensures day(due(d)) == d {
      DueIs(z, minute, d);
    }
  }

  lemma {:induction false} ScanNotBefore(z: Zone, naive: int, step: nat, t: Time)
    requires ValidZone(z) && ScanFrom(z, naive, step) == Ok(t)
    ensures Local(z, t) >= naive
    decreases 181 - step
  {
    if step <= 180 {
      if FromLocal(z, naive + step * MINUTE).Some? {
        FromLocalExact(z, naive + step * MINUTE, t);
      } else {
        ScanNotBefore(z, naive, step + 1, t);
      }
    }
  }

  /** A delivery is not before its time. */
  lemma DeliveryNotBefore(z: Zone, d: int, minute: int, t: Time)
    requires ValidZone(z) && DeliveryOn(z, d, minute) == Ok(t)
    ensures Local(z, t) >= d * DAY + minute * MINUTE
  {
    var naive := d * DAY + minute * MINUTE;
    FromLocalExact(z, naive, t);
    FromLocalExact(z, naive + HOUR, t);
    if FromLocal(z, naive).None? && FromLocal(z, naive + HOUR).None? {
      ScanNotBefore(z, naive, 1, t);
    }
  }

  lemma MidnightIs(z: Zone, k: nat, d: int, v: Time)
    requires ValidZone(z) && Enters(z, Day(z), k, d, v)
    ensures Local(z, v) == d * DAY
  {
    LocalIn(z, k, v - 1);
    LocalIn(z, k, v);
  }

  lemma DaysSharpness(z: Zone, minute: int)
    requires ValidZone(z) && Stable(z, minute) && ValidMinute(minute)
    ensures Sharpness(z, Day(z), DueOn(z, minute), minute == 0)
  {
    var day, due := Day(z), DueOn(z, minute);
    if minute == 0 {
      forall k: nat, t, u, d | Together(z, k, t, u) && day(t) < d <= day(u) ensures due(d) <= u {
        PassedIsDue(z, minute, k, t, u, d);
      }
    } else {
      forall k: nat, d, v | Enters(z, day, k, d, v) ensures due(d) != v {
        MidnightIs(z, k, d, v);
        DueIs(z, minute, d);
        DeliveryNotBefore(z, d, minute, due(d));
      }
    }
  }

  // ----- the schedule's clock -----

  function Numbers(f: Frequency): int -> int { d => NumberOf(f, d) }

  function TryNumbers(f: Frequency): int -> int { d => TryOf(f, d) }

  function Dates(f: Frequency): int -> int { j => NthDate(f, j) }

  function Entries(f: Frequency): int -> int { j => TriedFrom(f, j) }

  lemma Numberings(f: Frequency)
    ensures Numbering(Numbers(f), Dates(f), Dates(f)) && Numbering(TryNumbers(f), Dates(f), Entries(f))
  {
    forall d, j ensures ShownFrom(Numbers(f), Dates(f), d, j) && ShownFrom(TryNumbers(f), Entries(f), d, j) {
      NumberIs(f, d, j);
    }
    forall j ensures Falls(Dates(f), Dates(f), j) && Falls(Dates(f), Entries(f), j) {
      NumbersIncrease(f, j);
    }
  }

  /** The clock shows the number of the last delivery date up to the local date. */
  ghost predicate ShowsLast(z: Zone, f: Frequency, clock: Clock) { forall t :: clock(t) == NumberOf(f, Date(z, t)) }

  /** The clock shows the number of the date tried first. */
  ghost predicate ShowsTried(z: Zone, f: Frequency, clock: Clock) { forall t :: clock(t) == TryOf(f, Date(z, t)) }

  /** Delivery `j` of the schedule is due at `due(j)`. */
  predicate IsDueAt(z: Zone, f: Frequency, minute: int, due: Due, j: int) { DeliveryOn(z, NthDate(f, j), minute) == Ok(due(j)) }

  ghost predicate Times(z: Zone, f: Frequency, minute: int, due: Due) {
    Stable(z, minute) && forall j :: IsDueAt(z, f, minute, due, j)
  }

  lemma LastClock(z: Zone, f: Frequency) returns (clock: Clock)
    ensures ShowsLast(z, f, clock)
  {
    clock := t => NumberOf(f, Date(z, t));
  }

  lemma TriedClock(z: Zone, f: Frequency) returns (clock: Clock)
    ensures ShowsTried(z, f, clock)
  {
    clock := t => TryOf(f, Date(z, t));
  }

  lemma DueTimes(z: Zone, f: Frequency, minute: int) returns (due: Due)
    requires Stable(z, minute)
    ensures Times(z, f, minute, due)
  {
    due := j => DueOn(z, minute)(NthDate(f, j));
    forall j ensures IsDueAt(z, f, minute, due, j) {
      DueIs(z, minute, NthDate(f, j));
    }
  }

  lemma TimesAreChosen(z: Zone, f: Frequency, minute: int, due: Due)
    requires Times(z, f, minute, due)
    ensures Chooses(Dates(f), DueOn(z, minute), due)
  {
    forall j ensures due(j) == DueOn(z, minute)(Dates(f)(j)) {
      assert IsDueAt(z, f, minute, due, j);
      DueIs(z, minute, NthDate(f, j));
    }
  }

  lemma LastIsOrderly(z: Zone, f: Frequency, minute: int, clock: Clock, due: Due)
    requires ValidZone(z) && ValidMinute(minute) && Times(z, f, minute, due) && ShowsLast(z, f, clock)
    ensures Orderly(z, clock, due) && Sharpness(z, clock, due, minute == 0)
  {
    DaysAreOrderly(z, minute);
    DaysSharpness(z, minute);
    Numberings(f);
    TimesAreChosen(z, f, minute, due);
    assert Renumbers(Numbers(f), Day(z), clock);
    RenumberedIsOrderly(z, Day(z), DueOn(z, minute), Numbers(f), Dates(f), Dates(f), clock, due);
    if minute == 0 {
      RenumberedSharp(z, Day(z), DueOn(z, minute), Numbers(f), Dates(f), clock, due);
    } else {
      RenumberedNotSharp(z, Day(z), DueOn(z, minute), Numbers(f), Dates(f), clock, due);
    }
  }

  lemma TriedIsOrderly(z: Zone, f: Frequency, minute: int, clock: Clock, due: Due)
    requires ValidZone(z) && ValidMinute(minute) && Times(z, f, minute, due) && ShowsTried(z, f, clock)
    ensures Orderly(z, clock, due)
  {
    DaysAreOrderly(z, minute);
    Numberings(f);
    TimesAreChosen(z, f, minute, due);
    assert Renumbers(TryNumbers(f), Day(z), clock);
    RenumberedIsOrderly(z, Day(z), DueOn(z, minute), TryNumbers(f), Dates(f), Entries(f), clock, due);
  }

  // ----- what the schedule reports and offers -----

  lemma DueIsScheduled(z: Zone, f: Frequency, minute: int, due: Due, j: int)
    requires Times(z, f, minute, due)
    ensures IsScheduled(z, f, minute, due(j))
  {
    NthDateIsNumbered(f, j);
    assert IsDueAt(z, f, minute, due, j);
  }

  /** Every scheduled instant has its number. */
  lemma ScheduledIsDue(z: Zone, f: Frequency, minute: int, due: Due, t: Time) returns (j: int)
    requires Times(z, f, minute, due) && IsScheduled(z, f, minute, t)
    ensures due(j) == t
  {
    var d :| IsDeliveryDate(f, d) && DeliveryOn(z, d, minute) == Ok(t);
    j := NumberOf(f, d);
    DatesAreNumbered(f, d);
    assert IsDueAt(z, f, minute, due, j);
  }

  /** The scheduled instants up to `now` are at or before `t`. */
  ghost predicate NoneBetween(z: Zone, f: Frequency, minute: int, t: Time, now: Time) {
    forall u :: IsScheduled(z, f, minute, u) && u <= now ==> u <= t
  }

  /** `latest_delivery` is the most recent scheduled instant at or before `now`. */
  ghost predicate IsMostRecent(z: Zone, f: Frequency, minute: int, now: Time) {
    var latest := LatestOf(z, now, f, minute);
    latest.Ok? && latest.value <= now && IsScheduled(z, f, minute, latest.value) && NoneBetween(z, f, minute, latest.value, now)
  }

  lemma LatestValue(z: Zone, f: Frequency, minute: int, now: Time, c: int, p: int, a: Time, b: Time)
    requires Stable(z, minute) && c == DateUpTo(f, Date(z, now)) && p == DateUpTo(f, c - 1)
    requires DeliveryOn(z, c, minute) == Ok(a) && DeliveryOn(z, p, minute) == Ok(b)
    ensures LatestOf(z, now, f, minute) == Ok(if a <= now then a else b)
  {
    LatestIsOnLatestDate(z, now, f, minute);
  }

  lemma NeighbourDates(f: Frequency, d: int, j: int)
    requires j == NumberOf(f, d)
    ensures DateUpTo(f, d) == NthDate(f, j) && DateUpTo(f, NthDate(f, j) - 1) == NthDate(f, j - 1)
  {
    DatesAreNumbered(f, d);
    NthDateIsNumbered(f, j);
  }

  lemma LatestIsNumbered(z: Zone, f: Frequency, minute: int, now: Time, clock: Clock, due: Due)
    requires Times(z, f, minute, due) && clock(now) == NumberOf(f, Date(z, now))
    ensures LatestOf(z, now, f, minute) == Ok(due(Latest(clock, due, now)))
  {
    var j := clock(now);
    NeighbourDates(f, Date(z, now), j);
    assert IsDueAt(z, f, minute, due, j) && IsDueAt(z, f, minute, due, j - 1);
    LatestValue(z, f, minute, now, NthDate(f, j), NthDate(f, j - 1), due(j), due(j - 1));
  }

  lemma NoneBetweenIs(z: Zone, f: Frequency, minute: int, due: Due, l: int, now: Time)
    requires Times(z, f, minute, due)
    ensures NoneBetween(z, f, minute, due(l), now) <==> forall i :: due(i) <= now ==> due(i) <= due(l)
  {
    if forall i :: due(i) <= now ==> due(i) <= due(l) {
      forall t | IsScheduled(z, f, minute, t) && t <= now ensures t <= due(l) {
        var j := ScheduledIsDue(z, f, minute, due, t);
      }
    }
    if NoneBetween(z, f, minute, due(l), now) {
      forall i | due(i) <= now ensures due(i) <= due(l) {
        DueIsScheduled(z, f, minute, due, i);
      }
    }
  }

  lemma MostRecentIsLast(z: Zone, f: Frequency, minute: int, now: Time, clock: Clock, due: Due)
    requires Times(z, f, minute, due) && clock(now) == NumberOf(f, Date(z, now))
    ensures IsMostRecent(z, f, minute, now) <==> IsLast(due, Latest(clock, due, now), now)
  {
    var l := Latest(clock, due, now);
    LatestIsNumbered(z, f, minute, now, clock, due);
    DueIsScheduled(z, f, minute, due, l);
    NoneBetweenIs(z, f, minute, due, l, now);
  }

  lemma AlwaysMostRecent(z: Zone, f: Frequency, minute: int, clock: Clock, due: Due)
    requires Times(z, f, minute, due) && ShowsLast(z, f, clock)
    ensures (forall now :: IsMostRecent(z, f, minute, now)) <==> AlwaysLast(clock, due)
  {
    forall now ensures IsMostRecent(z, f, minute, now) <==> IsLast(due, Latest(clock, due, now), now) {
      MostRecentIsLast(z, f, minute, now, clock, due);
    }
  }

  lemma LatestOver(z: Zone, f: Frequency, minute: int, clock: Clock, due: Due)
    requires ValidZone(z) && ValidMinute(minute) && Times(z, f, minute, due) && ShowsLast(z, f, clock)
    ensures (forall now :: IsMostRecent(z, f, minute, now)) <==> KeptInTurn(z, clock, due, minute == 0)
  {
    LastIsOrderly(z, f, minute, clock, due);
    LatestExactly(z, clock, due, minute == 0);
    AlwaysMostRecent(z, f, minute, clock, due);
  }

  /** For zones in which every date has its delivery on that date, at every cadence: `latest_delivery` is
      the most recent delivery, for every `now`, exactly when every change keeps what is reported, or comes
      as a delivery is due, and between changes the deliveries come in turn. */
  lemma LatestIsGreatestExactly(z: Zone, f: Frequency, minute: int) returns (clock: Clock, due: Due)
    requires ValidZone(z) && ValidMinute(minute) && Stable(z, minute)
    ensures ShowsLast(z, f, clock) && Times(z, f, minute, due)
    ensures (forall now :: IsMostRecent(z, f, minute, now)) <==> KeptInTurn(z, clock, due, minute == 0)
  {
    clock := LastClock(z, f);
    due := DueTimes(z, f, minute);
    LatestOver(z, f, minute, clock, due);
  }

  /** The scheduled instants after `now` are at or after `t`. */
  ghost predicate NoneSooner(z: Zone, f: Frequency, minute: int, t: Time, now: Time) {
    forall u :: IsScheduled(z, f, minute, u) && u > now ==> u >= t
  }

  /** `next_delivery` is the first scheduled instant strictly after `now`. */
  ghost predicate IsFirstToCome(z: Zone, f: Frequency, minute: int, now: Time) {
    var next := NextOf(z, now, f, minute);
    next.Ok? && next.value > now && IsScheduled(z, f, minute, next.value) && NoneSooner(z, f, minute, next.value, now)
  }

  lemma NextValue(z: Zone, f: Frequency, minute: int, now: Time, b: int, e: int, s: Time, t: Time)
    requires Stable(z, minute) && b == FirstTry(f, Date(z, now)) && e == DateAfter(f, b)
    requires DeliveryOn(z, b, minute) == Ok(s) && DeliveryOn(z, e, minute) == Ok(t)
    ensures NextOf(z, now, f, minute) == Ok(if s > now then s else t)
  {
    NextIsOffered(z, now, f, minute);
  }

  lemma TriedDates(f: Frequency, d: int, j: int)
    requires j == TryOf(f, d)
    ensures FirstTry(f, d) == NthDate(f, j) && DateAfter(f, NthDate(f, j)) == NthDate(f, j + 1)
  {
    DatesAreNumbered(f, d);
    NthDateIsNumbered(f, j);
  }

  lemma NextIsNumbered(z: Zone, f: Frequency, minute: int, now: Time, clock: Clock, due: Due)
    requires Times(z, f, minute, due) && clock(now) == TryOf(f, Date(z, now))
    ensures NextOf(z, now, f, minute) == Ok(due(Next(clock, due, now)))
  {
    var j := clock(now);
    TriedDates(f, Date(z, now), j);
    assert IsDueAt(z, f, minute, due, j) && IsDueAt(z, f, minute, due, j + 1);
    NextValue(z, f, minute, now, NthDate(f, j), NthDate(f, j + 1), due(j), due(j + 1));
  }

  lemma NoneSoonerIs(z: Zone, f: Frequency, minute: int, due: Due, n: int, now: Time)
    requires Times(z, f, minute, due)
    ensures NoneSooner(z, f, minute, due(n), now) <==> forall i :: due(i) > now ==> due(i) >= due(n)
  {
    if forall i :: due(i) > now ==> due(i) >= due(n) {
      forall t | IsScheduled(z, f, minute, t) && t > now ensures t >= due(n) {
        var j := ScheduledIsDue(z, f, minute, due, t);
      }
    }
    if NoneSooner(z, f, minute, due(n), now) {
      forall i | due(i) > now ensures due(i) >= due(n) {
        DueIsScheduled(z, f, minute, due, i);
      }
    }
  }

  lemma FirstToComeIsFirst(z: Zone, f: Frequency, minute: int, now: Time, clock: Clock, due: Due)
    requires Times(z, f, minute, due) && clock(now) == TryOf(f, Date(z, now))
    ensures IsFirstToCome(z, f, minute, now) <==> IsFirst(due, Next(clock, due, now), now)
  {
    var n := Next(clock, due, now);
    NextIsNumbered(z, f, minute, now, clock, due);
    DueIsScheduled(z, f, minute, due, n);
    NoneSoonerIs(z, f, minute, due, n, now);
  }

  lemma AlwaysFirstToCome(z: Zone, f: Frequency, minute: int, clock: Clock, due: Due)
    requires Times(z, f, minute, due) && ShowsTried(z, f, clock)
    ensures (forall now :: IsFirstToCome(z, f, minute, now)) <==> AlwaysFirst(clock, due)
  {
    forall now ensures IsFirstToCome(z, f, minute, now) <==> IsFirst(due, Next(clock, due, now), now) {
      FirstToComeIsFirst(z, f, minute, now, clock, due);
    }
  }

  lemma NextOver(z: Zone, f: Frequency, minute: int, clock: Clock, due: Due)
    requires ValidZone(z) && ValidMinute(minute) && Times(z, f, minute, due) && ShowsTried(z, f, clock)
    ensures (forall now :: IsFirstToCome(z, f, minute, now)) <==> KeptAhead(z, clock, due)
  {
    TriedIsOrderly(z, f, minute, clock, due);
    NextExactly(z, clock, due);
    AlwaysFirstToCome(z, f, minute, clock, due);
  }

  /** And `next_delivery` is the first delivery to come, for every `now`, exactly when every change keeps
      what is offered, or comes as that is due, and what is offered between changes is still ahead. */
  lemma NextIsFirstExactly(z: Zone, f: Frequency, minute: int) returns (clock: Clock, due: Due)
    requires ValidZone(z) && ValidMinute(minute) && Stable(z, minute)
    ensures ShowsTried(z, f, clock) && Times(z, f, minute, due)
    ensures (forall now :: IsFirstToCome(z, f, minute, now)) <==> KeptAhead(z, clock, due)
  {
    clock := TriedClock(z, f);
    due := DueTimes(z, f, minute);
    NextOver(z, f, minute, clock, due);
  }

  /** In the zone that falls back from 00:30 to 23:30, a reading taken after that reports the delivery of
      the day before, although another has gone out since. */
  lemma LatestMayBeMissed()
    ensures ValidZone(FALLS_BACK) && ValidMinute(10)
    ensures LatestOf(FALLS_BACK, DAY + 35 * MINUTE, Daily, 10) == Ok(10 * MINUTE)
    ensures IsScheduled(FALLS_BACK, Daily, 10, DAY + 10 * MINUTE)
  {
    var z, now := FALLS_BACK, DAY + 35 * MINUTE;
    FallsBack();
    assert InSegment(z, 1, now);
    LocalIn(z, 1, now);
    assert Date(z, now) == 0;
    assert IsDeliveryDate(Daily, 1) && DeliveryOn(z, 1, 10) == Ok(DAY + 10 * MINUTE);
  }
}
