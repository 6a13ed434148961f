/** Exactly which zones let an interactive period contain the moment it is asked for.

    A date starts at its midnight, and where the clock skips that midnight, at the end of the gap. The
    code does not look for the end of the gap: it tries the midnight, an hour after it, and then every
    minute of three hours. The period is right when that arrives at the end of the gap. */
module InteractivePeriods {
  import opened Base
  import opened Calendar
  import opened Zones
  import opened Schedule
  import opened Periods

  function Midnight(d: int): int { d * DAY }

  function MinutesAfter(naive: int, k: int): int { naive + k * MINUTE }

  /** What the clock shows when change `i` has taken place. */
  function GapEnd(z: Zone, i: nat): int
    requires i < |z.changes|
  {
    z.changes[i].at + Offset(z, i + 1)
  }

  /** Of the times the code tries from `naive` on, the first that is ever shown is `end`: an hour
      later, or `k` minutes later for some `k` up to 180. */
  ghost predicate TriesReach(z: Zone, naive: int, end: int) {
    && FromLocal(z, naive).None?
    && (end == naive + HOUR || (FromLocal(z, naive + HOUR).None? && exists k :: FirstShown(z, naive, k) && end == MinutesAfter(naive, k)))
  }

  ghost predicate FirstShown(z: Zone, naive: int, k: int) {
    1 <= k <= 180 && forall j :: 1 <= j < k ==> FromLocal(z, MinutesAfter(naive, j)).None?
  }

  /** Wherever the clock skips a midnight, the times tried from it on arrive at the end of the gap. */
  ghost predicate MidnightsReachGapEnds(z: Zone) {
    forall i, d :: 0 <= i < |z.changes| && Skips(z, i, Midnight(d)) ==> TriesReach(z, Midnight(d), GapEnd(z, i))
  }

  // ----- the scan -----

  lemma {:induction false} ScanReaches(z: Zone, naive: int, step: nat, k: nat, t: Time)
    requires 1 <= step <= k && FirstShown(z, naive, k) && FromLocal(z, MinutesAfter(naive, k)) == Some(t)
    ensures ScanFrom(z, naive, step) == Ok(t)
    decreases k - step
  {
    if step < k {
      assert FromLocal(z, MinutesAfter(naive, step)).None?;
      ScanReaches(z, naive, step + 1, k, t);
    }
  }

  lemma {:induction false} ScanReached(z: Zone, naive: int, step: nat, t: Time) returns (k: nat)
    requires 1 <= step && ScanFrom(z, naive, step) == Ok(t) && forall j :: 1 <= j < step ==> FromLocal(z, MinutesAfter(naive, j)).None?
    ensures FirstShown(z, naive, k) && FromLocal(z, MinutesAfter(naive, k)) == Some(t)
    decreases 181 - step
  {
    if FromLocal(z, MinutesAfter(naive, step)).Some? {
      k := step;
    } else {
      k := ScanReached(z, naive, step + 1, t);
    }
  }

  // ----- a skipped midnight -----

  /** Before the gap it is an earlier date. */
  lemma EarlierBeforeGap(z: Zone, i: nat, d: int, t: Time)
    requires ValidZone(z) && DatesForward(z) && i < |z.changes| && Skips(z, i, Midnight(d)) && t < z.changes[i].at
    ensures Date(z, t) < d && Local(z, t) < Midnight(d)
  {
    LocalAtChange(z, i);
    assert Date(z, t) <= Date(z, z.changes[i].at - 1);
    assert Local(z, z.changes[i].at - 1) < Midnight(d);
  }

  /** The end of the gap is first shown when the gap ends. */
  lemma GapEndShown(z: Zone, i: nat, d: int)
    requires ValidZone(z) && DatesForward(z) && i < |z.changes| && Skips(z, i, Midnight(d))
    ensures Local(z, z.changes[i].at) == GapEnd(z, i) && FromLocal(z, GapEnd(z, i)) == Some(z.changes[i].at)
  {
    LocalAtChange(z, i);
    var b := GapEnd(z, i);
    FromLocalExact(z, b, z.changes[i].at);
    var t := FromLocal(z, b).value;
    FromLocalExact(z, b, t);
    if t < z.changes[i].at {
      EarlierBeforeGap(z, i, d, t);
    }
  }

  /** The date starts at the end of the gap exactly when the tries reach it. */
  lemma StartsAtGapEndExactly(z: Zone, i: nat, d: int)
    requires ValidZone(z) && DatesForward(z) && i < |z.changes| && Skips(z, i, Midnight(d))
    ensures DateStart(z, d) == Ok(z.changes[i].at) <==> TriesReach(z, Midnight(d), GapEnd(z, i))
  {
    var m, b, at := Midnight(d), GapEnd(z, i), z.changes[i].at;
    GapEndShown(z, i, d);
    assert DateStart(z, d) == Resolve(z, m);
    if TriesReach(z, m, b) && b != m + HOUR {
      var k :| FirstShown(z, m, k) && b == MinutesAfter(m, k);
      ScanReaches(z, m, 1, k, at);
    }
    if DateStart(z, d) == Ok(at) {
      FromLocalExact(z, m, at);
      FromLocalExact(z, m + HOUR, at);
      if FromLocal(z, m).None? && FromLocal(z, m + HOUR).None? {
        var k := ScanReached(z, m, 1, at);
        FromLocalExact(z, MinutesAfter(m, k), at);
      }
    }
  }

  // ----- the start of a date -----

  lemma StartWhenShown(z: Zone, d: int, u: Time)
    requires ValidZone(z) && Local(z, u) == Midnight(d)
    ensures DateStart(z, d).Ok? && Date(z, DateStart(z, d).value) == d && DateStart(z, d).value <= u
  {
    FromLocalExact(z, Midnight(d), u);
    FromLocalExact(z, Midnight(d), FromLocal(z, Midnight(d)).value);
    assert DateStart(z, d) == Resolve(z, Midnight(d));
    DateOfLocal(d, 0);
  }

  lemma StartWhenSkipped(z: Zone, i: nat, d: int)
    requires ValidZone(z) && DatesForward(z) && i < |z.changes| && Skips(z, i, Midnight(d)) && TriesReach(z, Midnight(d), GapEnd(z, i))
    ensures DateStart(z, d) == Ok(z.changes[i].at) && Date(z, z.changes[i].at) == d
  {
    StartsAtGapEndExactly(z, i, d);
    LocalAtChange(z, i);
    var rest := GapEnd(z, i) - Midnight(d);
    assert 0 <= rest <= 180 * MINUTE;
    DateOfLocal(d, rest);
  }

  /** The start of a date is resolved, falls on the date, and comes no later than anything on it. */
  lemma DateStartIsFirst(z: Zone, d: int, t: Time)
    requires ValidZone(z) && DatesForward(z) && MidnightsReachGapEnds(z) && Local(z, t) >= Midnight(d)
    ensures DateStart(z, d).Ok? && Date(z, DateStart(z, d).value) == d && DateStart(z, d).value <= t
  {
    SegmentIsUnique(z, t, SegmentOf(z, t));
    var shown, u, i := ShownOrSkipped(z, Midnight(d), t, SegmentOf(z, t));
    if shown {
      StartWhenShown(z, d, u);
    } else {
      StartWhenSkipped(z, i, d);
    }
  }

  lemma MidnightsAreRegular(z: Zone)
    requires ValidZone(z) && DatesForward(z) && MidnightsReachGapEnds(z)
    ensures Regular(z, 0)
  {
    forall d ensures DeliveryOn(z, d, 0).Ok? && Date(z, DeliveryOn(z, d, 0).value) == d {
      var t := Reached(z, Midnight(d));
      SegmentIsUnique(z, t, |z.changes|);
      DateStartIsFirst(z, d, t);
    }
  }

  lemma LocalPastMidnight(z: Zone, d: int, t: Time)
    requires d <= Date(z, t)
    ensures Midnight(d) <= Local(z, t)
  {
  }

  // ----- the exact condition -----

  /** The period of an interactive command contains the moment it is asked for. */
  ghost predicate ContainsNow(z: Zone, f: Frequency, now: Time) {
    InteractivePeriod(z, f, now).Ok? && Covers(InteractivePeriod(z, f, now).value, now)
  }

  lemma ContainsNowWhenReached(z: Zone, f: Frequency, now: Time)
    requires ValidZone(z) && DatesForward(z) && MidnightsReachGapEnds(z)
    ensures ContainsNow(z, f, now)
  {
    MidnightsAreRegular(z);
    var today := Date(z, now);
    var c := DateUpTo(f, today);
    assert c <= today < DateAfter(f, today) by {
      DateUpToIsLast(f, today, today);
      DateAfterIsFirst(f, today, today);
    }
    LocalPastMidnight(z, c, now);
    DateStartIsFirst(z, c, now);
    DeliveriesFollowDates(z, 0, today + 1, now);
    DeliveriesFollowDates(z, 0, DateAfter(f, today), now);
    InteractivePeriodIs(z, f, now);
  }

  /** The start of a date, if there is one, shows a time of its first three hours. */
  lemma StartIsOnDate(z: Zone, d: int)
    requires ValidZone(z) && DateStart(z, d).Ok?
    ensures Date(z, DateStart(z, d).value) == d
  {
    var m, t := Midnight(d), DateStart(z, d).value;
    assert DateStart(z, d) == Resolve(z, m);
    FromLocalExact(z, m, t);
    FromLocalExact(z, m + HOUR, t);
    if FromLocal(z, m).None? && FromLocal(z, m + HOUR).None? {
      var k := ScanReached(z, m, 1, t);
      FromLocalExact(z, MinutesAfter(m, k), t);
      DateOfLocal(d, k * MINUTE);
    } else {
      DateOfLocal(d, 0);
      DateOfLocal(d, HOUR);
    }
  }

  /** If today's period always contains now, the date after the one before a gap starts at its end. */
  lemma FirstSkippedStarts(z: Zone, i: nat, d: int)
    requires ValidZone(z) && DatesForward(z) && i < |z.changes| && Skips(z, i, Midnight(d)) && Date(z, z.changes[i].at - 1) == d - 1
    requires ContainsNow(z, Daily, z.changes[i].at - 1) && ContainsNow(z, Daily, z.changes[i].at)
    ensures DateStart(z, d) == Ok(z.changes[i].at) && Date(z, z.changes[i].at) == d
  {
    var at := z.changes[i].at;
    assert DateStart(z, d).Ok?;
    var t := DateStart(z, d).value;
    StartIsOnDate(z, d);
    if t < at {
      EarlierBeforeGap(z, i, d, t);
    }
    assert at <= t;
    LocalAtChange(z, i);
    DivideMonotone(Midnight(d), Local(z, at));
    DateOfLocal(d, 0);
    assert d <= Date(z, at) <= Date(z, t);
  }

  lemma SkippedStarts(z: Zone, i: nat, d: int)
    requires ValidZone(z) && DatesForward(z) && i < |z.changes| && Skips(z, i, Midnight(d))
    requires ContainsNow(z, Daily, z.changes[i].at - 1) && ContainsNow(z, Daily, z.changes[i].at)
    ensures DateStart(z, d) == Ok(z.changes[i].at)
  {
    var at := z.changes[i].at;
    var first := Date(z, at - 1) + 1;
    FirstSkipped(z, i, d);
    FirstSkippedStarts(z, i, first);
  }

  /** The first midnight a gap skips is the one after the date before it. */
  lemma FirstSkipped(z: Zone, i: nat, d: int)
    requires ValidZone(z) && DatesForward(z) && i < |z.changes| && Skips(z, i, Midnight(d))
    ensures Skips(z, i, Midnight(Date(z, z.changes[i].at - 1) + 1))
    ensures Date(z, z.changes[i].at - 1) + 1 <= d <= Date(z, z.changes[i].at)
  {
    LocalAtChange(z, i);
    EarlierBeforeGap(z, i, d, z.changes[i].at - 1);
    DivideMonotone(Midnight(d), Local(z, z.changes[i].at));
    DateOfLocal(d, 0);
  }

  /** For zones whose dates run forward: every interactive period contains the moment it is asked for,
      exactly when the times tried from a skipped midnight on arrive at the end of the gap. */
  lemma ContainsNowExactly(z: Zone)
    requires ValidZone(z) && NoBackwardMidnight(z)
    ensures (forall f, now :: ContainsNow(z, f, now)) <==> MidnightsReachGapEnds(z)
  {
    DatesForwardExactly(z);
    if MidnightsReachGapEnds(z) {
      forall f, now ensures ContainsNow(z, f, now) {
        ContainsNowWhenReached(z, f, now);
      }
    }
    if forall f, now :: ContainsNow(z, f, now) {
      forall i, d | 0 <= i < |z.changes| && Skips(z, i, Midnight(d)) ensures TriesReach(z, Midnight(d), GapEnd(z, i)) {
        SkippedStarts(z, i, d);
        StartsAtGapEndExactly(z, i, d);
      }
    }
  }

  // ----- particular gaps -----

  /** Where a gap's times are not shown at another time, and an hour after the midnight is shown if it
      is not in the gap, the tries reach the gap's end exactly when it lies a whole number of minutes,
      60 to 180, after the midnight. */
  lemma WholeMinutesReach(z: Zone, i: nat, d: int)
    requires i < |z.changes| && Skips(z, i, Midnight(d))
    requires forall n :: Midnight(d) <= n < GapEnd(z, i) ==> FromLocal(z, n).None?
    requires Midnight(d) + HOUR >= GapEnd(z, i) ==> FromLocal(z, Midnight(d) + HOUR).Some?
    ensures var gap := GapEnd(z, i) - Midnight(d);
      TriesReach(z, Midnight(d), GapEnd(z, i)) <==> gap % MINUTE == 0 && HOUR <= gap <= 180 * MINUTE
  {
    var m, b := Midnight(d), GapEnd(z, i);
    if (b - m) % MINUTE == 0 && HOUR < b - m <= 180 * MINUTE {
      var k := (b - m) / MINUTE;
      assert b == MinutesAfter(m, k) && FirstShown(z, m, k);
    }
  }

  /** A change that skips a midnight starts at it, lasts an hour, and the midnight is not shown at
      any other time either. */
  ghost predicate MidnightGapsExact(z: Zone) {
    forall i, d :: 0 <= i < |z.changes| && Skips(z, i, Midnight(d)) ==>
      && z.changes[i].at + Offset(z, i) == Midnight(d)
      && Offset(z, i + 1) - Offset(z, i) == HOUR
      && FromLocal(z, Midnight(d)).None?
  }

  /** With such gaps only, the period of an interactive command contains the moment it is asked for. */
  lemma InteractivePeriodContainsNow(z: Zone, f: Frequency, now: Time)
    requires ValidZone(z) && NoBackwardMidnight(z) && MidnightGapsExact(z)
    ensures InteractivePeriod(z, f, now).Ok? && Covers(InteractivePeriod(z, f, now).value, now)
  {
    DatesForwardExactly(z);
    ContainsNowWhenReached(z, f, now);
  }

  /** The clock jumps from 23:30 to 00:30, and back from 01:00 to 00:00 half an hour later. */
  const LATE_MIDNIGHT := Zone(0, [Change(DAY - 30 * MINUTE, HOUR), Change(DAY, 0)])

  /** There midnight comes after the date has begun, and a command given in between reports a day that
      has not started. */
  lemma TodayMayStartLater()
    ensures ValidZone(LATE_MIDNIGHT) && NoBackwardMidnight(LATE_MIDNIGHT) && !MidnightsReachGapEnds(LATE_MIDNIGHT)
    ensures Today(LATE_MIDNIGHT, DAY - 15 * MINUTE) == Ok(Period(DAY, 2 * DAY))
  {
    var z, now := LATE_MIDNIGHT, DAY - 15 * MINUTE;
    assert Offset(z, 0) == 0 && Offset(z, 1) == HOUR && Offset(z, 2) == 0;
    assert FromLocal(z, DAY) == Some(DAY) by {
      assert FromLocalIn(z, DAY, 2) == Some(DAY);
      assert FromLocalIn(z, DAY, 1) == Some(DAY);
    }
    assert FromLocal(z, 2 * DAY) == Some(2 * DAY) by {
      assert FromLocalIn(z, 2 * DAY, 2) == Some(2 * DAY);
      assert FromLocalIn(z, 2 * DAY, 1) == Some(2 * DAY);
    }
    assert !MidnightsReachGapEnds(z) by {
      assert Skips(z, 0, Midnight(1)) && !TriesReach(z, Midnight(1), GapEnd(z, 0));
    }
    SegmentIsUnique(z, now, 1);
    assert DateStart(z, 1) == Ok(DAY) && DateStart(z, 2) == Ok(2 * DAY);
    assert Date(z, now) == 1;
  }
}
