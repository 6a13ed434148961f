/** Exactly which zones keep `next_delivery` after `now`.

    Where every date has its delivery, the only trouble is a clock that goes back: a reading taken
    afterwards may be offered a delivery that has already gone by. */
module ScheduleExact {
  import opened Base
  import opened Calendar
  import opened Zones
  import opened Schedule

  /** The date whose delivery is tried first on date `d`. */
  function FirstTry(f: Frequency, d: int): int {
    match f
    case Daily => d
    case Weekly => if Weekday(d) == 0 then d else d + 7 - Weekday(d)
    case Monthly => DateUpTo(Monthly, d)
  }

  lemma FirstTryIs(f: Frequency, d: int)
    ensures IsDeliveryDate(f, FirstTry(f, d))
    ensures IsDeliveryDate(f, d) ==> FirstTry(f, d) == d
  {
    DateUpToIsLast(f, d, d);
  }

  lemma FirstTryGrows(f: Frequency, d: int, e: int)
    requires d <= e
    ensures FirstTry(f, d) <= FirstTry(f, e)
  {
    if f.Monthly? {
      DateUpToIsLast(f, d, d);
      DateUpToIsLast(f, e, DateUpTo(f, d));
    } else if f.Weekly? && FirstTry(f, e) < FirstTry(f, d) {
      DateAfterIsFirst(f, e, FirstTry(f, d));
    }
  }

  /** The delivery date before a delivery date. */
  lemma PreviousDate(f: Frequency, c: int)
    requires IsDeliveryDate(f, c)
    ensures var p := DateUpTo(f, c - 1); IsDeliveryDate(f, p) && p < c && DateAfter(f, p) == c
  {
    var p := DateUpTo(f, c - 1);
    DateUpToIsLast(f, c - 1, c);
    DateAfterIsFirst(f, p, c);
    DateUpToIsLast(f, c - 1, DateAfter(f, p));
  }

  /** What the code offers: the first try, or else the delivery date after it. */
  function Offered(z: Zone, now: Time, f: Frequency, minute: int): Result<Time, ScheduleError> {
    var b := FirstTry(f, Date(z, now));
    FirstAfter(DeliveryOn(z, b, minute), DeliveryOn(z, DateAfter(f, b), minute), now)
  }

  lemma WeeklyOffer(z: Zone, now: Time, minute: int)
    requires Stable(z, minute)
    ensures NextOf(z, now, Weekly, minute) == Offered(z, now, Weekly, minute)
  {
    var d := Date(z, now);
    var b := FirstTry(Weekly, d);
    assert Date(z, DeliveryOn(z, d, minute).value) == d && Date(z, DeliveryOn(z, b, minute).value) == b && Weekday(b) == 0;
  }

  lemma MonthlyShape(z: Zone, now: Time, minute: int)
    requires DeliveryOn(z, Date(z, now), minute).Ok?
    ensures var m := MonthOf(Date(z, now));
      NextOf(z, now, Monthly, minute) == FirstAfter(DeliveryOn(z, FirstDay(m), minute), DeliveryOn(z, FirstDay(m + 1), minute), now)
  {
  }

  lemma MonthlyDates(d: int)
    ensures FirstTry(Monthly, d) == FirstDay(MonthOf(d)) && DateAfter(Monthly, FirstTry(Monthly, d)) == FirstDay(MonthOf(d) + 1)
  {
    FirstDayIsInMonth(MonthOf(d));
  }

  lemma NextIsOffered(z: Zone, now: Time, f: Frequency, minute: int)
    requires Stable(z, minute)
    ensures NextOf(z, now, f, minute) == Offered(z, now, f, minute)
  {
    match f
    case Daily => assert Date(z, DeliveryOn(z, Date(z, now), minute).value) == Date(z, now);
    case Weekly => WeeklyOffer(z, now, minute);
    case Monthly =>
      MonthlyShape(z, now, minute);
      MonthlyDates(Date(z, now));
  }

  // ----- clocks that go back -----

  function TryAt(z: Zone, f: Frequency, t: Time): int { FirstTry(f, Date(z, t)) }

  lemma SameSegmentTries(z: Zone, f: Frequency, t: Time, u: Time, k: nat)
    requires ValidZone(z) && t <= u && InSegment(z, k, t) && InSegment(z, k, u)
    ensures TryAt(z, f, t) <= TryAt(z, f, u)
  {
    SegmentIsUnique(z, t, k);
    SegmentIsUnique(z, u, k);
    DivideMonotone(Local(z, t), Local(z, u));
    FirstTryGrows(f, Date(z, t), Date(z, u));
  }

  ghost predicate GrowsInSegments(z: Zone, g: Time -> int) {
    forall k: nat, t, u :: t <= u && InSegment(z, k, t) && InSegment(z, k, u) ==> g(t) <= g(u)
  }

  /** What grows within each segment, and drops below `b` between two instants, drops at a change. */
  lemma {:induction false} DropsAtChange(z: Zone, g: Time -> int, t: Time, u: Time, b: int, k: nat) returns (i: nat)
    requires ValidZone(z) && GrowsInSegments(z, g) && t <= u && InSegment(z, k, u) && g(u) <= b < g(t)
    ensures i < |z.changes| && t < z.changes[i].at <= u && g(z.changes[i].at) <= b < g(z.changes[i].at - 1)
    decreases k
  {
    if k > 0 && t < z.changes[k - 1].at {
      var s := z.changes[k - 1].at;
      assert InSegment(z, k, s) && InSegment(z, k - 1, s - 1);
      if b < g(s - 1) {
        i := k - 1;
      } else {
        i := DropsAtChange(z, g, t, s - 1, b, k - 1);
      }
    } else {
      assert InSegment(z, k, t);
      assert false;
    }
  }

  function Tries(z: Zone, f: Frequency): Time -> int { x => TryAt(z, f, x) }

  lemma TriesGrow(z: Zone, f: Frequency)
    requires ValidZone(z)
    ensures GrowsInSegments(z, Tries(z, f))
  {
    forall k: nat, x, y | x <= y && InSegment(z, k, x) && InSegment(z, k, y) ensures Tries(z, f)(x) <= Tries(z, f)(y) {
      SameSegmentTries(z, f, x, y, k);
    }
  }

  /** When the date tried first drops below `b` between two instants, some change takes it there. */
  lemma Dropped(z: Zone, f: Frequency, t: Time, u: Time, b: int) returns (i: nat)
    requires ValidZone(z) && t <= u && TryAt(z, f, u) <= b < TryAt(z, f, t)
    ensures i < |z.changes| && t < z.changes[i].at <= u
    ensures TryAt(z, f, z.changes[i].at) <= b < TryAt(z, f, z.changes[i].at - 1)
  {
    var g := Tries(z, f);
    assert GrowsInSegments(z, g) by {
      TriesGrow(z, f);
    }
    var k := SegmentOf(z, u);
    assert InSegment(z, k, u) by {
      SegmentIsUnique(z, u, k);
    }
    i := DropsAtChange(z, g, t, u, b, k);
    var at := z.changes[i].at;
    assert g(at) == TryAt(z, f, at) && g(at - 1) == TryAt(z, f, at - 1);
  }

  /** No change takes the clock back past a delivery that it would offer again: where the date tried
      first drops to `b` or below, the delivery after `b` is still to come. */
  ghost predicate NoneTakenBack(z: Zone, f: Frequency, minute: int) {
    forall i, b :: 0 <= i < |z.changes| && IsDeliveryDate(f, b) ==> ToCome(z, f, minute, i, b)
  }

  ghost predicate ToCome(z: Zone, f: Frequency, minute: int, i: nat, b: int)
    requires i < |z.changes|
  {
    var at := z.changes[i].at;
    TryAt(z, f, at) <= b < TryAt(z, f, at - 1) ==>
      DeliveryOn(z, DateAfter(f, b), minute).Ok? && DeliveryOn(z, DateAfter(f, b), minute).value >= at
  }

  /** A delivery gone by, whose date is ahead of the present one again, has been taken back. */
  lemma GoneByIsTakenBack(z: Zone, f: Frequency, minute: int, b: int, t: Time, now: Time)
    requires ValidZone(z) && IsDeliveryDate(f, b) && DeliveryOn(z, DateAfter(f, b), minute) == Ok(t)
    requires t <= now && TryAt(z, f, now) <= b < TryAt(z, f, t)
    ensures !NoneTakenBack(z, f, minute)
  {
    var i := Dropped(z, f, t, now, b);
    assert !ToCome(z, f, minute, i, b);
  }

  lemma AfterNow(z: Zone, now: Time, f: Frequency, minute: int)
    requires ValidZone(z) && Stable(z, minute) && NoneTakenBack(z, f, minute)
    ensures NextOf(z, now, f, minute).Ok? && NextOf(z, now, f, minute).value > now
  {
    NextIsOffered(z, now, f, minute);
    var b := TryAt(z, f, now);
    var e := DateAfter(f, b);
    var t := DeliveryOn(z, e, minute).value;
    assert IsDeliveryDate(f, b) && b < e && TryAt(z, f, t) == e by {
      FirstTryIs(f, Date(z, now));
      DateAfterIsFirst(f, b, e);
      FirstTryIs(f, e);
    }
    if t <= now {
      GoneByIsTakenBack(z, f, minute, b, t, now);
    }
  }

  /** Down the delivery dates from `b`, to the first one whose own delivery is not yet past at `at`. */
  lemma {:induction false} WalkDown(z: Zone, f: Frequency, minute: int, at: Time, b0: int, b: int) returns (c: int)
    requires Stable(z, minute) && IsDeliveryDate(f, b0) && IsDeliveryDate(f, b) && b0 <= b
    requires DeliveryOn(z, DateAfter(f, b), minute).value < at
    ensures IsDeliveryDate(f, c) && b0 <= c && DeliveryOn(z, DateAfter(f, c), minute).value < at
    ensures c == b0 || DeliveryOn(z, c, minute).value >= at
    decreases b - b0
  {
    c := b;
    if b != b0 && DeliveryOn(z, b, minute).value < at {
      PreviousDate(f, b);
      DateUpToIsLast(f, b - 1, b0);
      c := WalkDown(z, f, minute, at, b0, DateUpTo(f, b - 1));
    }
  }

  /** A delivery taken back is offered again, to some reading, when it has gone by. */
  lemma TakenBackIsOffered(z: Zone, f: Frequency, minute: int, i: nat, b: int) returns (now: Time)
    requires Stable(z, minute) && i < |z.changes| && IsDeliveryDate(f, b) && !ToCome(z, f, minute, i, b)
    ensures NextOf(z, now, f, minute).Ok? && NextOf(z, now, f, minute).value <= now
  {
    var at := z.changes[i].at;
    FirstTryIs(f, Date(z, at));
    var c := WalkDown(z, f, minute, at, TryAt(z, f, at), b);
    var t := DeliveryOn(z, c, minute).value;
    now := if t >= at then t else at;
    assert Date(z, t) == c;
    FirstTryIs(f, c);
    NextIsOffered(z, now, f, minute);
  }

  /** For zones in which every date has its delivery on that date, at every cadence: `next_delivery`
      lies after `now` for every `now`, exactly when no change takes the clock back past a delivery
      it would offer again. */
  lemma NextIsAfterNowExactly(z: Zone, f: Frequency, minute: int)
    requires ValidZone(z) && Stable(z, minute)
    ensures (forall now :: NextOf(z, now, f, minute).Ok? && NextOf(z, now, f, minute).value > now) <==> NoneTakenBack(z, f, minute)
  {
    if NoneTakenBack(z, f, minute) {
      forall now ensures NextOf(z, now, f, minute).Ok? && NextOf(z, now, f, minute).value > now {
        AfterNow(z, now, f, minute);
      }
    } else {
      var i: nat, b :| i < |z.changes| && IsDeliveryDate(f, b) && !ToCome(z, f, minute, i, b);
      var now := TakenBackIsOffered(z, f, minute, i, b);
    }
  }
}
