/** The proleptic Gregorian calendar as day numbers: day 0 is 1 January 1970, a Thursday. */
module Calendar {

  predicate IsLeap(year: int) { year % 4 == 0 && (year % 100 != 0 || year % 400 == 0) }

  /** Months are numbered through: 12 * year + month, the month counted from 0. */
  function MonthDays(m: int): (n: int)
    ensures 28 <= n <= 31
  {
    if m % 12 == 1 then (if IsLeap(m / 12) then 29 else 28)
    else if m % 12 in {3, 5, 8, 10} then 30
    else 31
  }

  const EPOCH_MONTH := 12 * 1970

  /** The day number of a month's first day. */
  function FirstDay(m: int): int
    decreases if m < EPOCH_MONTH then EPOCH_MONTH - m else m - EPOCH_MONTH
  {
    if m == EPOCH_MONTH then 0
    else if m > EPOCH_MONTH then FirstDay(m - 1) + MonthDays(m - 1)
    else FirstDay(m + 1) - MonthDays(m)
  }

  lemma MonthLength(m: int)
    ensures FirstDay(m + 1) - FirstDay(m) == MonthDays(m)
  {
  }

  lemma {:induction false} MonthsIncrease(m: int, n: int)
    requires m < n
    ensures FirstDay(m) < FirstDay(n)
    decreases n - m
  {
    MonthLength(n - 1);
    if m < n - 1 {
      MonthsIncrease(m, n - 1);
    }
  }

  // ----- the Gregorian calendar in closed form -----

  /** Leap days in the years before `y`, from the year 1 on. */
  function LeapDaysBefore(y: int): int { (y - 1) / 4 - (y - 1) / 100 + (y - 1) / 400 }

  /** Days of a common year before its month `k`. */
  const BEFORE_MONTH := [0, 31, 59, 90, 120, 151, 181, 212, 243, 273, 304, 334]

  lemma Fourths(y: int)
    ensures y / 4 - (y - 1) / 4 == if y % 4 == 0 then 1 else 0
  {
  }

  lemma Hundredths(y: int)
    ensures y / 100 - (y - 1) / 100 == if y % 100 == 0 then 1 else 0
  {
  }

  lemma FourHundredths(y: int)
    ensures y / 400 - (y - 1) / 400 == if y % 400 == 0 then 1 else 0
  {
  }

  lemma Multiples(y: int)
    ensures y % 100 == 0 ==> y % 4 == 0
    ensures y % 400 == 0 ==> y % 100 == 0
  {
  }

  lemma LeapDayCounts(y: int)
    ensures LeapDaysBefore(y + 1) - LeapDaysBefore(y) == if IsLeap(y) then 1 else 0
  {
    Fourths(y);
    Hundredths(y);
    FourHundredths(y);
    Multiples(y);
  }

  lemma {:induction false} WithinYear(y: int, k: nat)
    requires k <= 12
    ensures FirstDay(12 * y + k) - FirstDay(12 * y)
            == (if k < 12 then BEFORE_MONTH[k] else 365) + if k >= 2 && IsLeap(y) then 1 else 0
  {
    if k > 0 {
      WithinYear(y, k - 1);
      MonthLength(12 * y + (k - 1));
      assert (12 * y + (k - 1)) % 12 == k - 1 && (12 * y + (k - 1)) / 12 == y;
    }
  }

  lemma {:induction false} YearStarts(y: int)
    ensures FirstDay(12 * y) == 365 * (y - 1970) + LeapDaysBefore(y) - 477
    decreases if y < 1970 then 1970 - y else y - 1970
  {
    if y > 1970 {
      YearStarts(y - 1);
      WithinYear(y - 1, 12);
      LeapDayCounts(y - 1);
    } else if y < 1970 {
      YearStarts(y + 1);
      WithinYear(y, 12);
      LeapDayCounts(y);
    }
  }

  /** The day number of the first of any month of any year: 365 days a year from 1970 on, a day more for every
      fourth year but the hundredths, and for the four-hundredths, and the months' usual lengths. */
  lemma FirstDayClosedForm(y: int, k: nat)
    requires k < 12
    ensures FirstDay(12 * y + k)
            == 365 * (y - 1970) + (if k >= 2 then LeapDaysBefore(y + 1) else LeapDaysBefore(y)) - 477 + BEFORE_MONTH[k]
  {
    YearStarts(y);
    WithinYear(y, k);
    LeapDayCounts(y);
  }

  /** The month of a day, looked for from month `m` on. */
  function MonthUp(d: int, m: int): (r: int)
    requires FirstDay(m) <= d
    ensures FirstDay(r) <= d < FirstDay(r + 1)
    decreases d - FirstDay(m)
  {
    MonthLength(m);
    if d < FirstDay(m + 1) then m else MonthUp(d, m + 1)
  }

  function MonthDown(d: int, m: int): (r: int)
    requires d < FirstDay(m)
    ensures FirstDay(r) <= d < FirstDay(r + 1)
    decreases FirstDay(m) - d
  {
    MonthLength(m - 1);
    if FirstDay(m - 1) <= d then m - 1 else MonthDown(d, m - 1)
  }

  function MonthOf(d: int): (m: int)
    ensures FirstDay(m) <= d < FirstDay(m + 1)
  {
    var near := EPOCH_MONTH + d / 31;
    if FirstDay(near) <= d then MonthUp(d, near) else MonthDown(d, near)
  }

  lemma MonthOfIs(d: int, m: int)
    requires FirstDay(m) <= d < FirstDay(m + 1)
    ensures MonthOf(d) == m
  {
    var k := MonthOf(d);
    if k < m {
      if k + 1 < m {
        MonthsIncrease(k + 1, m);
      }
    } else if m < k {
      if m + 1 < k {
        MonthsIncrease(m + 1, k);
      }
    }
  }

  lemma FirstDayIsInMonth(m: int)
    ensures MonthOf(FirstDay(m)) == m
  {
    MonthLength(m);
    MonthOfIs(FirstDay(m), m);
  }

  /** Days since Monday. */
  function Weekday(d: int): (w: int)
    ensures 0 <= w < 7
  {
    (d + 3) % 7
  }

  datatype Frequency = Daily | Weekly | Monthly

  /** The dates on which a summary of this frequency goes out. */
  predicate IsDeliveryDate(f: Frequency, d: int) {
    match f
    case Daily => true
    case Weekly => Weekday(d) == 0
    case Monthly => d == FirstDay(MonthOf(d))
  }

  /** The last delivery date up to `d`. */
  function DateUpTo(f: Frequency, d: int): int {
    match f
    case Daily => d
    case Weekly => d - Weekday(d)
    case Monthly => FirstDay(MonthOf(d))
  }

  /** The first delivery date after `d`. */
  function DateAfter(f: Frequency, d: int): int {
    match f
    case Daily => d + 1
    case Weekly => d - Weekday(d) + 7
    case Monthly => FirstDay(MonthOf(d) + 1)
  }

  lemma DateUpToIsLast(f: Frequency, d: int, e: int)
    ensures IsDeliveryDate(f, DateUpTo(f, d)) && DateUpTo(f, d) <= d
    ensures IsDeliveryDate(f, e) && e <= d ==> e <= DateUpTo(f, d)
  {
    if f.Monthly? {
      FirstDayIsInMonth(MonthOf(d));
      if MonthOf(e) > MonthOf(d) && e <= d {
        if MonthOf(e) > MonthOf(d) + 1 {
          MonthsIncrease(MonthOf(d) + 1, MonthOf(e));
        }
      } else if MonthOf(e) < MonthOf(d) {
        MonthsIncrease(MonthOf(e), MonthOf(d));
      }
    }
  }

  lemma DateAfterIsFirst(f: Frequency, d: int, e: int)
    ensures IsDeliveryDate(f, DateAfter(f, d)) && DateAfter(f, d) > d
    ensures IsDeliveryDate(f, e) && e > d ==> e >= DateAfter(f, d)
  {
    if f.Monthly? {
      FirstDayIsInMonth(MonthOf(d) + 1);
      if MonthOf(e) != MonthOf(d) {
        MonthsApart(d, e);
      }
    }
  }

  /** Days of different months are as far apart as their months. */
  lemma MonthsApart(d: int, e: int)
    requires MonthOf(d) != MonthOf(e)
    ensures d < e ==> FirstDay(MonthOf(d) + 1) <= FirstDay(MonthOf(e))
  {
    var m, k := MonthOf(d), MonthOf(e);
    if m + 1 < k {
      MonthsIncrease(m + 1, k);
    } else if k < m {
      if k + 1 < m {
        MonthsIncrease(k + 1, m);
      }
    }
  }

  /** The delivery date before the next one is the one up to now. */
  lemma DatesAlternate(f: Frequency, d: int)
    requires IsDeliveryDate(f, d)
    ensures DateUpTo(f, d) == d && DateUpTo(f, DateAfter(f, d) - 1) == d
  {
    DateUpToIsLast(f, DateAfter(f, d) - 1, d);
    DateUpToIsLast(f, d, d);
    DateAfterIsFirst(f, d, DateUpTo(f, DateAfter(f, d) - 1));
  }
}
