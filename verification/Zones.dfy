/** Time zones as offset changes, and the two ways between instants and local time.

    Instants and local times are counted in nanoseconds, local times from local midnight of day 0. */
module Zones {
  import opened Base

  const MINUTE: int := 60_000_000_000
  const HOUR: int := 60 * MINUTE
  const DAY: int := 24 * HOUR

  /** From `at` on, local time is ahead of universal time by `offset`. */
  datatype Change = Change(at: Time, offset: int)

  datatype Zone = Zone(first: int, changes: seq<Change>)

  predicate ValidZone(z: Zone) {
    forall i, k :: 0 <= i < k < |z.changes| ==> z.changes[i].at < z.changes[k].at
  }

  /** The changes cut time into segments 0 .. |changes|. */
  function Offset(z: Zone, k: nat): int
    requires k <= |z.changes|
  {
    if k == 0 then z.first else z.changes[k - 1].offset
  }

  predicate InSegment(z: Zone, k: nat, t: Time) {
    && k <= |z.changes|
    && (k > 0 ==> z.changes[k - 1].at <= t)
    && (k < |z.changes| ==> t < z.changes[k].at)
  }

  /** The segment of an instant, among the first `n + 1`. */
  function SegmentUpTo(z: Zone, t: Time, n: nat): nat
    requires n <= |z.changes|
  {
    if n == 0 || z.changes[n - 1].at <= t then n else SegmentUpTo(z, t, n - 1)
  }

  function SegmentOf(z: Zone, t: Time): nat { SegmentUpTo(z, t, |z.changes|) }

  lemma {:induction false} SegmentUpToHolds(z: Zone, t: Time, n: nat)
    requires ValidZone(z) && n <= |z.changes| && (n < |z.changes| ==> t < z.changes[n].at)
    ensures InSegment(z, SegmentUpTo(z, t, n), t)
  {
    if n > 0 && z.changes[n - 1].at > t {
      SegmentUpToHolds(z, t, n - 1);
    }
  }

  lemma SegmentIsUnique(z: Zone, t: Time, k: nat)
    requires ValidZone(z)
    ensures InSegment(z, k, t) <==> k == SegmentOf(z, t)
  {
    SegmentUpToHolds(z, t, |z.changes|);
  }

  lemma SegmentBound(z: Zone, t: Time, n: nat)
    requires n <= |z.changes|
    ensures SegmentUpTo(z, t, n) <= n
  {
  }

  function Local(z: Zone, t: Time): int {
    SegmentBound(z, t, |z.changes|);
    t + Offset(z, SegmentOf(z, t))
  }

  /** Floor division: the local date. */
  function Date(z: Zone, t: Time): int { Local(z, t) / DAY }

  /** The earliest instant at which the clock shows `naive`, from segment `k` on: the single one, or
      the earlier of two. */
  function FromLocalIn(z: Zone, naive: int, k: nat): Option<Time>
    requires k <= |z.changes| + 1
    decreases |z.changes| + 1 - k
  {
    if k > |z.changes| then None
    else if InSegment(z, k, naive - Offset(z, k)) then Some(naive - Offset(z, k))
    else FromLocalIn(z, naive, k + 1)
  }

  function FromLocal(z: Zone, naive: int): Option<Time> { FromLocalIn(z, naive, 0) }

  lemma {:induction false} FromLocalInExact(z: Zone, naive: int, k: nat, t: Time)
    requires ValidZone(z) && k <= |z.changes| + 1
    ensures FromLocalIn(z, naive, k) == Some(t) ==> Local(z, t) == naive
    ensures Local(z, t) == naive && SegmentOf(z, t) >= k ==> FromLocalIn(z, naive, k).Some? && FromLocalIn(z, naive, k).value <= t
    decreases |z.changes| + 1 - k
  {
    SegmentIsUnique(z, t, SegmentOf(z, t));
    if k <= |z.changes| {
      FromLocalInExact(z, naive, k + 1, t);
      SegmentIsUnique(z, t, k);
      var u := naive - Offset(z, k);
      if InSegment(z, k, u) && SegmentOf(z, t) > k {
        assert z.changes[k].at <= z.changes[SegmentOf(z, t) - 1].at;
      }
    }
  }

  /** The answer is the least instant the clock shows `naive` at, and `None` exactly when there is
      no such instant. */
  lemma FromLocalExact(z: Zone, naive: int, t: Time)
    requires ValidZone(z)
    ensures FromLocal(z, naive) == Some(t) ==> Local(z, t) == naive
    ensures Local(z, t) == naive ==> FromLocal(z, naive).Some? && FromLocal(z, naive).value <= t
  {
    FromLocalInExact(z, naive, 0, t);
  }

  // ----- gaps and folds -----

  /** The clock jumps over `naive` at change `i`. */
  predicate Skips(z: Zone, i: nat, naive: int)
    requires i < |z.changes|
  {
    z.changes[i].at + Offset(z, i) <= naive < z.changes[i].at + Offset(z, i + 1)
  }

  /** A clock that has reached `naive` has shown it, or has jumped over it. */
  lemma {:induction false} ShownOrSkipped(z: Zone, naive: int, t: Time, k: nat) returns (shown: bool, u: Time, i: nat)
    requires ValidZone(z) && InSegment(z, k, t) && t + Offset(z, k) >= naive
    ensures shown ==> u <= t && Local(z, u) == naive
    ensures !shown ==> i < |z.changes| && z.changes[i].at <= t && Skips(z, i, naive)
    decreases k
  {
    shown, u, i := true, naive - Offset(z, k), 0;
    if k > 0 && u < z.changes[k - 1].at {
      if z.changes[k - 1].at + Offset(z, k - 1) <= naive {
        return false, u, k - 1;
      }
      shown, u, i := ShownOrSkipped(z, naive, z.changes[k - 1].at - 1, k - 1);
    } else {
      SegmentIsUnique(z, u, k);
    }
  }

  lemma LocalAtChange(z: Zone, i: nat)
    requires ValidZone(z) && i < |z.changes|
    ensures Local(z, z.changes[i].at) == z.changes[i].at + Offset(z, i + 1)
    ensures Local(z, z.changes[i].at - 1) == z.changes[i].at - 1 + Offset(z, i)
  {
    SegmentIsUnique(z, z.changes[i].at, i + 1);
    SegmentIsUnique(z, z.changes[i].at - 1, i);
  }

  /** The local date never runs backwards. */
  ghost predicate DatesForward(z: Zone) {
    forall t, u :: t <= u ==> Date(z, t) <= Date(z, u)
  }

  /** No change takes the clock back across midnight. */
  predicate NoBackwardMidnight(z: Zone) {
    forall i :: 0 <= i < |z.changes| ==>
      (z.changes[i].at - 1 + Offset(z, i)) / DAY <= (z.changes[i].at + Offset(z, i + 1)) / DAY
  }

  lemma DivideMonotone(a: int, b: int)
    requires a <= b
    ensures a / DAY <= b / DAY
  {
  }

  lemma {:induction false} DatesForwardFrom(z: Zone, t: Time, u: Time, k: nat)
    requires ValidZone(z) && NoBackwardMidnight(z) && t <= u && InSegment(z, k, u)
    ensures Date(z, t) <= Date(z, u)
    decreases k
  {
    SegmentIsUnique(z, u, k);
    SegmentIsUnique(z, t, k);
    if k == 0 || z.changes[k - 1].at <= t {
      DivideMonotone(Local(z, t), Local(z, u));
    } else {
      var s := z.changes[k - 1].at;
      DatesForwardFrom(z, t, s - 1, k - 1);
      LocalAtChange(z, k - 1);
      DivideMonotone(s + Offset(z, k), Local(z, u));
    }
  }

  /** The date runs forward in exactly the zones whose fall-backs stay within a date. */
  lemma DatesForwardExactly(z: Zone)
    requires ValidZone(z)
    ensures DatesForward(z) <==> NoBackwardMidnight(z)
  {
    if NoBackwardMidnight(z) {
      forall t, u | t <= u ensures Date(z, t) <= Date(z, u) {
        SegmentIsUnique(z, u, SegmentOf(z, u));
        DatesForwardFrom(z, t, u, SegmentOf(z, u));
      }
    }
    if DatesForward(z) {
      forall i | 0 <= i < |z.changes|
        ensures (z.changes[i].at - 1 + Offset(z, i)) / DAY <= (z.changes[i].at + Offset(z, i + 1)) / DAY
      {
        LocalAtChange(z, i);
        assert Date(z, z.changes[i].at - 1) <= Date(z, z.changes[i].at);
      }
    }
  }

  /** Gaps last an hour at most, and no other change comes within an hour after one. */
  predicate ShortGaps(z: Zone) { forall i :: 0 <= i < |z.changes| ==> ShortGap(z, i) }

  predicate ShortGap(z: Zone, i: nat)
    requires i < |z.changes|
  {
    Offset(z, i) < Offset(z, i + 1) ==>
      Offset(z, i + 1) - Offset(z, i) <= HOUR && (i + 1 < |z.changes| ==> z.changes[i].at + HOUR <= z.changes[i + 1].at)
  }

  /** The clock eventually reaches any local time. */
  lemma Reached(z: Zone, naive: int) returns (t: Time)
    requires ValidZone(z)
    ensures InSegment(z, |z.changes|, t) && t + Offset(z, |z.changes|) >= naive
  {
    t := naive - Offset(z, |z.changes|);
    if |z.changes| > 0 && t < z.changes[|z.changes| - 1].at {
      t := z.changes[|z.changes| - 1].at;
    }
  }

  /** With short gaps, a local time the clock never shows is shown an hour later. */
  lemma HourLaterIsShown(z: Zone, naive: int)
    requires ValidZone(z) && ShortGaps(z) && FromLocal(z, naive).None?
    ensures FromLocal(z, naive + HOUR).Some?
  {
    var t := Reached(z, naive);
    var shown, u, i := ShownOrSkipped(z, naive, t, |z.changes|);
    FromLocalExact(z, naive, u);
    assert ShortGap(z, i);
    var v := naive + HOUR - Offset(z, i + 1);
    SegmentIsUnique(z, v, i + 1);
    FromLocalExact(z, naive + HOUR, v);
  }
}
