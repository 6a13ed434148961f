/** Numbered deliveries, and exactly when the one reported as the latest, or offered as the next, is
    the right one.

    A clock shows at each instant the number of a delivery; delivery `j` is due at `due(j)`, when the
    clock shows `j`. Between two changes the number only grows. At a change anything may happen. */
module Turns {
  import opened Base
  import opened Zones

  type Clock = Time -> int
  type Due = int -> Time

  /** Two instants of one segment, in order. */
  predicate Together(z: Zone, k: nat, t: Time, u: Time) { t <= u && InSegment(z, k, t) && InSegment(z, k, u) }

  /** What the clock shows grows within each segment. */
  ghost predicate Grows(z: Zone, clock: Clock) {
    forall k: nat, t, u :: Together(z, k, t, u) ==> clock(t) <= clock(u)
  }

  /** The numbers a segment runs through are due in it, or were before. */
  ghost predicate Passes(z: Zone, clock: Clock, due: Due) {
    forall k: nat, t, u, j :: PassesBy(z, clock, due, k, t, u, j)
  }

  predicate PassesBy(z: Zone, clock: Clock, due: Due, k: nat, t: Time, u: Time, j: int) {
    Together(z, k, t, u) && clock(t) < j < clock(u) ==> due(j) <= u
  }

  /** All numbers before the ones the first segment shows were due in it. */
  ghost predicate HasPassed(z: Zone, clock: Clock, due: Due) {
    forall t, j :: InSegment(z, 0, t) && j < clock(t) ==> due(j) <= t
  }

  /** At `v` a segment comes to a number. */
  ghost predicate Enters(z: Zone, clock: Clock, k: nat, j: int, v: Time) {
    InSegment(z, k, v - 1) && InSegment(z, k, v) && clock(v - 1) < j == clock(v)
  }

  ghost predicate EntersBetween(z: Zone, clock: Clock, k: nat, t: Time, u: Time, j: int) {
    exists v :: t < v <= u && Enters(z, clock, k, j, v)
  }

  ghost predicate EventuallyShows(z: Zone, clock: Clock, j: int) {
    exists u :: InSegment(z, |z.changes|, u) && clock(u) >= j
  }

  /** A segment comes to every number between two it shows, and the last segment to all. */
  ghost predicate NoneLeftOut(z: Zone, clock: Clock) {
    && (forall k: nat, t, u, j :: Together(z, k, t, u) && clock(t) < j <= clock(u) ==> EntersBetween(z, clock, k, t, u, j))
    && (forall j :: EventuallyShows(z, clock, j))
  }

  ghost predicate Orderly(z: Zone, clock: Clock, due: Due) {
    && ValidZone(z) && Grows(z, clock) && Passes(z, clock, due) && HasPassed(z, clock, due) && NoneLeftOut(z, clock)
    && forall j :: clock(due(j)) == j
  }

  /** The segment after the `i`-th change comes to `j` or beyond. */
  predicate Reaches(z: Zone, clock: Clock, i: nat, j: int) {
    i + 1 < |z.changes| ==> j <= clock(z.changes[i + 1].at - 1)
  }

  /** `t` is before the next change. */
  predicate Before(z: Zone, i: nat, t: Time) { i + 1 < |z.changes| ==> t < z.changes[i + 1].at }

  // ----- other numbers for the same deliveries -----

  /** Number `j` is shown from the old number `entry(j)` on, and stands for the old number `plain(j)`. */
  ghost predicate Numbering(number: int -> int, plain: int -> int, entry: int -> int) {
    (forall d, j :: ShownFrom(number, entry, d, j)) && (forall j :: Falls(plain, entry, j))
  }

  predicate ShownFrom(number: int -> int, entry: int -> int, d: int, j: int) { d < entry(j) <==> number(d) < j }

  predicate Falls(plain: int -> int, entry: int -> int, j: int) { entry(j) <= plain(j) < entry(j + 1) }

  /** `c` shows the new numbers for those of `clock`. */
  ghost predicate Renumbers(number: int -> int, clock: Clock, c: Clock) { forall t :: c(t) == number(clock(t)) }

  /** `d` has the times of the deliveries that have new numbers. */
  ghost predicate Chooses(plain: int -> int, due: Due, d: Due) { forall j :: d(j) == due(plain(j)) }

  lemma NumberFacts(number: int -> int, plain: int -> int, entry: int -> int, d: int, j: int)
    requires Numbering(number, plain, entry)
    ensures number(d) < j ==> d < plain(j)
    ensures j < number(d) ==> plain(j) < d
    ensures d < entry(j) <==> number(d) < j
    ensures number(plain(j)) == j && number(entry(j)) == j && entry(j) <= plain(j)
  {
    assert Falls(plain, entry, j);
    assert ShownFrom(number, entry, d, j) && ShownFrom(number, entry, d, j + 1);
    assert ShownFrom(number, entry, plain(j), j) && ShownFrom(number, entry, plain(j), j + 1);
    assert ShownFrom(number, entry, entry(j), j) && ShownFrom(number, entry, entry(j), j + 1);
  }

  lemma NumbersGrow(number: int -> int, plain: int -> int, entry: int -> int, d: int, e: int)
    requires Numbering(number, plain, entry) && d <= e
    ensures number(d) <= number(e)
  {
    assert ShownFrom(number, entry, d, number(d)) && ShownFrom(number, entry, e, number(d));
  }

  lemma RenumberedPasses(z: Zone, clock: Clock, due: Due, number: int -> int, plain: int -> int, entry: int -> int, c: Clock, d: Due)
    requires Passes(z, clock, due) && Numbering(number, plain, entry) && Renumbers(number, clock, c) && Chooses(plain, due, d)
    ensures Passes(z, c, d)
  {
    forall k: nat, t, u, j ensures PassesBy(z, c, d, k, t, u, j) {
      NumberFacts(number, plain, entry, clock(t), j);
      NumberFacts(number, plain, entry, clock(u), j);
      assert PassesBy(z, clock, due, k, t, u, plain(j));
    }
  }

  lemma RenumberedHasPassed(z: Zone, clock: Clock, due: Due, number: int -> int, plain: int -> int, entry: int -> int, c: Clock, d: Due)
    requires HasPassed(z, clock, due) && Numbering(number, plain, entry) && Renumbers(number, clock, c) && Chooses(plain, due, d)
    ensures HasPassed(z, c, d)
  {
    forall t, j | InSegment(z, 0, t) && j < c(t) ensures d(j) <= t {
      NumberFacts(number, plain, entry, clock(t), j);
    }
  }

  lemma RenumberedLeavesNoneOut(z: Zone, clock: Clock, number: int -> int, plain: int -> int, entry: int -> int, c: Clock)
    requires NoneLeftOut(z, clock) && Numbering(number, plain, entry) && Renumbers(number, clock, c)
    ensures NoneLeftOut(z, c)
  {
    forall k: nat, t, u, j | Together(z, k, t, u) && c(t) < j <= c(u) ensures EntersBetween(z, c, k, t, u, j) {
      NumberFacts(number, plain, entry, clock(t), j);
      NumberFacts(number, plain, entry, clock(u), j);
      assert EntersBetween(z, clock, k, t, u, entry(j));
      var v :| t < v <= u && Enters(z, clock, k, entry(j), v);
      NumberFacts(number, plain, entry, clock(v - 1), j);
      assert Enters(z, c, k, j, v);
    }
    forall j ensures EventuallyShows(z, c, j) {
      assert EventuallyShows(z, clock, entry(j));
      var u :| InSegment(z, |z.changes|, u) && clock(u) >= entry(j);
      NumberFacts(number, plain, entry, clock(u), j);
      assert c(u) >= j;
    }
  }

  lemma RenumberedIsOrderly(z: Zone, clock: Clock, due: Due, number: int -> int, plain: int -> int, entry: int -> int, c: Clock, d: Due)
    requires Orderly(z, clock, due) && Numbering(number, plain, entry) && Renumbers(number, clock, c) && Chooses(plain, due, d)
    ensures Orderly(z, c, d)
  {
    forall k: nat, t, u | Together(z, k, t, u) ensures c(t) <= c(u) {
      NumbersGrow(number, plain, entry, clock(t), clock(u));
    }
    RenumberedPasses(z, clock, due, number, plain, entry, c, d);
    RenumberedHasPassed(z, clock, due, number, plain, entry, c, d);
    RenumberedLeavesNoneOut(z, clock, number, plain, entry, c);
    forall j ensures c(d(j)) == j {
      NumberFacts(number, plain, entry, 0, j);
    }
  }

  // ----- the latest -----

  /** What is reported: the number shown, once it is due, and until then the one before it. */
  function Latest(clock: Clock, due: Due, t: Time): int { if due(clock(t)) <= t then clock(t) else clock(t) - 1 }

  ghost predicate IsLast(due: Due, j: int, now: Time) { due(j) <= now && forall i :: due(i) <= now ==> due(i) <= due(j) }

  /** The change leaves what is reported as it is, or comes as a delivery is due. */
  predicate KeepsLatest(z: Zone, clock: Clock, due: Due, i: nat)
    requires i < |z.changes|
  {
    var at := z.changes[i].at;
    Latest(clock, due, at) == Latest(clock, due, at - 1) || due(Latest(clock, due, at)) == at
  }

  /** A number the segment comes to has not been due before, and, unless numbers are due as the clock
      comes to them, the one before it is due before the next change. */
  ghost predicate InTurn(z: Zone, clock: Clock, due: Due, sharp: bool, i: nat)
    requires i < |z.changes|
  {
    var at := z.changes[i].at;
    forall j :: clock(at) < j && Reaches(z, clock, i, j) ==> due(j) >= at && (sharp || Before(z, i, due(j - 1)))
  }

  /** Whether numbers are due as the clock comes to them, or never just then. */
  ghost predicate Sharpness(z: Zone, clock: Clock, due: Due, sharp: bool) {
    if sharp then forall k: nat, t, u, j :: Together(z, k, t, u) && clock(t) < j <= clock(u) ==> due(j) <= u
    else forall k: nat, j, v :: Enters(z, clock, k, j, v) ==> due(j) != v
  }

  lemma RenumberedSharp(z: Zone, clock: Clock, due: Due, number: int -> int, plain: int -> int, c: Clock, d: Due)
    requires Sharpness(z, clock, due, true) && Numbering(number, plain, plain) && Renumbers(number, clock, c) && Chooses(plain, due, d)
    ensures Sharpness(z, c, d, true)
  {
    forall k: nat, t, u, j | Together(z, k, t, u) && c(t) < j <= c(u) ensures d(j) <= u {
      NumberFacts(number, plain, plain, clock(t), j);
      NumberFacts(number, plain, plain, clock(u), j);
    }
  }

  lemma RenumberedNotSharp(z: Zone, clock: Clock, due: Due, number: int -> int, plain: int -> int, c: Clock, d: Due)
    requires NoneLeftOut(z, clock) && Sharpness(z, clock, due, false)
    requires Numbering(number, plain, plain) && Renumbers(number, clock, c) && Chooses(plain, due, d)
    ensures Sharpness(z, c, d, false)
  {
    forall k: nat, j, v | Enters(z, c, k, j, v) ensures d(j) != v {
      NumberFacts(number, plain, plain, clock(v - 1), j);
      NumberFacts(number, plain, plain, clock(v), j);
      assert Together(z, k, v - 1, v);
      assert EntersBetween(z, clock, k, v - 1, v, plain(j));
      assert Enters(z, clock, k, plain(j), v);
    }
  }

  /** In one segment, what is due earlier has the smaller number. */
  lemma DueInOrder(z: Zone, clock: Clock, due: Due, k: nat, i: int, j: int)
    requires Orderly(z, clock, due) && InSegment(z, k, due(i)) && InSegment(z, k, due(j)) && i <= j
    ensures due(i) <= due(j)
  {
    assert due(j) < due(i) ==> Together(z, k, due(j), due(i));
  }

  lemma FirstSegmentIsRight(z: Zone, clock: Clock, due: Due, t: Time)
    requires Orderly(z, clock, due) && InSegment(z, 0, t)
    ensures IsLast(due, Latest(clock, due, t), t)
  {
    var l := Latest(clock, due, t);
    forall i | due(i) <= t ensures due(i) <= due(l) {
      assert Together(z, 0, due(i), t);
      DueInOrder(z, clock, due, 0, i, l);
    }
  }

  /** Whatever is due in a segment after `s` and up to `t` has a number between theirs. */
  lemma DueBetween(z: Zone, clock: Clock, due: Due, k: nat, s: Time, t: Time, i: int)
    requires Orderly(z, clock, due) && InSegment(z, k, s) && InSegment(z, k, t) && s < due(i) <= t
    ensures InSegment(z, k, due(i)) && clock(s) <= i <= clock(t)
  {
    assert Together(z, k, s, due(i)) && Together(z, k, due(i), t);
  }

  /** Nothing is due in a segment after `s` and up to `t`. */
  ghost predicate Quiet(due: Due, s: Time, t: Time) { forall i :: !(s < due(i) <= t) }

  /** `j` is the last of what is due after `s` and up to `t`. */
  ghost predicate LastSince(due: Due, j: int, s: Time, t: Time) { s < due(j) <= t && forall i :: s < due(i) <= t ==> i <= j }

  lemma ReachesShown(z: Zone, clock: Clock, due: Due, c: nat, t: Time)
    requires Orderly(z, clock, due) && c < |z.changes| && InSegment(z, c + 1, t)
    ensures clock(z.changes[c].at) <= clock(t) && Reaches(z, clock, c, clock(t))
    ensures forall i :: z.changes[c].at < due(i) <= t ==> clock(z.changes[c].at) <= i <= clock(t)
  {
    var s := z.changes[c].at;
    assert Together(z, c + 1, s, t);
    assert c + 1 < |z.changes| ==> Together(z, c + 1, t, z.changes[c + 1].at - 1);
    forall i | s < due(i) <= t ensures clock(s) <= i <= clock(t) {
      DueBetween(z, clock, due, c + 1, s, t, i);
    }
  }

  /** What is reported has not changed since the start of the segment, with nothing due meanwhile, or
      is the last that was due in the segment. */
  lemma ReportedSince(z: Zone, clock: Clock, due: Due, sharp: bool, c: nat, t: Time)
    requires Orderly(z, clock, due) && Sharpness(z, clock, due, sharp) && c < |z.changes| && InSegment(z, c + 1, t)
    requires InTurn(z, clock, due, sharp, c)
    ensures var s := z.changes[c].at; var l := Latest(clock, due, t);
      (l == Latest(clock, due, s) && Quiet(due, s, t)) || LastSince(due, l, s, t)
  {
    var s := z.changes[c].at;
    var p, q := clock(s), clock(t);
    ReachesShown(z, clock, due, c, t);
    assert clock(due(p)) == p && clock(due(q)) == q && clock(due(q - 1)) == q - 1;
    assert Together(z, c + 1, s, t);
    assert p < q ==> due(q) > s;
    if due(q) > t && p < q - 1 {
      assert Reaches(z, clock, c, q - 1);
      assert due(q - 1) >= s && PassesBy(z, clock, due, c + 1, s, t, q - 1);
    } else if due(q) > t && p < q {
      assert !sharp && Before(z, c, due(p));
      assert due(p) >= t ==> Together(z, c + 1, t, due(p));
    }
  }

  /** From the start of a segment on. */
  lemma SegmentStaysRight(z: Zone, clock: Clock, due: Due, sharp: bool, c: nat, t: Time)
    requires Orderly(z, clock, due) && Sharpness(z, clock, due, sharp) && c < |z.changes| && InSegment(z, c + 1, t)
    requires InTurn(z, clock, due, sharp, c) && IsLast(due, Latest(clock, due, z.changes[c].at), z.changes[c].at)
    ensures IsLast(due, Latest(clock, due, t), t)
  {
    var s := z.changes[c].at;
    var l := Latest(clock, due, t);
    ReportedSince(z, clock, due, sharp, c, t);
    if LastSince(due, l, s, t) {
      forall i | due(i) <= t ensures due(i) <= due(l) {
        if s < due(i) {
          DueInOrder(z, clock, due, c + 1, i, l);
        }
      }
    } else {
      forall i | due(i) <= t ensures due(i) <= due(l) {
        assert !(s < due(i) <= t);
      }
    }
  }

  lemma ChangeStaysRight(z: Zone, clock: Clock, due: Due, i: nat)
    requires Orderly(z, clock, due) && i < |z.changes| && KeepsLatest(z, clock, due, i)
    requires IsLast(due, Latest(clock, due, z.changes[i].at - 1), z.changes[i].at - 1)
    ensures IsLast(due, Latest(clock, due, z.changes[i].at), z.changes[i].at)
  {
    var at := z.changes[i].at;
    var l := Latest(clock, due, at);
    forall j | due(j) <= at ensures due(j) <= due(l) {
      if due(j) == at {
        assert clock(due(j)) == j == clock(at);
      }
    }
  }

  lemma {:induction false} LatestInSegment(z: Zone, clock: Clock, due: Due, sharp: bool, k: nat, t: Time)
    requires Orderly(z, clock, due) && Sharpness(z, clock, due, sharp) && InSegment(z, k, t)
    requires KeptInTurn(z, clock, due, sharp)
    ensures IsLast(due, Latest(clock, due, t), t)
    decreases k
  {
    if k == 0 {
      FirstSegmentIsRight(z, clock, due, t);
    } else {
      var at := z.changes[k - 1].at;
      assert InSegment(z, k - 1, at - 1);
      LatestInSegment(z, clock, due, sharp, k - 1, at - 1);
      ChangeStaysRight(z, clock, due, k - 1);
      SegmentStaysRight(z, clock, due, sharp, k - 1, t);
    }
  }

  lemma SameDue(z: Zone, clock: Clock, due: Due, i: int, j: int)
    requires Orderly(z, clock, due) && due(i) == due(j)
    ensures i == j
  {
    assert clock(due(i)) == i && clock(due(j)) == j;
  }

  /** What is right before a change and right after it has been kept. */
  lemma RightIsKept(z: Zone, clock: Clock, due: Due, i: nat)
    requires Orderly(z, clock, due) && i < |z.changes|
    requires AlwaysLast(clock, due)
    ensures KeepsLatest(z, clock, due, i)
  {
    var at := z.changes[i].at;
    var l, m := Latest(clock, due, at), Latest(clock, due, at - 1);
    assert IsLast(due, l, at) && IsLast(due, m, at - 1);
    if due(l) != at {
      assert due(l) <= due(m) && due(m) <= due(l);
      SameDue(z, clock, due, l, m);
    }
  }

  /** An instant of the segment after a change that shows `j` or more, if it comes to `j`. */
  lemma ReachedAt(z: Zone, clock: Clock, due: Due, i: nat, j: int) returns (u: Time)
    requires Orderly(z, clock, due) && i < |z.changes| && Reaches(z, clock, i, j) && clock(z.changes[i].at) <= j
    ensures InSegment(z, i + 1, u) && clock(u) >= j && z.changes[i].at <= u
  {
    if i + 1 < |z.changes| {
      u := z.changes[i + 1].at - 1;
    } else {
      assert EventuallyShows(z, clock, j);
      u :| InSegment(z, |z.changes|, u) && clock(u) >= j;
    }
  }

  lemma EnteredAt(z: Zone, clock: Clock, due: Due, i: nat, j: int) returns (v: Time)
    requires Orderly(z, clock, due) && i < |z.changes| && Reaches(z, clock, i, j) && clock(z.changes[i].at) < j
    ensures z.changes[i].at < v && Enters(z, clock, i + 1, j, v)
  {
    var at := z.changes[i].at;
    var u := ReachedAt(z, clock, due, i, j);
    assert Together(z, i + 1, at, u);
    assert EntersBetween(z, clock, i + 1, at, u, j);
    v :| at < v <= u && Enters(z, clock, i + 1, j, v);
  }

  /** A number that was due before the segment would be reported again, when another is the latest. */
  lemma NotDueBefore(z: Zone, clock: Clock, due: Due, i: nat, j: int, v: Time)
    requires Orderly(z, clock, due) && i < |z.changes| && z.changes[i].at < v && Enters(z, clock, i + 1, j, v)
    requires IsLast(due, Latest(clock, due, v), v) && IsLast(due, Latest(clock, due, v - 1), v - 1)
    ensures due(j) >= z.changes[i].at
  {
    var m := Latest(clock, due, v - 1);
    assert m != j && clock(due(m)) == m && clock(due(j)) == j;
  }

  lemma DueBeforeNext(z: Zone, clock: Clock, due: Due, i: nat, j: int, v: Time)
    requires Orderly(z, clock, due) && i < |z.changes| && z.changes[i].at < v && Enters(z, clock, i + 1, j, v)
    requires IsLast(due, Latest(clock, due, v), v) && due(j) >= z.changes[i].at && due(j) != v
    ensures Before(z, i, due(j - 1))
  {
    assert due(j) < v ==> Together(z, i + 1, due(j), v - 1);
  }

  lemma RightIsInTurn(z: Zone, clock: Clock, due: Due, sharp: bool, i: nat)
    requires Orderly(z, clock, due) && Sharpness(z, clock, due, sharp) && i < |z.changes|
    requires AlwaysLast(clock, due)
    ensures InTurn(z, clock, due, sharp, i)
  {
    var at := z.changes[i].at;
    forall j | clock(at) < j && Reaches(z, clock, i, j) ensures due(j) >= at && (sharp || Before(z, i, due(j - 1))) {
      var v := EnteredAt(z, clock, due, i, j);
      assert IsLast(due, Latest(clock, due, v), v) && IsLast(due, Latest(clock, due, v - 1), v - 1);
      NotDueBefore(z, clock, due, i, j, v);
      if !sharp {
        DueBeforeNext(z, clock, due, i, j, v);
      }
    }
  }

  ghost predicate AlwaysLast(clock: Clock, due: Due) { forall now :: IsLast(due, Latest(clock, due, now), now) }

  ghost predicate KeptInTurn(z: Zone, clock: Clock, due: Due, sharp: bool) {
    forall i :: 0 <= i < |z.changes| ==> KeepsLatest(z, clock, due, i) && InTurn(z, clock, due, sharp, i)
  }

  /** What is reported is the last delivery due, at every instant, exactly when every change keeps what
      is reported and every segment comes to its deliveries in turn. */
  lemma LatestExactly(z: Zone, clock: Clock, due: Due, sharp: bool)
    requires Orderly(z, clock, due) && Sharpness(z, clock, due, sharp)
    ensures AlwaysLast(clock, due) <==> KeptInTurn(z, clock, due, sharp)
  {
    if KeptInTurn(z, clock, due, sharp) {
      forall now ensures IsLast(due, Latest(clock, due, now), now) {
        SegmentIsUnique(z, now, SegmentOf(z, now));
        LatestInSegment(z, clock, due, sharp, SegmentOf(z, now), now);
      }
    }
    if AlwaysLast(clock, due) {
      forall i | 0 <= i < |z.changes| ensures KeepsLatest(z, clock, due, i) && InTurn(z, clock, due, sharp, i) {
        RightIsKept(z, clock, due, i);
        RightIsInTurn(z, clock, due, sharp, i);
      }
    }
  }

  // ----- the next -----

  /** What is offered: the number shown, while it is not yet due, and then the one after it. */
  function Next(clock: Clock, due: Due, t: Time): int { if due(clock(t)) > t then clock(t) else clock(t) + 1 }

  ghost predicate IsFirst(due: Due, j: int, now: Time) { due(j) > now && forall i :: due(i) > now ==> due(i) >= due(j) }

  /** The change leaves what is offered as it is, or, if it comes as a delivery is due, that was offered. */
  predicate KeepsNext(z: Zone, clock: Clock, due: Due, i: nat)
    requires i < |z.changes|
  {
    var at := z.changes[i].at;
    Next(clock, due, at - 1) == if due(clock(at)) == at then clock(at) else Next(clock, due, at)
  }

  /** The numbers behind those the segment shows have not been due before it; and its first number, if
      it goes on to another, is due before the next change. */
  ghost predicate Ahead(z: Zone, clock: Clock, due: Due, i: nat)
    requires i < |z.changes|
  {
    var at := z.changes[i].at;
    && (forall j :: clock(at) <= j && Reaches(z, clock, i, j) ==> due(j + 1) >= at)
    && (Reaches(z, clock, i, clock(at) + 1) ==> Before(z, i, due(clock(at))))
  }

  /** `t` is past the segment. */
  predicate Beyond(z: Zone, k: nat, t: Time) { k < |z.changes| && z.changes[k].at <= t }

  /** What is offered but not due in the segment is still offered at its end, nothing being due till then. */
  lemma OfferedToEnd(z: Zone, clock: Clock, due: Due, k: nat, t: Time)
    requires Orderly(z, clock, due) && InSegment(z, k, t) && (k > 0 ==> Ahead(z, clock, due, k - 1))
    requires Beyond(z, k, due(Next(clock, due, t)))
    ensures var end := z.changes[k].at - 1;
      Next(clock, due, end) == Next(clock, due, t) && Quiet(due, t, end)
  {
    var end := z.changes[k].at - 1;
    var b := clock(t);
    assert Together(z, k, t, end) && PassesBy(z, clock, due, k, t, end, b + 1);
    if k > 0 {
      var at := z.changes[k - 1].at;
      assert Together(z, k, at, t) && Together(z, k, at, end) && PassesBy(z, clock, due, k, at, end, b);
    }
    forall i ensures !(t < due(i) <= end) {
      if t < due(i) <= end {
        DueBetween(z, clock, due, k, t, end, i);
      }
    }
  }

  /** What is offered has not been due before. */
  lemma OfferedIsAhead(z: Zone, clock: Clock, due: Due, k: nat, t: Time)
    requires Orderly(z, clock, due) && InSegment(z, k, t) && (k > 0 ==> Ahead(z, clock, due, k - 1))
    ensures due(Next(clock, due, t)) > t
  {
    var b := clock(t);
    assert due(b + 1) <= t && InSegment(z, k, due(b + 1)) ==> Together(z, k, due(b + 1), t);
    if k > 0 {
      var at := z.changes[k - 1].at;
      assert Together(z, k, at, t);
      assert k < |z.changes| ==> Together(z, k, t, z.changes[k].at - 1);
      assert Reaches(z, clock, k - 1, b);
    }
  }

  /** Back from the end of a segment. */
  lemma SegmentWasRight(z: Zone, clock: Clock, due: Due, k: nat, t: Time)
    requires Orderly(z, clock, due) && InSegment(z, k, t) && (k > 0 ==> Ahead(z, clock, due, k - 1))
    requires k < |z.changes| ==> IsFirst(due, Next(clock, due, z.changes[k].at - 1), z.changes[k].at - 1)
    ensures IsFirst(due, Next(clock, due, t), t)
  {
    var n := Next(clock, due, t);
    OfferedIsAhead(z, clock, due, k, t);
    if Beyond(z, k, due(n)) {
      OfferedToEnd(z, clock, due, k, t);
    } else {
      forall i | due(i) > t ensures due(i) >= due(n) {
        if InSegment(z, k, due(i)) {
          assert Together(z, k, t, due(i));
          DueInOrder(z, clock, due, k, n, i);
        }
      }
    }
  }

  lemma ChangeWasRight(z: Zone, clock: Clock, due: Due, i: nat)
    requires Orderly(z, clock, due) && i < |z.changes| && KeepsNext(z, clock, due, i)
    requires IsFirst(due, Next(clock, due, z.changes[i].at), z.changes[i].at)
    ensures IsFirst(due, Next(clock, due, z.changes[i].at - 1), z.changes[i].at - 1)
  {
    var at := z.changes[i].at;
    var n := Next(clock, due, at - 1);
    forall j | due(j) > at - 1 ensures due(j) >= due(n) {
      assert clock(due(j)) == j;
    }
  }

  lemma {:induction false} NextInSegment(z: Zone, clock: Clock, due: Due, k: nat, t: Time)
    requires Orderly(z, clock, due) && InSegment(z, k, t)
    requires KeptAhead(z, clock, due)
    ensures IsFirst(due, Next(clock, due, t), t)
    decreases |z.changes| - k
  {
    if k < |z.changes| {
      var at := z.changes[k].at;
      assert InSegment(z, k + 1, at);
      NextInSegment(z, clock, due, k + 1, at);
      ChangeWasRight(z, clock, due, k);
    }
    SegmentWasRight(z, clock, due, k, t);
  }

  /** What is right before a change and right after it has been kept. */
  lemma RightWasKept(z: Zone, clock: Clock, due: Due, i: nat)
    requires Orderly(z, clock, due) && i < |z.changes|
    requires IsFirst(due, Next(clock, due, z.changes[i].at), z.changes[i].at)
    requires IsFirst(due, Next(clock, due, z.changes[i].at - 1), z.changes[i].at - 1)
    ensures KeepsNext(z, clock, due, i)
  {
    var at := z.changes[i].at;
    var m, n := Next(clock, due, at - 1), Next(clock, due, at);
    assert clock(due(m)) == m && clock(due(n)) == n && clock(due(clock(at))) == clock(at);
  }

  /** An instant of the segment that shows a number it comes to. */
  lemma ShownAt(z: Zone, clock: Clock, due: Due, i: nat, j: int) returns (t: Time)
    requires Orderly(z, clock, due) && i < |z.changes| && Reaches(z, clock, i, j) && clock(z.changes[i].at) <= j
    ensures z.changes[i].at <= t && clock(t) == j
  {
    t := z.changes[i].at;
    if clock(t) != j {
      t := EnteredAt(z, clock, due, i, j);
    }
  }

  lemma RightIsAhead(z: Zone, clock: Clock, due: Due, i: nat, j: int)
    requires Orderly(z, clock, due) && i < |z.changes| && Reaches(z, clock, i, j) && clock(z.changes[i].at) <= j
    requires AlwaysFirst(clock, due)
    ensures due(j + 1) >= z.changes[i].at
  {
    var t := due(j);
    if t < z.changes[i].at {
      t := ShownAt(z, clock, due, i, j);
    }
    assert IsFirst(due, Next(clock, due, t), t);
  }

  /** A number the segment leaves without its being due would be offered first and not last. */
  lemma FirstIsLeftDue(z: Zone, clock: Clock, due: Due, i: nat)
    requires Orderly(z, clock, due) && i < |z.changes| && Reaches(z, clock, i, clock(z.changes[i].at) + 1)
    requires AlwaysFirst(clock, due)
    ensures Before(z, i, due(clock(z.changes[i].at)))
  {
    if i + 1 < |z.changes| {
      var at, end := z.changes[i].at, z.changes[i + 1].at - 1;
      var b, n := clock(at), Next(clock, due, end);
      assert IsFirst(due, Next(clock, due, at), at) && IsFirst(due, n, end);
      assert clock(due(b)) == b && clock(due(n)) == n;
    }
  }

  lemma AllAreAhead(z: Zone, clock: Clock, due: Due, i: nat)
    requires Orderly(z, clock, due) && i < |z.changes| && AlwaysFirst(clock, due)
    ensures Ahead(z, clock, due, i)
  {
    var at := z.changes[i].at;
    forall j | clock(at) <= j && Reaches(z, clock, i, j) ensures due(j + 1) >= at {
      RightIsAhead(z, clock, due, i, j);
    }
    if Reaches(z, clock, i, clock(at) + 1) {
      FirstIsLeftDue(z, clock, due, i);
    }
  }

  ghost predicate AlwaysFirst(clock: Clock, due: Due) { forall now :: IsFirst(due, Next(clock, due, now), now) }

  ghost predicate KeptAhead(z: Zone, clock: Clock, due: Due) {
    forall i :: 0 <= i < |z.changes| ==> KeepsNext(z, clock, due, i) && Ahead(z, clock, due, i)
  }

  /** What is offered is the first delivery due later, at every instant, exactly when every change keeps
      what is offered and every segment has its deliveries ahead of it. */
  lemma NextExactly(z: Zone, clock: Clock, due: Due)
    requires Orderly(z, clock, due)
    ensures AlwaysFirst(clock, due) <==> KeptAhead(z, clock, due)
  {
    if KeptAhead(z, clock, due) {
      forall now ensures IsFirst(due, Next(clock, due, now), now) {
        SegmentIsUnique(z, now, SegmentOf(z, now));
        NextInSegment(z, clock, due, SegmentOf(z, now), now);
      }
    }
    if AlwaysFirst(clock, due) {
      forall i | 0 <= i < |z.changes| ensures KeepsNext(z, clock, due, i) && Ahead(z, clock, due, i) {
        assert IsFirst(due, Next(clock, due, z.changes[i].at), z.changes[i].at);
        assert IsFirst(due, Next(clock, due, z.changes[i].at - 1), z.changes[i].at - 1);
        RightWasKept(z, clock, due, i);
        AllAreAhead(z, clock, due, i);
      }
    }
  }
}
