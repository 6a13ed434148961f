/** Which windows of a schedule get their emit job: with the database's clock not ahead of the
    process's, every one that is followed by a tick before the next delivery. */
module Windows {
  import opened Base
  import opened Calendar
  import opened Zones
  import opened Schedule
  import opened Periods
  import opened Scheduler

  /** The schedule a row keeps, its account's zone included. */
  datatype Kept = Kept(id: ScheduleId, account: AccountId, frequency: Frequency, minute: int, zone: Zone)

  ghost predicate Usable(k: Kept) { ValidMinute(k.minute) && Regular(k.zone, k.minute) && Regular(k.zone, 0) }

  ghost predicate Holds(s: State, k: Kept) {
    && k.id in s.schedules && s.schedules[k.id].account == k.account && s.schedules[k.id].frequency == k.frequency
    && s.schedules[k.id].minute == k.minute && k.account in s.accounts && s.accounts[k.account].zone == Some(k.zone)
  }

  function PlanAt(k: Kept, t: Time): Result<Plan, ScheduleError> { PlanOf(Some(k.zone), k.frequency, k.minute, t) }

  /** The window of the last delivery up to `t` has its emit job. */
  ghost predicate Emitted(s: State, k: Kept, t: Time) {
    var p := PlanAt(k, t);
    p.Ok? && p.value.period.Ok? && KeyTaken(s.jobs, EmitJob(k.account, k.frequency, p.value.period.value, t))
  }

  /** Between a delivery and the next, the plan is for the same window. */
  lemma SameWindow(k: Kept, t: Time, now: Time)
    requires Usable(k) && PlanAt(k, now).Ok? && PlanAt(k, now).value.latest <= t <= now
    ensures PlanAt(k, t).Ok? && PlanAt(k, t).value.latest == PlanAt(k, now).value.latest
    ensures PlanAt(k, t).value.period == PlanAt(k, now).value.period
  {
    PlanIsRight(k.zone, k.frequency, k.minute, now, now);
    PlanIsRight(k.zone, k.frequency, k.minute, t, PlanAt(k, now).value.latest);
    PlanIsRight(k.zone, k.frequency, k.minute, now, PlanAt(k, t).value.latest);
  }

  // ----- one tick -----

  predicate Skips(row: Sched, p: Plan) { row.lastEmitted.Some? && row.lastEmitted.value >= p.latest }

  function Advanced(row: Sched, p: Plan, started: Time): Sched {
    row.(nextRunAt := p.next, lastEmitted := if Skips(row, p) then row.lastEmitted else Some(started))
  }

  /** The row's plan, and the row with it. */
  ghost predicate AdvancesTo(plan: Planner, s: State, id: ScheduleId, started: Time, now: Time, row': Sched)
    requires Known(s, id)
  {
    var row := s.schedules[id];
    var p := plan(s.accounts[row.account].zone, row.frequency, row.minute, now);
    p.Ok? && row' == Advanced(row, p.value, started)
  }

  lemma TickOneAdvances(plan: Planner, s: State, id: ScheduleId, job: JobId, started: Time, now: Time, other: ScheduleId)
    requires Known(s, id) && TickOne(plan, s, id, job, started, now).Ok?
    ensures var s' := TickOne(plan, s, id, job, started, now).value;
      && id in s'.schedules && AdvancesTo(plan, s, id, started, now, s'.schedules[id])
      && (other != id && other in s.schedules ==> other in s'.schedules && s'.schedules[other] == s.schedules[other])
  {
  }

  /** A tick finds each row as it was. */
  lemma RowUntilTicked(plan: Planner, s: State, due: seq<ScheduleId>, ids: seq<JobId>, started: Time, now: Time, n: nat) returns (before: State)
    requires |ids| == |due| && n < |due| && Distinct(due) && Unused(ids, s.jobs) && forall m :: 0 <= m < |due| ==> Known(s, due[m])
    requires TickFirst(plan, s, due, ids, started, now, n + 1).Ok?
    ensures TickFirst(plan, s, due, ids, started, now, n) == Ok(before) && before.accounts == s.accounts
    ensures Known(s, due[n]) && Known(before, due[n]) && before.schedules[due[n]] == s.schedules[due[n]]
  {
    before := TickFirst(plan, s, due, ids, started, now, n).value;
    TickProcesses(plan, s, due, ids, started, now, n);
    StillToDo(s, before, due, ids, n);
  }

  /** What a tick makes of one of its rows. */
  lemma {:induction false} TickedRow(plan: Planner, s: State, due: seq<ScheduleId>, ids: seq<JobId>, started: Time, now: Time, n: nat, i: nat)
    requires |ids| == |due| && i < n <= |due| && Distinct(due) && Unused(ids, s.jobs)
    requires Known(s, due[i]) && forall m :: 0 <= m < |due| ==> Known(s, due[m])
    requires TickFirst(plan, s, due, ids, started, now, n).Ok?
    ensures var s' := TickFirst(plan, s, due, ids, started, now, n).value;
      due[i] in s'.schedules && AdvancesTo(plan, s, due[i], started, now, s'.schedules[due[i]])
  {
    var before := RowUntilTicked(plan, s, due, ids, started, now, n - 1);
    TickOneAdvances(plan, before, due[n - 1], ids[n - 1], started, now, due[i]);
    if i < n - 1 {
      TickedRow(plan, s, due, ids, started, now, n - 1, i);
      assert due[i] != due[n - 1];
    }
  }

  /** The tick's job of a row is for its latest window, which it emits unless it skips. */
  lemma TickedWindow(s: State, k: Kept, due: seq<ScheduleId>, ids: seq<JobId>, started: Time, now: Time, i: nat)
    requires |ids| == |due| && i < |due| && due[i] == k.id && Distinct(due) && Unused(ids, s.jobs)
    requires Usable(k) && Holds(s, k) && forall m :: 0 <= m < |due| ==> Known(s, due[m])
    requires TickFirst(PlanOf, s, due, ids, started, now, |due|).Ok?
    ensures var s' := TickFirst(PlanOf, s, due, ids, started, now, |due|).value;
      && PlanAt(k, now).Ok? && Holds(s', k)
      && s'.schedules[k.id] == Advanced(s.schedules[k.id], PlanAt(k, now).value, started)
      && (!Skips(s.schedules[k.id], PlanAt(k, now).value) ==> Emitted(s', k, now))
      && (forall job: EmitJob :: KeyTaken(s.jobs, job) ==> KeyTaken(s'.jobs, job))
  {
    var s' := TickFirst(PlanOf, s, due, ids, started, now, |due|).value;
    TickProcesses(PlanOf, s, due, ids, started, now, |due|);
    TickedRow(PlanOf, s, due, ids, started, now, |due|, i);
    assert RowDone(PlanOf, s, s', due[i], ids[i], started, now);
    KeysStay(s, s', due[..|due|], ids[..|ids|]);
  }

  lemma KeysStay(s: State, s': State, rows: seq<ScheduleId>, ids: seq<JobId>)
    requires Frame(s, s', rows, ids)
    ensures forall job: EmitJob :: KeyTaken(s.jobs, job) ==> KeyTaken(s'.jobs, job)
  {
    forall job: EmitJob | KeyTaken(s.jobs, job) ensures KeyTaken(s'.jobs, job) {
      var id :| id in s.jobs && SameKey(s.jobs[id], job);
      assert SameKey(s'.jobs[id], job);
    }
  }

  // ----- runs -----

  predicate TicksRow(step: Step, id: ScheduleId) { step.Tick? && id in step.due }

  ghost predicate Commits(s: State, step: Step)
    requires step.Tick? && Enabled(s, step)
  {
    TickFirst(PlanOf, s, step.due, step.ids, step.started, step.now, |step.due|).Ok?
  }

  /** The step does not change the schedule itself. */
  predicate LeavesAlone(step: Step, k: Kept) {
    match step
    case Tick(_, _, _, _) => true
    case SetTimezone(account, _, _) => account != k.account
    case Upsert(id, _, _, _, _) => id != k.id
    case Disable(id) => id != k.id
    case SetAccount(account, _) => account != k.account
  }

  /** From step `from` on nobody changes the schedule, and its ticks read clocks that go forward, the
      database's no further ahead than the process's. */
  ghost predicate Undisturbed(steps: seq<Step>, from: nat, k: Kept) {
    && (forall i :: from <= i < |steps| ==> LeavesAlone(steps[i], k))
    && (forall i :: from <= i < |steps| && TicksRow(steps[i], k.id) ==> steps[i].started <= steps[i].now)
    && (forall i, j :: from <= i < j < |steps| && TicksRow(steps[i], k.id) && TicksRow(steps[j], k.id) ==> steps[i].now <= steps[j].now)
  }

  /** The row's stamp is no later than a time whose window has been emitted. */
  ghost predicate Backed(s: State, k: Kept, v: Time)
    requires k.id in s.schedules
  {
    s.schedules[k.id].lastEmitted.Some? ==> s.schedules[k.id].lastEmitted.value <= v && Emitted(s, k, v)
  }

  /** A step that does not tick the row. */
  lemma OtherStep(next: Nexter, s: State, step: Step, k: Kept)
    requires Enabled(s, step) && LeavesAlone(step, k) && Holds(s, k)
    requires !TicksRow(step, k.id) || !Commits(s, step)
    ensures var s' := Effect(PlanOf, next, s, step);
      Holds(s', k) && s'.schedules[k.id].lastEmitted == s.schedules[k.id].lastEmitted
      && forall job: EmitJob :: KeyTaken(s.jobs, job) ==> KeyTaken(s'.jobs, job)
  {
    KeysStayInStep(next, s, step);
    if step.Tick? && Commits(s, step) {
      TickProcesses(PlanOf, s, step.due, step.ids, step.started, step.now, |step.due|);
      assert step.due[..|step.due|] == step.due;
    }
  }

  /** A tick that commits has the row's latest window emitted, and the stamp backed. */
  lemma TickStep(next: Nexter, s: State, step: Step, k: Kept, v: Time)
    requires Usable(k) && TicksRow(step, k.id) && Enabled(s, step) && Commits(s, step) && Holds(s, k)
    requires step.started <= step.now && Backed(s, k, v) && (s.schedules[k.id].lastEmitted.Some? ==> v <= step.now)
    ensures var s' := Effect(PlanOf, next, s, step);
      Holds(s', k) && Emitted(s', k, step.now) && Backed(s', k, step.now)
      && forall job: EmitJob :: KeyTaken(s.jobs, job) ==> KeyTaken(s'.jobs, job)
  {
    var i :| 0 <= i < |step.due| && step.due[i] == k.id;
    TickedWindow(s, k, step.due, step.ids, step.started, step.now, i);
    if Skips(s.schedules[k.id], PlanAt(k, step.now).value) {
      SameWindow(k, v, step.now);
      EmittedAlike(s, Effect(PlanOf, next, s, step), k, v, step.now);
    }
  }

  lemma EmittedAlike(s: State, s': State, k: Kept, v: Time, now: Time)
    requires Emitted(s, k, v) && PlanAt(k, now).Ok? && PlanAt(k, v).value.period == PlanAt(k, now).value.period
    requires forall job: EmitJob :: KeyTaken(s.jobs, job) ==> KeyTaken(s'.jobs, job)
    ensures Emitted(s', k, now)
  {
    var job := EmitJob(k.account, k.frequency, PlanAt(k, v).value.period.value, v);
    assert KeyTaken(s'.jobs, job);
    var id :| id in s'.jobs && SameKey(s'.jobs[id], job);
    assert SameKey(s'.jobs[id], EmitJob(k.account, k.frequency, PlanAt(k, now).value.period.value, now));
  }

  /** Along a run the stamp stays backed, by a time no later than any tick to come. */
  lemma {:induction false} BackedAlong(next: Nexter, states: seq<State>, steps: seq<Step>, from: nat, k: Kept, m: nat) returns (v: Time)
    requires IsRun(PlanOf, next, states, steps) && from <= m < |states| && Usable(k) && Undisturbed(steps, from, k)
    requires Holds(states[from], k) && states[from].schedules[k.id].lastEmitted.None?
    ensures Holds(states[m], k) && Backed(states[m], k, v)
    ensures states[m].schedules[k.id].lastEmitted.Some? ==> forall i :: m <= i < |steps| && TicksRow(steps[i], k.id) ==> v <= steps[i].now
    decreases m
  {
    v := 0;
    if m > from {
      v := BackedAlong(next, states, steps, from, k, m - 1);
      var step := steps[m - 1];
      assert LeavesAlone(step, k);
      if TicksRow(step, k.id) && Commits(states[m - 1], step) {
        TickStep(next, states[m - 1], step, k, v);
        v := step.now;
      } else {
        OtherStep(next, states[m - 1], step, k);
        if states[m].schedules[k.id].lastEmitted.Some? {
          EmittedAlike(states[m - 1], states[m], k, v, v);
        }
      }
    }
  }

  lemma KeysStayInStep(next: Nexter, s: State, step: Step)
    requires Enabled(s, step)
    ensures forall job: EmitJob :: KeyTaken(s.jobs, job) ==> KeyTaken(Effect(PlanOf, next, s, step).jobs, job)
  {
    if step.Tick? && Commits(s, step) {
      TickProcesses(PlanOf, s, step.due, step.ids, step.started, step.now, |step.due|);
      KeysStay(s, Effect(PlanOf, next, s, step), step.due[..|step.due|], step.ids[..|step.ids|]);
    }
  }

  lemma {:induction false} EmittedStays(next: Nexter, states: seq<State>, steps: seq<Step>, k: Kept, t: Time, m: nat, n: nat)
    requires IsRun(PlanOf, next, states, steps) && m <= n < |states| && Emitted(states[m], k, t)
    ensures Emitted(states[n], k, t)
    decreases n
  {
    if n > m {
      EmittedStays(next, states, steps, k, t, m, n - 1);
      KeysStayInStep(next, states[n - 1], steps[n - 1]);
      EmittedAlike(states[n - 1], states[n], k, t, t);
    }
  }

  /** No window is lost that a tick follows before the next delivery: once a tick at `now` has committed,
      the window of the last delivery up to `now` has its emit job, in every later state. */
  lemma TickedWindowIsEmitted(next: Nexter, states: seq<State>, steps: seq<Step>, from: nat, k: Kept, m: nat, n: nat)
    requires IsRun(PlanOf, next, states, steps) && from <= m < n < |states| && Usable(k) && Undisturbed(steps, from, k)
    requires Holds(states[from], k) && states[from].schedules[k.id].lastEmitted.None?
    requires TicksRow(steps[m], k.id) && Enabled(states[m], steps[m]) && Commits(states[m], steps[m])
    ensures Emitted(states[n], k, steps[m].now)
  {
    var v := BackedAlong(next, states, steps, from, k, m);
    TickStep(next, states[m], steps[m], k, v);
    EmittedStays(next, states, steps, k, steps[m].now, m + 1, n);
  }

  // ----- a database clock ahead -----

  /** A tick emits the row's latest window exactly if it was emitted already or the row's stamp is before
      that delivery; so a stamp from a database clock ahead of the process's loses the window. */
  lemma TickEmitsExactly(s: State, k: Kept, job: JobId, started: Time, now: Time)
    requires Usable(k) && Holds(s, k) && job !in s.jobs && TickOne(PlanOf, s, k.id, job, started, now).Ok?
    ensures PlanAt(k, now).Ok?
    ensures Emitted(TickOne(PlanOf, s, k.id, job, started, now).value, k, now)
            <==> Emitted(s, k, now) || !Skips(s.schedules[k.id], PlanAt(k, now).value)
  {
    PlanIsRight(k.zone, k.frequency, k.minute, now, now);
    var s' := TickOne(PlanOf, s, k.id, job, started, now).value;
    if !Skips(s.schedules[k.id], PlanAt(k, now).value) {
      TickOneFrame(PlanOf, s, k.id, job, started, now);
    }
  }

  /** A first tick just before a delivery, whose transaction's clock reads just after it, and a second one
      after it: the delivery's window gets no emit job from either. */
  lemma DatabaseAheadLosesWindow(s: State, k: Kept, job: JobId, job': JobId, started: Time, now: Time, started': Time, now': Time)
    requires Usable(k) && Holds(s, k) && s.schedules[k.id].lastEmitted.None? && job !in s.jobs && job' !in s.jobs && job != job'
    requires TickOne(PlanOf, s, k.id, job, started, now).Ok?
    requires PlanAt(k, now').Ok? && PlanAt(k, now').value.period.Ok? && now < PlanAt(k, now').value.latest <= started
    requires PlanAt(k, now).Ok? && PlanAt(k, now).value.period.Ok? && !Emitted(s, k, now')
    requires PlanAt(k, now).value.period.value.start != PlanAt(k, now').value.period.value.start
    ensures var s1 := TickOne(PlanOf, s, k.id, job, started, now).value; var r := TickOne(PlanOf, s1, k.id, job', started', now');
      r.Ok? && !Emitted(r.value, k, now')
  {
    var s1 := TickOne(PlanOf, s, k.id, job, started, now).value;
    TickOneAdvances(PlanOf, s, k.id, job, started, now, k.id);
    assert Holds(s1, k) && s1.schedules[k.id].lastEmitted == Some(started);
    assert !Emitted(s1, k, now');
  }
}
