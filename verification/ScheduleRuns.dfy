/** What the commands do to schedules in zones where deliveries are in order, and which rows may emit. */
module ScheduleRuns {
  import opened Base
  import opened Calendar
  import opened Zones
  import opened Schedule
  import opened Scheduler

  /** `next_delivery`, on what a timezone name parses to. */
  function NextFor(zone: Option<Zone>, f: Frequency, minute: int, now: Time): Result<Time, ScheduleError> {
    if !ValidMinute(minute) then Err(InvalidDeliveryMinute) else if zone.None? then Err(InvalidTimezone)
    else NextOf(zone.value, now, f, minute)
  }

  /** The first delivery after `now`. */
  ghost predicate IsFirstAfter(z: Zone, f: Frequency, minute: int, now: Time, t: Time) {
    && now < t && IsScheduled(z, f, minute, t)
    && forall u :: IsScheduled(z, f, minute, u) && now < u ==> t <= u
  }

  lemma NextIsFirstAfter(z: Zone, f: Frequency, minute: int, now: Time)
    requires ValidMinute(minute) && Regular(z, minute)
    ensures NextFor(Some(z), f, minute, now).Ok? && IsFirstAfter(z, f, minute, now, NextFor(Some(z), f, minute, now).value)
  {
    var t := NextOf(z, now, f, minute);
    NextIsLeast(z, now, f, minute, 0);
    forall u | IsScheduled(z, f, minute, u) && now < u ensures t.value <= u {
      NextIsLeast(z, now, f, minute, u);
    }
  }

  /** The account's enabled schedules, which are all in order in the zone. */
  ghost predicate InOrder(s: State, account: AccountId, z: Zone) {
    forall id :: id in s.schedules && s.schedules[id].account == account && s.schedules[id].enabled ==>
      ValidMinute(s.schedules[id].minute) && Regular(z, s.schedules[id].minute)
  }

  /** A change of timezone moves every enabled schedule of the account to its first delivery after `now` in the
      new zone, and touches nothing else. */
  lemma TimezoneChangeReschedules(s: State, account: AccountId, z: Zone, now: Time, id: ScheduleId)
    requires account in s.accounts && id in s.schedules && InOrder(s, account, z)
    ensures var s' := Effect(PlanOf, NextFor, s, SetTimezone(account, Some(z), now)); var row := s.schedules[id];
      && s'.accounts == s.accounts[account := Account(Some(z), s.accounts[account].active)] && s'.jobs == s.jobs
      && s'.schedules.Keys == s.schedules.Keys
      && (row.account == account && row.enabled ==>
            s'.schedules[id] == row.(nextRunAt := s'.schedules[id].nextRunAt)
            && IsFirstAfter(z, row.frequency, row.minute, now, s'.schedules[id].nextRunAt))
      && (!(row.account == account && row.enabled) ==> s'.schedules[id] == row)
  {
    forall k | k in s.schedules && Follows(s.schedules[k], account)
      ensures NextFor(Some(z), s.schedules[k].frequency, s.schedules[k].minute, now).Ok?
    {
      NextIsFirstAfter(z, s.schedules[k].frequency, s.schedules[k].minute, now);
    }
    if Follows(s.schedules[id], account) {
      NextIsFirstAfter(z, s.schedules[id].frequency, s.schedules[id].minute, now);
    }
  }

  /** A timezone that does not parse is refused. */
  lemma UnknownTimezoneIsRefused(s: State, account: AccountId, now: Time)
    requires account in s.accounts
    ensures Effect(PlanOf, NextFor, s, SetTimezone(account, None, now)) == s
  {
  }

  /** Setting a schedule enables it for its first delivery after `now`; one that was there keeps when it last
      emitted. A minute out of range, or an account without a zone, changes nothing. */
  lemma UpsertSchedules(s: State, id: ScheduleId, account: AccountId, f: Frequency, minute: int, now: Time)
    requires Scheduler.Enabled(s, Upsert(id, account, f, minute, now))
    ensures var s' := Effect(PlanOf, NextFor, s, Upsert(id, account, f, minute, now)); var zone := s.accounts[account].zone;
      && ((minute < 0 || minute > 1439 || zone.None?) ==> s' == s)
      && (0 <= minute <= 1439 && zone.Some? && Regular(zone.value, minute) ==>
            && id in s'.schedules && s' == s.(schedules := s.schedules[id := s'.schedules[id]])
            && IsFirstAfter(zone.value, f, minute, now, s'.schedules[id].nextRunAt)
            && s'.schedules[id] == Sched(account, f, minute, true, s'.schedules[id].nextRunAt,
                                         if id in s.schedules then s.schedules[id].lastEmitted else None))
  {
    var zone := s.accounts[account].zone;
    if ValidMinute(minute) && zone.Some? && Regular(zone.value, minute) {
      NextIsFirstAfter(zone.value, f, minute, now);
    }
  }

  /** An account has one schedule of a frequency. */
  ghost predicate OneEach(schedules: map<ScheduleId, Sched>) {
    forall a, b :: a in schedules && b in schedules && IsFor(schedules[a], schedules[b].account, schedules[b].frequency) ==> a == b
  }

  lemma TickKeepsCadence(s: State, step: Step)
    requires Enabled(s, step) && step.Tick?
    ensures var s' := Effect(PlanOf, NextFor, s, step);
      s'.schedules.Keys == s.schedules.Keys
      && forall id :: id in s.schedules ==> IsFor(s'.schedules[id], s.schedules[id].account, s.schedules[id].frequency)
  {
    var s' := Effect(PlanOf, NextFor, s, step);
    if TickFirst(PlanOf, s, step.due, step.ids, step.started, step.now, |step.due|).Ok? {
      TickProcesses(PlanOf, s, step.due, step.ids, step.started, step.now, |step.due|);
      assert step.due[..|step.due|] == step.due;
      forall id | id in s.schedules ensures IsFor(s'.schedules[id], s.schedules[id].account, s.schedules[id].frequency) {
        if id in step.due {
          var i :| 0 <= i < |step.due| && step.due[i] == id;
          assert RowDone(PlanOf, s, s', step.due[i], step.ids[i], step.started, step.now);
        }
      }
    }
  }

  lemma StepKeepsOneEach(s: State, step: Step)
    requires Enabled(s, step) && OneEach(s.schedules)
    ensures OneEach(Effect(PlanOf, NextFor, s, step).schedules)
  {
    if step.Tick? {
      TickKeepsCadence(s, step);
    }
  }

  /** In every run that starts so, an account has one schedule of each frequency at most. */
  lemma {:induction false} OneSchedulePerCadence(states: seq<State>, steps: seq<Step>, m: nat)
    requires IsRun(PlanOf, NextFor, states, steps) && m < |states| && OneEach(states[0].schedules)
    ensures OneEach(states[m].schedules)
  {
    if m > 0 {
      OneSchedulePerCadence(states, steps, m - 1);
      StepKeepsOneEach(states[m - 1], steps[m - 1]);
    }
  }

  predicate IsOff(s: State, id: ScheduleId) { id in s.schedules && !s.schedules[id].enabled }

  lemma StepKeepsOff(s: State, step: Step, id: ScheduleId)
    requires Enabled(s, step) && IsOff(s, id) && !(step.Upsert? && step.id == id)
    ensures IsOff(Effect(PlanOf, NextFor, s, step), id)
    ensures step.Tick? ==> id !in step.due
  {
    if step.Tick? && TickFirst(PlanOf, s, step.due, step.ids, step.started, step.now, |step.due|).Ok? {
      TickProcesses(PlanOf, s, step.due, step.ids, step.started, step.now, |step.due|);
      assert step.due[..|step.due|] == step.due;
    }
  }

  /** A disabled schedule is in no tick until it is set again, whatever happens in between. */
  lemma {:induction false} DisabledStaysOff(states: seq<State>, steps: seq<Step>, k: nat, m: nat, id: ScheduleId)
    requires IsRun(PlanOf, NextFor, states, steps) && k < m < |states| && steps[k] == Disable(id)
    requires forall i :: k < i < |steps| && i <= m ==> !(steps[i].Upsert? && steps[i].id == id)
    ensures IsOff(states[m], id)
    ensures m < |steps| && steps[m].Tick? ==> id !in steps[m].due
    decreases m
  {
    if m > k + 1 {
      DisabledStaysOff(states, steps, k, m - 1, id);
      StepKeepsOff(states[m - 1], steps[m - 1], id);
    }
    if m < |steps| {
      StepKeepsOff(states[m], steps[m], id);
    }
  }

  /** The row may emit: it is enabled, its time has come, and its account is active. */
  predicate MayEmit(s: State, row: Sched, started: Time) {
    row.enabled && row.nextRunAt <= started && row.account in s.accounts && s.accounts[row.account].active
  }

  /** The tick's `i`-th row made the job. */
  ghost predicate MadeBy(s: State, step: Step, i: nat, id: JobId, job: EmitJob) {
    && step.Tick? && i < |step.due| == |step.ids| && step.ids[i] == id && step.due[i] in s.schedules
    && var row := s.schedules[step.due[i]];
       MayEmit(s, row, step.started) && job.account == row.account && job.frequency == row.frequency && job.at == step.now
  }

  lemma TickMakes(s: State, s': State, due: seq<ScheduleId>, ids: seq<JobId>, started: Time, now: Time, id: JobId) returns (i: nat)
    requires |ids| == |due| && Distinct(due) && Unused(ids, s.jobs) && forall k :: 0 <= k < |due| ==> Known(s, due[k])
    requires TickFirst(PlanOf, s, due, ids, started, now, |due|) == Ok(s') && id !in s.jobs && id in s'.jobs
    ensures i < |due| && ids[i] == id && Emits(PlanOf, s, due[i], s'.jobs[id], now)
  {
    TickProcesses(PlanOf, s, due, ids, started, now, |due|);
    assert ids[..|ids|] == ids;
    i :| 0 <= i < |ids| && ids[i] == id;
    assert RowDone(PlanOf, s, s', due[i], ids[i], started, now);
  }

  lemma NewJobIsMade(s: State, step: Step, id: JobId) returns (i: nat)
    requires Enabled(s, step) && id !in s.jobs && id in Effect(PlanOf, NextFor, s, step).jobs
    ensures MadeBy(s, step, i, id, Effect(PlanOf, NextFor, s, step).jobs[id])
  {
    i := TickMakes(s, Effect(PlanOf, NextFor, s, step), step.due, step.ids, step.started, step.now, id);
    assert IsDue(s, step.due[i], step.started);
  }

  /** In every run, a new emit job comes from a tick, for a schedule that is enabled, due and of an active
      account at that moment. */
  lemma OnlyDueSchedulesEmit(states: seq<State>, steps: seq<Step>, m: nat, id: JobId) returns (i: nat)
    requires IsRun(PlanOf, NextFor, states, steps) && m < |steps| && id !in states[m].jobs && id in states[m + 1].jobs
    ensures MadeBy(states[m], steps[m], i, id, states[m + 1].jobs[id])
  {
    i := NewJobIsMade(states[m], steps[m], id);
  }
}
