/** The scheduler: ticks that turn due summary schedules into emit jobs, beside the commands that
    change schedules and timezones.

    Of the job queue only the emit jobs are kept, as the account, frequency and period they carry;
    `EnqueuedIsWithJob` ties them to the queue's rows and their text keys. */
module Scheduler {
  import opened Base
  import opened Calendar
  import opened Zones
  import opened Schedule
  import opened Periods
  import Queue = WorkQueue

  type AccountId = nat
  type ScheduleId = nat
  type JobId = nat

  /** `zone` is what the account's timezone name parses to. */
  datatype Account = Account(zone: Option<Zone>, active: bool)

  datatype Sched = Sched(account: AccountId, frequency: Frequency, minute: int, enabled: bool,
                         nextRunAt: Time, lastEmitted: Option<Time>)

  datatype EmitJob = EmitJob(account: AccountId, frequency: Frequency, period: Period, at: Time)

  datatype State = State(accounts: map<AccountId, Account>, schedules: map<ScheduleId, Sched>, jobs: map<JobId, EmitJob>)

  /** The two have one dedupe key. */
  predicate SameKey(a: EmitJob, b: EmitJob) {
    a.account == b.account && a.frequency == b.frequency && a.period.start == b.period.start
  }

  predicate KeyTaken(jobs: map<JobId, EmitJob>, job: EmitJob) {
    exists id :: id in jobs && SameKey(jobs[id], job)
  }

  function Enqueued(jobs: map<JobId, EmitJob>, id: JobId, job: EmitJob): map<JobId, EmitJob> {
    if KeyTaken(jobs, job) then jobs else jobs[id := job]
  }

  // ----- the queue's rows -----

  /** How account ids and instants are written out. */
  datatype Format = Format(account: AccountId -> string, instant: Time -> string)

  /** Each value has a text of its own; an account's holds no colon, and a key fits its column. */
  ghost predicate ValidFormat(fmt: Format) {
    && (forall a, b :: fmt.account(a) == fmt.account(b) ==> a == b)
    && (forall t, u :: fmt.instant(t) == fmt.instant(u) ==> t == u)
    && (forall a :: ':' !in fmt.account(a) && |fmt.account(a)| <= 64)
    && (forall t :: |fmt.instant(t)| <= 64)
  }

  function FrequencyText(f: Frequency): (s: string)
    ensures ':' !in s && |s| <= 7
  {
    match f
    case Daily => "daily"
    case Weekly => "weekly"
    case Monthly => "monthly"
  }

  /** `schedule_emit_dedupe_key` */
  function DedupeKey(fmt: Format, job: EmitJob): string {
    "schedule.emit:" + (fmt.account(job.account) + (":" + (FrequencyText(job.frequency) + (":" + fmt.instant(job.period.start)))))
  }

  lemma ColonAt(a: string, rest: string, i: nat)
    requires ':' !in a && i <= |a|
    ensures (a + (":" + rest))[i] == ':' <==> i == |a|
  {
  }

  lemma SplitsAtColon(a: string, b: string, rest: string, rest': string)
    requires ':' !in a && ':' !in b && a + (":" + rest) == b + (":" + rest')
    ensures a == b && rest == rest'
  {
    var i := if |a| <= |b| then |a| else |b|;
    ColonAt(a, rest, i);
    ColonAt(b, rest', i);
    var s, t := a + (":" + rest), b + (":" + rest');
    assert s[..|a|] == a && t[..|b|] == b && s[|a| + 1..] == rest && t[|b| + 1..] == rest';
  }

  /** Two emit jobs have one key exactly when they are for one account, frequency and period start. */
  lemma KeyIsInjective(fmt: Format, a: EmitJob, b: EmitJob)
    requires ValidFormat(fmt)
    ensures DedupeKey(fmt, a) == DedupeKey(fmt, b) <==> SameKey(a, b)
  {
    if DedupeKey(fmt, a) == DedupeKey(fmt, b) {
      var start := "schedule.emit:";
      assert DedupeKey(fmt, a)[|start|..] == DedupeKey(fmt, b)[|start|..];
      var fa, fb := FrequencyText(a.frequency), FrequencyText(b.frequency);
      var ia, ib := fmt.instant(a.period.start), fmt.instant(b.period.start);
      SplitsAtColon(fmt.account(a.account), fmt.account(b.account), fa + (":" + ia), fb + (":" + ib));
      SplitsAtColon(fa, fb, ia, ib);
      assert |"daily"| == 5 && |"weekly"| == 6 && |"monthly"| == 7;
    }
  }

  function EmitRequest(fmt: Format, job: EmitJob): Queue.EnqueueRequest {
    Queue.EnqueueRequest("schedule.emit", 1, None, DedupeKey(fmt, job), Some("account:" + fmt.account(job.account)), 0, job.at, 10)
  }

  /** The rows of the emit jobs, as they were enqueued. */
  ghost function Rows(fmt: Format, jobs: map<JobId, EmitJob>): Queue.Jobs {
    map id | id in jobs :: Queue.NewJob(EmitRequest(fmt, jobs[id]), jobs[id].at)
  }

  lemma EmitRequestIsValid(fmt: Format, job: EmitJob)
    requires ValidFormat(fmt)
    ensures Queue.ValidRequest(EmitRequest(fmt, job))
  {
    var r := EmitRequest(fmt, job);
    assert r.jobType[0] == 's' && r.dedupeKey[0] == 's' && r.serKey.value[0] == 'a';
    assert 's' in r.jobType && 's' in r.dedupeKey && 'a' in r.serKey.value;
  }

  lemma KeysTakenAlike(fmt: Format, jobs: map<JobId, EmitJob>, job: EmitJob)
    requires ValidFormat(fmt)
    ensures Queue.DedupeKeyTaken(Rows(fmt, jobs), DedupeKey(fmt, job)) <==> KeyTaken(jobs, job)
  {
    forall id | id in jobs ensures Rows(fmt, jobs)[id].dedupeKey == DedupeKey(fmt, job) <==> SameKey(jobs[id], job) {
      KeyIsInjective(fmt, jobs[id], job);
    }
  }

  /** A queued row of the account's serialization key, to run at once. */
  predicate IsEmitRow(fmt: Format, row: Queue.Job, job: EmitJob) {
    && row.jobType == "schedule.emit" && row.payloadVersion == 1 && row.state.Queued? && row.runAt == job.at
    && row.serKey == Some("account:" + fmt.account(job.account)) && row.priority == 0 && row.maxAttempts == 10 && row.attemptCount == 0
    && row.dedupeKey == "schedule.emit:" + fmt.account(job.account) + ":" + FrequencyText(job.frequency) + ":" + fmt.instant(job.period.start)
  }

  lemma EmitRowIs(fmt: Format, jobs: map<JobId, EmitJob>, id: JobId)
    requires id in jobs
    ensures id in Rows(fmt, jobs) && IsEmitRow(fmt, Rows(fmt, jobs)[id], jobs[id])
  {
    var job := jobs[id];
    var a, f, t := fmt.account(job.account), FrequencyText(job.frequency), fmt.instant(job.period.start);
    assert "schedule.emit:" + (a + (":" + (f + (":" + t)))) == "schedule.emit:" + a + ":" + f + ":" + t;
  }

  /** Enqueueing an emit job is the queue's own insert under the text key. */
  lemma EnqueuedIsWithJob(fmt: Format, jobs: map<JobId, EmitJob>, id: JobId, job: EmitJob)
    requires ValidFormat(fmt)
    ensures Rows(fmt, Enqueued(jobs, id, job)) == Queue.WithJob(Rows(fmt, jobs), id, EmitRequest(fmt, job), job.at)
  {
    EmitRequestIsValid(fmt, job);
    KeysTakenAlike(fmt, jobs, job);
  }

  /** What a tick finds out about a row: the latest delivery, the next one, and the period to report. */
  datatype Plan = Plan(latest: Time, next: Time, period: Result<Period, ScheduleError>)

  type Planner = (Option<Zone>, Frequency, int, Time) -> Result<Plan, ScheduleError>

  function PlanOf(zone: Option<Zone>, f: Frequency, minute: int, now: Time): Result<Plan, ScheduleError> {
    if !ValidMinute(minute) then Err(InvalidDeliveryMinute)
    else if zone.None? then Err(InvalidTimezone)
    else
      var latest := LatestOf(zone.value, now, f, minute);
      var next := NextOf(zone.value, now, f, minute);
      if latest.Err? then Err(latest.error)
      else if next.Err? then Err(next.error)
      else Ok(Plan(latest.value, next.value, ScheduledPeriod(zone.value, f, latest.value)))
  }

  /** The tick's query: enabled, due, and the account active. */
  predicate IsDue(s: State, id: ScheduleId, started: Time) {
    && id in s.schedules && s.schedules[id].enabled && s.schedules[id].nextRunAt <= started
    && s.schedules[id].account in s.accounts && s.accounts[s.schedules[id].account].active
  }

  predicate Known(s: State, id: ScheduleId) { id in s.schedules && s.schedules[id].account in s.accounts }

  /** One due row of a tick. `started` is the transaction's clock, `now` the process's. */
  function TickOne(plan: Planner, s: State, id: ScheduleId, job: JobId, started: Time, now: Time): Result<State, ScheduleError> {
    if !Known(s, id) then Ok(s) else
    var row := s.schedules[id];
    var p := plan(s.accounts[row.account].zone, row.frequency, row.minute, now);
    if p.Err? then Err(p.error)
    else if row.lastEmitted.Some? && row.lastEmitted.value >= p.value.latest then
      Ok(s.(schedules := s.schedules[id := row.(nextRunAt := p.value.next)]))
    else if p.value.period.Err? then Err(p.value.period.error)
    else Ok(s.(schedules := s.schedules[id := row.(nextRunAt := p.value.next, lastEmitted := Some(started))],
               jobs := Enqueued(s.jobs, job, EmitJob(row.account, row.frequency, p.value.period.value, now))))
  }

  /** A tick after its first `n` rows; the first error ends it. */
  function TickFirst(plan: Planner, s: State, due: seq<ScheduleId>, ids: seq<JobId>, started: Time, now: Time, n: nat): Result<State, ScheduleError>
    requires |ids| == |due| && n <= |due|
  {
    if n == 0 then Ok(s)
    else
      var before := TickFirst(plan, s, due, ids, started, now, n - 1);
      if before.Err? then before else TickOne(plan, before.value, due[n - 1], ids[n - 1], started, now)
  }

  lemma {:induction false} ErrorsStay(plan: Planner, s: State, due: seq<ScheduleId>, ids: seq<JobId>, started: Time, now: Time, n: nat, m: nat)
    requires |ids| == |due| && n <= m <= |due| && TickFirst(plan, s, due, ids, started, now, n).Err?
    ensures TickFirst(plan, s, due, ids, started, now, m).Err?
    decreases m
  {
    if m > n {
      ErrorsStay(plan, s, due, ids, started, now, n, m - 1);
    }
  }

  class Store {
    var accounts: map<AccountId, Account>
    var schedules: map<ScheduleId, Sched>
    var jobs: map<JobId, EmitJob>

    function View(): State
      reads this
    {
      State(accounts, schedules, jobs)
    }

    /** `scheduler_tick`, for the rows its query picked: all of them, or on any error none. */
    method Tick(due: seq<ScheduleId>, ids: seq<JobId>, started: Time, now: Time) returns (ok: bool)
      requires |ids| == |due| && forall i :: 0 <= i < |due| ==> IsDue(View(), due[i], started)
      modifies this
      ensures ok <==> TickFirst(PlanOf, old(View()), due, ids, started, now, |due|).Ok?
      ensures View() == if ok then TickFirst(PlanOf, old(View()), due, ids, started, now, |due|).value else old(View())
    {
      var saved := View();
      for n := 0 to |due|
        invariant TickFirst(PlanOf, saved, due, ids, started, now, n) == Ok(View())
      {
        var done := TickRow(due[n], ids[n], started, now);
        if !done {
          ErrorsStay(PlanOf, saved, due, ids, started, now, n + 1, |due|);
          accounts, schedules, jobs := saved.accounts, saved.schedules, saved.jobs;
          return false;
        }
      }
      return true;
    }

    /** The statements of one row. */
    method TickRow(id: ScheduleId, job: JobId, started: Time, now: Time) returns (done: bool)
      modifies this
      ensures done <==> TickOne(PlanOf, old(View()), id, job, started, now).Ok?
      ensures done ==> View() == TickOne(PlanOf, old(View()), id, job, started, now).value
    {
      if !Known(View(), id) {
        return true;
      }
      var row := schedules[id];
      var zone := accounts[row.account].zone;
      var latest := LatestDelivery(now, zone, row.frequency, row.minute);
      if latest.Err? {
        return false;
      }
      var next := NextDelivery(now, zone, row.frequency, row.minute);
      if next.Err? {
        return false;
      }
      var skip := row.lastEmitted.Some? && row.lastEmitted.value >= latest.value;
      if !skip {
        var period := ScheduledPeriod(zone.value, row.frequency, latest.value);
        if period.Err? {
          return false;
        }
        var emit := EmitJob(row.account, row.frequency, period.value, now);
        if !KeyTaken(jobs, emit) {
          jobs := jobs[job := emit];
        }
      }
      schedules := schedules[id := row.(nextRunAt := next.value, lastEmitted := if skip then row.lastEmitted else Some(started))];
      return true;
    }
  }

  // ----- one tick -----

  ghost predicate Distinct(ids: seq<nat>) {
    forall i, k :: 0 <= i < k < |ids| ==> ids[i] != ids[k]
  }

  /** What the tick made of a row it processed. */
  ghost predicate Processed(plan: Planner, s: State, s': State, id: ScheduleId, started: Time, now: Time) {
    Known(s, id) && id in s'.schedules
    && var row := s.schedules[id];
       var p := plan(s.accounts[row.account].zone, row.frequency, row.minute, now);
       && p.Ok?
       && var skip := row.lastEmitted.Some? && row.lastEmitted.value >= p.value.latest;
          && s'.schedules[id] == row.(nextRunAt := p.value.next, lastEmitted := if skip then row.lastEmitted else Some(started))
          && (skip || (p.value.period.Ok? && KeyTaken(s'.jobs, EmitJob(row.account, row.frequency, p.value.period.value, now))))
  }

  /** Other rows, and the jobs there were, are as before; new jobs have the given ids. */
  ghost predicate Frame(s: State, s': State, rows: seq<ScheduleId>, ids: seq<JobId>) {
    && s'.accounts == s.accounts && s'.schedules.Keys == s.schedules.Keys
    && (forall k :: k in s.schedules && k !in rows ==> s'.schedules[k] == s.schedules[k])
    && (forall k :: k in s.jobs ==> k in s'.jobs && s'.jobs[k] == s.jobs[k])
    && (forall k :: k in s'.jobs ==> k in s.jobs || k in ids)
  }

  lemma TickOneFrame(plan: Planner, s: State, id: ScheduleId, job: JobId, started: Time, now: Time)
    requires TickOne(plan, s, id, job, started, now).Ok? && job !in s.jobs
    ensures var s' := TickOne(plan, s, id, job, started, now).value;
      && Frame(s, s', [id], [job])
      && (Known(s, id) ==> Processed(plan, s, s', id, started, now))
      && (job in s'.jobs ==> Known(s, id) && Emits(plan, s, id, s'.jobs[job], now))
  {
    if Known(s, id) {
      var row := s.schedules[id];
      var p := plan(s.accounts[row.account].zone, row.frequency, row.minute, now);
      var s' := TickOne(plan, s, id, job, started, now).value;
      if !(row.lastEmitted.Some? && row.lastEmitted.value >= p.value.latest) {
        var emit := EmitJob(row.account, row.frequency, p.value.period.value, now);
        if !KeyTaken(s.jobs, emit) {
          assert SameKey(s'.jobs[job], emit);
        }
      }
    }
  }

  /** The job reports the row's latest missed window, which had not been emitted. */
  ghost predicate Emits(plan: Planner, s: State, id: ScheduleId, job: EmitJob, now: Time)
    requires Known(s, id)
  {
    var row := s.schedules[id];
    var p := plan(s.accounts[row.account].zone, row.frequency, row.minute, now);
    && p.Ok? && !(row.lastEmitted.Some? && row.lastEmitted.value >= p.value.latest)
    && p.value.period.Ok? && job == EmitJob(row.account, row.frequency, p.value.period.value, now)
  }

  ghost predicate Unused(ids: seq<JobId>, jobs: map<JobId, EmitJob>) {
    Distinct(ids) && forall i :: 0 <= i < |ids| ==> ids[i] !in jobs
  }

  ghost predicate RowDone(plan: Planner, s: State, s': State, id: ScheduleId, job: JobId, started: Time, now: Time) {
    Processed(plan, s, s', id, started, now) && (job in s'.jobs ==> Emits(plan, s, id, s'.jobs[job], now))
  }

  /** A tick that commits has processed each of its rows, and every job it adds is one row's latest
      missed window: at most one job a row, none for any earlier window. */
  lemma {:induction false} TickProcesses(plan: Planner, s: State, due: seq<ScheduleId>, ids: seq<JobId>, started: Time, now: Time, n: nat)
    requires |ids| == |due| && n <= |due| && Distinct(due) && Unused(ids, s.jobs)
    requires forall i :: 0 <= i < |due| ==> Known(s, due[i])
    requires TickFirst(plan, s, due, ids, started, now, n).Ok?
    ensures var s' := TickFirst(plan, s, due, ids, started, now, n).value;
      Frame(s, s', due[..n], ids[..n]) && forall i :: 0 <= i < n ==> RowDone(plan, s, s', due[i], ids[i], started, now)
  {
    if n > 0 {
      TickProcesses(plan, s, due, ids, started, now, n - 1);
      OneMoreRow(plan, s, due, ids, started, now, n - 1);
    }
  }

  lemma OneMoreRow(plan: Planner, s: State, due: seq<ScheduleId>, ids: seq<JobId>, started: Time, now: Time, n: nat)
    requires |ids| == |due| && n < |due| && Distinct(due) && Unused(ids, s.jobs) && Known(s, due[n])
    requires TickFirst(plan, s, due, ids, started, now, n + 1).Ok?
    requires TickFirst(plan, s, due, ids, started, now, n).Ok?
    requires var before := TickFirst(plan, s, due, ids, started, now, n).value;
      Frame(s, before, due[..n], ids[..n]) && forall i :: 0 <= i < n ==> RowDone(plan, s, before, due[i], ids[i], started, now)
    ensures var s' := TickFirst(plan, s, due, ids, started, now, n + 1).value;
      Frame(s, s', due[..n + 1], ids[..n + 1]) && forall i :: 0 <= i < n + 1 ==> RowDone(plan, s, s', due[i], ids[i], started, now)
  {
    var before := TickFirst(plan, s, due, ids, started, now, n).value;
    StillToDo(s, before, due, ids, n);
    TickOneFrame(plan, before, due[n], ids[n], started, now);
    RowAdded(plan, s, before, TickOne(plan, before, due[n], ids[n], started, now).value, due, ids, started, now, n);
  }

  lemma StillToDo(s: State, before: State, due: seq<ScheduleId>, ids: seq<JobId>, n: nat)
    requires |ids| == |due| && n < |due| && Distinct(due) && Unused(ids, s.jobs) && Known(s, due[n])
    requires Frame(s, before, due[..n], ids[..n])
    ensures Known(before, due[n]) && before.schedules[due[n]] == s.schedules[due[n]] && ids[n] !in before.jobs
  {
    assert due[n] !in due[..n] && ids[n] !in ids[..n];
  }

  lemma RowAdded(plan: Planner, s: State, before: State, after: State, due: seq<ScheduleId>, ids: seq<JobId>, started: Time, now: Time, n: nat)
    requires |ids| == |due| && n < |due| && Distinct(due) && Distinct(ids) && Known(s, due[n])
    requires Frame(s, before, due[..n], ids[..n]) && forall i :: 0 <= i < n ==> RowDone(plan, s, before, due[i], ids[i], started, now)
    requires Known(before, due[n]) && before.schedules[due[n]] == s.schedules[due[n]]
    requires Frame(before, after, [due[n]], [ids[n]]) && Processed(plan, before, after, due[n], started, now)
    requires ids[n] in after.jobs ==> Emits(plan, before, due[n], after.jobs[ids[n]], now)
    ensures Frame(s, after, due[..n + 1], ids[..n + 1]) && forall i :: 0 <= i < n + 1 ==> RowDone(plan, s, after, due[i], ids[i], started, now)
  {
    assert due[..n + 1] == due[..n] + [due[n]] && ids[..n + 1] == ids[..n] + [ids[n]];
    FrameGrows(s, before, after, due[..n], ids[..n], due[n], ids[n]);
    EarlierRowsStayDone(plan, s, before, after, due, ids, started, now, n);
    NewRowDone(plan, s, before, after, due[n], ids[n], started, now);
  }

  lemma EarlierRowsStayDone(plan: Planner, s: State, before: State, after: State, due: seq<ScheduleId>, ids: seq<JobId>, started: Time, now: Time, n: nat)
    requires |ids| == |due| && n < |due| && Distinct(due) && Distinct(ids) && Frame(before, after, [due[n]], [ids[n]])
    requires forall i :: 0 <= i < n ==> RowDone(plan, s, before, due[i], ids[i], started, now)
    ensures forall i :: 0 <= i < n ==> RowDone(plan, s, after, due[i], ids[i], started, now)
  {
    forall i | 0 <= i < n ensures RowDone(plan, s, after, due[i], ids[i], started, now) {
      RowStaysDone(plan, s, before, after, due[i], ids[i], due[n], ids[n], started, now);
    }
  }

  lemma FrameGrows(s: State, before: State, after: State, rows: seq<ScheduleId>, ids: seq<JobId>, id: ScheduleId, job: JobId)
    requires Frame(s, before, rows, ids) && Frame(before, after, [id], [job])
    ensures Frame(s, after, rows + [id], ids + [job])
  {
  }

  lemma NewRowDone(plan: Planner, s: State, before: State, after: State, id: ScheduleId, job: JobId, started: Time, now: Time)
    requires Known(s, id) && Known(before, id) && before.accounts == s.accounts && before.schedules[id] == s.schedules[id]
    requires Processed(plan, before, after, id, started, now) && (job in after.jobs ==> Emits(plan, before, id, after.jobs[job], now))
    ensures RowDone(plan, s, after, id, job, started, now)
  {
  }

  lemma RowStaysDone(plan: Planner, s: State, before: State, after: State, id: ScheduleId, job: JobId, other: ScheduleId, otherJob: JobId, started: Time, now: Time)
    requires RowDone(plan, s, before, id, job, started, now) && Frame(before, after, [other], [otherJob]) && id != other && job != otherJob
    ensures RowDone(plan, s, after, id, job, started, now)
  {
    forall emit: EmitJob | KeyTaken(before.jobs, emit) ensures KeyTaken(after.jobs, emit) {
      var k :| k in before.jobs && SameKey(before.jobs[k], emit);
      assert SameKey(after.jobs[k], emit);
    }
  }

  /** In a regular zone, a processed row's next run is the first delivery after the tick's `now`, and
      what it emits is the period of the last delivery up to `now`. */
  lemma PlanIsRight(z: Zone, f: Frequency, minute: int, now: Time, t: Time)
    requires ValidMinute(minute) && Regular(z, minute) && Regular(z, 0)
    ensures PlanOf(Some(z), f, minute, now).Ok?
    ensures var p := PlanOf(Some(z), f, minute, now).value;
      && p.latest <= now < p.next && IsScheduled(z, f, minute, p.latest) && IsScheduled(z, f, minute, p.next)
      && (IsScheduled(z, f, minute, t) ==> t <= p.latest || p.next <= t)
      && p.period.Ok? && p.period == ScheduledPeriod(z, f, p.latest)
  {
    NextIsLeast(z, now, f, minute, t);
    LatestIsGreatest(z, now, f, minute, t);
    var latest := LatestOf(z, now, f, minute).value;
    var d :| IsDeliveryDate(f, d) && DeliveryOn(z, d, minute) == Ok(latest);
    ScheduledPeriodIs(z, f, minute, d);
  }

  /** The period belongs to the delivery `latest`, and no other delivery lies between it and `now`. */
  ghost predicate IsWindowOf(z: Zone, row: Sched, latest: Time, period: Period, now: Time) {
    && latest <= now && IsScheduled(z, row.frequency, row.minute, latest)
    && ScheduledPeriod(z, row.frequency, latest) == Ok(period)
    && (forall t :: IsScheduled(z, row.frequency, row.minute, t) && t <= now ==> t <= latest)
  }

  /** However late it is, a tick leaves each row it processed due at the first delivery after `now`,
      and emits for it the window of the last delivery up to `now`, or nothing. */
  lemma LateTickEmitsLatestWindow(s: State, due: seq<ScheduleId>, ids: seq<JobId>, started: Time, now: Time, i: nat, z: Zone, t: Time)
    requires |ids| == |due| && Distinct(due) && Unused(ids, s.jobs) && forall k :: 0 <= k < |due| ==> Known(s, due[k])
    requires TickFirst(PlanOf, s, due, ids, started, now, |due|).Ok? && i < |due|
    requires Known(s, due[i]) && s.accounts[s.schedules[due[i]].account].zone == Some(z)
    requires ValidMinute(s.schedules[due[i]].minute) && Regular(z, s.schedules[due[i]].minute) && Regular(z, 0)
    ensures var s' := TickFirst(PlanOf, s, due, ids, started, now, |due|).value; var row := s.schedules[due[i]];
      && due[i] in s'.schedules && s'.schedules[due[i]].nextRunAt > now
      && IsScheduled(z, row.frequency, row.minute, s'.schedules[due[i]].nextRunAt)
      && (IsScheduled(z, row.frequency, row.minute, t) && t > now ==> s'.schedules[due[i]].nextRunAt <= t)
      && (ids[i] in s'.jobs ==> exists latest :: IsWindowOf(z, row, latest, s'.jobs[ids[i]].period, now))
  {
    var row := s.schedules[due[i]];
    TickProcesses(PlanOf, s, due, ids, started, now, |due|);
    assert RowDone(PlanOf, s, TickFirst(PlanOf, s, due, ids, started, now, |due|).value, due[i], ids[i], started, now);
    PlanIsRight(z, row.frequency, row.minute, now, t);
    var s' := TickFirst(PlanOf, s, due, ids, started, now, |due|).value;
    if ids[i] in s'.jobs {
      var latest := PlanOf(Some(z), row.frequency, row.minute, now).value.latest;
      forall u | IsScheduled(z, row.frequency, row.minute, u) && u <= now ensures u <= latest {
        PlanIsRight(z, row.frequency, row.minute, now, u);
      }
      assert IsWindowOf(z, row, latest, s'.jobs[ids[i]].period, now);
    }
  }

  // ----- runs of any number of replicas -----

  type Nexter = (Option<Zone>, Frequency, int, Time) -> Result<Time, ScheduleError>

  datatype Step =
    | Tick(due: seq<ScheduleId>, ids: seq<JobId>, started: Time, now: Time)
    | SetTimezone(account: AccountId, zone: Option<Zone>, now: Time)
    | Upsert(id: ScheduleId, account: AccountId, frequency: Frequency, minute: int, now: Time)
    | Disable(id: ScheduleId)
    | SetAccount(account: AccountId, value: Account)

  predicate IsFor(row: Sched, account: AccountId, f: Frequency) { row.account == account && row.frequency == f }

  /** `Upsert` is on the account's row of the frequency, or on a new one when there is none. */
  ghost predicate Enabled(s: State, step: Step) {
    match step
    case Tick(due, ids, started, now) =>
      |ids| == |due| && Distinct(due) && Unused(ids, s.jobs) && forall i :: 0 <= i < |due| ==> IsDue(s, due[i], started)
    case SetTimezone(account, _, _) => account in s.accounts
    case Upsert(id, account, f, _, _) =>
      && account in s.accounts
      && (if id in s.schedules then IsFor(s.schedules[id], account, f)
          else forall k :: k in s.schedules ==> !IsFor(s.schedules[k], account, f))
    case Disable(id) => id in s.schedules
    case SetAccount(_, _) => true
  }

  /** The schedules a change of timezone recomputes. */
  predicate Follows(row: Sched, account: AccountId) { row.account == account && row.enabled }

  ghost function Effect(plan: Planner, next: Nexter, s: State, step: Step): State
    requires Enabled(s, step)
  {
    match step
    case Tick(due, ids, started, now) =>
      var r := TickFirst(plan, s, due, ids, started, now, |due|);
      if r.Ok? then r.value else s
    case SetTimezone(account, zone, now) =>
      if zone.None? || exists id :: id in s.schedules && Follows(s.schedules[id], account) && next(zone, s.schedules[id].frequency, s.schedules[id].minute, now).Err? then s
      else s.(accounts := s.accounts[account := s.accounts[account].(zone := zone)],
              schedules := map id | id in s.schedules ::
                if Follows(s.schedules[id], account)
                then s.schedules[id].(nextRunAt := next(zone, s.schedules[id].frequency, s.schedules[id].minute, now).value)
                else s.schedules[id])
    case Upsert(id, account, f, minute, now) =>
      var t := next(s.accounts[account].zone, f, minute, now);
      if t.Err? then s
      else if id in s.schedules then
        s.(schedules := s.schedules[id := s.schedules[id].(minute := minute, enabled := true, nextRunAt := t.value)])
      else s.(schedules := s.schedules[id := Sched(account, f, minute, true, t.value, None)])
    case Disable(id) => s.(schedules := s.schedules[id := s.schedules[id].(enabled := false)])
    case SetAccount(account, value) => s.(accounts := s.accounts[account := value])
  }

  ghost predicate KeysUnique(jobs: map<JobId, EmitJob>) {
    forall a, b :: a in jobs && b in jobs && SameKey(jobs[a], jobs[b]) ==> a == b
  }

  lemma {:induction false} TickKeepsUnique(plan: Planner, s: State, due: seq<ScheduleId>, ids: seq<JobId>, started: Time, now: Time, n: nat)
    requires |ids| == |due| && n <= |due| && KeysUnique(s.jobs) && TickFirst(plan, s, due, ids, started, now, n).Ok?
    ensures KeysUnique(TickFirst(plan, s, due, ids, started, now, n).value.jobs)
  {
    if n > 0 {
      TickKeepsUnique(plan, s, due, ids, started, now, n - 1);
    }
  }

  ghost predicate IsRun(plan: Planner, next: Nexter, states: seq<State>, steps: seq<Step>) {
    && |states| == |steps| + 1 && states[0].jobs == map[]
    && forall i :: 0 <= i < |steps| ==> Enabled(states[i], steps[i]) && states[i + 1] == Effect(plan, next, states[i], steps[i])
  }

  /** Whatever ticks any number of replicas run, and however timezones and schedules change in
      between, one emit job at most ever exists per account, frequency and period start. */
  lemma {:induction false} OneEmitJobPerPeriod(plan: Planner, next: Nexter, states: seq<State>, steps: seq<Step>, m: nat, a: JobId, b: JobId)
    requires IsRun(plan, next, states, steps) && m < |states| && a in states[m].jobs && b in states[m].jobs
    requires SameKey(states[m].jobs[a], states[m].jobs[b])
    ensures a == b
  {
    UniqueAlongRun(plan, next, states, steps, m);
  }

  lemma {:induction false} UniqueAlongRun(plan: Planner, next: Nexter, states: seq<State>, steps: seq<Step>, m: nat)
    requires IsRun(plan, next, states, steps) && m < |states|
    ensures KeysUnique(states[m].jobs)
  {
    if m > 0 {
      UniqueAlongRun(plan, next, states, steps, m - 1);
      assert states[m] == Effect(plan, next, states[m - 1], steps[m - 1]);
      if steps[m - 1].Tick? {
        var t := steps[m - 1];
        if TickFirst(plan, states[m - 1], t.due, t.ids, t.started, t.now, |t.due|).Ok? {
          TickKeepsUnique(plan, states[m - 1], t.due, t.ids, t.started, t.now, |t.due|);
        }
      }
    }
  }

  // ----- the role lease -----

  datatype RoleLease = RoleLease(owner: string, deadline: Time)

  datatype Attempt = Attempt(owner: string, now: Time)

  predicate Acquires(row: Option<RoleLease>, a: Attempt) {
    row.None? || row.value.deadline <= a.now || row.value.owner == a.owner
  }

  function AfterAttempt(row: Option<RoleLease>, a: Attempt, duration: int): Option<RoleLease> {
    if Acquires(row, a) then Some(RoleLease(a.owner, a.now + duration)) else row
  }

  /** The role's row after the first `n` attempts of any replicas. */
  function RowAfter(attempts: seq<Attempt>, duration: int, n: nat): Option<RoleLease>
    requires n <= |attempts|
  {
    if n == 0 then None else AfterAttempt(RowAfter(attempts, duration, n - 1), attempts[n - 1], duration)
  }

  ghost predicate ClockForward(attempts: seq<Attempt>) {
    forall i, k :: 0 <= i < k < |attempts| ==> attempts[i].now <= attempts[k].now
  }

  lemma {:induction false} HeldOrLapsed(attempts: seq<Attempt>, duration: nat, i: nat, m: nat)
    requires i < m <= |attempts| && ClockForward(attempts) && Acquires(RowAfter(attempts, duration, i), attempts[i])
    ensures var row := RowAfter(attempts, duration, m);
      (row.Some? && row.value.owner == attempts[i].owner && row.value.deadline >= attempts[i].now + duration)
      || attempts[m - 1].now >= attempts[i].now + duration
    decreases m
  {
    if m > i + 1 {
      HeldOrLapsed(attempts, duration, i, m - 1);
    }
  }

  /** While the database's clock runs forward, the role passes from one replica to another only when
      the first one's lease has run out. */
  lemma RoleLeaseExclusive(attempts: seq<Attempt>, duration: nat, i: nat, k: nat)
    requires i < k < |attempts| && ClockForward(attempts) && attempts[i].owner != attempts[k].owner
    requires Acquires(RowAfter(attempts, duration, i), attempts[i]) && Acquires(RowAfter(attempts, duration, k), attempts[k])
    ensures attempts[k].now >= attempts[i].now + duration
  {
    HeldOrLapsed(attempts, duration, i, k);
  }

  /** `try_acquire_role_lease`, on the row of the role. */
  class RoleLeases {
    var row: Option<RoleLease>

    method TryAcquire(owner: string, duration: int, now: Time) returns (acquired: bool)
      modifies this
      ensures acquired <==> Acquires(old(row), Attempt(owner, now))
      ensures acquired <==> old(row).None? || old(row).value.deadline <= now || old(row).value.owner == owner
      ensures row == if acquired then Some(RoleLease(owner, now + duration)) else old(row)
      ensures row == AfterAttempt(old(row), Attempt(owner, now), duration)
    {
      if row.None? {
        row := Some(RoleLease(owner, now + duration));
        return true;
      }
      if row.value.deadline <= now || row.value.owner == owner {
        row := Some(RoleLease(owner, now + duration));
        return true;
      }
      return false;
    }
  }
}
