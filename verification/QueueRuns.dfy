/** What runs of the queue do with what was asked of it: the columns a request sets, the key it names,
    and the waits between attempts. */
module QueueRuns {
  import opened Base
  import opened WorkQueue
  import opened ClaimProtocol

  // ----- what was asked for -----

  /** Step `i` inserts job `id`. */
  ghost predicate Inserts(states: seq<State>, steps: seq<Step>, i: nat, id: JobId)
    requires |states| == |steps| + 1
  {
    i < |steps| && steps[i].Enqueue? && steps[i].id == id && id !in states[i].jobs && id in states[i + 1].jobs
  }

  lemma StepKeepsRequest(hash: Hash, s: State, step: Step, id: JobId)
    requires Inv(hash, s) && Enabled(s, step) && id in s.jobs
    ensures id in Effect(hash, s, step).jobs && SameRequest(s.jobs[id], Effect(hash, s, step).jobs[id])
  {
    if step.Commit? && id in s.claims[step.t].writes {
      assert ClaimedFrom(s.jobs[id], s.claims[step.t].writes[id]);
    } else if IsRowStep(step) && step.id in s.jobs {
      RowEffectKeepsRow(s.jobs[step.id], step);
    }
  }

  lemma {:induction false} RequestStays(hash: Hash, states: seq<State>, steps: seq<Step>, i: nat, m: nat, id: JobId)
    requires IsRun(hash, states, steps) && i <= m < |states| && id in states[i].jobs
    ensures id in states[m].jobs && SameRequest(states[i].jobs[id], states[m].jobs[id])
    decreases m
  {
    if m > i {
      RequestStays(hash, states, steps, i, m - 1, id);
      InvAlongRun(hash, states, steps, m - 1);
      StepKeepsRequest(hash, states[m - 1], steps[m - 1], id);
    }
  }

  /** Whatever happens to a job after its enqueue, it carries what its request asked for. */
  lemma JobsCarryTheirRequest(hash: Hash, states: seq<State>, steps: seq<Step>, i: nat, m: nat, id: JobId)
    requires IsRun(hash, states, steps) && Inserts(states, steps, i, id) && i < m < |states|
    ensures id in states[m].jobs
    ensures var j, r := states[m].jobs[id], steps[i].request;
      && j.jobType == r.jobType && j.payloadVersion == r.payloadVersion && j.target == r.target && j.priority == r.priority
      && j.dedupeKey == r.dedupeKey && j.serKey == r.serKey && j.createdAt == steps[i].now
  {
    assert states[i + 1] == Effect(hash, states[i], steps[i]);
    RequestStays(hash, states, steps, i + 1, m, id);
  }

  /** Of the jobs enqueued under one serialization key, at most one is leased at any point of any run. */
  lemma KeyAskedForIsExclusive(hash: Hash, states: seq<State>, steps: seq<Step>, i: nat, k: nat, m: nat, a: JobId, b: JobId, key: string)
    requires IsRun(hash, states, steps) && Inserts(states, steps, i, a) && Inserts(states, steps, k, b) && i < m && k < m < |states|
    requires steps[i].request.serKey == Some(key) && steps[k].request.serKey == Some(key)
    requires a in states[m].jobs && states[m].jobs[a].state.Leased? && b in states[m].jobs && states[m].jobs[b].state.Leased?
    ensures a == b
  {
    JobsCarryTheirRequest(hash, states, steps, i, m, a);
    JobsCarryTheirRequest(hash, states, steps, k, m, b);
    SerializationKeyExclusion(hash, states, steps, m, a, b, key);
  }

  /** A new row, column by column. */
  lemma EnqueuedRow(hash: Hash, states: seq<State>, steps: seq<Step>, i: nat, id: JobId)
    requires IsRun(hash, states, steps) && Inserts(states, steps, i, id)
    ensures var j, r := states[i + 1].jobs[id], steps[i].request;
      && j.runAt == r.runAt && j.maxAttempts == r.maxAttempts && j.attemptCount == 0 && j.attempts == []
      && j.state.Queued? && j.lastError.None?
  {
    assert states[i + 1] == Effect(hash, states[i], steps[i]);
  }

  // ----- the waits between attempts -----

  /** The wait after attempt `k` fails: 1, 2, 4, ... seconds, up to 256. */
  function Wait(k: int): int
    requires k > 0
  {
    PowerOfTwo(Min(k, 9) - 1)
  }

  /** Step `i` fails attempt `k` of the job, which is retried. */
  ghost predicate FailsAttempt(states: seq<State>, steps: seq<Step>, i: nat, id: JobId, k: int)
    requires |states| == |steps| + 1
  {
    && i < |steps| && steps[i].Fail? && steps[i].id == id && id in states[i].jobs && HoldsLease(states[i].jobs[id], steps[i].token, steps[i].now)
    && states[i].jobs[id].attemptCount == k && IsRetryable(steps[i].errorClass) && k < states[i].jobs[id].maxAttempts
  }

  /** Step `m` is the first to lease the job after step `i`. */
  ghost predicate FirstLeaseAfter(states: seq<State>, steps: seq<Step>, i: nat, m: nat, id: JobId)
    requires |states| == |steps| + 1
  {
    && i < m < |steps| && Leases(states[m], states[m + 1], id)
    && forall n :: i < n < m ==> !Leases(states[n], states[n + 1], id)
  }

  /** What a job waiting for its run time may become. */
  ghost predicate WaitsUntil(s: State, id: JobId, runAt: Time) {
    id in s.jobs && (s.jobs[id].state.Cancelled? || (s.jobs[id].state.Queued? && s.jobs[id].runAt == runAt))
  }

  /** It goes on waiting, or is leased by a claim that began no earlier. */
  lemma WaitingStep(hash: Hash, s: State, step: Step, id: JobId, runAt: Time)
    requires Inv(hash, s) && Enabled(s, step) && WaitsUntil(s, id, runAt)
    ensures var s' := Effect(hash, s, step);
      if Leases(s, s', id) then step.Commit? && s.claims[step.t].now >= runAt else WaitsUntil(s', id, runAt)
  {
    if step.Commit? && id in s.claims[step.t].writes {
      CommitsWaiting(hash, s, step.t, id);
    } else if !step.Commit? {
      WaitingUncommitted(hash, s, step, id, runAt);
    }
  }

  /** A claim that writes a job that is not leased leases it, and found it due. */
  lemma CommitsWaiting(hash: Hash, s: State, t: TxId, id: JobId)
    requires Inv(hash, s) && t in s.claims && id in s.jobs && !s.jobs[id].state.Leased? && id in s.claims[t].writes
    ensures s.jobs[id].state.Queued? && s.jobs[id].runAt <= s.claims[t].now && s.claims[t].writes[id].state.Leased?
  {
    assert ClaimOk(hash, s.jobs, s.claims[t]);
    assert ClaimedFrom(s.jobs[id], s.claims[t].writes[id]) && Eligible(s.jobs[id], s.claims[t].now);
  }

  lemma WaitingUncommitted(hash: Hash, s: State, step: Step, id: JobId, runAt: Time)
    requires Enabled(s, step) && WaitsUntil(s, id, runAt) && !step.Commit?
    ensures WaitsUntil(Effect(hash, s, step), id, runAt) && !Leases(s, Effect(hash, s, step), id)
  {
  }

  lemma {:induction false} WaitsAlong(hash: Hash, states: seq<State>, steps: seq<Step>, i: nat, n: nat, id: JobId, runAt: Time)
    requires IsRun(hash, states, steps) && i < n < |states| && WaitsUntil(states[i + 1], id, runAt)
    requires forall k :: i < k < n ==> !Leases(states[k], states[k + 1], id)
    ensures WaitsUntil(states[n], id, runAt)
    decreases n
  {
    if n > i + 1 {
      WaitsAlong(hash, states, steps, i, n - 1, id, runAt);
      InvAlongRun(hash, states, steps, n - 1);
      WaitingStep(hash, states[n - 1], steps[n - 1], id, runAt);
    }
  }

  /** A job whose attempt `k` failed is leased again only by a claim that began its wait later. */
  lemma RetryWaits(hash: Hash, states: seq<State>, steps: seq<Step>, i: nat, m: nat, id: JobId, k: int)
    requires IsRun(hash, states, steps) && FailsAttempt(states, steps, i, id, k) && FirstLeaseAfter(states, steps, i, m, id)
    ensures k > 0 && steps[m].Commit? && steps[m].t in states[m].claims
    ensures states[m].claims[steps[m].t].now >= steps[i].now + Wait(k)
  {
    InvAlongRun(hash, states, steps, i);
    InvAlongRun(hash, states, steps, m);
    assert JobOk(states[i].jobs[id]);
    var runAt := steps[i].now + Wait(k);
    FailedWaits(states[i].jobs[id], steps[i].now, steps[i].errorClass);
    assert states[i + 1] == Effect(hash, states[i], steps[i]);
    WaitsAlong(hash, states, steps, i, m, id, runAt);
    WaitingStep(hash, states[m], steps[m], id, runAt);
  }

  /** A job is first leased by a claim that began no earlier than the run time its request named. */
  lemma FirstLeaseWaits(hash: Hash, states: seq<State>, steps: seq<Step>, i: nat, m: nat, id: JobId)
    requires IsRun(hash, states, steps) && Inserts(states, steps, i, id) && FirstLeaseAfter(states, steps, i, m, id)
    ensures steps[m].Commit? && steps[m].t in states[m].claims && states[m].claims[steps[m].t].now >= steps[i].request.runAt
  {
    EnqueuedRow(hash, states, steps, i, id);
    InvAlongRun(hash, states, steps, m);
    WaitsAlong(hash, states, steps, i, m, id, steps[i].request.runAt);
    WaitingStep(hash, states[m], steps[m], id, steps[i].request.runAt);
  }

  /** The run time a failure sets. */
  lemma FailedWaits(j: Job, now: Time, errorClass: ErrorClass)
    requires JobOk(j) && j.state.Leased? && RetriesAfter(j, errorClass)
    ensures j.attemptCount > 0
    ensures FailedJob(j, now, errorClass).state.Queued? && FailedJob(j, now, errorClass).runAt == now + Wait(j.attemptCount)
  {
    DelayIsPower(j.attemptCount);
  }

  /** The clock of the claim that the step commits. */
  function ClaimClock(states: seq<State>, steps: seq<Step>, m: nat): Time
    requires |states| == |steps| + 1 && m < |steps|
  {
    if steps[m].Commit? && steps[m].t in states[m].claims then states[m].claims[steps[m].t].now else 0
  }

  function WaitsUpTo(k: nat): int { if k <= 9 then PowerOfTwo(k) - 1 else 511 + 256 * (k - 9) }

  /** Attempts 1 .. k fail one after another at `fails`, each but the last after the claim before it. */
  ghost predicate KeepsFailing(states: seq<State>, steps: seq<Step>, id: JobId, fails: seq<nat>, leases: seq<nat>)
    requires |states| == |steps| + 1
  {
    && |fails| == |leases|
    && (forall j :: 0 <= j < |fails| ==> FailsAttempt(states, steps, fails[j], id, j + 1) && FirstLeaseAfter(states, steps, fails[j], leases[j], id))
    && (forall j :: 0 <= j < |fails| - 1 ==> ClaimClock(states, steps, leases[j]) <= steps[fails[j + 1]].now)
  }

  /** One failure and the lease after it, and the clock up to the next failure. */
  lemma OneWait(hash: Hash, states: seq<State>, steps: seq<Step>, id: JobId, fails: seq<nat>, leases: seq<nat>, j: nat)
    requires IsRun(hash, states, steps) && KeepsFailing(states, steps, id, fails, leases) && j < |fails|
    ensures fails[j] < |steps| && leases[j] < |steps| && steps[fails[j]].Fail?
    ensures ClaimClock(states, steps, leases[j]) >= steps[fails[j]].now + Wait(j + 1)
    ensures j > 0 ==> leases[j - 1] < |steps| && steps[fails[j]].now >= ClaimClock(states, steps, leases[j - 1])
  {
    assert FailsAttempt(states, steps, fails[j], id, j + 1) && FirstLeaseAfter(states, steps, fails[j], leases[j], id);
    RetryWaits(hash, states, steps, fails[j], leases[j], id, j + 1);
    if j > 0 {
      assert FirstLeaseAfter(states, steps, fails[j - 1], leases[j - 1], id);
      assert ClaimClock(states, steps, leases[j - 1]) <= steps[fails[j - 1 + 1]].now;
    }
  }

  /** The waits of one job add up: when attempts 1 .. k have failed, with clocks that go forward, the lease
      after them is at least 2^k - 1 seconds after the first failure, and from the ninth on 256 more each. */
  lemma {:induction false} WaitsAddUp(hash: Hash, states: seq<State>, steps: seq<Step>, id: JobId, fails: seq<nat>, leases: seq<nat>, k: nat)
    requires IsRun(hash, states, steps) && KeepsFailing(states, steps, id, fails, leases) && 0 < k <= |fails|
    ensures fails[0] < |steps| && steps[fails[0]].Fail? && leases[k - 1] < |steps|
    ensures ClaimClock(states, steps, leases[k - 1]) >= steps[fails[0]].now + WaitsUpTo(k)
    decreases k
  {
    OneWait(hash, states, steps, id, fails, leases, k - 1);
    WaitsGrow(k);
    if k > 1 {
      WaitsAddUp(hash, states, steps, id, fails, leases, k - 1);
    }
  }

  lemma WaitsGrow(k: nat)
    requires k > 0
    ensures WaitsUpTo(k) == WaitsUpTo(k - 1) + Wait(k)
  {
    PowersUpToEight();
    if k <= 9 {
      assert k == 1 || k == 2 || k == 3 || k == 4 || k == 5 || k == 6 || k == 7 || k == 8 || k == 9;
    }
  }

  // ----- one job per dedupe key -----

  ghost predicate DedupeKeysUnique(jobs: Jobs) {
    forall a, b :: a in jobs && b in jobs && jobs[a].dedupeKey == jobs[b].dedupeKey ==> a == b
  }

  lemma StepKeepsKeysUnique(hash: Hash, s: State, step: Step)
    requires Inv(hash, s) && Enabled(s, step) && DedupeKeysUnique(s.jobs)
    ensures DedupeKeysUnique(Effect(hash, s, step).jobs)
  {
    var s' := Effect(hash, s, step);
    forall id | id in s.jobs ensures id in s'.jobs && s'.jobs[id].dedupeKey == s.jobs[id].dedupeKey {
      StepKeepsRequest(hash, s, step, id);
    }
    NoOtherJobAppears(hash, s, step);
  }

  lemma NoOtherJobAppears(hash: Hash, s: State, step: Step)
    requires Inv(hash, s) && Enabled(s, step)
    ensures forall id :: id in Effect(hash, s, step).jobs && id !in s.jobs ==>
      step.Enqueue? && step.id == id && !DedupeKeyTaken(s.jobs, step.request.dedupeKey)
      && Effect(hash, s, step).jobs[id].dedupeKey == step.request.dedupeKey
  {
    if step.Commit? {
      assert ClaimOk(hash, s.jobs, s.claims[step.t]);
    }
  }

  /** At every point of every run a dedupe key has one job at most, whatever has become of that job. */
  lemma {:induction false} OneJobPerDedupeKey(hash: Hash, states: seq<State>, steps: seq<Step>, i: nat)
    requires IsRun(hash, states, steps) && i < |states|
    ensures DedupeKeysUnique(states[i].jobs)
  {
    if i > 0 {
      OneJobPerDedupeKey(hash, states, steps, i - 1);
      InvAlongRun(hash, states, steps, i - 1);
      StepKeepsKeysUnique(hash, states[i - 1], steps[i - 1]);
    }
  }

  // ----- how a lease ends -----

  /** The holder's own call, while the lease is live. */
  predicate EndsOwnLease(step: Step, id: JobId, token: Token, deadline: Time) {
    (step.Complete? || step.Fail? || step.CancelHeld?) && step.id == id && step.token == token && step.now <= deadline
  }

  lemma StepEndsLease(hash: Hash, s: State, step: Step, id: JobId, token: Token)
    requires Inv(hash, s) && Enabled(s, step) && HasToken(s, id, token)
    ensures LeaseStays(s, Effect(hash, s, step), step, id, token) || LeaseEnds(s, Effect(hash, s, step), step, id, token)
  {
    if step.Commit? && id in s.claims[step.t].writes {
      assert ClaimOk(hash, s.jobs, s.claims[step.t]);
      assert ClaimedFrom(s.jobs[id], s.claims[step.t].writes[id]) && Eligible(s.jobs[id], s.claims[step.t].now);
    }
  }

  /** Only the holder's heartbeat, while the lease is live, moves the deadline. */
  ghost predicate LeaseStays(s: State, s': State, step: Step, id: JobId, token: Token)
    requires HasToken(s, id, token)
  {
    var deadline := s.jobs[id].state.deadline;
    && HasToken(s', id, token) && s'.jobs[id].state.owner == s.jobs[id].state.owner
    && s'.jobs[id].state.deadline == (if step.Heartbeat? && step.id == id && step.token == token && step.now <= deadline
                                      then step.now + step.duration else deadline)
  }

  ghost predicate LeaseEnds(s: State, s': State, step: Step, id: JobId, token: Token)
    requires HasToken(s, id, token)
  {
    var deadline := s.jobs[id].state.deadline;
    && !HasToken(s', id, token)
    && (EndsOwnLease(step, id, token, deadline) || (step.CancelByOperator? && step.id == id)
        || (step.Commit? && step.t in s.claims && deadline < s.claims[step.t].now))
  }

  /** At every step of every run a lease stands, its deadline moved by its own heartbeat only; or it is ended by
      its holder while it is live, by an operator, or by a claim that began after its deadline. */
  lemma LeaseIsNotTaken(hash: Hash, states: seq<State>, steps: seq<Step>, i: nat, id: JobId, token: Token)
    requires IsRun(hash, states, steps) && i < |steps| && HasToken(states[i], id, token)
    ensures LeaseStays(states[i], states[i + 1], steps[i], id, token) || LeaseEnds(states[i], states[i + 1], steps[i], id, token)
  {
    InvAlongRun(hash, states, steps, i);
    StepEndsLease(hash, states[i], steps[i], id, token);
  }
}
