/** The durable work queue: the `jobs` table, with each job's `job_attempts` rows kept inside the
    job they belong to, and the transactions on one job row.

    A claim is spread over several statements: the functions here give what it does to one row,
    module ClaimProtocol interleaves the statements, and module WorkStore runs them in order. */
module WorkQueue {
  import opened Base

  type JobId = nat
  type Token = nat
  type Jobs = map<JobId, Job>

  /** The three lease columns are set exactly while a job is leased, so they live in that state. */
  datatype JobState =
    | Queued
    | Leased(token: Token, owner: string, deadline: Time)
    | Completed
    | Cancelled
    | Dead

  datatype AttemptOutcome = DidComplete | DidFail | WasCancelled | LostLease

  /** One `job_attempts` row; an attempt is open while it has no outcome. */
  datatype Attempt = Attempt(number: int, token: Token, owner: string,
                             outcome: Option<AttemptOutcome>, error: Option<ErrorClass>)

  datatype Job = Job(jobType: string, payloadVersion: int, target: Option<nat>,
                     priority: int, runAt: Time, createdAt: Time,
                     dedupeKey: string, serKey: Option<string>, state: JobState,
                     attemptCount: int, maxAttempts: int,
                     lastError: Option<ErrorClass>, attempts: seq<Attempt>)

  // ----- retry backoff -----

  function PowerOfTwo(n: nat): (p: nat)
    ensures p > 0
  {
    if n == 0 then 1 else 2 * PowerOfTwo(n - 1)
  }

  /** Bounded exponential backoff: 1, 2, 4, ... seconds, capped by the clamp at 2^8. */
  function RetryDelaySecs(attemptCount: int): int {
    var exponent := Max(0, Min(attemptCount - 1, 8));
    Min(PowerOfTwo(exponent), 300)
  }

  /** The clamp and the cap come to a plain power of two. */
  lemma DelayIsPower(k: int)
    requires k > 0
    ensures RetryDelaySecs(k) == PowerOfTwo(Min(k, 9) - 1)
  {
    PowersUpToEight();
    var e := Min(k, 9) - 1;
    assert e == 0 || e == 1 || e == 2 || e == 3 || e == 4 || e == 5 || e == 6 || e == 7 || e == 8;
  }

  /** Total backoff before attempts 2 .. k + 1. */
  function TotalRetryWait(k: nat): int {
    if k == 0 then 0 else TotalRetryWait(k - 1) + RetryDelaySecs(k)
  }

  lemma PowersUpToEight()
    ensures PowerOfTwo(1) == 2 && PowerOfTwo(2) == 4 && PowerOfTwo(3) == 8 && PowerOfTwo(4) == 16
    ensures PowerOfTwo(5) == 32 && PowerOfTwo(6) == 64 && PowerOfTwo(7) == 128 && PowerOfTwo(8) == 256
    ensures PowerOfTwo(9) == 512
  {
  }

  /** The first k waits add up to 2^k - 1, and grow by 256 a retry once the clamp is reached; the
      cap of 300 seconds is never met. */
  lemma {:induction false} TotalRetryWaitClosedForm(k: nat)
    ensures k <= 9 ==> TotalRetryWait(k) == PowerOfTwo(k) - 1
    ensures k >= 9 ==> TotalRetryWait(k) == 511 + 256 * (k - 9)
    ensures 1 <= RetryDelaySecs(k) <= 256
  {
    PowersUpToEight();
    if k > 0 {
      TotalRetryWaitClosedForm(k - 1);
      if k <= 9 {
        assert k == 1 || k == 2 || k == 3 || k == 4 || k == 5 || k == 6 || k == 7 || k == 8 || k == 9;
      }
    }
  }

  // ----- enqueue -----

  datatype EnqueueRequest = EnqueueRequest(jobType: string, payloadVersion: int, target: Option<nat>,
                                           dedupeKey: string, serKey: Option<string>, priority: int,
                                           runAt: Time, maxAttempts: int)

  datatype EnqueueOutcome = Enqueued | DuplicateKey

  predicate IsBlank(text: string) {
    forall c :: c in text ==> IsSpace(c)
  }

  predicate ValidText(text: string, limit: nat) { !IsBlank(text) && |text| <= limit }

  predicate ValidRequest(r: EnqueueRequest) {
    && r.payloadVersion > 0
    && r.maxAttempts > 0
    && ValidText(r.jobType, 128)
    && ValidText(r.dedupeKey, 512)
    && (r.serKey.Some? ==> ValidText(r.serKey.value, 512))
  }

  function NewJob(r: EnqueueRequest, now: Time): Job {
    Job(r.jobType, r.payloadVersion, r.target, r.priority, r.runAt, now, r.dedupeKey, r.serKey,
        Queued, 0, r.maxAttempts, None, [])
  }

  predicate DedupeKeyTaken(jobs: Jobs, key: string) {
    exists id :: id in jobs && jobs[id].dedupeKey == key
  }

  /** The table after an enqueue: one more job, unless the request is invalid or its key is taken. */
  function WithJob(jobs: Jobs, id: JobId, request: EnqueueRequest, now: Time): Jobs {
    if !ValidRequest(request) || DedupeKeyTaken(jobs, request.dedupeKey) then jobs else jobs[id := NewJob(request, now)]
  }

  // ----- what each transaction does to its row -----

  predicate HoldsToken(j: Job, token: Token) { j.state.Leased? && j.state.token == token }

  /** The guard every lease holder's statement carries. */
  predicate HoldsLease(j: Job, token: Token, now: Time) { HoldsToken(j, token) && j.state.deadline >= now }

  function Close(a: Attempt, outcome: AttemptOutcome, error: Option<ErrorClass>): Attempt {
    if a.outcome.None?
    then a.(outcome := Some(outcome), error := if error.Some? then error else a.error)
    else a
  }

  /** `close_open_attempt`: every open row of the job is closed. */
  function CloseOpen(attempts: seq<Attempt>, outcome: AttemptOutcome, error: Option<ErrorClass>): (r: seq<Attempt>)
    ensures |r| == |attempts|
    ensures forall i :: 0 <= i < |r| ==> r[i] == Close(attempts[i], outcome, error)
  {
    seq(|attempts|, i requires 0 <= i < |attempts| => Close(attempts[i], outcome, error))
  }

  function Beaten(j: Job, now: Time, duration: int): Job
    requires j.state.Leased?
  {
    j.(state := j.state.(deadline := now + duration))
  }

  function Finished(j: Job): Job {
    j.(state := Completed, attempts := CloseOpen(j.attempts, DidComplete, None))
  }

  predicate RetriesAfter(j: Job, errorClass: ErrorClass) {
    IsRetryable(errorClass) && j.attemptCount < j.maxAttempts
  }

  function FailedJob(j: Job, now: Time, errorClass: ErrorClass): Job {
    var closed := j.(attempts := CloseOpen(j.attempts, DidFail, Some(errorClass)), lastError := Some(errorClass));
    if RetriesAfter(j, errorClass)
    then closed.(state := Queued, runAt := now + RetryDelaySecs(j.attemptCount))
    else closed.(state := Dead)
  }

  function CancelledJob(j: Job): Job {
    j.(state := Cancelled,
       attempts := if j.state.Leased? then CloseOpen(j.attempts, WasCancelled, None) else j.attempts)
  }

  function RecoveredJob(j: Job, now: Time): Job {
    j.(state := Queued, runAt := now, maxAttempts := Max(j.maxAttempts, j.attemptCount + 1), lastError := None)
  }

  predicate Eligible(j: Job, now: Time) {
    (j.state.Queued? && j.runAt <= now) || (j.state.Leased? && j.state.deadline < now)
  }

  /** What a claim writes to an eligible row: a lapsed lease is closed as lost, and dead-lettered
      when its attempts are used up; otherwise the row is leased under a new attempt. */
  function LeaseOrBury(j: Job, token: Token, owner: string, now: Time, duration: int): Job {
    var closed := if j.state.Leased? then j.(attempts := CloseOpen(j.attempts, LostLease, None)) else j;
    if j.state.Leased? && j.attemptCount >= j.maxAttempts
    then closed.(state := Dead, lastError := Some(Timeout))
    else closed.(state := Leased(token, owner, now + duration),
                 attemptCount := j.attemptCount + 1,
                 attempts := closed.attempts + [Attempt(j.attemptCount + 1, token, owner, None, None)])
  }

  // ----- serialization keys and candidate selection -----

  predicate HoldsKey(j: Job, key: string) { j.state.Leased? && j.serKey == Some(key) }

  predicate KeyHeldByOther(jobs: Jobs, key: string, id: JobId) {
    exists other :: other in jobs && other != id && HoldsKey(jobs[other], key)
  }

  predicate KeyHeld(jobs: Jobs, key: string) {
    exists other :: other in jobs && HoldsKey(jobs[other], key)
  }

  /** At most one job per serialization key is leased. */
  ghost predicate Exclusive(jobs: Jobs) {
    forall a, b, key :: a in jobs && b in jobs && HoldsKey(jobs[a], key) && HoldsKey(jobs[b], key) ==> a == b
  }

  /** The filter of the candidate query for one row `j`, its subquery reading `snapshot`. */
  predicate Selectable(j: Job, snapshot: Jobs, now: Time) {
    Eligible(j, now) && (j.serKey.None? || j.state.Leased? || !KeyHeld(snapshot, j.serKey.value))
  }

  // ----- the attempt ledger -----

  /** The attempt rows are numbered 1 .. attemptCount; exactly while the job is leased its last row
      is open, carrying the lease token; and a queued job has an attempt left. */
  ghost predicate JobOk(j: Job) {
    && |j.attempts| == j.attemptCount
    && (forall i :: 0 <= i < |j.attempts| ==> j.attempts[i].number == i + 1)
    && (forall i :: 0 <= i < |j.attempts| ==>
          (j.attempts[i].outcome.None? <==> j.state.Leased? && i == |j.attempts| - 1))
    && (j.state.Leased? ==> |j.attempts| > 0 && j.attempts[|j.attempts| - 1].token == j.state.token
                            && j.attempts[|j.attempts| - 1].owner == j.state.owner)
    && 0 < j.maxAttempts
    && j.attemptCount <= j.maxAttempts
    && (j.state.Queued? ==> j.attemptCount < j.maxAttempts)
    && (j.state.Leased? ==> j.attempts[|j.attempts| - 1].error.None?)
    && LastAttemptOk(j)
  }

  ghost predicate JobsOk(jobs: Jobs) {
    forall id :: id in jobs ==> JobOk(jobs[id])
  }

  /** How a job's last attempt ended, by the job's state: an attempt of a job under lease is open; a
      completed job's was completed; a dead one's failed with the job's error, or was lost to a timeout; and
      so it is for a queued job that has an error. */
  ghost predicate LastAttemptOk(j: Job) {
    var n := |j.attempts|;
    match j.state
    case Queued => j.lastError.Some? ==> n > 0 && j.attempts[n - 1].outcome == Some(DidFail) && j.attempts[n - 1].error == j.lastError
    case Leased(_, _, _) => true
    case Completed => n > 0 && j.attempts[n - 1].outcome == Some(DidComplete)
    case Cancelled => true
    case Dead =>
      n > 0 && j.lastError.Some?
      && ((j.attempts[n - 1].outcome == Some(DidFail) && j.attempts[n - 1].error == j.lastError)
          || (j.attempts[n - 1].outcome == Some(LostLease) && j.lastError == Some(Timeout)))
  }

  /** The attempts with the last one ended. */
  ghost predicate EndsLast(attempts: seq<Attempt>, attempts': seq<Attempt>, outcome: AttemptOutcome, error: Option<ErrorClass>) {
    var n := |attempts|;
    n > 0 && attempts' == attempts[..n - 1] + [attempts[n - 1].(outcome := Some(outcome), error := error)]
  }

  /** Ending a lease, however it ends, writes that to the open attempt and to no other. */
  lemma LeaseEndsItsAttempt(j: Job, token: Token, owner: string, now: Time, duration: int, errorClass: ErrorClass)
    requires JobOk(j) && j.state.Leased?
    ensures EndsLast(j.attempts, Finished(j).attempts, DidComplete, None)
    ensures EndsLast(j.attempts, FailedJob(j, now, errorClass).attempts, DidFail, Some(errorClass))
    ensures EndsLast(j.attempts, CancelledJob(j).attempts, WasCancelled, None)
    ensures var j' := LeaseOrBury(j, token, owner, now, duration);
      if j.attemptCount >= j.maxAttempts then j'.state.Dead? && EndsLast(j.attempts, j'.attempts, LostLease, None)
      else j'.state.Leased? && j'.attempts != [] && EndsLast(j.attempts, j'.attempts[..|j'.attempts| - 1], LostLease, None)
           && j'.attempts[|j'.attempts| - 1] == Attempt(j.attemptCount + 1, token, owner, None, None)
  {
  }

  /** `j'` is `j` after its holder failed it at `now`: queued again after a wait of 2^(attempt - 1) seconds, up
      to 256, or dead. */
  ghost predicate IsFailed(j: Job, j': Job, now: Time, errorClass: ErrorClass, retried: bool) {
    && j' == j.(state := if retried then Queued else Dead, runAt := j'.runAt, lastError := Some(errorClass), attempts := j'.attempts)
    && (if retried then j.attemptCount > 0 ==> j'.runAt == now + PowerOfTwo(Min(j.attemptCount, 9) - 1) else j'.runAt == j.runAt)
    && (JobOk(j) ==> EndsLast(j.attempts, j'.attempts, DidFail, Some(errorClass)))
  }

  lemma FailedRowIs(j: Job, now: Time, errorClass: ErrorClass)
    requires j.state.Leased?
    ensures IsFailed(j, FailedJob(j, now, errorClass), now, errorClass, RetriesAfter(j, errorClass))
  {
    if j.attemptCount > 0 {
      DelayIsPower(j.attemptCount);
    }
    if JobOk(j) {
      LeaseEndsItsAttempt(j, 0, "", now, 0, errorClass);
    }
  }

  lemma RowTransactionsKeepLedger(j: Job, now: Time, duration: int, errorClass: ErrorClass)
    requires JobOk(j)
    ensures j.state.Leased? ==> JobOk(Beaten(j, now, duration)) && JobOk(Finished(j)) && JobOk(FailedJob(j, now, errorClass))
    ensures j.state.Queued? || j.state.Leased? ==> JobOk(CancelledJob(j))
    ensures j.state.Dead? ==> JobOk(RecoveredJob(j, now))
  {
  }

  lemma ClaimKeepsLedger(j: Job, token: Token, owner: string, now: Time, duration: int)
    requires JobOk(j) && Eligible(j, now)
    ensures JobOk(LeaseOrBury(j, token, owner, now, duration))
  {
  }
}
