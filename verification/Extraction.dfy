/** `receipt.extract` jobs: workers that carry a submission from `stored` to review, on top of the
    work queue and the receipt transactions.

    A worker may be overtaken: the queue leases a job exclusively, but a worker whose lease has
    lapsed may still be running. A worker that takes no further step has crashed. */
module Extraction {
  import opened Base
  import WQ = WorkQueue
  import Queue = ClaimProtocol
  import R = Receipts

  type WorkerId = nat

  datatype ExtractResult = Read(fields: R.Fields) | UnsupportedImage | Broke(errorClass: ErrorClass)

  datatype Execution = CompleteJob | FailJob(errorClass: ErrorClass)

  datatype Stage = Started | Proceeding | Extracted(result: ExtractResult) | Finished(execution: Execution)

  datatype Worker = Worker(job: WQ.JobId, token: WQ.Token, sub: R.SubId, account: R.AccountId, stage: Stage)

  datatype Sys = Sys(queue: Queue.State, db: R.Db, active: set<R.AccountId>, workers: map<WorkerId, Worker>)

  /** Where extraction has nothing left to do. */
  predicate Closed(s: R.ReceiptState) { s.ReviewRequired? || R.IsTerminal(s) }

  /** The state a failed extraction leaves. */
  function FailureState(c: ErrorClass): R.ReceiptState {
    if c in {Transient, Timeout, RateLimited, Dependency} then R.FailedTransient else R.FailedPermanent
  }

  // ----- the two transactions of an extraction, and what the dispatcher makes of them -----

  /** The claim transaction: what the worker does next. A review card that cannot be queued
      fails the job with a dependency error. */
  function AfterClaim(s: R.ReceiptState, cardQueued: bool): Stage {
    if s.ReviewRequired? then Finished(if cardQueued then CompleteJob else FailJob(Dependency))
    else if R.IsTerminal(s) then Finished(CompleteJob)
    else if s.Stored? || s.FailedTransient? || s.Extracting? then Proceeding
    else Finished(FailJob(Conflict))
  }

  /** The transaction that records a result; the kill switch and the monthly quota come here as
      `Broke(KillSwitch)` and `Broke(QuotaExceeded)`. */
  function PersistStep(w: Worker, result: ExtractResult, expiry: Time): R.Step {
    match result
    case Read(fields) => R.PersistSuccess(w.sub, w.account, fields, expiry)
    case UnsupportedImage => R.PersistFailure(w.sub, w.account, Unsupported, R.FailedPermanent)
    case Broke(c) => R.PersistFailure(w.sub, w.account, c, FailureState(c))
  }

  /** The job's outcome, given the state the recording transaction found. */
  function AfterPersist(s: R.ReceiptState, result: ExtractResult, knownCategory: bool, cardQueued: bool): Execution {
    match result
    case Read(_) =>
      if s.ReviewRequired? || (s.Extracting? && knownCategory) then
        if cardQueued then CompleteJob else FailJob(Dependency)
      else if R.IsTerminal(s) then CompleteJob
      else if s.Extracting? then FailJob(Validation)
      else FailJob(Conflict)
    case UnsupportedImage => FailJob(Unsupported)
    case Broke(c) => FailJob(c)
  }

  /** The state the recording transaction leaves. */
  function StateAfterPersist(s: R.ReceiptState, result: ExtractResult, knownCategory: bool): R.ReceiptState {
    if !s.Extracting? then s
    else match result
      case Read(_) => if knownCategory then R.ReviewRequired else s
      case UnsupportedImage => R.FailedPermanent
      case Broke(c) => FailureState(c)
  }

  /** The class with which a result fails the job when the submission has been left behind. */
  function LateClass(result: ExtractResult): ErrorClass {
    match result
    case Read(_) => Conflict
    case UnsupportedImage => Unsupported
    case Broke(c) => c
  }

  /** A recording that leaves the submission `failed_transient` fails the job with a class the
      queue retries, exactly unless the submission was already `failed_transient`, put there by
      another worker, and this worker's own outcome is one the queue does not retry. */
  lemma TransientFailureIsRetried(s: R.ReceiptState, result: ExtractResult, knownCategory: bool, cardQueued: bool)
    ensures (StateAfterPersist(s, result, knownCategory).FailedTransient? ==>
               var x := AfterPersist(s, result, knownCategory, cardQueued); x.FailJob? && IsRetryable(x.errorClass))
            <==> !(s.FailedTransient? && !IsRetryable(LateClass(result)))
  {
  }

  /** A recording fails the job with a class the queue does not retry, and leaves a submission that is
      not closed, exactly when it found the submission in `extracting` and the receipt's category does
      not exist, or found it neither in `extracting` nor closed, with such a class. */
  lemma DeadJobLeavesOpenExactly(s: R.ReceiptState, result: ExtractResult, knownCategory: bool, cardQueued: bool)
    ensures var x, s' := AfterPersist(s, result, knownCategory, cardQueued), StateAfterPersist(s, result, knownCategory);
      x.FailJob? && !IsRetryable(x.errorClass) && !Closed(s')
      <==> (s.Extracting? && result.Read? && !knownCategory) || (!s.Extracting? && !Closed(s) && !IsRetryable(LateClass(result)))
  {
  }

  // ----- the system -----

  datatype Step =
    | QueueStep(qs: Queue.Step)
    | DbStep(ds: R.Step)
    | Deactivate(account: R.AccountId)
    | Start(w: WorkerId, job: WQ.JobId, token: WQ.Token)
    | WorkerClaim(w: WorkerId, cardQueued: bool)
    | WorkerExtract(w: WorkerId, result: ExtractResult)
    | WorkerPersist(w: WorkerId, expiry: Time, cardQueued: bool)
    | WorkerApply(w: WorkerId, now: Time)

  predicate IsExtractJob(j: WQ.Job) { j.jobType == "receipt.extract" && j.target.Some? }

  /** No job and no worker knows the submission. */
  ghost predicate UnknownSub(s: Sys, sub: R.SubId) {
    && (forall id :: id in s.queue.jobs && IsExtractJob(s.queue.jobs[id]) ==> s.queue.jobs[id].target.value != sub)
    && (forall w :: w in s.workers ==> s.workers[w].sub != sub)
  }

  function ApplyStep(w: Worker, now: Time): Queue.Step
    requires w.stage.Finished?
  {
    if w.stage.execution.CompleteJob? then Queue.Complete(w.job, w.token, now)
    else Queue.Fail(w.job, w.token, now, w.stage.execution.errorClass)
  }

  ghost predicate Enabled(s: Sys, step: Step) {
    match step
    case QueueStep(qs) =>
      && Queue.Enabled(s.queue, qs)
      && (qs.Complete? && qs.id in s.queue.jobs ==> !IsExtractJob(s.queue.jobs[qs.id])) // only its worker completes it
    case DbStep(ds) =>
      && R.Enabled(s.db, ds)
      && !ds.ClaimExtracting? && !ds.PersistSuccess? && !ds.PersistFailure?
      && (ds.Purge? ==> ds.account !in s.active)
      && (ds.Accept? && ds.sub !in s.db.recs ==> UnknownSub(s, ds.sub)) // a new UUID
    case Deactivate(_) => true
    case Start(w, job, token) =>
      && w !in s.workers && Queue.HasToken(s.queue, job, token) && IsExtractJob(s.queue.jobs[job])
      && s.queue.jobs[job].target.value in s.db.recs
    case WorkerClaim(w, _) => w in s.workers && s.workers[w].stage.Started?
    case WorkerExtract(w, _) => w in s.workers && s.workers[w].stage.Proceeding?
    case WorkerPersist(w, _, _) => w in s.workers && s.workers[w].stage.Extracted?
    case WorkerApply(w, now) =>
      w in s.workers && s.workers[w].stage.Finished? && Queue.Enabled(s.queue, ApplyStep(s.workers[w], now))
  }

  /** The submission as a worker's transaction finds it: missing once its account is purged. */
  predicate Missing(s: Sys, w: Worker) { w.sub !in s.db.recs || s.db.recs[w.sub].account != w.account }

  function KnownCategory(s: Sys, result: ExtractResult): bool {
    result.Read? ==> result.fields.category in s.db.categories
  }

  function StageAfter(s: Sys, step: Step): Stage
    requires (step.WorkerClaim? || step.WorkerExtract? || step.WorkerPersist?) && step.w in s.workers
    requires step.WorkerPersist? ==> s.workers[step.w].stage.Extracted?
  {
    var w := s.workers[step.w];
    match step
    case WorkerClaim(_, cardQueued) =>
      if Missing(s, w) then Finished(FailJob(NotFound)) else AfterClaim(s.db.recs[w.sub].state, cardQueued)
    case WorkerExtract(_, result) => if w.account in s.active then Extracted(result) else Finished(CompleteJob)
    case WorkerPersist(_, _, cardQueued) =>
      if Missing(s, w) then Finished(FailJob(NotFound))
      else Finished(AfterPersist(s.db.recs[w.sub].state, w.stage.result, KnownCategory(s, w.stage.result), cardQueued))
  }

  /** The receipt transaction a step runs, if any. */
  ghost function DbPart(s: Sys, step: Step): (ds: Option<R.Step>)
    requires Enabled(s, step)
    ensures ds.Some? ==> R.Enabled(s.db, ds.value)
  {
    match step
    case DbStep(ds) => Some(ds)
    case WorkerClaim(w, _) => Some(R.ClaimExtracting(s.workers[w].sub, s.workers[w].account))
    case WorkerPersist(w, expiry, _) => Some(PersistStep(s.workers[w], s.workers[w].stage.result, expiry))
    case _ => None
  }

  /** The queue transaction a step runs, if any. */
  ghost function QueuePart(s: Sys, step: Step): (qs: Option<Queue.Step>)
    requires Enabled(s, step)
    ensures qs.Some? ==> Queue.Enabled(s.queue, qs.value)
  {
    match step
    case QueueStep(qs) => Some(qs)
    case WorkerApply(w, now) => Some(ApplyStep(s.workers[w], now))
    case _ => None
  }

  ghost function DbAfter(s: Sys, step: Step): R.Db
    requires Enabled(s, step)
  {
    var ds := DbPart(s, step);
    if ds.Some? then R.Effect(s.db, ds.value) else s.db
  }

  ghost function QueueAfter(hash: Queue.Hash, s: Sys, step: Step): Queue.State
    requires Enabled(s, step)
  {
    var qs := QueuePart(s, step);
    if qs.Some? then Queue.Effect(hash, s.queue, qs.value) else s.queue
  }

  ghost function WorkersAfter(s: Sys, step: Step): map<WorkerId, Worker>
    requires Enabled(s, step)
  {
    match step
    case Start(w, job, token) =>
      var sub := s.queue.jobs[job].target.value;
      s.workers[w := Worker(job, token, sub, s.db.recs[sub].account, Started)]
    case WorkerApply(w, _) => s.workers - {w}
    case QueueStep(_) => s.workers
    case DbStep(_) => s.workers
    case Deactivate(_) => s.workers
    case _ => s.workers[step.w := s.workers[step.w].(stage := StageAfter(s, step))]
  }

  ghost function Effect(hash: Queue.Hash, s: Sys, step: Step): Sys
    requires Enabled(s, step)
  {
    Sys(QueueAfter(hash, s, step), DbAfter(s, step),
        if step.Deactivate? then s.active - {step.account} else s.active, WorkersAfter(s, step))
  }

  // ----- the invariant -----

  /** The submission is out of extraction's hands, as far as an active account can tell. */
  ghost predicate Settled(s: Sys, sub: R.SubId) {
    sub in s.db.recs && s.db.recs[sub].account in s.active ==> Closed(s.db.recs[sub].state)
  }

  ghost predicate JobsSettled(s: Sys) {
    forall id :: id in s.queue.jobs && IsExtractJob(s.queue.jobs[id]) && s.queue.jobs[id].state.Completed? ==>
      Settled(s, s.queue.jobs[id].target.value)
  }

  /** A worker works for its job's submission, and decides to complete only what is settled. */
  ghost predicate WorkerOk(s: Sys, w: Worker) {
    && w.job in s.queue.jobs && IsExtractJob(s.queue.jobs[w.job]) && s.queue.jobs[w.job].target.value == w.sub
    && (w.sub in s.db.recs ==> s.db.recs[w.sub].account == w.account)
    && (w.stage == Finished(CompleteJob) ==> Settled(s, w.sub))
  }

  ghost predicate WorkersOk(s: Sys) {
    forall w :: w in s.workers ==> WorkerOk(s, s.workers[w])
  }

  ghost predicate Inv(hash: Queue.Hash, s: Sys) {
    Queue.Inv(hash, s.queue) && R.Inv(s.db) && JobsSettled(s) && WorkersOk(s)
  }

  /** What queue steps do to a job, as far as extraction is concerned: its type and target stay,
      and only a `Complete` call completes it. */
  lemma QueueKeepsJob(hash: Queue.Hash, q: Queue.State, qs: Queue.Step, id: WQ.JobId)
    requires Queue.Inv(hash, q) && Queue.Enabled(q, qs) && id in q.jobs
    ensures var q' := Queue.Effect(hash, q, qs);
      && id in q'.jobs && q'.jobs[id].jobType == q.jobs[id].jobType && q'.jobs[id].target == q.jobs[id].target
      && (q'.jobs[id].state.Completed? ==> q.jobs[id].state.Completed? || (qs.Complete? && qs.id == id))
  {
    if qs.Commit? && id in q.claims[qs.t].writes {
      assert Queue.ClaimOk(hash, q.jobs, q.claims[qs.t]);
      assert Queue.ClaimedFrom(q.jobs[id], q.claims[qs.t].writes[id]);
    }
  }

  lemma QueueAddsNoCompletedJob(hash: Queue.Hash, q: Queue.State, qs: Queue.Step, id: WQ.JobId)
    requires Queue.Inv(hash, q) && Queue.Enabled(q, qs) && id !in q.jobs && id in Queue.Effect(hash, q, qs).jobs
    ensures !Queue.Effect(hash, q, qs).jobs[id].state.Completed?
  {
  }

  /** A transaction on receipts never takes a closed submission back, nor moves one to another
      account; only a purge removes one. */
  lemma DbStepKeepsClosed(db: R.Db, ds: R.Step, sub: R.SubId)
    requires R.Enabled(db, ds) && sub in db.recs
    requires ds.Purge? ==> ds.account != db.recs[sub].account
    ensures var db' := R.Effect(db, ds);
      sub in db'.recs && db'.recs[sub].account == db.recs[sub].account
      && (Closed(db.recs[sub].state) ==> Closed(db'.recs[sub].state))
  {
    RecordStays(db, ds, sub);
    AccountStays(db, ds, sub);
    R.StepMovesLegally(db, ds, sub);
  }

  lemma RecordStays(db: R.Db, ds: R.Step, sub: R.SubId)
    requires R.Enabled(db, ds) && sub in db.recs && (ds.Purge? ==> ds.account != db.recs[sub].account)
    ensures sub in R.Effect(db, ds).recs
  {
  }

  lemma StepKeepsSettled(hash: Queue.Hash, s: Sys, step: Step, sub: R.SubId)
    requires Enabled(s, step) && Settled(s, sub)
    requires sub !in s.db.recs ==> !UnknownSub(s, sub)
    ensures Settled(Effect(hash, s, step), sub)
  {
    var ds := DbPart(s, step);
    if ds.Some? && sub in s.db.recs && s.db.recs[sub].account in s.active {
      DbStepKeepsClosed(s.db, ds.value, sub);
    } else if ds.Some? && sub in s.db.recs && sub in R.Effect(s.db, ds.value).recs {
      AccountStays(s.db, ds.value, sub);
    }
  }

  lemma AccountStays(db: R.Db, ds: R.Step, sub: R.SubId)
    requires R.Enabled(db, ds) && sub in db.recs && sub in R.Effect(db, ds).recs
    ensures R.Effect(db, ds).recs[sub].account == db.recs[sub].account
  {
  }

  lemma StepKeepsJobsSettled(hash: Queue.Hash, s: Sys, step: Step)
    requires Inv(hash, s) && Enabled(s, step)
    ensures JobsSettled(Effect(hash, s, step))
  {
    var s' := Effect(hash, s, step);
    var qs := QueuePart(s, step);
    forall id | id in s'.queue.jobs && IsExtractJob(s'.queue.jobs[id]) && s'.queue.jobs[id].state.Completed?
      ensures Settled(s', s'.queue.jobs[id].target.value)
    {
      if qs.Some? {
        if id in s.queue.jobs {
          QueueKeepsJob(hash, s.queue, qs.value, id);
        } else {
          QueueAddsNoCompletedJob(hash, s.queue, qs.value, id);
        }
      }
      StepKeepsSettled(hash, s, step, s'.queue.jobs[id].target.value);
    }
  }

  lemma StepKeepsOtherWorker(hash: Queue.Hash, s: Sys, step: Step, w: WorkerId)
    requires Queue.Inv(hash, s.queue) && Enabled(s, step) && w in s.workers && WorkerOk(s, s.workers[w])
    ensures WorkerOk(Effect(hash, s, step), s.workers[w])
  {
    var worker := s.workers[w];
    var qs := QueuePart(s, step);
    var ds := DbPart(s, step);
    if qs.Some? {
      QueueKeepsJob(hash, s.queue, qs.value, worker.job);
    }
    if ds.Some? && worker.sub in s.db.recs && worker.sub in R.Effect(s.db, ds.value).recs {
      AccountStays(s.db, ds.value, worker.sub);
    }
    if worker.stage == Finished(CompleteJob) {
      StepKeepsSettled(hash, s, step, worker.sub);
    }
  }

  /** A worker that decides to complete its job has seen its submission closed, or its account
      inactive. */
  lemma MovingWorkerOk(hash: Queue.Hash, s: Sys, step: Step)
    requires Enabled(s, step) && (step.WorkerClaim? || step.WorkerExtract? || step.WorkerPersist?)
    requires WorkerOk(s, s.workers[step.w]) && StageAfter(s, step) == Finished(CompleteJob)
    ensures Settled(Effect(hash, s, step), s.workers[step.w].sub)
  {
  }

  lemma StepKeepsWorkers(hash: Queue.Hash, s: Sys, step: Step)
    requires Inv(hash, s) && Enabled(s, step)
    ensures WorkersOk(Effect(hash, s, step))
  {
    var s' := Effect(hash, s, step);
    forall w | w in s'.workers ensures WorkerOk(s', s'.workers[w]) {
      if w in s.workers {
        StepKeepsOtherWorker(hash, s, step, w);
      }
      if (step.WorkerClaim? || step.WorkerExtract? || step.WorkerPersist?) && step.w == w && StageAfter(s, step) == Finished(CompleteJob) {
        MovingWorkerOk(hash, s, step);
      }
    }
  }

  lemma StepKeepsInv(hash: Queue.Hash, s: Sys, step: Step)
    requires Inv(hash, s) && Enabled(s, step)
    ensures Inv(hash, Effect(hash, s, step))
  {
    StepKeepsJobsSettled(hash, s, step);
    StepKeepsWorkers(hash, s, step);
    if QueuePart(s, step).Some? {
      Queue.StepKeepsInv(hash, s.queue, QueuePart(s, step).value);
    }
    if DbPart(s, step).Some? {
      R.StepKeepsInv(s.db, DbPart(s, step).value);
    }
  }

  // ----- runs -----

  ghost predicate IsRun(hash: Queue.Hash, states: seq<Sys>, steps: seq<Step>) {
    && |states| == |steps| + 1
    && Queue.Init(states[0].queue) && states[0].db.recs == map[] && states[0].db.expenses == map[] && states[0].workers == map[]
    && forall i :: 0 <= i < |steps| ==> Enabled(states[i], steps[i]) && states[i + 1] == Effect(hash, states[i], steps[i])
  }

  lemma {:induction false} InvAlongRun(hash: Queue.Hash, states: seq<Sys>, steps: seq<Step>, i: nat)
    requires IsRun(hash, states, steps) && i < |states|
    ensures Inv(hash, states[i])
  {
    if i > 0 {
      InvAlongRun(hash, states, steps, i - 1);
      StepKeepsInv(hash, states[i - 1], steps[i - 1]);
    }
  }

  /** No extraction is lost silently: while the account is active, a completed `receipt.extract`
      job means its submission awaits review or is terminal, whatever workers ran and crashed. */
  lemma CompletedJobMeansClosed(hash: Queue.Hash, states: seq<Sys>, steps: seq<Step>, i: nat, id: WQ.JobId)
    requires IsRun(hash, states, steps) && i < |states|
    requires id in states[i].queue.jobs && IsExtractJob(states[i].queue.jobs[id]) && states[i].queue.jobs[id].state.Completed?
    requires states[i].queue.jobs[id].target.value in states[i].db.recs
    requires states[i].db.recs[states[i].queue.jobs[id].target.value].account in states[i].active
    ensures Closed(states[i].db.recs[states[i].queue.jobs[id].target.value].state)
  {
    InvAlongRun(hash, states, steps, i);
  }

  // ----- failures are retried, when executions do not overlap -----

  /** Between its two transactions. */
  predicate Busy(w: Worker) { w.stage.Proceeding? || w.stage.Extracted? }

  /** No two workers are busy with the same submission. */
  ghost predicate Solo(s: Sys) {
    forall a, b :: a in s.workers && b in s.workers && a != b && Busy(s.workers[a]) && Busy(s.workers[b]) ==>
      s.workers[a].sub != s.workers[b].sub
  }

  /** A worker's submission is where its claim put it, or closed. */
  ghost predicate OnTrack(s: Sys, sub: R.SubId) {
    sub in s.db.recs ==> s.db.recs[sub].state.Extracting? || Closed(s.db.recs[sub].state)
  }

  ghost predicate Undisturbed(s: Sys) {
    forall w :: w in s.workers && Busy(s.workers[w]) ==> OnTrack(s, s.workers[w].sub)
  }

  /** `StateAfterPersist` is what the recording transaction does to the table. */
  lemma PersistMovesState(hash: Queue.Hash, s: Sys, step: Step)
    requires Enabled(s, step) && step.WorkerPersist? && !Missing(s, s.workers[step.w])
    ensures var w := s.workers[step.w]; var s' := Effect(hash, s, step);
      && !Missing(s', w)
      && s'.db.recs[w.sub].state == StateAfterPersist(s.db.recs[w.sub].state, w.stage.result, KnownCategory(s, w.stage.result))
      && s'.workers[step.w].stage
         == Finished(AfterPersist(s.db.recs[w.sub].state, w.stage.result, KnownCategory(s, w.stage.result), step.cardQueued))
  {
  }

  /** What a claim makes of each state: the worker's next stage, and the state the claim leaves. */
  lemma ClaimDecides(hash: Queue.Hash, s: Sys, step: Step)
    requires Enabled(s, step) && step.WorkerClaim? && !Missing(s, s.workers[step.w])
    ensures var w := s.workers[step.w]; var s' := Effect(hash, s, step); var found := s.db.recs[w.sub].state;
      && step.w in s'.workers && !Missing(s', w)
      && (found in {R.Stored, R.FailedTransient, R.Extracting} ==> s'.workers[step.w].stage == Proceeding && s'.db.recs[w.sub].state == R.Extracting)
      && (found !in {R.Stored, R.FailedTransient, R.Extracting} ==> s'.db.recs[w.sub] == s.db.recs[w.sub])
      && (found == R.ReviewRequired ==> s'.workers[step.w].stage == Finished(if step.cardQueued then CompleteJob else FailJob(Dependency)))
      && (found in {R.Confirmed, R.Rejected, R.Expired, R.FailedPermanent, R.Deleted} ==> s'.workers[step.w].stage == Finished(CompleteJob))
      && (found in {R.Pending, R.Queued} ==> s'.workers[step.w].stage == Finished(FailJob(Conflict)))
  {
  }

  /** An extraction whose account is no longer active ends there: its job is done with and nothing is recorded. */
  lemma ExtractDecides(hash: Queue.Hash, s: Sys, step: Step)
    requires Enabled(s, step) && step.WorkerExtract?
    ensures var s' := Effect(hash, s, step);
      && s'.db == s.db && s'.queue == s.queue && step.w in s'.workers
      && s'.workers[step.w] == s.workers[step.w].(stage := if s.workers[step.w].account in s.active then Extracted(step.result)
                                                           else Finished(CompleteJob))
  {
  }

  /** What a receipt that was read makes of the state a recording finds and of its job. */
  predicate RecordsRead(found: R.ReceiptState, left: R.ReceiptState, known: bool, cardQueued: bool, x: Execution) {
    if found == R.Extracting && known then left == R.ReviewRequired && x == (if cardQueued then CompleteJob else FailJob(Dependency))
    else
      && left == found
      && match found
         case ReviewRequired => x == if cardQueued then CompleteJob else FailJob(Dependency)
         case Extracting => x == FailJob(Validation)
         case Pending => x == FailJob(Conflict)
         case Queued => x == FailJob(Conflict)
         case Stored => x == FailJob(Conflict)
         case FailedTransient => x == FailJob(Conflict)
         case _ => x == CompleteJob
  }

  /** What a failure of class `c` makes of them: a submission in extraction waits for a retry exactly when the
      class is one of the four that pass. */
  predicate RecordsFailure(found: R.ReceiptState, left: R.ReceiptState, c: ErrorClass, x: Execution) {
    && x == FailJob(c)
    && left == if found != R.Extracting then found
               else if c in {Transient, Timeout, RateLimited, Dependency} then R.FailedTransient else R.FailedPermanent
  }

  /** What each recording does to its submission and decides for its job. */
  lemma PersistDecides(hash: Queue.Hash, s: Sys, step: Step)
    requires Enabled(s, step) && step.WorkerPersist? && !Missing(s, s.workers[step.w])
    ensures var w := s.workers[step.w]; var s' := Effect(hash, s, step);
      && step.w in s'.workers && s'.workers[step.w].stage.Finished? && !Missing(s', w)
      && var found, left, x := s.db.recs[w.sub].state, s'.db.recs[w.sub].state, s'.workers[step.w].stage.execution;
         match w.stage.result
         case Read(fields) => RecordsRead(found, left, fields.category in s.db.categories, step.cardQueued, x)
         case UnsupportedImage => x == FailJob(Unsupported) && left == if found == R.Extracting then R.FailedPermanent else found
         case Broke(c) => RecordsFailure(found, left, c, x)
  {
    PersistMovesState(hash, s, step);
  }

  /** A worker's last transaction: while its lease is live, the job is completed or failed as was decided. */
  lemma ApplyDecides(hash: Queue.Hash, s: Sys, step: Step)
    requires Enabled(s, step) && step.WorkerApply? && s.workers[step.w].job in s.queue.jobs
    ensures var w := s.workers[step.w]; var j := s.queue.jobs[w.job]; var s' := Effect(hash, s, step);
      && step.w !in s'.workers && s'.db == s.db && w.job in s'.queue.jobs
      && var j' := s'.queue.jobs[w.job];
         if !(j.state.Leased? && j.state.token == w.token && step.now <= j.state.deadline) then j' == j
         else if w.stage.execution == CompleteJob then j' == j.(state := WQ.Completed, attempts := j'.attempts)
         else WQ.IsFailed(j, j', step.now, w.stage.execution.errorClass, WQ.RetriesAfter(j, w.stage.execution.errorClass))
  {
    var w := s.workers[step.w];
    var j := s.queue.jobs[w.job];
    if w.stage.execution.FailJob? && WQ.HoldsLease(j, w.token, step.now) {
      WQ.FailedRowIs(j, step.now, w.stage.execution.errorClass);
    }
  }

  /** A recording that brings the submission to review makes a draft of exactly what the worker read. */
  lemma DraftIsWhatWasRead(hash: Queue.Hash, s: Sys, step: Step)
    requires Enabled(s, step) && step.WorkerPersist? && !Missing(s, s.workers[step.w])
    requires var sub := s.workers[step.w].sub; s.db.recs[sub].state.Extracting? && s.db.recs[sub].draft.None?
    requires s.workers[step.w].stage.result.Read? && s.workers[step.w].stage.result.fields.category in s.db.categories
    ensures var sub := s.workers[step.w].sub; var s' := Effect(hash, s, step);
      && sub in s'.db.recs && s'.db.recs[sub].state.ReviewRequired? && s'.db.recs[sub].reviewExpiresAt == Some(step.expiry)
      && s'.db.recs[sub].draft == Some(R.Draft(s.workers[step.w].stage.result.fields, 1))
      && s'.db.recs[sub].extracted == Some(s.workers[step.w].stage.result.fields)
  {
  }

  lemma OtherDbStepsLeaveExtracting(db: R.Db, ds: R.Step, sub: R.SubId)
    requires R.Enabled(db, ds) && sub in db.recs && sub in R.Effect(db, ds).recs
    requires db.recs[sub].state.Extracting? || Closed(db.recs[sub].state)
    requires ds.PersistSuccess? || ds.PersistFailure? ==> ds.sub != sub
    ensures R.Effect(db, ds).recs[sub].state.Extracting? || Closed(R.Effect(db, ds).recs[sub].state)
  {
  }

  lemma OthersStayOnTrack(hash: Queue.Hash, s: Sys, step: Step, w: WorkerId)
    requires Enabled(s, step) && w in s.workers && OnTrack(s, s.workers[w].sub)
    requires step.WorkerPersist? ==> s.workers[step.w].sub != s.workers[w].sub
    ensures OnTrack(Effect(hash, s, step), s.workers[w].sub)
  {
    var ds := DbPart(s, step);
    var sub := s.workers[w].sub;
    if ds.Some? && sub in s.db.recs && sub in R.Effect(s.db, ds.value).recs {
      OtherDbStepsLeaveExtracting(s.db, ds.value, sub);
    }
  }

  lemma ClaimPutsOnTrack(hash: Queue.Hash, s: Sys, step: Step)
    requires Enabled(s, step) && step.WorkerClaim? && StageAfter(s, step).Proceeding?
    ensures OnTrack(Effect(hash, s, step), s.workers[step.w].sub)
  {
  }

  lemma StepKeepsUndisturbed(hash: Queue.Hash, s: Sys, step: Step)
    requires Enabled(s, step) && Solo(s) && Undisturbed(s)
    ensures Undisturbed(Effect(hash, s, step))
  {
    var s' := Effect(hash, s, step);
    forall w | w in s'.workers && Busy(s'.workers[w]) ensures OnTrack(s', s'.workers[w].sub) {
      if step.WorkerClaim? && step.w == w {
        ClaimPutsOnTrack(hash, s, step);
      } else {
        OthersStayOnTrack(hash, s, step, w);
      }
    }
  }

  lemma {:induction false} UndisturbedAlongRun(hash: Queue.Hash, states: seq<Sys>, steps: seq<Step>, i: nat)
    requires IsRun(hash, states, steps) && i < |states| && forall k :: 0 <= k < i ==> Solo(states[k])
    ensures Undisturbed(states[i])
  {
    if i > 0 {
      UndisturbedAlongRun(hash, states, steps, i - 1);
      StepKeepsUndisturbed(hash, states[i - 1], steps[i - 1]);
    }
  }

  /** In a run without overlapping executions, a recording that leaves its submission
      `failed_transient` fails its job with a retryable class, so the queue retries it until the
      attempts run out. */
  lemma SoloTransientFailuresAreRetried(hash: Queue.Hash, states: seq<Sys>, steps: seq<Step>, m: nat)
    requires IsRun(hash, states, steps) && m < |steps| && steps[m].WorkerPersist?
    requires forall k :: 0 <= k <= m ==> Solo(states[k])
    requires states[m].workers[steps[m].w].sub in states[m].db.recs
    requires states[m].workers[steps[m].w].sub in states[m + 1].db.recs
    requires states[m + 1].db.recs[states[m].workers[steps[m].w].sub].state.FailedTransient?
    ensures steps[m].w in states[m + 1].workers
    ensures states[m + 1].workers[steps[m].w].stage.Finished? && states[m + 1].workers[steps[m].w].stage.execution.FailJob?
    ensures var c := states[m + 1].workers[steps[m].w].stage.execution.errorClass;
      forall j: WQ.Job, now :: WQ.FailedJob(j, now, c).state == if j.attemptCount < j.maxAttempts then WQ.Queued else WQ.Dead
  {
    var s := states[m];
    var w := s.workers[steps[m].w];
    InvAlongRun(hash, states, steps, m);
    UndisturbedAlongRun(hash, states, steps, m);
    assert WorkerOk(s, w);
    PersistMovesState(hash, s, steps[m]);
    TransientFailureIsRetried(s.db.recs[w.sub].state, w.stage.result, KnownCategory(s, w.stage.result), steps[m].cardQueued);
  }

  /** The worker will fail its job as a conflict while the submission waits for a retry. */
  ghost predicate Overtaken(s: Sys, b: WorkerId) {
    && b in s.workers && s.workers[b].stage == Finished(FailJob(Conflict))
    && s.workers[b].sub in s.db.recs && s.db.recs[s.workers[b].sub].state.FailedTransient?
  }

  lemma SecondPersistIsRefused(hash: Queue.Hash, s: Sys, b: WorkerId, expiry: Time)
    requires b in s.workers && s.workers[b].stage.Extracted? && s.workers[b].stage.result.Read?
    requires !Missing(s, s.workers[b]) && s.db.recs[s.workers[b].sub].state.FailedTransient?
    ensures Overtaken(Effect(hash, s, WorkerPersist(b, expiry, true)), b)
  {
    PersistMovesState(hash, s, WorkerPersist(b, expiry, true));
  }

  /** With overlapping executions it fails: two workers are busy with one submission, the first
      times out, the second has read the receipt. The second's success is refused as a conflict,
      which the queue does not retry: whatever attempts are left, the job dies and the submission
      stays `failed_transient`. */
  lemma OverlapLosesExtraction(hash: Queue.Hash, s: Sys, a: WorkerId, b: WorkerId, expiry: Time)
    requires a in s.workers && b in s.workers && a != b && s.workers[a].sub == s.workers[b].sub
    requires !Missing(s, s.workers[a]) && !Missing(s, s.workers[b])
    requires s.db.recs[s.workers[a].sub].state.Extracting?
    requires s.workers[a].stage == Extracted(Broke(Timeout))
    requires s.workers[b].stage.Extracted? && s.workers[b].stage.result.Read?
    ensures var s1 := Effect(hash, s, WorkerPersist(a, expiry, true));
      Enabled(s1, WorkerPersist(b, expiry, true)) && Overtaken(Effect(hash, s1, WorkerPersist(b, expiry, true)), b)
    ensures forall j: WQ.Job, now :: WQ.FailedJob(j, now, Conflict).state.Dead?
  {
    var s1 := Effect(hash, s, WorkerPersist(a, expiry, true));
    PersistMovesState(hash, s, WorkerPersist(a, expiry, true));
    SecondPersistIsRefused(hash, s1, b, expiry);
  }
}
