/** A run that loses an extraction: two workers, the second started when the first one's lease had
    lapsed, record their results in the wrong order. */
module OverlapRun {
  import opened Base
  import opened Extraction
  import WQ = WorkQueue
  import Queue = ClaimProtocol
  import CR = ClaimRefinement
  import R = Receipts

  /** A run goes on by a step. */
  lemma RunsOn(hash: Queue.Hash, states: seq<Sys>, steps: seq<Step>, step: Step) returns (states': seq<Sys>, steps': seq<Step>)
    requires IsRun(hash, states, steps) && Enabled(End(states), step)
    ensures steps' == steps + [step] && states' == states + [Effect(hash, End(states), step)] && IsRun(hash, states', steps')
  {
    states', steps' := states + [Effect(hash, End(states), step)], steps + [step];
  }

  /** A run goes on by a claim of the queue. */
  lemma {:induction false} RunsClaim(hash: Queue.Hash, states: seq<Sys>, steps: seq<Step>, claim: seq<Queue.Step>, q: Queue.State)
    returns (states': seq<Sys>, steps': seq<Step>)
    requires IsRun(hash, states, steps) && CR.OfClaim(claim) && CR.Leads(hash, End(states).queue, claim, q)
    ensures IsRun(hash, states', steps') && End(states') == End(states).(queue := q)
    decreases |claim|
  {
    states', steps' := states, steps;
    if claim != [] {
      states', steps' := RunsOn(hash, states, steps, QueueStep(claim[0]));
      states', steps' := RunsClaim(hash, states', steps', claim[1..], q);
    }
  }

  // ----- one submission, one job, two workers -----

  const REQUEST := WQ.EnqueueRequest("receipt.extract", 1, Some(0), "receipt.extract:0", Some("receipt:0"), 0, 0, 10)

  lemma RequestIsValid()
    ensures WQ.ValidRequest(REQUEST)
  {
    assert 'r' == "receipt.extract"[0] && 'r' in "receipt.extract";
    assert 'r' == "receipt.extract:0"[0] && 'r' in "receipt.extract:0";
    assert 'r' == "receipt:0"[0] && 'r' in "receipt:0";
  }

  function StoredRec(): R.Rec { R.NewRec(0).(state := R.Stored, version := 3, asset := Some(R.Asset("image", true)), timesStored := 1) }

  function Db(r: R.Rec, categories: set<string>): R.Db { R.Db(map[0 := r], map[], categories) }

  /** The submission is stored and its job queued. */
  lemma Prepares(hash: Queue.Hash, categories: set<string>) returns (states: seq<Sys>, steps: seq<Step>)
    ensures IsRun(hash, states, steps)
    ensures End(states) == Sys(Queue.State(map[0 := WQ.NewJob(REQUEST, 0)], map[], {}), Db(StoredRec(), categories), {0}, map[])
  {
    states, steps := [Sys(Queue.State(map[], map[], {}), R.Db(map[], map[], categories), {0}, map[])], [];
    states, steps := RunsOn(hash, states, steps, DbStep(R.Accept(0, 0)));
    states, steps := RunsOn(hash, states, steps, DbStep(R.Store(0, 0, "image")));
    assert End(states).db.recs == map[0 := StoredRec()];
    RequestIsValid();
    states, steps := RunsOn(hash, states, steps, QueueStep(Queue.Enqueue(0, REQUEST, 0)));
  }

  /** The job under the first worker's lease, from 0 to 1, and under the second one's, from 2 to 12. */
  function LeasedTo(token: WQ.Token): WQ.Job {
    var first := WQ.LeaseOrBury(WQ.NewJob(REQUEST, 0), 1, "first", 0, 1);
    if token == 1 then first else WQ.LeaseOrBury(first, 2, "second", 2, 10)
  }

  function At(token: WQ.Token, stage: Stage): Worker { Worker(0, token, 0, 0, stage) }

  /** Where the submission and both workers stand, the job being leased to the second one. */
  ghost predicate Both(s: Sys, state: R.ReceiptState, first: Stage, second: Stage) {
    && s.queue.claims == map[] && s.queue.jobs == map[0 := LeasedTo(2)] && s.active == {0}
    && s.workers == map[1 := At(1, first), 2 := At(2, second)]
    && 0 in s.db.recs && s.db.recs[0].account == 0 && s.db.recs[0].state == state
  }

  lemma StartsTwice(hash: Queue.Hash, categories: set<string>) returns (states: seq<Sys>, steps: seq<Step>)
    ensures IsRun(hash, states, steps) && Both(End(states), R.Stored, Started, Started)
  {
    states, steps := Prepares(hash, categories);
    var claim, q := CR.ClaimsOne(hash, End(states).queue, 0, WQ.NewJob(REQUEST, 0), 1, "first", 0, 1);
    states, steps := RunsClaim(hash, states, steps, claim, q);
    states, steps := RunsOn(hash, states, steps, Start(1, 0, 1));
    claim, q := CR.ClaimsOne(hash, End(states).queue, 0, LeasedTo(1), 2, "second", 2, 10);
    states, steps := RunsClaim(hash, states, steps, claim, q);
    states, steps := RunsOn(hash, states, steps, Start(2, 0, 2));
  }

  /** Both claim the submission. */
  lemma ClaimTwice(hash: Queue.Hash, s: Sys)
    requires Both(s, R.Stored, Started, Started)
    ensures var s1 := Effect(hash, s, WorkerClaim(1, true));
      Enabled(s1, WorkerClaim(2, true)) && Both(Effect(hash, s1, WorkerClaim(2, true)), R.Extracting, Proceeding, Proceeding)
  {
    assert Both(Effect(hash, s, WorkerClaim(1, true)), R.Extracting, Proceeding, Started);
  }

  /** The first extraction times out, the second reads the receipt. */
  lemma ExtractTwice(hash: Queue.Hash, s: Sys, fields: R.Fields)
    requires Both(s, R.Extracting, Proceeding, Proceeding)
    ensures var s1 := Effect(hash, s, WorkerExtract(1, Broke(Timeout)));
      Enabled(s1, WorkerExtract(2, Read(fields)))
      && Both(Effect(hash, s1, WorkerExtract(2, Read(fields))), R.Extracting, Extracted(Broke(Timeout)), Extracted(Read(fields)))
  {
    assert Both(Effect(hash, s, WorkerExtract(1, Broke(Timeout))), R.Extracting, Extracted(Broke(Timeout)), Proceeding);
  }

  lemma RecordOfFirst(hash: Queue.Hash, s: Sys, fields: R.Fields)
    requires Both(s, R.Extracting, Extracted(Broke(Timeout)), Extracted(Read(fields)))
    ensures Both(Effect(hash, s, WorkerPersist(1, 0, true)), R.FailedTransient, Finished(FailJob(Timeout)), Extracted(Read(fields)))
  {
    PersistMovesState(hash, s, WorkerPersist(1, 0, true));
  }

  lemma RecordOfSecond(hash: Queue.Hash, s: Sys, fields: R.Fields)
    requires Both(s, R.FailedTransient, Finished(FailJob(Timeout)), Extracted(Read(fields)))
    ensures Both(Effect(hash, s, WorkerPersist(2, 0, true)), R.FailedTransient, Finished(FailJob(Timeout)), Finished(FailJob(Conflict)))
  {
    PersistMovesState(hash, s, WorkerPersist(2, 0, true));
  }

  lemma BothClaim(hash: Queue.Hash, categories: set<string>) returns (states: seq<Sys>, steps: seq<Step>)
    ensures IsRun(hash, states, steps) && Both(End(states), R.Extracting, Proceeding, Proceeding)
  {
    states, steps := StartsTwice(hash, categories);
    ClaimTwice(hash, End(states));
    states, steps := RunsOn(hash, states, steps, WorkerClaim(1, true));
    states, steps := RunsOn(hash, states, steps, WorkerClaim(2, true));
  }

  lemma BothExtract(hash: Queue.Hash, categories: set<string>, fields: R.Fields) returns (states: seq<Sys>, steps: seq<Step>)
    ensures IsRun(hash, states, steps) && Both(End(states), R.Extracting, Extracted(Broke(Timeout)), Extracted(Read(fields)))
  {
    states, steps := BothClaim(hash, categories);
    ExtractTwice(hash, End(states), fields);
    states, steps := RunsOn(hash, states, steps, WorkerExtract(1, Broke(Timeout)));
    states, steps := RunsOn(hash, states, steps, WorkerExtract(2, Read(fields)));
  }

  /** A run reaches the state in which the second worker has been overtaken. */
  lemma OvertakingIsReached(hash: Queue.Hash, categories: set<string>, fields: R.Fields) returns (states: seq<Sys>, steps: seq<Step>)
    ensures IsRun(hash, states, steps) && Overtaken(End(states), 2)
    ensures Both(End(states), R.FailedTransient, Finished(FailJob(Timeout)), Finished(FailJob(Conflict)))
  {
    states, steps := BothExtract(hash, categories, fields);
    RecordOfFirst(hash, End(states), fields);
    states, steps := RunsOn(hash, states, steps, WorkerPersist(1, 0, true));
    RecordOfSecond(hash, End(states), fields);
    states, steps := RunsOn(hash, states, steps, WorkerPersist(2, 0, true));
  }

  lemma JobDies(hash: Queue.Hash, s: Sys)
    requires Both(s, R.FailedTransient, Finished(FailJob(Timeout)), Finished(FailJob(Conflict)))
    ensures Enabled(s, WorkerApply(2, 2))
    ensures var s' := Effect(hash, s, WorkerApply(2, 2));
      s'.db == s.db && s'.active == s.active
      && 0 in s'.queue.jobs && s'.queue.jobs[0].state.Dead? && s'.queue.jobs[0].attemptCount == 2 && s'.queue.jobs[0].maxAttempts == 10
  {
  }

  /** There is a run that ends with the job dead, eight attempts left, and its submission waiting for
      a retry, although one of the workers has read the receipt. */
  lemma ExtractionIsLost(hash: Queue.Hash, categories: set<string>, fields: R.Fields) returns (states: seq<Sys>, steps: seq<Step>)
    ensures IsRun(hash, states, steps)
    ensures var s := End(states);
      && 0 in s.queue.jobs && s.queue.jobs[0].state.Dead? && s.queue.jobs[0].attemptCount == 2 && s.queue.jobs[0].maxAttempts == 10
      && 0 in s.db.recs && s.db.recs[0].state.FailedTransient? && 0 in s.active
  {
    states, steps := OvertakingIsReached(hash, categories, fields);
    JobDies(hash, End(states));
    states, steps := RunsOn(hash, states, steps, WorkerApply(2, 2));
  }
}
