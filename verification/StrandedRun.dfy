/** A run that strands a submission: the receipt is read, but with a category that does not exist. */
module StrandedRun {
  import opened Base
  import opened Extraction
  import opened OverlapRun
  import WQ = WorkQueue
  import Queue = ClaimProtocol
  import CR = ClaimRefinement
  import R = Receipts

  function Held(): WQ.Job { WQ.LeaseOrBury(WQ.NewJob(REQUEST, 0), 1, "worker", 0, 60) }

  /** Where the submission and its worker stand. */
  ghost predicate One(s: Sys, categories: set<string>, state: R.ReceiptState, stage: Stage) {
    && s.queue.claims == map[] && s.queue.jobs == map[0 := Held()] && s.active == {0}
    && s.workers == map[1 := At(1, stage)] && s.db.categories == categories
    && 0 in s.db.recs && s.db.recs[0].account == 0 && s.db.recs[0].state == state
  }

  lemma StartsOne(hash: Queue.Hash, categories: set<string>) returns (states: seq<Sys>, steps: seq<Step>)
    ensures IsRun(hash, states, steps) && One(End(states), categories, R.Stored, Started)
  {
    states, steps := Prepares(hash, categories);
    var claim, q := CR.ClaimsOne(hash, End(states).queue, 0, WQ.NewJob(REQUEST, 0), 1, "worker", 0, 60);
    states, steps := RunsClaim(hash, states, steps, claim, q);
    states, steps := RunsOn(hash, states, steps, Start(1, 0, 1));
  }

  lemma ReadsOne(hash: Queue.Hash, s: Sys, categories: set<string>, fields: R.Fields)
    requires One(s, categories, R.Stored, Started)
    ensures var s1 := Effect(hash, s, WorkerClaim(1, true));
      Enabled(s1, WorkerExtract(1, Read(fields)))
      && One(Effect(hash, s1, WorkerExtract(1, Read(fields))), categories, R.Extracting, Extracted(Read(fields)))
  {
    assert One(Effect(hash, s, WorkerClaim(1, true)), categories, R.Extracting, Proceeding);
  }

  lemma RecordsOne(hash: Queue.Hash, s: Sys, categories: set<string>, fields: R.Fields)
    requires One(s, categories, R.Extracting, Extracted(Read(fields))) && fields.category !in categories
    ensures One(Effect(hash, s, WorkerPersist(1, 0, true)), categories, R.Extracting, Finished(FailJob(Validation)))
  {
    PersistMovesState(hash, s, WorkerPersist(1, 0, true));
  }

  lemma OneDies(hash: Queue.Hash, s: Sys, categories: set<string>)
    requires One(s, categories, R.Extracting, Finished(FailJob(Validation)))
    ensures Enabled(s, WorkerApply(1, 0))
    ensures var s' := Effect(hash, s, WorkerApply(1, 0));
      && s'.db == s.db && s'.active == s.active && s'.workers == map[]
      && 0 in s'.queue.jobs && s'.queue.jobs[0].state.Dead? && s'.queue.jobs[0].attemptCount == 1 && s'.queue.jobs[0].maxAttempts == 10
  {
  }

  lemma RunsToRecord(hash: Queue.Hash, categories: set<string>, fields: R.Fields) returns (states: seq<Sys>, steps: seq<Step>)
    ensures IsRun(hash, states, steps) && One(End(states), categories, R.Extracting, Extracted(Read(fields)))
  {
    states, steps := StartsOne(hash, categories);
    ReadsOne(hash, End(states), categories, fields);
    states, steps := RunsOn(hash, states, steps, WorkerClaim(1, true));
    states, steps := RunsOn(hash, states, steps, WorkerExtract(1, Read(fields)));
  }

  /** There is a run without any overlap that ends with the job dead after one attempt of ten and its
      submission in `extracting`, with no worker left to move it. */
  lemma SubmissionIsStranded(hash: Queue.Hash, categories: set<string>, fields: R.Fields) returns (states: seq<Sys>, steps: seq<Step>)
    requires fields.category !in categories
    ensures IsRun(hash, states, steps)
    ensures var s := End(states);
      && 0 in s.queue.jobs && s.queue.jobs[0].state.Dead? && s.queue.jobs[0].attemptCount == 1 && s.queue.jobs[0].maxAttempts == 10
      && 0 in s.db.recs && s.db.recs[0].state.Extracting? && 0 in s.active && s.workers == map[]
  {
    states, steps := RunsToRecord(hash, categories, fields);
    RecordsOne(hash, End(states), categories, fields);
    states, steps := RunsOn(hash, states, steps, WorkerPersist(1, 0, true));
    OneDies(hash, End(states), categories);
    states, steps := RunsOn(hash, states, steps, WorkerApply(1, 0));
  }
}
