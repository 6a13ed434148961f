/** The queue's own operations, run one after another on the table: `WorkStore` and its claim loop. */
module WorkStore {
  import opened Base
  import opened WorkQueue

  /** The candidate query's order: priority first, then run time, then creation time. */
  predicate ServedBefore(a: Job, b: Job) {
    a.priority > b.priority
    || (a.priority == b.priority && (a.runAt < b.runAt || (a.runAt == b.runAt && a.createdAt < b.createdAt)))
  }

  ghost predicate Distinct(ids: seq<JobId>) {
    forall i, k :: 0 <= i < k < |ids| ==> ids[i] != ids[k]
  }

  /** `ids` is an answer to the candidate query: the first `limit` selectable rows in order, ties
      in any order. */
  ghost predicate IsSelection(jobs: Jobs, now: Time, limit: int, ids: seq<JobId>) {
    && Distinct(ids)
    && (forall i :: 0 <= i < |ids| ==> ids[i] in jobs && Selectable(jobs[ids[i]], jobs, now))
    && (forall i, k :: 0 <= i < k < |ids| ==> !ServedBefore(jobs[ids[k]], jobs[ids[i]]))
    && |ids| <= limit
    && (forall id :: id in jobs && Selectable(jobs[id], jobs, now) && id !in ids ==>
          |ids| == limit && forall i :: 0 <= i < |ids| ==> !ServedBefore(jobs[id], jobs[ids[i]]))
  }

  datatype ClaimedJob = ClaimedJob(id: JobId, attemptNumber: int, token: Token, owner: string, deadline: Time)

  /** The claim loop's variables. */
  datatype Progress = Progress(jobs: Jobs, keys: set<string>, claimed: seq<ClaimedJob>)

  /** One turn of the claim loop, with nobody else claiming. */
  function ClaimOne(p: Progress, id: JobId, token: Token, owner: string, now: Time, duration: int): Progress
    requires id in p.jobs
  {
    var j := p.jobs[id];
    if j.serKey.Some? && j.serKey.value in p.keys then p
    else
      var noted := p.(keys := p.keys + (if j.serKey.Some? then {j.serKey.value} else {}));
      if j.serKey.Some? && KeyHeldByOther(p.jobs, j.serKey.value, id) then noted
      else
        var j' := LeaseOrBury(j, token, owner, now, duration);
        noted.(jobs := p.jobs[id := j'],
               claimed := if j'.state.Leased?
                          then p.claimed + [ClaimedJob(id, j.attemptCount + 1, token, owner, now + duration)]
                          else p.claimed)
  }

  ghost predicate InTable(jobs: Jobs, ids: seq<JobId>) { forall i :: 0 <= i < |ids| ==> ids[i] in jobs }

  /** The claim loop after its first `n` candidates. */
  ghost function ClaimFirst(jobs: Jobs, ids: seq<JobId>, tokens: seq<Token>, owner: string, now: Time, duration: int, n: nat): (p: Progress)
    requires InTable(jobs, ids) && |tokens| == |ids| && n <= |ids|
    ensures p.jobs.Keys == jobs.Keys
  {
    if n == 0 then Progress(jobs, {}, [])
    else ClaimOne(ClaimFirst(jobs, ids, tokens, owner, now, duration, n - 1), ids[n - 1], tokens[n - 1], owner, now, duration)
  }

  /** The job is leased under this token, and its deadline has not passed. */
  predicate IsCurrentHolder(j: Job, token: Token, now: Time) {
    match j.state
    case Leased(t, _, deadline) => t == token && now <= deadline
    case _ => false
  }

  class WorkStore {
    var jobs: Jobs

    constructor ()
      ensures jobs == map[]
    {
      jobs := map[];
    }

    method Enqueue(id: JobId, request: EnqueueRequest, now: Time) returns (r: Result<EnqueueOutcome, ErrorClass>)
      requires id !in jobs
      modifies this
      ensures r.Err? <==> request.payloadVersion <= 0 || request.maxAttempts <= 0
                          || IsBlank(request.jobType) || |request.jobType| > 128 || IsBlank(request.dedupeKey) || |request.dedupeKey| > 512
                          || (request.serKey.Some? && (IsBlank(request.serKey.value) || |request.serKey.value| > 512))
      ensures r.Err? ==> r.error == Validation
      ensures r == Ok(DuplicateKey) <==> ValidRequest(request) && exists k :: k in old(jobs) && old(jobs)[k].dedupeKey == request.dedupeKey
      ensures jobs == WithJob(old(jobs), id, request, now)
      ensures r != Ok(Enqueued) ==> jobs == old(jobs)
      ensures r == Ok(Enqueued) ==> id in jobs && jobs == old(jobs)[id := jobs[id]]
      ensures r == Ok(Enqueued) ==> var j := jobs[id];
        && j.jobType == request.jobType && j.payloadVersion == request.payloadVersion && j.target == request.target
        && j.priority == request.priority && j.runAt == request.runAt && j.createdAt == now
        && j.dedupeKey == request.dedupeKey && j.serKey == request.serKey && j.maxAttempts == request.maxAttempts
        && j.state.Queued? && j.attemptCount == 0 && j.lastError.None? && j.attempts == []
    {
      if !ValidRequest(request) {
        return Err(Validation);
      }
      if DedupeKeyTaken(jobs, request.dedupeKey) {
        return Ok(DuplicateKey);
      }
      jobs := jobs[id := NewJob(request, now)];
      return Ok(Enqueued);
    }

    method Claim(limit: int, owner: string, duration: int, now: Time, candidates: seq<JobId>, tokens: seq<Token>)
      returns (r: Result<seq<ClaimedJob>, ErrorClass>)
      requires limit > 0 ==> IsSelection(jobs, now, limit, candidates) && |tokens| == |candidates|
      modifies this
      ensures r.Err? <==> limit <= 0 || owner == "" || duration <= 0
      ensures r.Err? ==> r.error == Validation && jobs == old(jobs)
      ensures r.Ok? ==> InTable(old(jobs), candidates)
                        && var p := ClaimFirst(old(jobs), candidates, tokens, owner, now, duration, |candidates|);
                           jobs == p.jobs && r.value == p.claimed
    {
      if limit <= 0 || owner == "" || duration <= 0 {
        return Err(Validation);
      }
      var claimed := ClaimCandidates(owner, duration, now, candidates, tokens);
      return Ok(claimed);
    }

    /** The claim loop. */
    method ClaimCandidates(owner: string, duration: int, now: Time, candidates: seq<JobId>, tokens: seq<Token>)
      returns (claimed: seq<ClaimedJob>)
      requires InTable(jobs, candidates) && |tokens| == |candidates|
      modifies this
      ensures var p := ClaimFirst(old(jobs), candidates, tokens, owner, now, duration, |candidates|);
              jobs == p.jobs && claimed == p.claimed
    {
      claimed := [];
      var keys: set<string> := {};
      for n := 0 to |candidates|
        invariant Progress(jobs, keys, claimed) == ClaimFirst(old(jobs), candidates, tokens, owner, now, duration, n)
      {
        var id := candidates[n];
        var candidate := jobs[id];
        if candidate.serKey.Some? {
          if candidate.serKey.value in keys {
            continue;
          }
          keys := keys + {candidate.serKey.value};
          if KeyHeldByOther(jobs, candidate.serKey.value, id) {
            continue;
          }
        }
        var leased := ServeCandidate(id, tokens[n], owner, now, duration);
        if leased {
          claimed := claimed + [ClaimedJob(id, candidate.attemptCount + 1, tokens[n], owner, now + duration)];
        }
      }
    }

    /** The writes of one turn of the claim loop. */
    method ServeCandidate(id: JobId, token: Token, owner: string, now: Time, duration: int) returns (leased: bool)
      requires id in jobs
      modifies this
      ensures jobs == old(jobs)[id := LeaseOrBury(old(jobs)[id], token, owner, now, duration)]
      ensures leased == jobs[id].state.Leased?
      ensures var j := old(jobs)[id];
        && leased == !(j.state.Leased? && j.attemptCount >= j.maxAttempts)
        && jobs[id] == if leased then j.(state := Leased(token, owner, now + duration), attemptCount := j.attemptCount + 1, attempts := jobs[id].attempts)
                       else j.(state := Dead, lastError := Some(Timeout), attempts := jobs[id].attempts)
      ensures leased ==> jobs[id].attempts != []
                         && jobs[id].attempts[|jobs[id].attempts| - 1] == Attempt(old(jobs)[id].attemptCount + 1, token, owner, None, None)
    {
      var row := jobs[id];
      if row.state.Leased? {
        row := row.(attempts := CloseOpen(row.attempts, LostLease, None));
        if row.attemptCount >= row.maxAttempts {
          jobs := jobs[id := row.(state := Dead, lastError := Some(Timeout))];
          return false;
        }
      }
      var attemptNumber := row.attemptCount + 1;
      row := row.(state := Leased(token, owner, now + duration), attemptCount := attemptNumber);
      row := row.(attempts := row.attempts + [Attempt(attemptNumber, token, owner, None, None)]);
      jobs := jobs[id := row];
      return true;
    }

    method Heartbeat(id: JobId, token: Token, now: Time, duration: int) returns (r: Result<Time, ErrorClass>)
      modifies this
      ensures duration <= 0 ==> r == Err(Validation)
      ensures duration > 0 ==>
        r == if id in old(jobs) && IsCurrentHolder(old(jobs)[id], token, now) then Ok(now + duration) else Err(Conflict)
      ensures jobs == if r.Ok? then old(jobs)[id := Beaten(old(jobs)[id], now, duration)] else old(jobs)
      ensures r.Ok? ==> jobs[id] == old(jobs)[id].(state := Leased(token, old(jobs)[id].state.owner, now + duration))
    {
      if duration <= 0 {
        return Err(Validation);
      }
      if id !in jobs || !HoldsLease(jobs[id], token, now) {
        return Err(Conflict);
      }
      jobs := jobs[id := jobs[id].(state := jobs[id].state.(deadline := now + duration))];
      return Ok(now + duration);
    }

    method Complete(id: JobId, token: Token, now: Time) returns (r: Result<(), ErrorClass>)
      modifies this
      ensures r == if id in old(jobs) && IsCurrentHolder(old(jobs)[id], token, now) then Ok(()) else Err(Conflict)
      ensures jobs == if r.Ok? then old(jobs)[id := Finished(old(jobs)[id])] else old(jobs)
      ensures r.Ok? ==> jobs[id] == old(jobs)[id].(state := Completed, attempts := jobs[id].attempts)
      ensures r.Ok? && JobOk(old(jobs)[id]) ==> EndsLast(old(jobs)[id].attempts, jobs[id].attempts, DidComplete, None)
    {
      if id !in jobs || !HoldsLease(jobs[id], token, now) {
        return Err(Conflict);
      }
      jobs := jobs[id := jobs[id].(state := Completed)];
      jobs := jobs[id := jobs[id].(attempts := CloseOpen(jobs[id].attempts, DidComplete, None))];
      return Ok(());
    }

    /** The result says whether the job is retried. */
    method Fail(id: JobId, token: Token, now: Time, errorClass: ErrorClass) returns (r: Result<bool, ErrorClass>)
      modifies this
      ensures r == if id in old(jobs) && IsCurrentHolder(old(jobs)[id], token, now)
                   then Ok(RetriesAfter(old(jobs)[id], errorClass)) else Err(Conflict)
      ensures jobs == if r.Ok? then old(jobs)[id := FailedJob(old(jobs)[id], now, errorClass)] else old(jobs)
      ensures r.Ok? ==> (r.value <==> errorClass in {Transient, Timeout, RateLimited, Dependency, ProviderError}
                                      && old(jobs)[id].attemptCount < old(jobs)[id].maxAttempts)
      ensures r.Ok? ==> IsFailed(old(jobs)[id], jobs[id], now, errorClass, r.value)
    {
      if id !in jobs || !HoldsLease(jobs[id], token, now) {
        return Err(Conflict);
      }
      var row := jobs[id];
      FailedRowIs(row, now, errorClass);
      jobs := jobs[id := row.(attempts := CloseOpen(row.attempts, DidFail, Some(errorClass)))];
      if IsRetryable(errorClass) && row.attemptCount < row.maxAttempts {
        jobs := jobs[id := jobs[id].(state := Queued, runAt := now + RetryDelaySecs(row.attemptCount), lastError := Some(errorClass))];
        return Ok(true);
      }
      jobs := jobs[id := jobs[id].(state := Dead, lastError := Some(errorClass))];
      return Ok(false);
    }

    /** `cancel` with `byOperator` false, `cancel_by_operator` with it true. */
    method Cancel(id: JobId, token: Option<Token>, byOperator: bool, now: Time) returns (r: Result<(), ErrorClass>)
      modifies this
      ensures id !in old(jobs) ==> r == Err(NotFound)
      ensures id in old(jobs) ==> var j := old(jobs)[id];
        && (j.state.Queued? ==> r == if token.Some? then Err(Validation) else Ok(()))
        && (j.state.Leased? ==>
              r == if byOperator || (token.Some? && IsCurrentHolder(j, token.value, now)) then Ok(())
                   else if token.None? then Err(Validation) else Err(Conflict))
        && (!j.state.Queued? && !j.state.Leased? ==> r == Err(Conflict))
      ensures jobs == if r.Ok? then old(jobs)[id := CancelledJob(old(jobs)[id])] else old(jobs)
      ensures r.Ok? ==> jobs[id] == old(jobs)[id].(state := Cancelled, attempts := jobs[id].attempts)
      ensures r.Ok? && old(jobs)[id].state.Queued? ==> jobs[id].attempts == old(jobs)[id].attempts
      ensures r.Ok? && old(jobs)[id].state.Leased? && JobOk(old(jobs)[id]) ==> EndsLast(old(jobs)[id].attempts, jobs[id].attempts, WasCancelled, None)
    {
      if id !in jobs {
        return Err(NotFound);
      }
      match jobs[id].state {
      case Queued =>
        if token.Some? {
          return Err(Validation);
        }
        jobs := jobs[id := jobs[id].(state := Cancelled)];
      case Leased(_, _, _) =>
        if !byOperator {
          if token.None? {
            return Err(Validation);
          }
          if !HoldsLease(jobs[id], token.value, now) {
            return Err(Conflict);
          }
        }
        jobs := jobs[id := jobs[id].(state := Cancelled)];
        jobs := jobs[id := jobs[id].(attempts := CloseOpen(jobs[id].attempts, WasCancelled, None))];
      case _ =>
        return Err(Conflict);
      }
      return Ok(());
    }

    method CancelQueuedBySerializationKey(key: string) returns (cancelled: nat)
      modifies this
      ensures jobs.Keys == old(jobs).Keys
      ensures forall id :: id in jobs ==>
        jobs[id] == if old(jobs)[id].state.Queued? && old(jobs)[id].serKey == Some(key)
                    then old(jobs)[id].(state := Cancelled) else old(jobs)[id]
      ensures cancelled == |set id | id in old(jobs) && old(jobs)[id].state.Queued? && old(jobs)[id].serKey == Some(key)|
    {
      var chosen := set id | id in jobs && jobs[id].state.Queued? && jobs[id].serKey == Some(key);
      jobs := map id | id in jobs :: if id in chosen then jobs[id].(state := Cancelled) else jobs[id];
      return |chosen|;
    }

    method RecoverDead(id: JobId, now: Time) returns (r: Result<(), ErrorClass>)
      modifies this
      ensures r == if id in old(jobs) && old(jobs)[id].state.Dead? then Ok(()) else Err(Conflict)
      ensures jobs == if r.Ok? then old(jobs)[id := RecoveredJob(old(jobs)[id], now)] else old(jobs)
      ensures r.Ok? ==> jobs[id] == old(jobs)[id].(state := Queued, runAt := now, lastError := None, maxAttempts := jobs[id].maxAttempts)
      ensures r.Ok? ==> jobs[id].maxAttempts == Max(old(jobs)[id].maxAttempts, old(jobs)[id].attemptCount + 1)
    {
      if id !in jobs || !jobs[id].state.Dead? {
        return Err(Conflict);
      }
      var row := jobs[id];
      jobs := jobs[id := row.(state := Queued, runAt := now, lastError := None,
                              maxAttempts := if row.maxAttempts >= row.attemptCount + 1 then row.maxAttempts else row.attemptCount + 1)];
      return Ok(());
    }
  }

  /** Queued and its run time come, or leased and its deadline gone by. */
  predicate IsDue(j: Job, now: Time) {
    match j.state
    case Queued => j.runAt <= now
    case Leased(_, _, deadline) => deadline < now
    case _ => false
  }

  /** A queued job whose key a leased job holds. */
  ghost predicate IsBlocked(jobs: Jobs, j: Job) {
    j.state.Queued? && j.serKey.Some? && exists k :: k in jobs && jobs[k].state.Leased? && jobs[k].serKey == j.serKey
  }

  lemma SelectableIs(jobs: Jobs, j: Job, now: Time)
    ensures Selectable(j, jobs, now) <==> IsDue(j, now) && !IsBlocked(jobs, j)
  {
    if j.serKey.Some? {
      assert KeyHeld(jobs, j.serKey.value) <==> exists k :: k in jobs && jobs[k].state.Leased? && jobs[k].serKey == j.serKey by {
        assert forall k :: k in jobs ==> (HoldsKey(jobs[k], j.serKey.value) <==> jobs[k].state.Leased? && jobs[k].serKey == j.serKey);
      }
    }
  }

  /** A batch holds due jobs only, none of them blocked, and as many as there are up to the limit. */
  lemma BatchIsDue(jobs: Jobs, now: Time, limit: int, ids: seq<JobId>, id: JobId)
    requires IsSelection(jobs, now, limit, ids) && id in jobs
    ensures |ids| <= limit
    ensures id in ids ==> IsDue(jobs[id], now) && !IsBlocked(jobs, jobs[id])
    ensures |ids| < limit && IsDue(jobs[id], now) && !IsBlocked(jobs, jobs[id]) ==> id in ids
  {
    SelectableIs(jobs, jobs[id], now);
  }

  /** The batch goes by priority, then by run time, then by age: no job left out comes before one in it,
      nor does a later one in it come before an earlier. */
  lemma BatchIsInOrder(jobs: Jobs, now: Time, limit: int, ids: seq<JobId>, i: nat, id: JobId)
    requires IsSelection(jobs, now, limit, ids) && i < |ids| && id in jobs
    requires IsDue(jobs[id], now) && !IsBlocked(jobs, jobs[id]) && forall k :: 0 <= k <= i ==> ids[k] != id
    ensures var a, b := jobs[ids[i]], jobs[id];
      && a.priority >= b.priority
      && (a.priority == b.priority ==> a.runAt <= b.runAt)
      && (a.priority == b.priority && a.runAt == b.runAt ==> a.createdAt <= b.createdAt)
  {
    SelectableIs(jobs, jobs[id], now);
    if id in ids {
      var k :| 0 <= k < |ids| && ids[k] == id;
      assert !ServedBefore(jobs[ids[k]], jobs[ids[i]]);
    } else {
      assert !ServedBefore(jobs[id], jobs[ids[i]]);
    }
  }

  // ----- what the claim answers -----

  /** The answer's entry agrees with the row. */
  ghost predicate IsLeasedAs(jobs: Jobs, c: ClaimedJob) {
    && c.id in jobs && jobs[c.id].state == Leased(c.token, c.owner, c.deadline) && jobs[c.id].attemptCount == c.attemptNumber
  }

  ghost predicate Listed(claimed: seq<ClaimedJob>, id: JobId) { exists k :: 0 <= k < |claimed| && claimed[k].id == id }

  /** Each entry of the answer is one of the first `n` candidates, leased to the caller to the deadline it says;
      and each row changed into a lease is in the answer. */
  ghost predicate AnswersLeases(jobs: Jobs, p: Progress, ids: seq<JobId>, n: nat, owner: string, deadline: Time)
    requires n <= |ids|
  {
    && p.jobs.Keys == jobs.Keys
    && (forall k :: 0 <= k < |p.claimed| ==>
          IsLeasedAs(p.jobs, p.claimed[k]) && p.claimed[k].id in ids[..n] && p.claimed[k].owner == owner && p.claimed[k].deadline == deadline)
    && (forall id :: id in jobs && p.jobs[id] != jobs[id] && p.jobs[id].state.Leased? ==> Listed(p.claimed, id))
  }

  lemma NothingAnswered(jobs: Jobs, ids: seq<JobId>, p: Progress, owner: string, deadline: Time)
    requires p.jobs == jobs && p.claimed == []
    ensures AnswersLeases(jobs, p, ids, 0, owner, deadline)
  {
  }

  lemma NextAnswer(jobs: Jobs, ids: seq<JobId>, tokens: seq<Token>, owner: string, now: Time, duration: int, n: nat)
    requires InTable(jobs, ids) && |tokens| == |ids| && n < |ids| && Distinct(ids)
    requires AnswersLeases(jobs, ClaimFirst(jobs, ids, tokens, owner, now, duration, n), ids, n, owner, now + duration)
    ensures AnswersLeases(jobs, ClaimFirst(jobs, ids, tokens, owner, now, duration, n + 1), ids, n + 1, owner, now + duration)
  {
    OneMoreAnswer(jobs, ids, ClaimFirst(jobs, ids, tokens, owner, now, duration, n), tokens[n], owner, now, duration, n);
  }

  /** What a claim answers is what it has leased. */
  lemma {:induction false} ClaimAnswersLeases(jobs: Jobs, ids: seq<JobId>, tokens: seq<Token>, owner: string, now: Time, duration: int, n: nat)
    requires InTable(jobs, ids) && |tokens| == |ids| && n <= |ids| && Distinct(ids)
    ensures AnswersLeases(jobs, ClaimFirst(jobs, ids, tokens, owner, now, duration, n), ids, n, owner, now + duration)
  {
    if n == 0 {
      NothingAnswered(jobs, ids, ClaimFirst(jobs, ids, tokens, owner, now, duration, 0), owner, now + duration);
    } else {
      ClaimAnswersLeases(jobs, ids, tokens, owner, now, duration, n - 1);
      NextAnswer(jobs, ids, tokens, owner, now, duration, n - 1);
    }
  }

  /** Adding a leased row to the table and the answer. */
  lemma AnswerGrows(jobs: Jobs, ids: seq<JobId>, p: Progress, p': Progress, n: nat, owner: string, deadline: Time, c: ClaimedJob)
    requires n < |ids| && Distinct(ids) && ids[n] in jobs && AnswersLeases(jobs, p, ids, n, owner, deadline)
    requires c.id == ids[n] && c.owner == owner && c.deadline == deadline && p'.claimed == p.claimed + [c]
    requires p'.jobs.Keys == p.jobs.Keys && IsLeasedAs(p'.jobs, c) && forall id :: id in p.jobs && id != ids[n] ==> p'.jobs[id] == p.jobs[id]
    ensures AnswersLeases(jobs, p', ids, n + 1, owner, deadline)
  {
    assert ids[..n + 1] == ids[..n] + [ids[n]] && ids[n] !in ids[..n];
    forall id | id in jobs && p'.jobs[id] != jobs[id] && p'.jobs[id].state.Leased? ensures Listed(p'.claimed, id) {
      if id == ids[n] {
        assert p'.claimed[|p.claimed|].id == id;
      } else {
        var k :| 0 <= k < |p.claimed| && p.claimed[k].id == id;
        assert p'.claimed[k] == p.claimed[k];
      }
    }
  }

  /** A row that is passed by or buried. */
  lemma AnswerStays(jobs: Jobs, ids: seq<JobId>, p: Progress, p': Progress, n: nat, owner: string, deadline: Time)
    requires n < |ids| && Distinct(ids) && ids[n] in jobs && AnswersLeases(jobs, p, ids, n, owner, deadline)
    requires p'.claimed == p.claimed && p'.jobs.Keys == p.jobs.Keys && (p'.jobs[ids[n]] == p.jobs[ids[n]] || !p'.jobs[ids[n]].state.Leased?)
    requires forall id :: id in p.jobs && id != ids[n] ==> p'.jobs[id] == p.jobs[id]
    ensures AnswersLeases(jobs, p', ids, n + 1, owner, deadline)
  {
    assert ids[..n + 1] == ids[..n] + [ids[n]] && ids[n] !in ids[..n];
  }

  lemma OneMoreAnswer(jobs: Jobs, ids: seq<JobId>, p: Progress, token: Token, owner: string, now: Time, duration: int, n: nat)
    requires n < |ids| && Distinct(ids) && ids[n] in jobs && AnswersLeases(jobs, p, ids, n, owner, now + duration)
    ensures AnswersLeases(jobs, ClaimOne(p, ids[n], token, owner, now, duration), ids, n + 1, owner, now + duration)
  {
    var p' := ClaimOne(p, ids[n], token, owner, now, duration);
    if |p'.claimed| > |p.claimed| {
      AnswerGrows(jobs, ids, p, p', n, owner, now + duration, p'.claimed[|p.claimed|]);
    } else {
      AnswerStays(jobs, ids, p, p', n, owner, now + duration);
    }
  }

  // ----- progress of a key -----

  lemma {:induction false} ClaimFirstExclusive(jobs: Jobs, ids: seq<JobId>, tokens: seq<Token>, owner: string, now: Time, duration: int, n: nat)
    requires InTable(jobs, ids) && |tokens| == |ids| && n <= |ids| && Exclusive(jobs)
    ensures Exclusive(ClaimFirst(jobs, ids, tokens, owner, now, duration, n).jobs)
  {
    if n > 0 {
      ClaimFirstExclusive(jobs, ids, tokens, owner, now, duration, n - 1);
      ClaimOneExclusive(ClaimFirst(jobs, ids, tokens, owner, now, duration, n - 1), ids[n - 1], tokens[n - 1], owner, now, duration);
    }
  }

  lemma ClaimOneExclusive(p: Progress, id: JobId, token: Token, owner: string, now: Time, duration: int)
    requires id in p.jobs && Exclusive(p.jobs)
    ensures Exclusive(ClaimOne(p, id, token, owner, now, duration).jobs)
  {
  }

  /** The loop changes candidates only, and no job's serialization key. */
  lemma {:induction false} ClaimFirstFrame(jobs: Jobs, ids: seq<JobId>, tokens: seq<Token>, owner: string, now: Time, duration: int, n: nat, id: JobId)
    requires InTable(jobs, ids) && |tokens| == |ids| && n <= |ids| && id in jobs
    ensures var j := ClaimFirst(jobs, ids, tokens, owner, now, duration, n).jobs[id];
      j.serKey == jobs[id].serKey && (id !in ids[..n] ==> j == jobs[id])
  {
    if n > 0 {
      ClaimFirstFrame(jobs, ids, tokens, owner, now, duration, n - 1, id);
      assert ids[..n] == ids[..n - 1] + [ids[n - 1]];
    }
  }

  lemma {:induction false} KeysSeen(jobs: Jobs, ids: seq<JobId>, tokens: seq<Token>, owner: string, now: Time, duration: int, n: nat, key: string)
    requires InTable(jobs, ids) && |tokens| == |ids| && n <= |ids|
    requires forall i :: 0 <= i < n ==> jobs[ids[i]].serKey != Some(key)
    ensures key !in ClaimFirst(jobs, ids, tokens, owner, now, duration, n).keys
  {
    if n > 0 {
      KeysSeen(jobs, ids, tokens, owner, now, duration, n - 1, key);
      ClaimFirstFrame(jobs, ids, tokens, owner, now, duration, n - 1, ids[n - 1]);
    }
  }

  /** A candidate's row settles in its own turn. */
  lemma {:induction false} LaterTurnsLeaveIt(jobs: Jobs, ids: seq<JobId>, tokens: seq<Token>, owner: string, now: Time, duration: int, i: nat, n: nat)
    requires InTable(jobs, ids) && |tokens| == |ids| && i < n <= |ids| && Distinct(ids)
    ensures ClaimFirst(jobs, ids, tokens, owner, now, duration, n).jobs[ids[i]]
            == ClaimFirst(jobs, ids, tokens, owner, now, duration, i + 1).jobs[ids[i]]
    decreases n
  {
    if n - 1 > i {
      LaterTurnsLeaveIt(jobs, ids, tokens, owner, now, duration, i, n - 1);
    }
  }

  lemma KeyIsFree(jobs: Jobs, ids: seq<JobId>, tokens: seq<Token>, owner: string, now: Time, duration: int, i: nat, key: string)
    requires InTable(jobs, ids) && |tokens| == |ids| && i < |ids|
    requires !KeyHeldByOther(jobs, key, ids[i])
    requires forall k :: 0 <= k < i ==> jobs[ids[k]].serKey != Some(key)
    ensures !KeyHeldByOther(ClaimFirst(jobs, ids, tokens, owner, now, duration, i).jobs, key, ids[i])
  {
    var p := ClaimFirst(jobs, ids, tokens, owner, now, duration, i);
    forall other | other in p.jobs && other != ids[i] ensures !HoldsKey(p.jobs[other], key) {
      ClaimFirstFrame(jobs, ids, tokens, owner, now, duration, i, other);
      if other in ids[..i] {
        var k :| 0 <= k < i && ids[k] == other;
      }
    }
  }

  /** A candidate that is the first of its key, when nobody else held the key, is served. */
  lemma FirstOfKeyIsServed(jobs: Jobs, ids: seq<JobId>, tokens: seq<Token>, owner: string, now: Time, duration: int, i: nat)
    requires InTable(jobs, ids) && |tokens| == |ids| && i < |ids| && Distinct(ids)
    requires jobs[ids[i]].serKey.Some? ==> !KeyHeldByOther(jobs, jobs[ids[i]].serKey.value, ids[i])
    requires jobs[ids[i]].serKey.Some? ==> forall k :: 0 <= k < i ==> jobs[ids[k]].serKey != jobs[ids[i]].serKey
    ensures ClaimFirst(jobs, ids, tokens, owner, now, duration, |ids|).jobs[ids[i]]
            == LeaseOrBury(jobs[ids[i]], tokens[i], owner, now, duration)
  {
    LaterTurnsLeaveIt(jobs, ids, tokens, owner, now, duration, i, |ids|);
    ClaimFirstFrame(jobs, ids, tokens, owner, now, duration, i, ids[i]);
    if jobs[ids[i]].serKey.Some? {
      KeysSeen(jobs, ids, tokens, owner, now, duration, i, jobs[ids[i]].serKey.value);
      KeyIsFree(jobs, ids, tokens, owner, now, duration, i, jobs[ids[i]].serKey.value);
    }
  }

  lemma NoRivalOfHolder(jobs: Jobs, now: Time, limit: int, ids: seq<JobId>, i: nat)
    requires Exclusive(jobs) && IsSelection(jobs, now, limit, ids) && i < |ids|
    requires jobs[ids[i]].state.Leased? && jobs[ids[i]].serKey.Some?
    ensures forall k :: 0 <= k < |ids| && k != i ==> jobs[ids[k]].serKey != jobs[ids[i]].serKey
    ensures !KeyHeldByOther(jobs, jobs[ids[i]].serKey.value, ids[i])
  {
    var key := jobs[ids[i]].serKey.value;
    assert HoldsKey(jobs[ids[i]], key);
    forall k | 0 <= k < |ids| && k != i ensures jobs[ids[k]].serKey != jobs[ids[i]].serKey {
      if jobs[ids[k]].serKey == Some(key) {
        assert Selectable(jobs[ids[k]], jobs, now) && KeyHeld(jobs, key);
        assert HoldsKey(jobs[ids[k]], key);
      }
    }
  }

  /** Every selectable job is among the candidates. */
  ghost predicate CoversAll(jobs: Jobs, now: Time, ids: seq<JobId>) {
    forall id :: id in jobs && Selectable(jobs[id], jobs, now) ==> id in ids
  }

  /** An uncontended claim whose batch covers every selectable job deals with every lapsed lease:
      it is leased again under a new attempt, or dead-lettered when its attempts are used up. */
  lemma LapsedLeasesAreServed(jobs: Jobs, limit: int, ids: seq<JobId>, tokens: seq<Token>, owner: string, now: Time, duration: int, id: JobId)
    requires Exclusive(jobs) && IsSelection(jobs, now, limit, ids) && CoversAll(jobs, now, ids) && |tokens| == |ids| && duration > 0
    requires id in jobs && jobs[id].state.Leased? && jobs[id].state.deadline < now
    ensures var j := ClaimFirst(jobs, ids, tokens, owner, now, duration, |ids|).jobs[id];
      if jobs[id].attemptCount >= jobs[id].maxAttempts then j.state.Dead?
      else j.state.Leased? && j.state.deadline == now + duration && j.attemptCount == jobs[id].attemptCount + 1
  {
    assert Selectable(jobs[id], jobs, now);
    var i :| 0 <= i < |ids| && ids[i] == id;
    if jobs[id].serKey.Some? {
      NoRivalOfHolder(jobs, now, limit, ids, i);
    }
    FirstOfKeyIsServed(jobs, ids, tokens, owner, now, duration, i);
  }

  lemma {:induction false} TouchedRowsAreFresh(jobs: Jobs, ids: seq<JobId>, tokens: seq<Token>, owner: string, now: Time, duration: int, n: nat, id: JobId)
    requires InTable(jobs, ids) && |tokens| == |ids| && n <= |ids| && id in jobs && duration > 0
    ensures var j := ClaimFirst(jobs, ids, tokens, owner, now, duration, n).jobs[id];
      j == jobs[id] || j.state.Dead? || (j.state.Leased? && j.state.deadline > now)
  {
    if n > 0 {
      TouchedRowsAreFresh(jobs, ids, tokens, owner, now, duration, n - 1, id);
    }
  }

  /** After such a claim no lease is left lapsed, so no key stays blocked by one. */
  lemma NoLapsedLeaseRemains(jobs: Jobs, limit: int, ids: seq<JobId>, tokens: seq<Token>, owner: string, now: Time, duration: int, id: JobId)
    requires Exclusive(jobs) && IsSelection(jobs, now, limit, ids) && CoversAll(jobs, now, ids) && |tokens| == |ids| && duration > 0
    requires id in jobs && ClaimFirst(jobs, ids, tokens, owner, now, duration, |ids|).jobs[id].state.Leased?
    ensures ClaimFirst(jobs, ids, tokens, owner, now, duration, |ids|).jobs[id].state.deadline >= now
  {
    TouchedRowsAreFresh(jobs, ids, tokens, owner, now, duration, |ids|, id);
    if jobs[id].state.Leased? && jobs[id].state.deadline < now {
      LapsedLeasesAreServed(jobs, limit, ids, tokens, owner, now, duration, id);
    }
  }

  /** A due queued job is either served, or waits for one leased job of its key whose lease is
      live; the only other case is that the holder of its key has just been dead-lettered. */
  lemma DueKeyMakesProgress(jobs: Jobs, limit: int, ids: seq<JobId>, tokens: seq<Token>, owner: string, now: Time, duration: int, id: JobId, key: string)
    returns (holder: JobId)
    requires Exclusive(jobs) && IsSelection(jobs, now, limit, ids) && CoversAll(jobs, now, ids) && |tokens| == |ids| && duration > 0
    requires id in jobs && jobs[id].state.Queued? && jobs[id].runAt <= now && jobs[id].serKey == Some(key)
    ensures holder in jobs && jobs[holder].serKey == Some(key)
    ensures var j := ClaimFirst(jobs, ids, tokens, owner, now, duration, |ids|).jobs[holder];
      || (HoldsKey(j, key) && j.state.deadline >= now)
      || (j.state.Dead? && HoldsKey(jobs[holder], key) && jobs[holder].state.deadline < now
          && jobs[holder].attemptCount >= jobs[holder].maxAttempts)
  {
    if KeyHeld(jobs, key) {
      holder :| holder in jobs && HoldsKey(jobs[holder], key);
      ClaimFirstFrame(jobs, ids, tokens, owner, now, duration, |ids|, holder);
      if jobs[holder].state.deadline < now {
        LapsedLeasesAreServed(jobs, limit, ids, tokens, owner, now, duration, holder);
      }
    } else {
      assert Selectable(jobs[id], jobs, now);
      var i := FirstWithKey(jobs, ids, key, 0);
      holder := ids[i];
      FirstOfKeyIsServed(jobs, ids, tokens, owner, now, duration, i);
    }
  }

  lemma FirstWithKey(jobs: Jobs, ids: seq<JobId>, key: string, from: nat) returns (i: nat)
    requires InTable(jobs, ids) && from <= |ids|
    requires exists id :: id in ids && jobs[id].serKey == Some(key)
    requires forall k :: 0 <= k < from ==> jobs[ids[k]].serKey != Some(key)
    ensures i < |ids| && jobs[ids[i]].serKey == Some(key)
    ensures forall k :: 0 <= k < i ==> jobs[ids[k]].serKey != Some(key)
    decreases |ids| - from
  {
    if from < |ids| && jobs[ids[from]].serKey == Some(key) {
      i := from;
    } else {
      i := FirstWithKey(jobs, ids, key, from + 1);
    }
  }
}
