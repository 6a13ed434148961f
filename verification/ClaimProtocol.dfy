/** Concurrent workers on one `jobs` table under READ COMMITTED.

    A claim is one transaction of several statements. Its candidate query reads a snapshot and
    locks rows one at a time, skipping rows locked elsewhere and testing each row's own columns
    again on the version it locks. For each candidate it tries an advisory lock on the hash of the
    serialization key, held to the end of the transaction, looks again for a leased job of that
    key, and writes the row; its writes become visible when it commits. Every other queue
    transaction touches one row and waits while a claim has that row locked, so it is one step.
    All clock readings are arbitrary. */
module ClaimProtocol {
  import opened Base
  import opened WorkQueue

  type TxId = nat
  type Hash = string -> int

  datatype Phase =
    | Selecting            // locking candidate rows
    | Ready                // between two candidates
    | KeyLocked(id: JobId) // advisory lock taken, key not yet looked up again
    | Cleared(id: JobId)   // allowed to write the row

  /** One open claim transaction. */
  datatype Claim = Claim(now: Time, snapshot: Jobs, rows: set<JobId>, todo: set<JobId>,
                         keys: set<string>, locks: set<int>, phase: Phase, writes: Jobs)

  datatype State = State(jobs: Jobs, claims: map<TxId, Claim>, issued: set<Token>)

  datatype Step =
    | Enqueue(id: JobId, request: EnqueueRequest, now: Time)
    | Begin(t: TxId, now: Time)
    | LockRow(t: TxId, id: JobId)
    | EndSelect(t: TxId)
    | Take(t: TxId, id: JobId)
    | Recheck(t: TxId)
    | Write(t: TxId, token: Token, owner: string, duration: int)
    | Commit(t: TxId)
    | Abort(t: TxId)
    | Heartbeat(id: JobId, token: Token, now: Time, duration: int)
    | Complete(id: JobId, token: Token, now: Time)
    | Fail(id: JobId, token: Token, now: Time, errorClass: ErrorClass)
    | CancelHeld(id: JobId, token: Token, now: Time)
    | CancelQueued(id: JobId)
    | CancelByOperator(id: JobId)
    | Recover(id: JobId, now: Time)

  /** What statements of claim `c` see: committed rows under the transaction's own writes. */
  function View(jobs: Jobs, c: Claim): Jobs { jobs + c.writes }

  predicate RowLocked(s: State, id: JobId) {
    exists t :: t in s.claims && id in s.claims[t].rows
  }

  predicate LockedElsewhere(s: State, t: TxId, lock: int) {
    exists u :: u in s.claims && u != t && lock in s.claims[u].locks
  }

  ghost predicate Init(s: State) { s == State(map[], map[], {}) }

  ghost predicate Enabled(s: State, step: Step) {
    match step
    case Enqueue(id, request, now) => id !in s.jobs
    case Begin(t, now) => t !in s.claims
    case LockRow(t, id) =>
      && t in s.claims && s.claims[t].phase.Selecting?
      && id in s.jobs && id in s.claims[t].snapshot
      && !RowLocked(s, id)
      && Selectable(s.claims[t].snapshot[id], s.claims[t].snapshot, s.claims[t].now)
      && Selectable(s.jobs[id], s.claims[t].snapshot, s.claims[t].now)
    case EndSelect(t) => t in s.claims && s.claims[t].phase.Selecting?
    case Take(t, id) => t in s.claims && s.claims[t].phase.Ready? && id in s.claims[t].todo && id in s.jobs
    case Recheck(t) => t in s.claims && s.claims[t].phase.KeyLocked? && s.claims[t].phase.id in s.jobs
    case Write(t, token, owner, duration) =>
      t in s.claims && s.claims[t].phase.Cleared? && s.claims[t].phase.id in s.jobs && token !in s.issued
    case Commit(t) => t in s.claims && s.claims[t].phase.Ready? && s.claims[t].todo == {}
    case Abort(t) => t in s.claims
    case Heartbeat(id, _, _, _) => !RowLocked(s, id)
    case Complete(id, _, _) => !RowLocked(s, id)
    case Fail(id, _, _, _) => !RowLocked(s, id)
    case CancelHeld(id, _, _) => !RowLocked(s, id)
    case CancelQueued(id) => !RowLocked(s, id)
    case CancelByOperator(id) => !RowLocked(s, id)
    case Recover(id, _) => !RowLocked(s, id)
  }

  /** The candidate is dropped: another candidate of the same key, a contended lock, or a held key. */
  function Dropped(c: Claim, id: JobId): Claim { c.(todo := c.todo - {id}, phase := Ready) }

  function Taken(s: State, hash: Hash, t: TxId, id: JobId): Claim
    requires t in s.claims && id in s.jobs
  {
    var c := s.claims[t];
    var key := s.jobs[id].serKey;
    if key.None? then c.(phase := Cleared(id))
    else if key.value in c.keys then Dropped(c, id)
    else
      var noted := c.(keys := c.keys + {key.value});
      if LockedElsewhere(s, t, hash(key.value)) then Dropped(noted, id)
      else noted.(locks := c.locks + {hash(key.value)}, phase := KeyLocked(id))
  }

  function Rechecked(jobs: Jobs, c: Claim): Claim
    requires c.phase.KeyLocked? && c.phase.id in jobs
  {
    var id := c.phase.id;
    if jobs[id].serKey.Some? && KeyHeldByOther(View(jobs, c), jobs[id].serKey.value, id)
    then Dropped(c, id)
    else c.(phase := Cleared(id))
  }

  function Written(jobs: Jobs, c: Claim, token: Token, owner: string, duration: int): Claim
    requires c.phase.Cleared? && c.phase.id in jobs
  {
    var id := c.phase.id;
    c.(todo := c.todo - {id}, phase := Ready,
       writes := c.writes[id := LeaseOrBury(jobs[id], token, owner, c.now, duration)])
  }

  /** The queue transactions that touch one committed row. */
  function RowEffect(j: Job, step: Step): Job {
    match step
    case Heartbeat(_, token, now, duration) => if HoldsLease(j, token, now) then Beaten(j, now, duration) else j
    case Complete(_, token, now) => if HoldsLease(j, token, now) then Finished(j) else j
    case Fail(_, token, now, errorClass) => if HoldsLease(j, token, now) then FailedJob(j, now, errorClass) else j
    case CancelHeld(_, token, now) => if HoldsLease(j, token, now) then CancelledJob(j) else j
    case CancelQueued(_) => if j.state.Queued? then CancelledJob(j) else j
    case CancelByOperator(_) => if j.state.Queued? || j.state.Leased? then CancelledJob(j) else j
    case Recover(_, now) => if j.state.Dead? then RecoveredJob(j, now) else j
    case _ => j
  }

  predicate IsRowStep(step: Step) {
    step.Heartbeat? || step.Complete? || step.Fail? || step.CancelHeld? || step.CancelQueued?
    || step.CancelByOperator? || step.Recover?
  }

  ghost function Effect(hash: Hash, s: State, step: Step): State
    requires Enabled(s, step)
  {
    match step
    case Enqueue(id, request, now) => s.(jobs := WithJob(s.jobs, id, request, now))
    case Begin(t, now) => s.(claims := s.claims[t := Claim(now, s.jobs, {}, {}, {}, {}, Selecting, map[])])
    case LockRow(t, id) =>
      s.(claims := s.claims[t := s.claims[t].(rows := s.claims[t].rows + {id}, todo := s.claims[t].todo + {id})])
    case EndSelect(t) => s.(claims := s.claims[t := s.claims[t].(phase := Ready)])
    case Take(t, id) => s.(claims := s.claims[t := Taken(s, hash, t, id)])
    case Recheck(t) => s.(claims := s.claims[t := Rechecked(s.jobs, s.claims[t])])
    case Write(t, token, owner, duration) =>
      s.(claims := s.claims[t := Written(s.jobs, s.claims[t], token, owner, duration)], issued := s.issued + {token})
    case Commit(t) => s.(jobs := View(s.jobs, s.claims[t]), claims := s.claims - {t})
    case Abort(t) => s.(claims := s.claims - {t})
    case _ => if step.id in s.jobs then s.(jobs := s.jobs[step.id := RowEffect(s.jobs[step.id], step)]) else s
  }

  // ----- the invariant -----

  /** The key's lock is held and, outside the row itself, no job this claim can see holds the key. */
  ghost predicate KeyReserved(hash: Hash, jobs: Jobs, c: Claim, id: JobId, key: string) {
    hash(key) in c.locks && !KeyHeldByOther(View(jobs, c), key, id)
  }

  /** The columns an enqueue sets for good. */
  predicate SameRequest(j: Job, j': Job) {
    && j'.jobType == j.jobType && j'.payloadVersion == j.payloadVersion && j'.target == j.target && j'.priority == j.priority
    && j'.createdAt == j.createdAt && j'.dedupeKey == j.dedupeKey && j'.serKey == j.serKey
  }

  /** `j'` is what a claim under a new token made of `j`. */
  ghost predicate ClaimedFrom(j: Job, j': Job) {
    && SameRequest(j, j') && j'.maxAttempts == j.maxAttempts
    && (j'.state.Leased? || (j'.state.Dead? && j.state.Leased?))
    && j'.attemptCount == j.attemptCount + (if j'.state.Leased? then 1 else 0)
    && (j.state.Leased? && j'.state.Leased? ==> j.state.token != j'.state.token)
  }

  ghost predicate ClaimOk(hash: Hash, jobs: Jobs, c: Claim) {
    && c.rows <= jobs.Keys && c.todo <= c.rows && c.writes.Keys <= c.rows && c.todo !! c.writes.Keys
    && (forall id :: id in c.todo ==> Eligible(jobs[id], c.now))
    && (forall id :: id in c.writes ==> ClaimedFrom(jobs[id], c.writes[id]) && JobOk(c.writes[id]) && Eligible(jobs[id], c.now))
    && (c.phase.KeyLocked? || c.phase.Cleared? ==> c.phase.id in c.todo)
    && (c.phase.KeyLocked? && jobs[c.phase.id].serKey.Some? ==> hash(jobs[c.phase.id].serKey.value) in c.locks)
    && (c.phase.Cleared? && jobs[c.phase.id].serKey.Some? ==>
          KeyReserved(hash, jobs, c, c.phase.id, jobs[c.phase.id].serKey.value))
    && (forall id, key :: id in c.writes && HoldsKey(c.writes[id], key) ==> KeyReserved(hash, jobs, c, id, key))
  }

  /** Row locks and advisory locks exclude. */
  ghost predicate Apart(a: Claim, b: Claim) { a.rows !! b.rows && a.locks !! b.locks }

  ghost predicate TokensIssued(jobs: Jobs, issued: set<Token>) {
    forall id :: id in jobs && jobs[id].state.Leased? ==> jobs[id].state.token in issued
  }

  ghost predicate Inv(hash: Hash, s: State) {
    && JobsOk(s.jobs)
    && Exclusive(s.jobs)
    && TokensIssued(s.jobs, s.issued)
    && (forall t :: t in s.claims ==> ClaimOk(hash, s.jobs, s.claims[t]) && TokensIssued(s.claims[t].writes, s.issued))
    && (forall t, u :: t in s.claims && u in s.claims && t != u ==> Apart(s.claims[t], s.claims[u]))
  }

  // ----- preservation -----

  /** A change of one committed row that no claim has locked keeps every open claim in order,
      unless it makes the row hold its key. */
  lemma ClaimSurvivesRowChange(hash: Hash, jobs: Jobs, c: Claim, id: JobId, j: Job)
    requires ClaimOk(hash, jobs, c) && id !in c.rows
    requires j.state.Leased? ==> id in jobs && jobs[id].state.Leased? && jobs[id].serKey == j.serKey
    ensures ClaimOk(hash, jobs[id := j], c)
  {
    var jobs' := jobs[id := j];
    forall w, key | KeyHeldByOther(View(jobs', c), key, w) ensures KeyHeldByOther(View(jobs, c), key, w) {
      var other :| other in View(jobs', c) && other != w && HoldsKey(View(jobs', c)[other], key);
      assert HoldsKey(View(jobs, c)[other], key);
    }
  }

  lemma RowStepKeepsInv(hash: Hash, s: State, step: Step)
    requires Inv(hash, s) && Enabled(s, step) && IsRowStep(step)
    ensures Inv(hash, Effect(hash, s, step))
  {
    if step.id in s.jobs {
      RowEffectKeepsRow(s.jobs[step.id], step);
      RowChangeKeepsInv(hash, s, step.id, RowEffect(s.jobs[step.id], step));
    }
  }

  lemma RowEffectKeepsRow(j: Job, step: Step)
    requires JobOk(j)
    ensures var j' := RowEffect(j, step);
            JobOk(j') && SameRequest(j, j') && (j'.state.Leased? ==> j.state.Leased? && j'.state.token == j.state.token)
  {
  }

  lemma RowChangeKeepsInv(hash: Hash, s: State, id: JobId, j: Job)
    requires Inv(hash, s) && !RowLocked(s, id) && JobOk(j)
    requires j.state.Leased? ==> id in s.jobs && s.jobs[id].state.Leased? && s.jobs[id].serKey == j.serKey
                                 && s.jobs[id].state.token == j.state.token
    ensures Inv(hash, s.(jobs := s.jobs[id := j]))
  {
    forall t | t in s.claims ensures ClaimOk(hash, s.jobs[id := j], s.claims[t]) {
      ClaimSurvivesRowChange(hash, s.jobs, s.claims[t], id, j);
    }
  }

  lemma EnqueueKeepsInv(hash: Hash, s: State, step: Step)
    requires Inv(hash, s) && Enabled(s, step) && step.Enqueue?
    ensures Inv(hash, Effect(hash, s, step))
  {
    if ValidRequest(step.request) {
      RowChangeKeepsInv(hash, s, step.id, NewJob(step.request, step.now));
    }
  }

  /** A claim's own local steps: the rest of the state, and so the other claims, stay put. */
  lemma LocalStepKeepsInv(hash: Hash, s: State, t: TxId, c: Claim, issued: set<Token>)
    requires Inv(hash, s)
    requires ClaimOk(hash, s.jobs, c)
    requires s.issued <= issued && TokensIssued(c.writes, issued)
    requires forall u :: u in s.claims && u != t ==> Apart(c, s.claims[u])
    ensures Inv(hash, s.(claims := s.claims[t := c], issued := issued))
  {
  }

  lemma SelectionKeepsInv(hash: Hash, s: State, step: Step)
    requires Inv(hash, s) && Enabled(s, step)
    requires step.Begin? || step.LockRow? || step.EndSelect?
    ensures Inv(hash, Effect(hash, s, step))
  {
    var c' := Effect(hash, s, step).claims[step.t];
    if step.LockRow? {
      LockRowKeepsClaim(hash, s.jobs, s.claims[step.t], step.id);
    } else if step.EndSelect? {
      MovingOnKeepsClaim(hash, s.jobs, s.claims[step.t], c');
    }
    LocalStepKeepsInv(hash, s, step.t, c', s.issued);
  }

  lemma LockRowKeepsClaim(hash: Hash, jobs: Jobs, c: Claim, id: JobId)
    requires ClaimOk(hash, jobs, c) && c.phase.Selecting? && id in jobs && id !in c.rows && Eligible(jobs[id], c.now)
    ensures ClaimOk(hash, jobs, c.(rows := c.rows + {id}, todo := c.todo + {id}))
  {
  }

  lemma TakeKeepsInv(hash: Hash, s: State, step: Step)
    requires Inv(hash, s) && Enabled(s, step) && step.Take?
    ensures Inv(hash, Effect(hash, s, step))
  {
    var c := s.claims[step.t];
    var c' := Taken(s, hash, step.t, step.id);
    TakenMovesOn(hash, s, step.t, step.id);
    MovingOnKeepsClaim(hash, s.jobs, c, c');
    LocalStepKeepsInv(hash, s, step.t, c', s.issued);
  }

  /** A candidate taken up: a lock more at most, and one that nobody else holds. */
  lemma TakenMovesOn(hash: Hash, s: State, t: TxId, id: JobId)
    requires t in s.claims && id in s.jobs && id in s.claims[t].todo
    requires forall u :: u in s.claims && u != t ==> Apart(s.claims[t], s.claims[u])
    ensures var c, c' := s.claims[t], Taken(s, hash, t, id);
      && c' == c.(todo := c'.todo, keys := c'.keys, locks := c'.locks, phase := c'.phase)
      && c'.todo <= c.todo && c.locks <= c'.locks
      && (c'.phase.KeyLocked? || c'.phase.Cleared? ==> c'.phase.id in c'.todo && c'.phase.id == id)
      && (c'.phase.KeyLocked? && s.jobs[id].serKey.Some? ==> hash(s.jobs[id].serKey.value) in c'.locks)
      && (c'.phase.Cleared? ==> s.jobs[id].serKey.None?)
      && forall u :: u in s.claims && u != t ==> Apart(c', s.claims[u])
  {
  }

  /** A claim that writes nothing stays in order when it drops candidates, takes locks, or starts
      on a candidate whose key is locked. */
  lemma MovingOnKeepsClaim(hash: Hash, jobs: Jobs, c: Claim, c': Claim)
    requires ClaimOk(hash, jobs, c)
    requires c' == c.(todo := c'.todo, keys := c'.keys, locks := c'.locks, phase := c'.phase)
    requires c'.todo <= c.todo && c.locks <= c'.locks
    requires c'.phase.KeyLocked? || c'.phase.Cleared? ==> c'.phase.id in c'.todo
    requires c'.phase.KeyLocked? && jobs[c'.phase.id].serKey.Some? ==> hash(jobs[c'.phase.id].serKey.value) in c'.locks
    requires c'.phase.Cleared? ==> jobs[c'.phase.id].serKey.None?
    ensures ClaimOk(hash, jobs, c')
  {
  }

  lemma RecheckKeepsInv(hash: Hash, s: State, step: Step)
    requires Inv(hash, s) && Enabled(s, step) && step.Recheck?
    ensures Inv(hash, Effect(hash, s, step))
  {
    RecheckedKeepsClaim(hash, s.jobs, s.claims[step.t]);
    LocalStepKeepsInv(hash, s, step.t, Rechecked(s.jobs, s.claims[step.t]), s.issued);
  }

  lemma RecheckedKeepsClaim(hash: Hash, jobs: Jobs, c: Claim)
    requires ClaimOk(hash, jobs, c) && c.phase.KeyLocked?
    ensures ClaimOk(hash, jobs, Rechecked(jobs, c))
  {
  }

  lemma WriteKeepsInv(hash: Hash, s: State, step: Step)
    requires Inv(hash, s) && Enabled(s, step) && step.Write?
    ensures Inv(hash, Effect(hash, s, step))
  {
    var c := s.claims[step.t];
    WrittenKeepsClaim(hash, s.jobs, s.issued, c, step.token, step.owner, step.duration);
    LocalStepKeepsInv(hash, s, step.t, Written(s.jobs, c, step.token, step.owner, step.duration), s.issued + {step.token});
  }

  lemma WrittenKeepsClaim(hash: Hash, jobs: Jobs, issued: set<Token>, c: Claim, token: Token, owner: string, duration: int)
    requires ClaimOk(hash, jobs, c) && TokensIssued(c.writes, issued) && TokensIssued(jobs, issued)
    requires c.phase.Cleared? && token !in issued && JobOk(jobs[c.phase.id])
    ensures var c' := Written(jobs, c, token, owner, duration);
      ClaimOk(hash, jobs, c') && TokensIssued(c'.writes, issued + {token})
  {
    var c' := Written(jobs, c, token, owner, duration);
    ClaimKeepsLedger(jobs[c.phase.id], token, owner, c.now, duration);
    forall w, key | w in c'.writes && HoldsKey(c'.writes[w], key) ensures KeyReserved(hash, jobs, c', w, key) {
      WrittenKeepsReservation(hash, jobs, c, token, owner, duration, w, key);
    }
  }

  /** Writing the cleared row leaves each lease of the transaction alone on its key: the cleared
      row was the only one that could share a key with an earlier write, and it saw none. */
  lemma WrittenKeepsReservation(hash: Hash, jobs: Jobs, c: Claim, token: Token, owner: string, duration: int,
                                w: JobId, key: string)
    requires ClaimOk(hash, jobs, c) && c.phase.Cleared?
    requires var c' := Written(jobs, c, token, owner, duration); w in c'.writes && HoldsKey(c'.writes[w], key)
    ensures KeyReserved(hash, jobs, Written(jobs, c, token, owner, duration), w, key)
  {
    var c' := Written(jobs, c, token, owner, duration);
    var id := c.phase.id;
    if w != id {
      assert HoldsKey(View(jobs, c)[w], key);
    }
    forall other | other in View(jobs, c') && other != id && HoldsKey(View(jobs, c')[other], key)
      ensures HoldsKey(View(jobs, c)[other], key)
    {
    }
  }

  lemma CommitKeepsInv(hash: Hash, s: State, step: Step)
    requires Inv(hash, s) && Enabled(s, step) && step.Commit?
    ensures Inv(hash, Effect(hash, s, step))
  {
    var c := s.claims[step.t];
    var s' := Effect(hash, s, step);
    CommitKeepsExclusion(hash, s.jobs, c);
    forall u | u in s'.claims ensures ClaimOk(hash, s'.jobs, s'.claims[u]) {
      assert Apart(s.claims[u], c);
      ClaimSurvivesCommit(hash, s.jobs, s.claims[u], c);
    }
  }

  lemma CommitKeepsExclusion(hash: Hash, jobs: Jobs, c: Claim)
    requires Exclusive(jobs) && ClaimOk(hash, jobs, c)
    ensures Exclusive(View(jobs, c))
  {
  }

  /** Another claim's commit cannot lease a job of a key that `c` has reserved: it would need the
      key's advisory lock. */
  lemma ClaimSurvivesCommit(hash: Hash, jobs: Jobs, c: Claim, done: Claim)
    requires ClaimOk(hash, jobs, c) && ClaimOk(hash, jobs, done) && Apart(c, done)
    ensures ClaimOk(hash, View(jobs, done), c)
  {
    var jobs' := View(jobs, done);
    assert forall id, key :: id in done.writes && HoldsKey(done.writes[id], key) ==> KeyReserved(hash, jobs, done, id, key);
    forall w, key | hash(key) in c.locks && KeyHeldByOther(View(jobs', c), key, w)
      ensures KeyHeldByOther(View(jobs, c), key, w)
    {
      var other :| other in View(jobs', c) && other != w && HoldsKey(View(jobs', c)[other], key);
      assert HoldsKey(View(jobs, c)[other], key);
    }
  }

  lemma AbortKeepsInv(hash: Hash, s: State, step: Step)
    requires Inv(hash, s) && Enabled(s, step) && step.Abort?
    ensures Inv(hash, Effect(hash, s, step))
  {
  }

  lemma StepKeepsInv(hash: Hash, s: State, step: Step)
    requires Inv(hash, s) && Enabled(s, step)
    ensures Inv(hash, Effect(hash, s, step))
  {
    match step
    case Enqueue(_, _, _) => EnqueueKeepsInv(hash, s, step);
    case Take(_, _) => TakeKeepsInv(hash, s, step);
    case Recheck(_) => RecheckKeepsInv(hash, s, step);
    case Write(_, _, _, _) => WriteKeepsInv(hash, s, step);
    case Commit(_) => CommitKeepsInv(hash, s, step);
    case Abort(_) => AbortKeepsInv(hash, s, step);
    case _ =>
      if IsRowStep(step) { RowStepKeepsInv(hash, s, step); } else { SelectionKeepsInv(hash, s, step); }
  }

  // ----- runs -----

  ghost predicate IsRun(hash: Hash, states: seq<State>, steps: seq<Step>) {
    && |states| == |steps| + 1
    && Init(states[0])
    && forall i :: 0 <= i < |steps| ==> Enabled(states[i], steps[i]) && states[i + 1] == Effect(hash, states[i], steps[i])
  }

  lemma {:induction false} InvAlongRun(hash: Hash, states: seq<State>, steps: seq<Step>, i: nat)
    requires IsRun(hash, states, steps) && i < |states|
    ensures Inv(hash, states[i])
  {
    if i > 0 {
      InvAlongRun(hash, states, steps, i - 1);
      StepKeepsInv(hash, states[i - 1], steps[i - 1]);
    }
  }

  /** At every point of every interleaving, at most one job per serialization key is leased. */
  lemma SerializationKeyExclusion(hash: Hash, states: seq<State>, steps: seq<Step>, i: nat, a: JobId, b: JobId, key: string)
    requires IsRun(hash, states, steps) && i < |states|
    requires a in states[i].jobs && HoldsKey(states[i].jobs[a], key)
    requires b in states[i].jobs && HoldsKey(states[i].jobs[b], key)
    ensures a == b
  {
    InvAlongRun(hash, states, steps, i);
  }

  /** At every point of every interleaving, each job agrees with its attempt ledger. */
  lemma LedgerAgrees(hash: Hash, states: seq<State>, steps: seq<Step>, i: nat, id: JobId)
    requires IsRun(hash, states, steps) && i < |states| && id in states[i].jobs
    ensures JobOk(states[i].jobs[id])
  {
    InvAlongRun(hash, states, steps, i);
  }

  // ----- token fencing -----

  ghost predicate HasToken(s: State, id: JobId, token: Token) {
    id in s.jobs && HoldsToken(s.jobs[id], token)
  }

  /** The token was issued, and no open claim is about to give it to the job. */
  ghost predicate Spent(s: State, id: JobId, token: Token) {
    && token in s.issued
    && forall t :: t in s.claims && id in s.claims[t].writes && s.claims[t].writes[id].state.Leased? ==>
         s.claims[t].writes[id].state.token != token
  }

  /** The step is a lease holder's call for job `id` under `token`. */
  predicate CallsWith(step: Step, id: JobId, token: Token) {
    (step.Heartbeat? || step.Complete? || step.Fail? || step.CancelHeld?) && step.id == id && step.token == token
  }

  lemma SpentStaysSpent(hash: Hash, s: State, step: Step, id: JobId, token: Token)
    requires JobsOk(s.jobs) && Enabled(s, step) && Spent(s, id, token)
    ensures Spent(Effect(hash, s, step), id, token)
    ensures HasToken(Effect(hash, s, step), id, token) ==> HasToken(s, id, token)
  {
    if IsRowStep(step) && step.id in s.jobs {
      RowEffectKeepsRow(s.jobs[step.id], step);
    }
  }

  lemma CurrentTokenIsSpent(hash: Hash, s: State, id: JobId, token: Token)
    requires Inv(hash, s) && HasToken(s, id, token)
    ensures Spent(s, id, token)
  {
  }

  lemma JobsOkAlongRun(hash: Hash, states: seq<State>, steps: seq<Step>, i: nat)
    requires IsRun(hash, states, steps) && i < |states|
    ensures JobsOk(states[i].jobs)
  {
    InvAlongRun(hash, states, steps, i);
  }

  lemma {:induction false} SpentAlongRun(hash: Hash, states: seq<State>, steps: seq<Step>, i: nat, k: nat, m: nat, id: JobId, token: Token)
    requires IsRun(hash, states, steps) && i <= k <= m < |states|
    requires HasToken(states[i], id, token)
    ensures Spent(states[m], id, token)
    ensures HasToken(states[m], id, token) ==> HasToken(states[k], id, token)
    decreases m
  {
    if m == i {
      InvAlongRun(hash, states, steps, m);
      CurrentTokenIsSpent(hash, states[m], id, token);
    } else {
      SpentAlongRun(hash, states, steps, i, if m > k then k else i, m - 1, id, token);
      JobsOkAlongRun(hash, states, steps, m - 1);
      SpentStaysSpent(hash, states[m - 1], steps[m - 1], id, token);
    }
  }

  /** Once a lease is over, however it ended, its token never comes back, and no call made with it
      changes anything, in any later step and whatever clock the call reads. */
  lemma TokenFencing(hash: Hash, states: seq<State>, steps: seq<Step>, i: nat, k: nat, m: nat, id: JobId, token: Token)
    requires IsRun(hash, states, steps) && i <= k <= m < |states|
    requires HasToken(states[i], id, token) && !HasToken(states[k], id, token)
    ensures !HasToken(states[m], id, token)
    ensures m < |steps| && CallsWith(steps[m], id, token) ==> states[m + 1] == states[m]
  {
    SpentAlongRun(hash, states, steps, i, k, m, id, token);
  }

  // ----- attempts are bounded -----

  /** The step gave job `id` a new lease. */
  predicate Leases(s: State, s': State, id: JobId) {
    id in s'.jobs && s'.jobs[id].state.Leased?
    && !(id in s.jobs && HoldsToken(s.jobs[id], s'.jobs[id].state.token))
  }

  function LeaseCount(states: seq<State>, id: JobId, a: nat, b: nat): nat
    requires a <= b < |states|
  {
    if a == b then 0
    else LeaseCount(states, id, a, b - 1) + (if Leases(states[b - 1], states[b], id) then 1 else 0)
  }

  lemma StepCountsLease(hash: Hash, s: State, step: Step, id: JobId)
    requires Inv(hash, s) && Enabled(s, step) && id in s.jobs && !(step.Recover? && step.id == id)
    ensures var s' := Effect(hash, s, step);
            && id in s'.jobs && s'.jobs[id].maxAttempts == s.jobs[id].maxAttempts
            && s'.jobs[id].attemptCount == s.jobs[id].attemptCount + (if Leases(s, s', id) then 1 else 0)
  {
    if IsRowStep(step) && step.id in s.jobs {
      RowEffectKeepsRow(s.jobs[step.id], step);
    } else if step.Commit? && id in s.claims[step.t].writes {
      assert ClaimedFrom(s.jobs[id], s.claims[step.t].writes[id]);
    }
  }

  /** Between operator recoveries the leases a job is given are exactly the rows its ledger gains,
      so there are at most maxAttempts of them. */
  lemma {:induction false} LeasesAreBounded(hash: Hash, states: seq<State>, steps: seq<Step>, id: JobId, a: nat, b: nat)
    requires IsRun(hash, states, steps) && a <= b < |states| && id in states[a].jobs
    requires forall i :: a <= i < b ==> !(steps[i].Recover? && steps[i].id == id)
    ensures id in states[b].jobs && states[b].jobs[id].maxAttempts == states[a].jobs[id].maxAttempts
    ensures LeaseCount(states, id, a, b) == |states[b].jobs[id].attempts| - |states[a].jobs[id].attempts|
    ensures LeaseCount(states, id, a, b) <= states[b].jobs[id].maxAttempts
    decreases b
  {
    InvAlongRun(hash, states, steps, a);
    InvAlongRun(hash, states, steps, b);
    assert JobOk(states[a].jobs[id]);
    if a < b {
      LeasesAreBounded(hash, states, steps, id, a, b - 1);
      InvAlongRun(hash, states, steps, b - 1);
      assert JobOk(states[b - 1].jobs[id]);
      StepCountsLease(hash, states[b - 1], steps[b - 1], id);
      assert JobOk(states[b].jobs[id]);
    }
  }
}
