/** The claim loop of `WorkStore` is the claim protocol with nobody else at work: its result is what
    the protocol's statements, run one after another by a single transaction, commit. */
module ClaimRefinement {
  import opened Base
  import opened WorkQueue
  import opened ClaimProtocol
  import WS = WorkStore

  /** The steps are those of a claim. */
  predicate OfClaim(steps: seq<Step>) {
    forall i :: 0 <= i < |steps| ==>
      var step := steps[i];
      step.Begin? || step.LockRow? || step.EndSelect? || step.Take? || step.Recheck? || step.Write? || step.Commit?
  }

  /** The steps, taken in order from `s`, end in `s'`. */
  ghost predicate Leads(hash: Hash, s: State, steps: seq<Step>, s': State)
    decreases |steps|
  {
    if steps == [] then s' == s
    else Enabled(s, steps[0]) && Leads(hash, Effect(hash, s, steps[0]), steps[1..], s')
  }

  lemma {:induction false} LeadsChain(hash: Hash, s: State, a: seq<Step>, s1: State, b: seq<Step>, s2: State)
    requires Leads(hash, s, a, s1) && Leads(hash, s1, b, s2)
    ensures Leads(hash, s, a + b, s2)
    decreases |a|
  {
    if a == [] {
      assert a + b == b;
    } else {
      assert (a + b)[1..] == a[1..] + b;
      LeadsChain(hash, Effect(hash, s, a[0]), a[1..], s1, b, s2);
    }
  }

  lemma OneStep(hash: Hash, s: State, step: Step)
    requires Enabled(s, step)
    ensures Leads(hash, s, [step], Effect(hash, s, step))
  {
    assert [step][1..] == [];
  }

  lemma Then(hash: Hash, s: State, a: seq<Step>, s1: State, step: Step)
    requires Leads(hash, s, a, s1) && Enabled(s1, step)
    ensures Leads(hash, s, a + [step], Effect(hash, s1, step))
  {
    OneStep(hash, s1, step);
    LeadsChain(hash, s, a, s1, [step], Effect(hash, s1, step));
  }

  /** The state with one open claim. */
  function Alone(jobs: Jobs, issued: set<Token>, t: TxId, c: Claim): State { State(jobs, map[t := c], issued) }

  function SetOf(ids: seq<JobId>): set<JobId> { set id | id in ids }

  // ----- selecting -----

  lemma {:induction false} LocksRows(hash: Hash, jobs: Jobs, issued: set<Token>, t: TxId, now: Time, ids: seq<JobId>, k: nat) returns (steps: seq<Step>)
    requires k <= |ids| && WS.Distinct(ids)
    requires forall i :: 0 <= i < |ids| ==> ids[i] in jobs && Selectable(jobs[ids[i]], jobs, now)
    ensures OfClaim(steps)
    ensures Leads(hash, State(jobs, map[], issued), steps,
                  Alone(jobs, issued, t, Claim(now, jobs, SetOf(ids[..k]), SetOf(ids[..k]), {}, {}, Selecting, map[])))
    decreases k
  {
    var s := State(jobs, map[], issued);
    if k == 0 {
      steps := [Begin(t, now)];
      OneStep(hash, s, Begin(t, now));
      assert SetOf(ids[..0]) == {};
    } else {
      steps := LocksRows(hash, jobs, issued, t, now, ids, k - 1);
      var rows := SetOf(ids[..k - 1]);
      var s1 := Alone(jobs, issued, t, Claim(now, jobs, rows, rows, {}, {}, Selecting, map[]));
      assert ids[k - 1] !in rows;
      Then(hash, s, steps, s1, LockRow(t, ids[k - 1]));
      assert ids[..k] == ids[..k - 1] + [ids[k - 1]];
      assert SetOf(ids[..k]) == rows + {ids[k - 1]};
      steps := steps + [LockRow(t, ids[k - 1])];
      assert Effect(hash, s1, LockRow(t, ids[k - 1]))
             == Alone(jobs, issued, t, Claim(now, jobs, SetOf(ids[..k]), SetOf(ids[..k]), {}, {}, Selecting, map[]));
    }
  }

  // ----- one candidate -----

  /** The open claim is where the loop is: the rows it sees, the keys it has noted. */
  ghost predicate Matches(jobs: Jobs, c: Claim, p: WS.Progress, now: Time) {
    c.phase.Ready? && c.now == now && View(jobs, c) == p.jobs && c.keys == p.keys
  }

  /** What a candidate's turn leaves to do: the same, without the candidate. */
  ghost predicate Turned(jobs: Jobs, c: Claim, c': Claim, p: WS.Progress, id: JobId, now: Time) {
    Matches(jobs, c', p, now) && c'.todo == c.todo - {id} && c'.writes.Keys <= c.writes.Keys + {id}
  }

  lemma WritesCandidate(hash: Hash, jobs: Jobs, issued: set<Token>, t: TxId, c: Claim, id: JobId, token: Token, owner: string, duration: int)
    requires id in jobs && id !in c.writes && c.phase == Cleared(id) && token !in issued
    ensures var c' := Written(jobs, c, token, owner, duration);
      && Leads(hash, Alone(jobs, issued, t, c), [Write(t, token, owner, duration)], Alone(jobs, issued + {token}, t, c'))
      && View(jobs, c') == View(jobs, c)[id := LeaseOrBury(jobs[id], token, owner, c.now, duration)]
      && c'.keys == c.keys && c'.todo == c.todo - {id} && c'.phase.Ready? && c'.now == c.now && c'.writes.Keys == c.writes.Keys + {id}
  {
    var s := Alone(jobs, issued, t, c);
    OneStep(hash, s, Write(t, token, owner, duration));
    assert Effect(hash, s, Write(t, token, owner, duration)) == Alone(jobs, issued + {token}, t, Written(jobs, c, token, owner, duration));
  }

  /** The candidate's key was noted before, or another job holds it. */
  predicate Skipped(jobs: Jobs, c: Claim, id: JobId)
    requires id in jobs
  {
    jobs[id].serKey.Some? && (jobs[id].serKey.value in c.keys || KeyHeldByOther(View(jobs, c), jobs[id].serKey.value, id))
  }

  function Noted(jobs: Jobs, c: Claim, id: JobId): set<string>
    requires id in jobs
  {
    c.keys + (if jobs[id].serKey.Some? then {jobs[id].serKey.value} else {})
  }

  /** The lock and the second look: the candidate is cleared, or dropped. */
  lemma ClearsCandidate(hash: Hash, jobs: Jobs, issued: set<Token>, t: TxId, c: Claim, id: JobId) returns (steps: seq<Step>, c': Claim)
    requires id in jobs && id in c.todo && c.phase.Ready?
    ensures OfClaim(steps) && Leads(hash, Alone(jobs, issued, t, c), steps, Alone(jobs, issued, t, c'))
    ensures c'.writes == c.writes && c'.now == c.now && c'.keys == Noted(jobs, c, id)
    ensures if Skipped(jobs, c, id) then c'.phase.Ready? && c'.todo == c.todo - {id} else c'.phase == Cleared(id) && c'.todo == c.todo
  {
    var s := Alone(jobs, issued, t, c);
    var taken := Taken(s, hash, t, id);
    var s1 := Alone(jobs, issued, t, taken);
    steps, c' := [Take(t, id)], taken;
    OneStep(hash, s, Take(t, id));
    assert Effect(hash, s, Take(t, id)) == s1;
    assert View(jobs, taken) == View(jobs, c);
    if taken.phase.KeyLocked? {
      Then(hash, s, steps, s1, Recheck(t));
      c' := Rechecked(jobs, taken);
      steps := steps + [Recheck(t)];
      assert Effect(hash, s1, Recheck(t)) == Alone(jobs, issued, t, c');
    }
  }

  /** One turn of the loop is one, two or three statements. */
  lemma TakesTurn(hash: Hash, jobs: Jobs, issued: set<Token>, t: TxId, c: Claim, p: WS.Progress, id: JobId, token: Token, owner: string, now: Time, duration: int)
    returns (steps: seq<Step>, c': Claim, issued': set<Token>)
    requires id in jobs && id in c.todo && id !in c.writes && token !in issued && Matches(jobs, c, p, now)
    ensures OfClaim(steps) && Leads(hash, Alone(jobs, issued, t, c), steps, Alone(jobs, issued', t, c'))
    ensures id in p.jobs && Turned(jobs, c, c', WS.ClaimOne(p, id, token, owner, now, duration), id, now)
    ensures issued <= issued' <= issued + {token}
  {
    assert p.jobs[id] == jobs[id];
    steps, c' := ClearsCandidate(hash, jobs, issued, t, c, id);
    issued' := issued;
    assert View(jobs, c') == View(jobs, c);
    if c'.phase.Cleared? {
      WritesCandidate(hash, jobs, issued, t, c', id, token, owner, duration);
      var written := Written(jobs, c', token, owner, duration);
      LeadsChain(hash, Alone(jobs, issued, t, c), steps, Alone(jobs, issued, t, c'), [Write(t, token, owner, duration)], Alone(jobs, issued + {token}, t, written));
      steps := steps + [Write(t, token, owner, duration)];
      c', issued' := written, issued + {token};
    }
  }

  // ----- all candidates -----

  ghost predicate FreshTokens(tokens: seq<Token>, issued: set<Token>) {
    && (forall i :: 0 <= i < |tokens| ==> tokens[i] !in issued)
    && (forall i, k :: 0 <= i < k < |tokens| ==> tokens[i] != tokens[k])
  }

  lemma SplitAt(ids: seq<nat>, n: nat)
    requires n < |ids| && forall i, k :: 0 <= i < k < |ids| ==> ids[i] != ids[k]
    ensures SetOf(ids[..n + 1]) == SetOf(ids[..n]) + {ids[n]} && ids[n] !in SetOf(ids[..n])
    ensures SetOf(ids[n + 1..]) == SetOf(ids[n..]) - {ids[n]} && ids[n] in SetOf(ids[n..])
  {
    assert ids[n..] == [ids[n]] + ids[n + 1..] && ids[..n + 1] == ids[..n] + [ids[n]];
  }

  lemma {:induction false} TakesTurns(hash: Hash, jobs: Jobs, issued: set<Token>, t: TxId, start: Claim, ids: seq<JobId>, tokens: seq<Token>, owner: string, duration: int, n: nat)
    returns (steps: seq<Step>, c: Claim, issued': set<Token>)
    requires WS.InTable(jobs, ids) && WS.Distinct(ids) && |tokens| == |ids| && n <= |ids| && FreshTokens(tokens, issued)
    requires start == Claim(start.now, jobs, SetOf(ids), SetOf(ids), {}, {}, Ready, map[])
    ensures OfClaim(steps) && Leads(hash, Alone(jobs, issued, t, start), steps, Alone(jobs, issued', t, c))
    ensures Matches(jobs, c, WS.ClaimFirst(jobs, ids, tokens, owner, start.now, duration, n), start.now)
    ensures c.todo == SetOf(ids[n..]) && c.writes.Keys <= SetOf(ids[..n]) && issued <= issued' <= issued + SetOf(tokens[..n])
    decreases n
  {
    if n == 0 {
      steps, c, issued' := [], start, issued;
      assert ids[0..] == ids;
    } else {
      var before, b, i := TakesTurns(hash, jobs, issued, t, start, ids, tokens, owner, duration, n - 1);
      var p := WS.ClaimFirst(jobs, ids, tokens, owner, start.now, duration, n - 1);
      var id := ids[n - 1];
      SplitAt(ids, n - 1);
      SplitAt(tokens, n - 1);
      var more;
      more, c, issued' := TakesTurn(hash, jobs, i, t, b, p, id, tokens[n - 1], owner, start.now, duration);
      LeadsChain(hash, Alone(jobs, issued, t, start), before, Alone(jobs, i, t, b), more, Alone(jobs, issued', t, c));
      steps := before + more;
    }
  }

  /** The claim loop refines the protocol: with no other claim open, there is a run of the protocol
      from the same table that commits exactly the loop's result and leaves no claim open. */
  lemma ClaimLoopRefinesProtocol(hash: Hash, s: State, t: TxId, limit: int, ids: seq<JobId>, tokens: seq<Token>, owner: string, now: Time, duration: int)
    returns (steps: seq<Step>, s': State)
    requires s.claims == map[] && WS.IsSelection(s.jobs, now, limit, ids) && |tokens| == |ids| && FreshTokens(tokens, s.issued)
    ensures OfClaim(steps) && Leads(hash, s, steps, s')
    ensures s'.claims == map[] && WS.InTable(s.jobs, ids) && s'.issued <= s.issued + SetOf(tokens)
    ensures s'.jobs == WS.ClaimFirst(s.jobs, ids, tokens, owner, now, duration, |ids|).jobs
  {
    var jobs, all := s.jobs, SetOf(ids);
    assert ids[..|ids|] == ids && ids[|ids|..] == [] && tokens[..|tokens|] == tokens;
    steps := LocksRows(hash, jobs, s.issued, t, now, ids, |ids|);
    var selecting := Alone(jobs, s.issued, t, Claim(now, jobs, all, all, {}, {}, Selecting, map[]));
    Then(hash, s, steps, selecting, EndSelect(t));
    var start := Claim(now, jobs, all, all, {}, {}, Ready, map[]);
    assert Effect(hash, selecting, EndSelect(t)) == Alone(jobs, s.issued, t, start);
    var turns, c, issued := TakesTurns(hash, jobs, s.issued, t, start, ids, tokens, owner, duration, |ids|);
    LeadsChain(hash, s, steps + [EndSelect(t)], Alone(jobs, s.issued, t, start), turns, Alone(jobs, issued, t, c));
    steps := steps + [EndSelect(t)] + turns;
    Then(hash, s, steps, Alone(jobs, issued, t, c), Commit(t));
    s' := Effect(hash, Alone(jobs, issued, t, c), Commit(t));
    steps := steps + [Commit(t)];
  }

  /** A claim on a table of one eligible job. */
  lemma ClaimsOne(hash: Hash, s: State, id: JobId, j: Job, token: Token, owner: string, now: Time, duration: int) returns (steps: seq<Step>, s': State)
    requires s.claims == map[] && s.jobs == map[id := j] && Eligible(j, now) && token !in s.issued
    ensures OfClaim(steps) && Leads(hash, s, steps, s')
    ensures s'.claims == map[] && s'.jobs == map[id := LeaseOrBury(j, token, owner, now, duration)] && s'.issued <= s.issued + {token}
  {
    var ids, tokens := [id], [token];
    assert WS.IsSelection(s.jobs, now, 1, ids);
    steps, s' := ClaimLoopRefinesProtocol(hash, s, 0, 1, ids, tokens, owner, now, duration);
    var p := WS.ClaimFirst(s.jobs, ids, tokens, owner, now, duration, 0);
    assert WS.ClaimFirst(s.jobs, ids, tokens, owner, now, duration, 1) == WS.ClaimOne(p, id, token, owner, now, duration);
    assert SetOf(tokens) == {token};
  }
}
