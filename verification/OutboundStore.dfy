/** The delivery worker's code, statement by statement, with the rest of the system at work between
    the statements.

    What others do to the outbox between two statements is an input: a sequence of moves. Whether a
    statement's snapshot shows the worker's lease is an input too, one per statement, and so is the
    adapter's result. */
module OutboundStore {
  import opened Base
  import opened Outbox
  import WQ = WorkQueue
  import WS = WorkStore

  /** What somebody else may do to the outbox. */
  datatype Move =
    | Insert(key: string, deliver: bool, o: OutId)
    | PurgeRow(o: OutId)
    | LandStmt(stmt: Stmt)
    | ReserveNext(o: OutId)
    | Advance(o: OutId, i: nat, to: Stage)
    | LandSettle(o: OutId, i: nat)

  /** The stage order of a hand-off, short of recording its result. */
  predicate Follows(from: Stage, to: Stage) {
    || (from.Reserved? && to.InFlight?)
    || (from.InFlight? && to.Returned?)
    || (from.Returned? && to.Settling? && to.result == from.result)
  }

  predicate Possible(b: Box, m: Move) {
    match m
    case Insert(_, _, o) => o !in b.handoffs
    case PurgeRow(o) => true
    case LandStmt(_) => true
    case ReserveNext(o) => o in b.rows && o in b.handoffs && b.rows[o].state.Waiting?
    case Advance(o, i, to) => HasStage(b, o, i) && Follows(b.handoffs[o][i], to)
    case LandSettle(o, i) => HasStage(b, o, i) && b.handoffs[o][i].Settling?
  }

  function AfterMove(b: Box, m: Move): Box
    requires Possible(b, m)
  {
    match m
    case Insert(key, deliver, o) => Inserted(b, key, deliver, o)
    case PurgeRow(o) => b.(rows := b.rows - {o})
    case LandStmt(stmt) => Landed(b, stmt)
    case ReserveNext(o) => Reserve(b, o)
    case Advance(o, i, to) => Moved(b, o, i, to)
    case LandSettle(o, i) => SettleLanded(b, o, i)
  }

  /** The move is on the hand-off at `i` of `o`, which belongs to one worker. */
  predicate Owns(m: Move, o: OutId, i: nat) { (m.Advance? || m.LandSettle?) && m.o == o && m.i == i }

  lemma MoveOk(b: Box, m: Move)
    requires BoxOk(b) && Possible(b, m)
    ensures BoxOk(AfterMove(b, m))
  {
    match m
    case Insert(key, deliver, o) => InsertedOk(b, key, deliver, o);
    case PurgeRow(_) =>
    case LandStmt(stmt) => LandedOk(b, stmt);
    case ReserveNext(o) => ReserveOk(b, o);
    case Advance(o, i, to) => MovedOk(b, o, i, to);
    case LandSettle(o, i) => SettleLandedOk(b, o, i);
  }

  lemma MoveLeavesStage(b: Box, m: Move, o: OutId, i: nat)
    requires Possible(b, m) && HasStage(b, o, i) && !Owns(m, o, i)
    ensures HasStage(AfterMove(b, m), o, i) && AfterMove(b, m).handoffs[o][i] == b.handoffs[o][i]
  {
  }

  datatype Execution = CompleteWith(state: OutState) | FailWith(errorClass: ErrorClass) | StaleLease | InvalidJob

  predicate ValidJob(job: WQ.Job) {
    job.jobType == "outbound.deliver" && job.payloadVersion == 1 && job.target.Some?
  }

  /** What a result makes of the row. */
  predicate SettlesTo(result: SendResult, row: Row) {
    match result
    case Delivered => row.state == Sent && row.lastError == None
    case Refused(c) => row.state == (if c == ProviderAmbiguous then Ambiguous else Failed) && row.lastError == Some(c)
  }

  /** What a recorded result makes of the job: a message that arrived, or may have, is done with. */
  predicate Answers(result: SendResult, x: Execution) {
    match result
    case Delivered => x == CompleteWith(Sent)
    case Refused(c) => if c == ProviderAmbiguous then x == CompleteWith(Ambiguous) else x == FailWith(c)
  }

  class OutboundStore {
    var box: Box

    /** Others work on the outbox. A move that is not possible when its turn comes does nothing, nor
        does one on this worker's own hand-off of `o`, if it has one. */
    method RunOthers(moves: seq<Move>, o: OutId, mine: Option<nat>)
      requires BoxOk(box)
      modifies this
      ensures BoxOk(box)
      ensures mine.Some? && HasStage(old(box), o, mine.value) ==>
        HasStage(box, o, mine.value) && box.handoffs[o][mine.value] == old(box).handoffs[o][mine.value]
      ensures moves == [] ==> box == old(box)
    {
      for k := 0 to |moves|
        invariant BoxOk(box)
        invariant mine.Some? && HasStage(old(box), o, mine.value) ==>
          HasStage(box, o, mine.value) && box.handoffs[o][mine.value] == old(box).handoffs[o][mine.value]
        invariant k == 0 ==> box == old(box)
      {
        if Possible(box, moves[k]) && !(mine.Some? && Owns(moves[k], o, mine.value)) {
          MoveOk(box, moves[k]);
          if mine.Some? && HasStage(box, o, mine.value) {
            MoveLeavesStage(box, moves[k], o, mine.value);
          }
          box := AfterMove(box, moves[k]);
        }
      }
    }

    /** The result is the index of the new hand-off, when the row was reserved. */
    method ReserveUnderLease(o: OutId, leaseSeen: bool) returns (i: Option<nat>)
      requires BoxOk(box)
      modifies this
      ensures BoxOk(box) && box == Landed(old(box), ReserveStmt(o, leaseSeen))
      ensures i.Some? <==> leaseSeen && o in old(box).rows && old(box).rows[o].state in {Waiting, Failed}
      ensures i.Some? ==> HasStage(box, o, i.value) && box.handoffs[o][i.value].Reserved?
      ensures i.None? ==> box == old(box)
    {
      LandedOk(box, ReserveStmt(o, leaseSeen));
      if !leaseSeen || o !in box.rows || box.rows[o].state !in {Waiting, Failed} {
        return None;
      }
      i := Some(|box.handoffs[o]|);
      box := Box(box.rows[o := box.rows[o].(state := Sending, attemptCount := box.rows[o].attemptCount + 1)],
                 box.handoffs[o := box.handoffs[o] + [Reserved]]);
    }

    method MarkAmbiguousUnderLease(o: OutId, leaseSeen: bool) returns (updated: bool)
      requires BoxOk(box)
      modifies this
      ensures BoxOk(box) && box == Landed(old(box), MarkStmt(o, leaseSeen))
      ensures updated <==> leaseSeen && o in old(box).rows && old(box).rows[o].state.Sending?
      ensures updated ==> o in box.rows && box.rows[o].state.Ambiguous?
    {
      LandedOk(box, MarkStmt(o, leaseSeen));
      if !leaseSeen || o !in box.rows || !box.rows[o].state.Sending? {
        return false;
      }
      box := box.(rows := box.rows[o := box.rows[o].(state := Ambiguous, lastError := Some(ProviderAmbiguous))]);
      return true;
    }

    /** The stage of the worker's own hand-off moves on. */
    method Step(o: OutId, i: nat, to: Stage)
      requires BoxOk(box) && HasStage(box, o, i) && Follows(box.handoffs[o][i], to)
      modifies this
      ensures BoxOk(box) && box == Moved(old(box), o, i, to)
    {
      MovedOk(box, o, i, to);
      box := Moved(box, o, i, to);
    }

    /** `update_delivery_under_lease`, its snapshot taken before `others` and its row guard evaluated
        after them; without a lease to see, `update_delivery`. */
    method UpdateDelivery(o: OutId, i: nat, leaseSeen: bool, others: seq<Move>) returns (updated: bool)
      requires BoxOk(box) && HasStage(box, o, i) && box.handoffs[o][i].Returned?
      modifies this
      ensures BoxOk(box)
      ensures var result := old(box).handoffs[o][i].result;
        && HasStage(box, o, i)
        && box.handoffs[o][i] == (if updated then Recorded(result) else Unrecorded(result))
        && (updated ==> leaseSeen && o in box.rows && SettlesTo(result, box.rows[o]))
      ensures others == [] && leaseSeen && o in old(box).rows && old(box).rows[o].state.Sending? ==> updated
    {
      Step(o, i, Settling(box.handoffs[o][i].result, leaseSeen));
      RunOthers(others, o, Some(i));
      SettleLandedOk(box, o, i);
      updated := leaseSeen && o in box.rows && box.rows[o].state.Sending?;
      box := SettleLanded(box, o, i);
    }

    /** From a reservation to the job's outcome. */
    method SendReserved(o: OutId, i: nat, leases: seq<bool>, others: seq<seq<Move>>, result: SendResult) returns (x: Execution)
      requires BoxOk(box) && |leases| == 2 && |others| == 3
      requires HasStage(box, o, i) && box.handoffs[o][i].Reserved?
      modifies this
      ensures BoxOk(box) && HasStage(box, o, i)
      ensures x.StaleLease? ==> box.handoffs[o][i] in {Returned(result), Unrecorded(result)}
      ensures !x.StaleLease? ==>
        && box.handoffs[o][i] == Recorded(result) && o in box.rows && SettlesTo(result, box.rows[o]) && Answers(result, x)
      ensures others == [[], [], []] && leases == [true, true] && o in old(box).rows && old(box).rows[o].state.Sending? ==> !x.StaleLease?
    {
      Step(o, i, InFlight);
      RunOthers(others[0], o, Some(i));
      Step(o, i, Returned(result));
      if !leases[0] {
        return StaleLease;
      }
      RunOthers(others[1], o, Some(i));
      var updated := UpdateDelivery(o, i, leases[1], others[2]);
      if !updated {
        return StaleLease;
      }
      if Settled(result).Failed? {
        return FailWith(result.errorClass);
      }
      return CompleteWith(Settled(result));
    }

    /** A leased delivery job; `leases` and `others` are used up one per statement.

        The job completes only when the row was seen sent or ambiguous, and fails with a class only
        when the row was recorded as refused with it. The provider is called at most once, and only
        under a reservation of this call's own. */
    method DeliverForJob(job: WQ.Job, leases: seq<bool>, others: seq<seq<Move>>, result: SendResult)
      returns (x: Execution, handedOver: Option<nat>)
      requires BoxOk(box) && |leases| == 3 && |others| == 4
      modifies this
      ensures BoxOk(box)
      ensures x.InvalidJob? <==>
        || job.jobType != "outbound.deliver" || job.payloadVersion != 1 || job.target.None? || job.target.value !in old(box).rows
        || job.dedupeKey != "outbound.deliver:" + old(box).rows[job.target.value].key || old(box).rows[job.target.value].state.Suppressed?
      ensures x.InvalidJob? ==> box == old(box)
      ensures x.CompleteWith? ==> ValidJob(job) && job.target.value in box.rows && box.rows[job.target.value].state == x.state
                                  && (x.state.Sent? || x.state.Ambiguous?)
      ensures x.FailWith? ==> ValidJob(job) && handedOver.Some? && result == Refused(x.errorClass)
                              && job.target.value in box.rows && box.rows[job.target.value].state.Failed?
      ensures handedOver.Some? ==>
        && ValidJob(job) && HasStage(box, job.target.value, handedOver.value)
        && leases[0] && job.target.value in old(box).rows && old(box).rows[job.target.value].state in {Waiting, Failed}
        && (!x.StaleLease? ==> box.handoffs[job.target.value][handedOver.value] == Recorded(result)
                               && job.target.value in box.rows && SettlesTo(result, box.rows[job.target.value]) && Answers(result, x))
      ensures handedOver.Some? && !x.StaleLease? ==>
        && (result == Delivered ==> x == CompleteWith(Sent))
        && (result == Refused(ProviderAmbiguous) ==> x == CompleteWith(Ambiguous))
        && (result.Refused? && result.errorClass != ProviderAmbiguous ==> x == FailWith(result.errorClass))
      ensures others == [[], [], [], []] && leases == [true, true, true] ==> !x.StaleLease?
    {
      handedOver := None;
      if !ValidJob(job) || job.target.value !in box.rows {
        return InvalidJob, None;
      }
      var o := job.target.value;
      var row := box.rows[o];
      if job.dedupeKey != "outbound.deliver:" + row.key || row.state.Suppressed? {
        return InvalidJob, None;
      }
      if row.state.Sent? || row.state.Ambiguous? {
        return CompleteWith(row.state), None;
      }
      RunOthers(others[0], o, None);
      if row.state.Sending? {
        x := RecoverUnfinished(o, leases[..2], others[1]);
        return x, None;
      }
      handedOver := ReserveUnderLease(o, leases[0]);
      if handedOver.None? {
        x := ReportUnreserved(o, leases[1], others[1]);
        return x, None;
      }
      x := SendReserved(o, handedOver.value, leases[1..], others[1..], result);
    }

    /** A row found in `sending`: an earlier worker may have sent it. */
    method RecoverUnfinished(o: OutId, leases: seq<bool>, others: seq<Move>) returns (x: Execution)
      requires BoxOk(box) && |leases| == 2
      modifies this
      ensures BoxOk(box)
      ensures x.StaleLease? || (x == CompleteWith(Ambiguous) && o in box.rows && box.rows[o].state.Ambiguous?)
      ensures others == [] && leases == [true, true] && o in old(box).rows && old(box).rows[o].state.Sending? ==> !x.StaleLease?
    {
      if !leases[0] {
        return StaleLease;
      }
      RunOthers(others, o, None);
      var updated := MarkAmbiguousUnderLease(o, leases[1]);
      return if updated then CompleteWith(Ambiguous) else StaleLease;
    }

    /** The reservation matched no row: the lease is gone, or another worker was faster. */
    method ReportUnreserved(o: OutId, leaseCurrent: bool, others: seq<Move>) returns (x: Execution)
      requires BoxOk(box)
      modifies this
      ensures BoxOk(box)
      ensures x.StaleLease? || (x.CompleteWith? && (x.state.Sent? || x.state.Ambiguous?) && o in box.rows && box.rows[o].state == x.state)
    {
      if !leaseCurrent {
        return StaleLease;
      }
      RunOthers(others, o, None);
      if o in box.rows && (box.rows[o].state.Sent? || box.rows[o].state.Ambiguous?) {
        return CompleteWith(box.rows[o].state);
      }
      return StaleLease;
    }

    /** `deliver_next`, for the row its query picked, if any: a delivery outside the queue. */
    method DeliverNext(candidate: Option<OutId>, others: seq<seq<Move>>, result: SendResult)
      returns (r: Result<Option<OutState>, ErrorClass>)
      requires BoxOk(box) && |others| == 2
      requires candidate.Some? ==> candidate.value in box.rows && box.rows[candidate.value].state.Waiting?
      modifies this
      ensures BoxOk(box)
      ensures candidate.None? ==> r == Ok(None) && box == old(box)
      ensures candidate.Some? ==> var o := candidate.value; var i := |old(box).handoffs[o]|;
        && HasStage(box, o, i)
        && box.handoffs[o][i] == (if r.Ok? then Recorded(result) else Unrecorded(result))
        && (r.Ok? ==> r.value.Some? && o in box.rows && box.rows[o].state == r.value.value && SettlesTo(result, box.rows[o]))
        && (others == [[], []] ==> r.Ok?)
    {
      if candidate.None? {
        return Ok(None);
      }
      var o := candidate.value;
      var i := |box.handoffs[o]|;
      ReserveOk(box, o);
      box := Reserve(box, o);
      Step(o, i, InFlight);
      RunOthers(others[0], o, Some(i));
      Step(o, i, Returned(result));
      var updated := UpdateDelivery(o, i, true, others[1]);
      return if updated then Ok(Some(Settled(result))) else Err(Dependency);
    }
  }

  // ----- the worker's last transaction -----

  /** What the outcome makes of the job, if its lease is live: done with, or failed with the outcome's class. */
  ghost predicate IsApplied(j: WQ.Job, j': WQ.Job, token: WQ.Token, now: Time, x: Execution) {
    if x.StaleLease? || !WS.IsCurrentHolder(j, token, now) then j' == j
    else if x.CompleteWith? then
      && j' == j.(state := WQ.Completed, attempts := j'.attempts)
      && (WQ.JobOk(j) ==> WQ.EndsLast(j.attempts, j'.attempts, WQ.DidComplete, None))
    else
      var errorClass := if x.InvalidJob? then Validation else x.errorClass;
      var retried := errorClass in {Transient, Timeout, RateLimited, Dependency, ProviderError} && j.attemptCount < j.maxAttempts;
      WQ.IsFailed(j, j', now, errorClass, retried)
  }

  /** `apply_execution_result`: what the outcome does to the job. */
  method ApplyExecutionResult(store: WS.WorkStore, id: WQ.JobId, token: WQ.Token, now: Time, x: Execution)
    modifies store
    ensures store.jobs.Keys == old(store.jobs).Keys && forall k :: k in store.jobs && k != id ==> store.jobs[k] == old(store.jobs)[k]
    ensures id in store.jobs ==> IsApplied(old(store.jobs)[id], store.jobs[id], token, now, x)
  {
    match x {
    case CompleteWith(_) =>
      var _ := store.Complete(id, token, now);
    case FailWith(errorClass) =>
      var _ := store.Fail(id, token, now, errorClass);
    case InvalidJob =>
      var _ := store.Fail(id, token, now, Validation);
    case StaleLease =>
    }
  }

  /** What comes up while a job's handler runs: a heartbeat is due, the process shuts down, or the
      handler is done. */
  datatype Tick = Beat(now: Time) | Shutdown(now: Time) | Done(x: Execution)

  /** The first `k` ticks are heartbeats that each found the lease live, extended by the one before. */
  ghost predicate BeatsHold(j: WQ.Job, token: WQ.Token, duration: int, ticks: seq<Tick>, k: nat)
    requires k <= |ticks|
  {
    WQ.HoldsToken(j, token)
    && forall i :: 0 <= i < k ==> ticks[i].Beat? && ticks[i].now <= (if i == 0 then j.state.deadline else DeadlineOf(ticks[i - 1], duration))
  }

  function DeadlineOf(tick: Tick, duration: int): Time { if tick.Beat? then tick.now + duration else 0 }

  /** The table after `k` successful heartbeats of the job: its deadline is the last one's. */
  function Beating(jobs: WQ.Jobs, id: WQ.JobId, duration: int, ticks: seq<Tick>, k: nat): WQ.Jobs
    requires k <= |ticks| && (k > 0 ==> id in jobs && jobs[id].state.Leased?)
  {
    if k == 0 then jobs else jobs[id := jobs[id].(state := jobs[id].state.(deadline := DeadlineOf(ticks[k - 1], duration)))]
  }

  ghost predicate Live(jobs: WQ.Jobs, id: WQ.JobId, token: WQ.Token, now: Time) { id in jobs && WQ.HoldsLease(jobs[id], token, now) }

  lemma OneMoreBeat(jobs: WQ.Jobs, id: WQ.JobId, token: WQ.Token, duration: int, ticks: seq<Tick>, k: nat)
    requires k < |ticks| && ticks[k].Beat? && (k > 0 ==> id in jobs && BeatsHold(jobs[id], token, duration, ticks, k))
    requires Live(Beating(jobs, id, duration, ticks, k), id, token, ticks[k].now)
    ensures id in jobs && BeatsHold(jobs[id], token, duration, ticks, k + 1)
    ensures var held := Beating(jobs, id, duration, ticks, k);
      Beating(jobs, id, duration, ticks, k + 1) == held[id := held[id].(state := held[id].state.(deadline := ticks[k].now + duration))]
  {
    var held := Beating(jobs, id, duration, ticks, k);
    assert held[id].state.deadline == if k == 0 then jobs[id].state.deadline else DeadlineOf(ticks[k - 1], duration);
    assert held[id].(state := jobs[id].state) == jobs[id];
  }

  /** `execute_leased_job`: heartbeats until the handler is done, the lease is lost or the process
      shuts down. `beats` heartbeats succeed, each extending the lease; the tick after them decides:
      the handler's result is returned as it is, a heartbeat that finds no live lease gives the job
      up, and a shutdown fails it as transient if its lease is live. */
  method ExecuteLeasedJob(store: WS.WorkStore, id: WQ.JobId, token: WQ.Token, duration: int, ticks: seq<Tick>)
    returns (x: Execution, beats: nat)
    requires |ticks| > 0 && !ticks[|ticks| - 1].Beat? && duration > 0
    modifies store
    ensures beats < |ticks| && (beats > 0 ==> id in old(store.jobs) && BeatsHold(old(store.jobs)[id], token, duration, ticks, beats))
    ensures var held := Beating(old(store.jobs), id, duration, ticks, beats);
      match ticks[beats]
      case Done(result) => x == result && store.jobs == held
      case Beat(now) => x.StaleLease? && store.jobs == held && !Live(held, id, token, now)
      case Shutdown(now) => x.StaleLease? && store.jobs == if Live(held, id, token, now) then held[id := WQ.FailedJob(held[id], now, Transient)] else held
  {
    beats := 0;
    while ticks[beats].Beat?
      invariant beats < |ticks|
      invariant beats > 0 ==> id in old(store.jobs) && BeatsHold(old(store.jobs)[id], token, duration, ticks, beats)
      invariant store.jobs == Beating(old(store.jobs), id, duration, ticks, beats)
      decreases |ticks| - beats
    {
      var beat := store.Heartbeat(id, token, ticks[beats].now, duration);
      if beat.Err? {
        return StaleLease, beats;
      }
      OneMoreBeat(old(store.jobs), id, token, duration, ticks, beats);
      beats := beats + 1;
    }
    if ticks[beats].Done? {
      return ticks[beats].x, beats;
    }
    var _ := store.Fail(id, token, ticks[beats].now, Transient);
    x := StaleLease;
  }
}
