/** From an inbound event to the provider: ingress, the outbox and the work queue in one system.

    A crash or a shutdown at any stage of a hand-off is the worker taking no further step. The
    guard of a leased statement that reads `jobs` is evaluated on the statement's snapshot, its
    guard on the outbound row on the row's latest version, so such a statement is issued in one
    step and lands in a later one. */
module Delivery {
  import opened Base
  import opened Outbox
  import WQ = WorkQueue
  import Queue = ClaimProtocol
  import QueueRuns

  type StmtId = nat
  type EventKey = (string, string) // provider scope and provider event id

  datatype Event = Accepted | Rejected

  datatype Source = Webhook | Polling

  /** `replyTo` names the event each reply row answers, for every row that ever existed; `applied`
      counts the commits of each event's effects. */
  datatype Sys = Sys(queue: Queue.State, box: Box, pending: map<StmtId, Stmt>,
                     mode: Source, events: map<EventKey, Event>,
                     replyTo: map<OutId, EventKey>, applied: map<EventKey, nat>)

  /** What the decision for an event comes to: whether its effects all apply, whether there is a
      reply, and whether quota and policy let it be delivered. */
  datatype Decision = Decision(effectsApply: bool, reply: bool, deliver: bool)

  datatype Step =
    | QueueStep(step: Queue.Step)
    | SwitchMode(mode: Source)
    | Ingress(e: EventKey, source: Source, d: Decision, o: OutId, job: WQ.JobId, serKey: string, now: Time)
    | OtherMessage(key: string, deliver: bool, o: OutId, job: WQ.JobId, serKey: string, now: Time)
    | Purge(o: OutId)
    | IssueReserve(q: StmtId, o: OutId, job: WQ.JobId, token: WQ.Token, now: Time)
    | IssueMark(q: StmtId, o: OutId, job: WQ.JobId, token: WQ.Token, now: Time)
    | Land(q: StmtId)
    | ReserveNext(o: OutId)
    | Send(o: OutId, i: nat)
    | Return(o: OutId, i: nat, result: SendResult)
    | IssueSettle(o: OutId, i: nat, job: WQ.JobId, token: WQ.Token, now: Time)
    | SettleNext(o: OutId, i: nat)
    | LandSettle(o: OutId, i: nat)

  function ReplyKey(e: EventKey): string { "reply:" + e.0 + ":" + e.1 }

  function DeliverRequest(key: string, o: OutId, serKey: string, now: Time): WQ.EnqueueRequest {
    WQ.EnqueueRequest("outbound.deliver", 1, Some(o), "outbound.deliver:" + key, Some(serKey), 10, now, 10)
  }

  /** The row a message's delivery job names: the one that holds the key already, or the new one. */
  ghost function RowFor(rows: map<OutId, Row>, key: string, o: OutId): OutId {
    if KeyTaken(rows, key) then var held: OutId :| held in rows && rows[held].key == key; held else o
  }

  ghost function DeliverJob(b: Box, key: string, o: OutId, job: WQ.JobId, serKey: string, now: Time): Queue.Step {
    Queue.Enqueue(job, DeliverRequest(key, RowFor(b.rows, key, o), serKey, now), now)
  }

  predicate LeaseSeen(s: Sys, job: WQ.JobId, token: WQ.Token, now: Time) {
    job in s.queue.jobs && WQ.HoldsLease(s.queue.jobs[job], token, now)
  }

  ghost predicate Enabled(s: Sys, step: Step) {
    match step
    case QueueStep(qs) => Queue.Enabled(s.queue, qs)
    case SwitchMode(_) => true
    case Ingress(_, _, _, o, job, _, _) => o !in s.box.handoffs && job !in s.queue.jobs
    case OtherMessage(_, _, o, job, _, _) => o !in s.box.handoffs && job !in s.queue.jobs
    case Purge(o) => o in s.box.rows
    case IssueReserve(q, _, _, _, _) => q !in s.pending
    case IssueMark(q, _, _, _, _) => q !in s.pending
    case Land(q) => q in s.pending
    case ReserveNext(o) => o in s.box.rows && o in s.box.handoffs && s.box.rows[o].state.Waiting?
    case Send(o, i) => HasStage(s.box, o, i) && s.box.handoffs[o][i].Reserved?
    case Return(o, i, _) => HasStage(s.box, o, i) && s.box.handoffs[o][i].InFlight?
    case IssueSettle(o, i, _, _, _) => HasStage(s.box, o, i) && s.box.handoffs[o][i].Returned?
    case SettleNext(o, i) => HasStage(s.box, o, i) && s.box.handoffs[o][i].Returned?
    case LandSettle(o, i) => HasStage(s.box, o, i) && s.box.handoffs[o][i].Settling?
  }

  function AppliedCount(s: Sys, e: EventKey): nat { if e in s.applied then s.applied[e] else 0 }

  /** A message to be delivered needs its job, which the queue may refuse: then nothing is stored. */
  predicate JobAccepted(key: string, o: OutId, serKey: string, now: Time, deliver: bool) {
    deliver ==> WQ.ValidRequest(DeliverRequest(key, o, serKey, now))
  }

  /** The ingress transaction accepts the event: none is recorded for it, or a rejected one. */
  predicate Accepts(s: Sys, step: Step)
    requires step.Ingress?
  {
    && step.source == s.mode && !(step.e in s.events && s.events[step.e].Accepted?) && step.d.effectsApply
    && (step.d.reply ==> JobAccepted(ReplyKey(step.e), step.o, step.serKey, step.now, step.d.deliver))
  }

  /** The queue after the step: a message that may be delivered brings its job. */
  ghost function QueueAfter(hash: Queue.Hash, s: Sys, step: Step): Queue.State
    requires Enabled(s, step)
  {
    match step
    case QueueStep(qs) => Queue.Effect(hash, s.queue, qs)
    case Ingress(e, _, d, o, job, serKey, now) =>
      if Accepts(s, step) && d.reply && d.deliver
      then Queue.Effect(hash, s.queue, DeliverJob(s.box, ReplyKey(e), o, job, serKey, now)) else s.queue
    case OtherMessage(key, deliver, o, job, serKey, now) =>
      if deliver then Queue.Effect(hash, s.queue, DeliverJob(s.box, key, o, job, serKey, now)) else s.queue
    case _ => s.queue
  }

  ghost function BoxAfter(s: Sys, step: Step): Box
    requires Enabled(s, step)
  {
    match step
    case Ingress(e, _, d, o, _, _, _) =>
      if Accepts(s, step) && d.reply then Inserted(s.box, ReplyKey(e), d.deliver, o) else s.box
    case OtherMessage(key, deliver, o, _, serKey, now) =>
      if JobAccepted(key, o, serKey, now, deliver) then Inserted(s.box, key, deliver, o) else s.box
    case Purge(o) => s.box.(rows := s.box.rows - {o})
    case Land(q) => Landed(s.box, s.pending[q])
    case ReserveNext(o) => Reserve(s.box, o)
    case Send(o, i) => Moved(s.box, o, i, InFlight)
    case Return(o, i, result) => Moved(s.box, o, i, Returned(result))
    case IssueSettle(o, i, job, token, now) =>
      Moved(s.box, o, i, Settling(s.box.handoffs[o][i].result, LeaseSeen(s, job, token, now)))
    case SettleNext(o, i) => Moved(s.box, o, i, Settling(s.box.handoffs[o][i].result, true))
    case LandSettle(o, i) => SettleLanded(s.box, o, i)
    case _ => s.box
  }

  function PendingAfter(s: Sys, step: Step): map<StmtId, Stmt> {
    match step
    case IssueReserve(q, o, job, token, now) => s.pending[q := ReserveStmt(o, LeaseSeen(s, job, token, now))]
    case IssueMark(q, o, job, token, now) => s.pending[q := MarkStmt(o, LeaseSeen(s, job, token, now))]
    case Land(q) => s.pending - {q}
    case _ => s.pending
  }

  function EventsAfter(s: Sys, step: Step): map<EventKey, Event> {
    if !step.Ingress? then s.events
    else if Accepts(s, step) then s.events[step.e := Accepted]
    else if step.source != s.mode && step.e !in s.events then s.events[step.e := Rejected]
    else s.events
  }

  function AppliedAfter(s: Sys, step: Step): map<EventKey, nat> {
    if step.Ingress? && Accepts(s, step) then s.applied[step.e := AppliedCount(s, step.e) + 1] else s.applied
  }

  function ReplyToAfter(s: Sys, step: Step): map<OutId, EventKey> {
    if step.Ingress? && Accepts(s, step) && step.d.reply && !KeyTaken(s.box.rows, ReplyKey(step.e))
    then s.replyTo[step.o := step.e] else s.replyTo
  }

  ghost function Effect(hash: Queue.Hash, s: Sys, step: Step): Sys
    requires Enabled(s, step)
  {
    Sys(QueueAfter(hash, s, step), BoxAfter(s, step), PendingAfter(s, step),
        if step.SwitchMode? then step.mode else s.mode,
        EventsAfter(s, step), ReplyToAfter(s, step), AppliedAfter(s, step))
  }

  // ----- the invariant -----

  /** Effects commit once per accepted event and never otherwise, and an event has one reply row
      at most, in the whole history. */
  ghost predicate EventsOk(s: Sys) {
    && (forall e :: AppliedCount(s, e) == if e in s.events && s.events[e].Accepted? then 1 else 0)
    && s.replyTo.Keys <= s.box.handoffs.Keys
    && (forall o :: o in s.replyTo ==> s.replyTo[o] in s.events && s.events[s.replyTo[o]].Accepted?)
    && (forall o, p :: o in s.replyTo && p in s.replyTo && s.replyTo[o] == s.replyTo[p] ==> o == p)
  }

  ghost predicate Inv(hash: Queue.Hash, s: Sys) {
    Queue.Inv(hash, s.queue) && BoxOk(s.box) && EventsOk(s)
  }

  ghost predicate Init(s: Sys) {
    Queue.Init(s.queue) && s == Sys(s.queue, Box(map[], map[]), map[], s.mode, map[], map[], map[])
  }

  predicate IsStageStep(step: Step) {
    step.Send? || step.Return? || step.IssueSettle? || step.SettleNext? || step.LandSettle?
  }

  lemma StepKeepsBox(s: Sys, step: Step)
    requires BoxOk(s.box) && Enabled(s, step)
    ensures BoxOk(BoxAfter(s, step))
    ensures !IsStageStep(step) ==> Grows(s.box, BoxAfter(s, step))
  {
    match step
    case Ingress(e, _, d, o, _, _, _) => InsertedOk(s.box, ReplyKey(e), d.deliver, o);
    case OtherMessage(key, deliver, o, _, _, _) => InsertedOk(s.box, key, deliver, o);
    case Land(q) => LandedOk(s.box, s.pending[q]);
    case ReserveNext(o) => ReserveOk(s.box, o);
    case Send(o, i) => MovedOk(s.box, o, i, InFlight);
    case Return(o, i, result) => MovedOk(s.box, o, i, Returned(result));
    case IssueSettle(o, i, job, token, now) =>
      MovedOk(s.box, o, i, Settling(s.box.handoffs[o][i].result, LeaseSeen(s, job, token, now)));
    case SettleNext(o, i) => MovedOk(s.box, o, i, Settling(s.box.handoffs[o][i].result, true));
    case LandSettle(o, i) => SettleLandedOk(s.box, o, i);
    case _ =>
  }

  lemma StepKeepsKeys(s: Sys, step: Step)
    requires BoxOk(s.box) && Enabled(s, step)
    ensures s.box.handoffs.Keys <= BoxAfter(s, step).handoffs.Keys
  {
    if !IsStageStep(step) {
      StepKeepsBox(s, step);
    }
  }

  lemma StepKeepsQueue(hash: Queue.Hash, s: Sys, step: Step)
    requires Queue.Inv(hash, s.queue) && Enabled(s, step)
    ensures Queue.Inv(hash, QueueAfter(hash, s, step))
  {
    match step
    case QueueStep(qs) => Queue.StepKeepsInv(hash, s.queue, qs);
    case Ingress(e, _, _, o, job, serKey, now) => Queue.StepKeepsInv(hash, s.queue, DeliverJob(s.box, ReplyKey(e), o, job, serKey, now));
    case OtherMessage(key, _, o, job, serKey, now) => Queue.StepKeepsInv(hash, s.queue, DeliverJob(s.box, key, o, job, serKey, now));
    case _ =>
  }

  /** `AppliedCount` and acceptance change together, once per event. */
  lemma StepKeepsCounts(hash: Queue.Hash, s: Sys, step: Step, e: EventKey)
    requires EventsOk(s) && Enabled(s, step)
    ensures var s' := Effect(hash, s, step);
      && AppliedCount(s', e) == (if e in s'.events && s'.events[e].Accepted? then 1 else 0)
      && (e in s.events && s.events[e].Accepted? ==> e in s'.events && s'.events[e].Accepted?)
  {
    assert AppliedCount(s, e) == if e in s.events && s.events[e].Accepted? then 1 else 0;
  }

  lemma StepKeepsEvents(hash: Queue.Hash, s: Sys, step: Step)
    requires EventsOk(s) && BoxOk(s.box) && Enabled(s, step)
    ensures EventsOk(Effect(hash, s, step))
  {
    var s' := Effect(hash, s, step);
    forall e ensures AppliedCount(s', e) == if e in s'.events && s'.events[e].Accepted? then 1 else 0 {
      StepKeepsCounts(hash, s, step, e);
    }
    StepKeepsKeys(s, step);
    forall o | o in s'.replyTo ensures s'.replyTo[o] in s'.events && s'.events[s'.replyTo[o]].Accepted? {
      StepKeepsCounts(hash, s, step, s'.replyTo[o]);
    }
  }

  lemma StepKeepsInv(hash: Queue.Hash, s: Sys, step: Step)
    requires Inv(hash, s) && Enabled(s, step)
    ensures Inv(hash, Effect(hash, s, step))
  {
    StepKeepsQueue(hash, s, step);
    StepKeepsBox(s, step);
    StepKeepsEvents(hash, s, step);
  }

  // ----- runs -----

  ghost predicate IsRun(hash: Queue.Hash, states: seq<Sys>, steps: seq<Step>) {
    && |states| == |steps| + 1
    && Init(states[0])
    && forall i :: 0 <= i < |steps| ==> Enabled(states[i], steps[i]) && states[i + 1] == Effect(hash, states[i], steps[i])
  }

  lemma {:induction false} InvAlongRun(hash: Queue.Hash, states: seq<Sys>, steps: seq<Step>, i: nat)
    requires IsRun(hash, states, steps) && i < |states|
    ensures Inv(hash, states[i])
  {
    if i > 0 {
      InvAlongRun(hash, states, steps, i - 1);
      StepKeepsInv(hash, states[i - 1], steps[i - 1]);
    }
  }

  lemma BoxOkAlongRun(hash: Queue.Hash, states: seq<Sys>, steps: seq<Step>, i: nat)
    requires IsRun(hash, states, steps) && i < |states|
    ensures BoxOk(states[i].box)
  {
    InvAlongRun(hash, states, steps, i);
  }

  /** However often an event is delivered, over whichever route, and however the mode is switched
      in between, its effects commit at most once, and exactly once when it is accepted. */
  lemma EffectsCommitAtMostOnce(hash: Queue.Hash, states: seq<Sys>, steps: seq<Step>, m: nat, e: EventKey)
    requires IsRun(hash, states, steps) && m < |states|
    ensures AppliedCount(states[m], e) <= 1
    ensures AppliedCount(states[m], e) == 1 <==> e in states[m].events && states[m].events[e].Accepted?
  {
    InvAlongRun(hash, states, steps, m);
  }

  predicate IsAccepted(s: Sys, e: EventKey) { e in s.events && s.events[e].Accepted? }

  lemma NewlyAccepted(hash: Queue.Hash, s: Sys, step: Step, e: EventKey)
    requires Enabled(s, step) && !IsAccepted(s, e) && IsAccepted(Effect(hash, s, step), e)
    ensures step.Ingress? && step.e == e && step.source == s.mode && step.d.effectsApply
  {
  }

  lemma {:induction false} ModeStays(hash: Queue.Hash, states: seq<Sys>, steps: seq<Step>, k: nat, m: nat)
    requires IsRun(hash, states, steps) && k < m < |states| && steps[k].SwitchMode? && forall i :: k < i < m ==> !steps[i].SwitchMode?
    ensures states[m].mode == steps[k].mode
    decreases m
  {
    if m > k + 1 {
      ModeStays(hash, states, steps, k, m - 1);
    }
    assert states[m] == Effect(hash, states[m - 1], steps[m - 1]);
  }

  /** An event is accepted only over the route that the last switch of the mode chose. */
  lemma AcceptedOverItsRoute(hash: Queue.Hash, states: seq<Sys>, steps: seq<Step>, k: nat, m: nat, e: EventKey)
    requires IsRun(hash, states, steps) && k < m < |steps| && steps[k].SwitchMode? && forall i :: k < i < m ==> !steps[i].SwitchMode?
    requires !IsAccepted(states[m], e) && IsAccepted(states[m + 1], e)
    ensures steps[m].Ingress? && steps[m].e == e && steps[m].source == steps[k].mode
  {
    ModeStays(hash, states, steps, k, m);
    NewlyAccepted(hash, states[m], steps[m], e);
  }

  /** A message is handed to the provider again only after every earlier hand-off of it was
      recorded as a definite failure. */
  lemma ResendOnlyAfterDefiniteFailure(hash: Queue.Hash, states: seq<Sys>, steps: seq<Step>, m: nat, k: nat)
    requires IsRun(hash, states, steps) && m < |steps| && steps[m].Send?
    requires HasStage(states[m].box, steps[m].o, k) && k != steps[m].i
    ensures var h := states[m].box.handoffs[steps[m].o][k];
      h.Recorded? && h.result.Refused? && h.result.errorClass != ProviderAmbiguous
    ensures k < steps[m].i == |states[m].box.handoffs[steps[m].o]| - 1
  {
    BoxOkAlongRun(hash, states, steps, m);
    MovedOk(states[m].box, steps[m].o, steps[m].i, InFlight);
  }

  /** End to end: when a reply to event `e` is handed over, every other hand-off of any reply to
      `e`, in any row the whole history ever had, was recorded as a definite failure. */
  lemma ReplyHandedOverOncePerOutcome(hash: Queue.Hash, states: seq<Sys>, steps: seq<Step>, m: nat, e: EventKey, p: OutId, k: nat)
    requires IsRun(hash, states, steps) && m < |steps| && steps[m].Send?
    requires steps[m].o in states[m].replyTo && states[m].replyTo[steps[m].o] == e
    requires p in states[m].replyTo && states[m].replyTo[p] == e
    requires HasStage(states[m].box, p, k) && (p != steps[m].o || k != steps[m].i)
    ensures var h := states[m].box.handoffs[p][k];
      h.Recorded? && h.result.Refused? && h.result.errorClass != ProviderAmbiguous
    ensures AppliedCount(states[m], e) == 1
  {
    InvAlongRun(hash, states, steps, m);
    ResendOnlyAfterDefiniteFailure(hash, states, steps, m, k);
  }

  // ----- no message is sent again while a send is unresolved -----

  /** In every reachable state, a message with a send in flight, or returned but not recorded as
      refused, sits in sending, sent or ambiguous, and nobody may send it. */
  lemma UnresolvedSendBlocksResend(hash: Queue.Hash, states: seq<Sys>, steps: seq<Step>, m: nat, o: OutId, i: nat)
    requires IsRun(hash, states, steps) && m < |states| && HasStage(states[m].box, o, i)
    requires HandedOff(states[m].box.handoffs[o][i]) && !DefiniteFailure(states[m].box.handoffs[o][i])
    ensures o in states[m].box.rows ==> states[m].box.rows[o].state in {Sending, Sent, Ambiguous}
    ensures m < |steps| ==> !(steps[m].Send? && steps[m].o == o)
  {
    BoxOkAlongRun(hash, states, steps, m);
    assert HistoryOk(states[m].box.handoffs[o]);
    if m < |steps| && steps[m].Send? && steps[m].o == o {
      MovedOk(states[m].box, o, steps[m].i, InFlight);
    }
  }

  /** The result is known and is not a refusal, or its record was refused. */
  predicate NeverRetried(h: Stage) {
    h.Unrecorded? || ((h.Returned? || h.Settling? || h.Recorded?) && MayHaveArrived(h.result))
  }

  lemma StageStepMovesItsOwn(s: Sys, step: Step, o: OutId, i: nat)
    requires Enabled(s, step) && HasStage(s.box, o, i) && IsStageStep(step)
    ensures HasStage(BoxAfter(s, step), o, i)
    ensures step.o != o || step.i != i ==> BoxAfter(s, step).handoffs[o][i] == s.box.handoffs[o][i]
    ensures NeverRetried(s.box.handoffs[o][i]) ==> NeverRetried(BoxAfter(s, step).handoffs[o][i])
  {
  }

  lemma NeverRetriedStays(s: Sys, step: Step, o: OutId, i: nat)
    requires BoxOk(s.box) && Enabled(s, step) && HasStage(s.box, o, i) && NeverRetried(s.box.handoffs[o][i])
    ensures HasStage(BoxAfter(s, step), o, i) && NeverRetried(BoxAfter(s, step).handoffs[o][i])
  {
    if IsStageStep(step) {
      StageStepMovesItsOwn(s, step, o, i);
    } else {
      StepKeepsBox(s, step);
    }
  }

  lemma {:induction false} NeverRetriedAlongRun(hash: Queue.Hash, states: seq<Sys>, steps: seq<Step>, k: nat, m: nat, o: OutId, i: nat)
    requires IsRun(hash, states, steps) && k <= m < |states|
    requires HasStage(states[k].box, o, i) && NeverRetried(states[k].box.handoffs[o][i])
    ensures HasStage(states[m].box, o, i) && NeverRetried(states[m].box.handoffs[o][i])
    decreases m
  {
    if m > k {
      NeverRetriedAlongRun(hash, states, steps, k, m - 1, o, i);
      BoxOkAlongRun(hash, states, steps, m - 1);
      NeverRetriedStays(states[m - 1], steps[m - 1], o, i);
    }
  }

  /** Once a send has returned ok or ambiguous, in every later state of every run the row is in
      sending, sent or ambiguous (or purged with its account), and no worker sends it again. */
  lemma NoResendAfterAcceptedOrAmbiguous(hash: Queue.Hash, states: seq<Sys>, steps: seq<Step>, k: nat, m: nat, o: OutId, i: nat)
    requires IsRun(hash, states, steps) && k <= m < |states|
    requires HasStage(states[k].box, o, i) && NeverRetried(states[k].box.handoffs[o][i])
    ensures o in states[m].box.rows ==> states[m].box.rows[o].state in {Sending, Sent, Ambiguous}
    ensures m < |steps| ==> !(steps[m].Send? && steps[m].o == o)
  {
    NeverRetriedAlongRun(hash, states, steps, k, m, o, i);
    UnresolvedSendBlocksResend(hash, states, steps, m, o, i);
  }

  /** In the results' own terms: once a send has returned, accepted or not known to be refused, the message is
      never sent again. */
  lemma ArrivedIsNeverResent(hash: Queue.Hash, states: seq<Sys>, steps: seq<Step>, k: nat, m: nat, o: OutId, i: nat)
    requires IsRun(hash, states, steps) && k <= m < |steps| && HasStage(states[k].box, o, i)
    requires var h := states[k].box.handoffs[o][i];
      (h.Returned? || h.Settling? || h.Recorded?) && (h.result == Delivered || h.result == Refused(ProviderAmbiguous))
    ensures !(steps[m].Send? && steps[m].o == o)
  {
    NoResendAfterAcceptedOrAmbiguous(hash, states, steps, k, m, o, i);
  }

  // ----- a message to be delivered has its job -----

  ghost predicate HasJob(jobs: WQ.Jobs, key: string) {
    exists id :: id in jobs && jobs[id].dedupeKey == "outbound.deliver:" + key
  }

  ghost predicate MessagesServed(s: Sys) {
    forall o :: o in s.box.rows && !s.box.rows[o].state.Suppressed? ==> HasJob(s.queue.jobs, s.box.rows[o].key)
  }

  lemma QueueKeepsJob(hash: Queue.Hash, s: Sys, step: Step, key: string)
    requires Queue.Inv(hash, s.queue) && Enabled(s, step) && HasJob(s.queue.jobs, key)
    ensures HasJob(QueueAfter(hash, s, step).jobs, key)
  {
    var id :| id in s.queue.jobs && s.queue.jobs[id].dedupeKey == "outbound.deliver:" + key;
    match step
    case QueueStep(qs) => QueueRuns.StepKeepsRequest(hash, s.queue, qs, id);
    case Ingress(e, _, _, o, job, serKey, now) =>
      QueueRuns.StepKeepsRequest(hash, s.queue, DeliverJob(s.box, ReplyKey(e), o, job, serKey, now), id);
    case OtherMessage(k, _, o, job, serKey, now) =>
      QueueRuns.StepKeepsRequest(hash, s.queue, DeliverJob(s.box, k, o, job, serKey, now), id);
    case _ =>
  }

  /** A row keeps its key, and a new one that is not suppressed comes with its job. */
  lemma RowsKeepKeys(hash: Queue.Hash, s: Sys, step: Step, o: OutId)
    requires BoxOk(s.box) && Enabled(s, step) && o in BoxAfter(s, step).rows
    ensures var row := BoxAfter(s, step).rows[o];
      if o in s.box.rows then row.key == s.box.rows[o].key && (s.box.rows[o].state.Suppressed? ==> row.state.Suppressed?)
      else !row.state.Suppressed? ==> HasJob(QueueAfter(hash, s, step).jobs, row.key)
  {
    if (step.Ingress? || step.OtherMessage?) && o !in s.box.rows && !BoxAfter(s, step).rows[o].state.Suppressed? {
      var key := if step.Ingress? then ReplyKey(step.e) else step.key;
      var jobs := QueueAfter(hash, s, step).jobs;
      assert jobs == WQ.WithJob(s.queue.jobs, step.job, DeliverRequest(key, RowFor(s.box.rows, key, step.o), step.serKey, step.now), step.now);
      JobIsThere(s.queue.jobs, step.job, DeliverRequest(key, RowFor(s.box.rows, key, step.o), step.serKey, step.now), step.now, key);
    }
  }

  lemma JobIsThere(jobs: WQ.Jobs, job: WQ.JobId, request: WQ.EnqueueRequest, now: Time, key: string)
    requires WQ.ValidRequest(request) && request.dedupeKey == "outbound.deliver:" + key
    ensures HasJob(WQ.WithJob(jobs, job, request, now), key)
  {
    var jobs' := WQ.WithJob(jobs, job, request, now);
    if !WQ.DedupeKeyTaken(jobs, request.dedupeKey) {
      assert job in jobs' && jobs'[job].dedupeKey == request.dedupeKey;
    }
  }

  lemma StepKeepsServed(hash: Queue.Hash, s: Sys, step: Step)
    requires Inv(hash, s) && Enabled(s, step) && MessagesServed(s)
    ensures MessagesServed(Effect(hash, s, step))
  {
    var s' := Effect(hash, s, step);
    forall o | o in s'.box.rows && !s'.box.rows[o].state.Suppressed? ensures HasJob(s'.queue.jobs, s'.box.rows[o].key) {
      RowsKeepKeys(hash, s, step, o);
      if o in s.box.rows {
        QueueKeepsJob(hash, s, step, s.box.rows[o].key);
      }
    }
  }

  /** In every reachable state each message that is not suppressed has a delivery job under its key. */
  lemma {:induction false} EveryMessageHasItsJob(hash: Queue.Hash, states: seq<Sys>, steps: seq<Step>, m: nat)
    requires IsRun(hash, states, steps) && m < |states|
    ensures MessagesServed(states[m])
  {
    if m > 0 {
      EveryMessageHasItsJob(hash, states, steps, m - 1);
      InvAlongRun(hash, states, steps, m - 1);
      StepKeepsServed(hash, states[m - 1], steps[m - 1]);
    }
  }

  // ----- token fencing of outbound statements -----

  lemma StepKeepsSpent(hash: Queue.Hash, s: Sys, step: Step, id: WQ.JobId, token: WQ.Token)
    requires WQ.JobsOk(s.queue.jobs) && Enabled(s, step) && Queue.Spent(s.queue, id, token)
    ensures Queue.Spent(QueueAfter(hash, s, step), id, token)
    ensures Queue.HasToken(QueueAfter(hash, s, step), id, token) ==> Queue.HasToken(s.queue, id, token)
  {
    match step
    case QueueStep(qs) => Queue.SpentStaysSpent(hash, s.queue, qs, id, token);
    case Ingress(e, _, _, o, job, serKey, now) => Queue.SpentStaysSpent(hash, s.queue, DeliverJob(s.box, ReplyKey(e), o, job, serKey, now), id, token);
    case OtherMessage(key, _, o, job, serKey, now) => Queue.SpentStaysSpent(hash, s.queue, DeliverJob(s.box, key, o, job, serKey, now), id, token);
    case _ =>
  }

  lemma JobsOkAlongRun(hash: Queue.Hash, states: seq<Sys>, steps: seq<Step>, i: nat)
    requires IsRun(hash, states, steps) && i < |states|
    ensures WQ.JobsOk(states[i].queue.jobs)
  {
    InvAlongRun(hash, states, steps, i);
  }

  lemma SpentWhileHeld(hash: Queue.Hash, states: seq<Sys>, steps: seq<Step>, i: nat, id: WQ.JobId, token: WQ.Token)
    requires IsRun(hash, states, steps) && i < |states| && Queue.HasToken(states[i].queue, id, token)
    ensures Queue.Spent(states[i].queue, id, token)
  {
    InvAlongRun(hash, states, steps, i);
    Queue.CurrentTokenIsSpent(hash, states[i].queue, id, token);
  }

  lemma {:induction false} SpentAlongRun(hash: Queue.Hash, states: seq<Sys>, steps: seq<Step>, i: nat, k: nat, m: nat, id: WQ.JobId, token: WQ.Token)
    requires IsRun(hash, states, steps) && i <= k <= m < |states|
    requires Queue.HasToken(states[i].queue, id, token)
    ensures Queue.Spent(states[m].queue, id, token)
    ensures Queue.HasToken(states[m].queue, id, token) ==> Queue.HasToken(states[k].queue, id, token)
    decreases m
  {
    if m == i {
      SpentWhileHeld(hash, states, steps, i, id, token);
    } else {
      SpentAlongRun(hash, states, steps, i, if m > k then k else i, m - 1, id, token);
      JobsOkAlongRun(hash, states, steps, m - 1);
      StepKeepsSpent(hash, states[m - 1], steps[m - 1], id, token);
    }
  }

  /** A statement issued under a lease that is over never reserves, marks or settles a row,
      whatever clock it reads and whatever state it lands in. */
  lemma OutboundFencing(hash: Queue.Hash, states: seq<Sys>, steps: seq<Step>, i: nat, k: nat, m: nat, id: WQ.JobId, token: WQ.Token, later: Box)
    requires IsRun(hash, states, steps) && i <= k <= m < |steps|
    requires Queue.HasToken(states[i].queue, id, token) && !Queue.HasToken(states[k].queue, id, token)
    requires steps[m].IssueReserve? || steps[m].IssueMark? || steps[m].IssueSettle?
    requires steps[m].job == id && steps[m].token == token
    ensures steps[m].IssueReserve? || steps[m].IssueMark? ==>
      steps[m].q in states[m + 1].pending && Landed(later, states[m + 1].pending[steps[m].q]) == later
    ensures steps[m].IssueSettle? ==>
      && HasStage(states[m + 1].box, steps[m].o, steps[m].i)
      && states[m + 1].box.handoffs[steps[m].o][steps[m].i].Settling?
      && (HasStage(later, steps[m].o, steps[m].i)
          && later.handoffs[steps[m].o][steps[m].i] == states[m + 1].box.handoffs[steps[m].o][steps[m].i]
          ==> SettleLanded(later, steps[m].o, steps[m].i).rows == later.rows)
  {
    SpentAlongRun(hash, states, steps, i, k, m, id, token);
  }

  /** The bound is exact: a statement already issued when its lease ends still lands. Here the
      operator cancels the job between the two halves of the settling statement. */
  lemma IssuedStatementOutlivesLease(hash: Queue.Hash, s: Sys, o: OutId, i: nat, job: WQ.JobId, token: WQ.Token, now: Time)
    requires HasStage(s.box, o, i) && s.box.handoffs[o][i].Returned? && o in s.box.rows && s.box.rows[o].state.Sending?
    requires LeaseSeen(s, job, token, now) && !Queue.RowLocked(s.queue, job)
    ensures var issued := Effect(hash, s, IssueSettle(o, i, job, token, now));
      Enabled(issued, QueueStep(Queue.CancelByOperator(job)))
      && var cancelled := Effect(hash, issued, QueueStep(Queue.CancelByOperator(job)));
         && !Queue.HasToken(cancelled.queue, job, token)
         && Enabled(cancelled, LandSettle(o, i))
         && var r := s.box.handoffs[o][i].result;
            Effect(hash, cancelled, LandSettle(o, i)).box.rows[o].state
            == if r == Delivered then Sent else if r == Refused(ProviderAmbiguous) then Ambiguous else Failed
  {
  }
}
