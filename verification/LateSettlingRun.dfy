/** A run in which a settling statement lands after its job's lease has ended: a reply is sent, the
    statement that records it is issued, the operator cancels the job, and the statement lands. */
module LateSettlingRun {
  import opened Base
  import opened Outbox
  import opened Delivery
  import WQ = WorkQueue
  import Queue = ClaimProtocol
  import CR = ClaimRefinement

  /** A run goes on by a step. */
  lemma RunsOn(hash: Queue.Hash, states: seq<Sys>, steps: seq<Step>, step: Step) returns (states': seq<Sys>, steps': seq<Step>)
    requires IsRun(hash, states, steps) && Enabled(End(states), step)
    ensures steps' == steps + [step] && states' == states + [Effect(hash, End(states), step)] && IsRun(hash, states', steps')
  {
    states', steps' := states + [Effect(hash, End(states), step)], steps + [step];
  }

  /** A run goes on by steps of the queue. */
  lemma {:induction false} RunsQueue(hash: Queue.Hash, states: seq<Sys>, steps: seq<Step>, queued: seq<Queue.Step>, q: Queue.State)
    returns (states': seq<Sys>, steps': seq<Step>)
    requires IsRun(hash, states, steps) && CR.Leads(hash, End(states).queue, queued, q)
    ensures IsRun(hash, states', steps') && End(states') == End(states).(queue := q)
    decreases |queued|
  {
    states', steps' := states, steps;
    if queued != [] {
      states', steps' := RunsOn(hash, states, steps, QueueStep(queued[0]));
      states', steps' := RunsQueue(hash, states', steps', queued[1..], q);
    }
  }

  // ----- one event, one reply, one job -----

  const EVENT: EventKey := ("zalo_bot", "1")

  const RECEIVED := Ingress(EVENT, Webhook, Decision(true, true, true), 0, 0, "account:0", 0)

  function Start(): Sys { Sys(Queue.State(map[], map[], {}), Box(map[], map[]), map[], Webhook, map[], map[], map[]) }

  function Request(): WQ.EnqueueRequest { DeliverRequest(ReplyKey(EVENT), 0, "account:0", 0) }

  lemma RequestIsValid()
    ensures WQ.ValidRequest(Request())
  {
    assert 'o' == "outbound.deliver"[0] && 'o' in "outbound.deliver";
    var key := "outbound.deliver:" + ReplyKey(EVENT);
    assert key[0] == 'o' && 'o' in key;
    assert 'a' == "account:0"[0] && 'a' in "account:0";
  }

  function Held(): WQ.Job { WQ.LeaseOrBury(WQ.NewJob(Request(), 0), 1, "worker", 0, 60) }

  /** The job is leased, with the reply's row in `state` and its hand-offs in `stages`. */
  ghost predicate At(s: Sys, state: OutState, stages: seq<Stage>) {
    && s.queue.claims == map[] && s.queue.jobs == map[0 := Held()] && s.pending == map[]
    && 0 in s.box.rows && s.box.rows[0].state == state && 0 in s.box.handoffs && s.box.handoffs[0] == stages
  }

  lemma Receives(hash: Queue.Hash)
    ensures Enabled(Start(), RECEIVED)
    ensures var s := Effect(hash, Start(), RECEIVED);
      && s.queue == Queue.State(map[0 := WQ.NewJob(Request(), 0)], map[], {}) && s.pending == map[]
      && s.box == Box(map[0 := NewRow(ReplyKey(EVENT), true)], map[0 := []])
  {
    RequestIsValid();
  }

  lemma LeasesJob(hash: Queue.Hash) returns (states: seq<Sys>, steps: seq<Step>)
    ensures IsRun(hash, states, steps) && At(End(states), Waiting, [])
  {
    Receives(hash);
    states, steps := RunsOn(hash, [Start()], [], RECEIVED);
    var claim, q := CR.ClaimsOne(hash, End(states).queue, 0, WQ.NewJob(Request(), 0), 1, "worker", 0, 60);
    states, steps := RunsQueue(hash, states, steps, claim, q);
  }

  lemma Reserves(hash: Queue.Hash, s: Sys)
    requires At(s, Waiting, [])
    ensures Enabled(s, IssueReserve(0, 0, 0, 1, 1))
    ensures var s1 := Effect(hash, s, IssueReserve(0, 0, 0, 1, 1));
      Enabled(s1, Land(0)) && At(Effect(hash, s1, Land(0)), Sending, [Reserved])
  {
  }

  lemma Sends(hash: Queue.Hash, s: Sys)
    requires At(s, Sending, [Reserved])
    ensures Enabled(s, Send(0, 0))
    ensures var s1 := Effect(hash, s, Send(0, 0));
      Enabled(s1, Return(0, 0, Delivered)) && At(Effect(hash, s1, Return(0, 0, Delivered)), Sending, [Returned(Delivered)])
  {
  }

  lemma SendsReply(hash: Queue.Hash) returns (states: seq<Sys>, steps: seq<Step>)
    ensures IsRun(hash, states, steps) && At(End(states), Sending, [Returned(Delivered)])
  {
    states, steps := LeasesJob(hash);
    Reserves(hash, End(states));
    states, steps := RunsOn(hash, states, steps, IssueReserve(0, 0, 0, 1, 1));
    states, steps := RunsOn(hash, states, steps, Land(0));
    Sends(hash, End(states));
    states, steps := RunsOn(hash, states, steps, Send(0, 0));
    states, steps := RunsOn(hash, states, steps, Return(0, 0, Delivered));
  }

  /** There is a run in which the lease of a job is over, and its statement still settles the row: in
      the last step but one the job no longer has the token, and the last step makes the row `sent`. */
  lemma StatementLandsLate(hash: Queue.Hash) returns (states: seq<Sys>, steps: seq<Step>)
    ensures IsRun(hash, states, steps) && |steps| >= 3
    ensures steps[|steps| - 3] == IssueSettle(0, 0, 0, 1, 1) && steps[|steps| - 1] == LandSettle(0, 0)
    ensures Queue.HasToken(states[|steps| - 3].queue, 0, 1) && !Queue.HasToken(states[|steps| - 1].queue, 0, 1)
    ensures 0 in states[|steps| - 1].box.rows && states[|steps| - 1].box.rows[0].state.Sending?
    ensures 0 in states[|steps|].box.rows && states[|steps|].box.rows[0].state.Sent?
  {
    states, steps := SendsReply(hash);
    IssuedStatementOutlivesLease(hash, End(states), 0, 0, 0, 1, 1);
    states, steps := RunsOn(hash, states, steps, IssueSettle(0, 0, 0, 1, 1));
    states, steps := RunsOn(hash, states, steps, QueueStep(Queue.CancelByOperator(0)));
    states, steps := RunsOn(hash, states, steps, LandSettle(0, 0));
  }
}
