/** The ingress transaction: one inbound event, its effects and its reply, all or nothing.

    What an effect does to the rest of the database is a parameter, so the results hold for every
    effect the bot has or will have. */
module IngressStore {
  import opened Base
  import opened Outbox
  import Delivery
  import WQ = WorkQueue
  import Queue = ClaimProtocol

  /** An effect's own answer: the tables after it, and a reply that replaces the decided one. */
  datatype Applied<T> = Applied(tables: T, reply: Option<string>)

  /** How effects work: what each does, and which of them do nothing. */
  datatype Effects<!T, !E> = Effects(apply: (T, E) -> Result<Applied<T>, ErrorClass>, isReadOnly: E -> bool)

  /** The effects one after another, up to the `n`-th: the first error ends it, the last reply stands. */
  function ApplyFirst<T, E>(fx: Effects<T, E>, tables: T, effects: seq<E>, n: nat): Result<Applied<T>, ErrorClass>
    requires n <= |effects|
  {
    if n == 0 then Ok(Applied(tables, None))
    else
      var before := ApplyFirst(fx, tables, effects, n - 1);
      if before.Err? then before
      else
        var r := fx.apply(before.value.tables, effects[n - 1]);
        if r.Err? then Err(r.error)
        else Ok(Applied(r.value.tables, if r.value.reply.Some? then r.value.reply else before.value.reply))
  }

  lemma {:induction false} ErrorsStay<T, E>(fx: Effects<T, E>, tables: T, effects: seq<E>, n: nat, m: nat)
    requires n <= m <= |effects| && ApplyFirst(fx, tables, effects, n).Err?
    ensures ApplyFirst(fx, tables, effects, m) == ApplyFirst(fx, tables, effects, n)
    decreases m
  {
    if m > n {
      ErrorsStay(fx, tables, effects, n, m - 1);
    }
  }

  /** The tables before each of the first `n` effects, and after the last of them. */
  ghost predicate Chain<T(!new), E(!new)>(fx: Effects<T, E>, effects: seq<E>, n: nat, ts: seq<T>) {
    n <= |effects| && |ts| == n + 1 && forall i :: 0 <= i < n ==> LeadsTo(fx, ts[i], effects[i], ts[i + 1])
  }

  predicate LeadsTo<T(==), E>(fx: Effects<T, E>, t: T, effect: E, t': T) {
    var r := fx.apply(t, effect);
    r.Ok? && r.value.tables == t'
  }

  predicate Replies<T, E>(fx: Effects<T, E>, t: T, effect: E, reply: Option<string>) {
    var r := fx.apply(t, effect);
    r.Ok? && r.value.reply == reply
  }

  /** The reply of the last of the first `n` effects that gave one. */
  ghost predicate LastReply<T(!new), E(!new)>(fx: Effects<T, E>, effects: seq<E>, n: nat, ts: seq<T>, reply: Option<string>)
    requires n <= |effects| && |ts| > n
  {
    if reply.None? then forall i :: 0 <= i < n ==> Replies(fx, ts[i], effects[i], None)
    else exists i :: 0 <= i < n && Replies(fx, ts[i], effects[i], reply) && forall k :: i < k < n ==> Replies(fx, ts[k], effects[k], None)
  }

  /** What the conversation decided. */
  datatype Decided<E> = Decided(effects: seq<E>, reply: Option<string>)

  datatype Outcome = AcceptedEvent | DuplicateEvent | ModeRejected

  lemma ChainGrows<T(!new), E(!new)>(fx: Effects<T, E>, effects: seq<E>, n: nat, ts: seq<T>, t: T)
    requires n < |effects| && Chain(fx, effects, n, ts) && LeadsTo(fx, ts[n], effects[n], t)
    ensures Chain(fx, effects, n + 1, ts + [t])
  {
  }

  lemma ReplyGrows<T(!new), E(!new)>(fx: Effects<T, E>, effects: seq<E>, n: nat, ts: seq<T>, before: Option<string>, given: Option<string>)
    requires n < |effects| && |ts| > n + 1 && LastReply(fx, effects, n, ts, before) && Replies(fx, ts[n], effects[n], given)
    ensures LastReply(fx, effects, n + 1, ts, if given.Some? then given else before)
  {
    if given.None? && before.Some? {
      var i :| 0 <= i < n && Replies(fx, ts[i], effects[i], before) && forall k :: i < k < n ==> Replies(fx, ts[k], effects[k], None);
      assert forall k :: i < k < n + 1 ==> Replies(fx, ts[k], effects[k], None);
    }
  }

  lemma ReplyOfPrefix<T(!new), E(!new)>(fx: Effects<T, E>, effects: seq<E>, n: nat, ts: seq<T>, t: T, reply: Option<string>)
    requires n < |effects| && |ts| == n + 1 && LastReply(fx, effects, n, ts, reply)
    ensures LastReply(fx, effects, n, ts + [t], reply)
  {
    var ts' := ts + [t];
    if reply.Some? {
      var i :| 0 <= i < n && Replies(fx, ts[i], effects[i], reply) && forall k :: i < k < n ==> Replies(fx, ts[k], effects[k], None);
      assert Replies(fx, ts'[i], effects[i], reply) && forall k :: i < k < n ==> Replies(fx, ts'[k], effects[k], None);
    }
  }

  /** All effects of the event, for an allowed sender; for any other, read-only ones. */
  function Verdict<T, E>(fx: Effects<T, E>, tables: T, allowed: bool, d: Decided<E>): Result<Applied<T>, ErrorClass> {
    if allowed then ApplyFirst(fx, tables, d.effects, |d.effects|)
    else if exists i :: 0 <= i < |d.effects| && !fx.isReadOnly(d.effects[i]) then Err(Forbidden)
    else Ok(Applied(tables, None))
  }

  function Reply<T, E>(a: Applied<T>, d: Decided<E>): Option<string> { if a.reply.Some? then a.reply else d.reply }

  /** The unique constraint on idempotency keys. */
  ghost predicate KeysUnique(rows: map<OutId, Row>) {
    forall o, p :: o in rows && p in rows && rows[o].key == rows[p].key ==> o == p
  }

  /** One delivery of an event by webhook or poll. */
  datatype Request = Request(e: Delivery.EventKey, source: Delivery.Source, allowed: bool, deliver: bool,
                             o: OutId, job: WQ.JobId, serKey: string, now: Time)

  /** The delivery job of the message under `key`. */
  ghost function JobRequest(b: Box, q: Request, key: string): WQ.EnqueueRequest {
    Delivery.DeliverRequest(key, Delivery.RowFor(b.rows, key, q.o), q.serKey, q.now)
  }

  /** What makes the accepting path fail: the decision, an effect, or the reply's delivery job. */
  ghost predicate Declined<T, E>(fx: Effects<T, E>, tables: T, b: Box, q: Request, decision: Result<Decided<E>, ErrorClass>) {
    || decision.Err?
    || Verdict(fx, tables, q.allowed, decision.value).Err?
    || (Reply(Verdict(fx, tables, q.allowed, decision.value).value, decision.value).Some?
        && q.deliver && !WQ.ValidRequest(JobRequest(b, q, Delivery.ReplyKey(q.e))))
  }

  predicate HasAnswer<T, E>(fx: Effects<T, E>, tables: T, q: Request, decision: Result<Decided<E>, ErrorClass>) {
    && decision.Ok? && Verdict(fx, tables, q.allowed, decision.value).Ok?
    && Reply(Verdict(fx, tables, q.allowed, decision.value).value, decision.value).Some?
  }

  /** The bodies with the reply to the event, unless there is none or its row exists already. */
  function Answered(bodies: map<OutId, string>, b: Box, q: Request, reply: Option<string>): map<OutId, string> {
    if reply.Some? && !KeyTaken(b.rows, Delivery.ReplyKey(q.e)) then bodies[q.o := reply.value] else bodies
  }

  /** The effects of an accepted event ran one after another, each on the tables the one before left, and
      `given` is the reply they gave; a sender that is not allowed had read-only ones, and nothing ran. */
  ghost predicate Ran<T(!new), E(!new)>(fx: Effects<T, E>, allowed: bool, effects: seq<E>, before: T, after: T, ts: seq<T>, given: Option<string>) {
    if allowed then
      && |ts| == |effects| + 1 && ts[0] == before && ts[|effects|] == after
      && Chain(fx, effects, |effects|, ts) && LastReply(fx, effects, |effects|, ts, given)
    else (forall i :: 0 <= i < |effects| ==> fx.isReadOnly(effects[i])) && after == before && given.None?
  }

  /** What an error of the accepting path comes from. */
  ghost predicate ErrsWith<T(!new), E(!new)>(fx: Effects<T, E>, q: Request, decision: Result<Decided<E>, ErrorClass>, before: T, ts: seq<T>, error: ErrorClass) {
    if decision.Err? then error == decision.error
    else
      var effects := decision.value.effects;
      if !q.allowed && exists i :: 0 <= i < |effects| && !fx.isReadOnly(effects[i]) then error == Forbidden
      else if q.allowed && |ts| <= |effects|
      then |ts| > 0 && ts[0] == before && Chain(fx, effects, |ts| - 1, ts) && fx.apply(ts[|ts| - 1], effects[|ts| - 1]) == Err(error)
      else error == Validation
  }

  datatype Mail = Mail(box: Box, bodies: map<OutId, string>, jobs: WQ.Jobs)

  /** The answer has its row, unless the event has one already, with its body and, if it may be delivered, the
      job that delivers it; without an answer nothing is stored. */
  ghost predicate IsAnswered(before: Mail, after: Mail, q: Request, answer: Option<string>) {
    var key := "reply:" + q.e.0 + ":" + q.e.1;
    && (answer.None? ==> after == before)
    && (answer.Some? && KeyTaken(before.box.rows, key) ==>
          && after.box == before.box && after.bodies == before.bodies
          && (q.deliver && !WQ.DedupeKeyTaken(before.jobs, "outbound.deliver:" + key) ==>
                exists t :: t in before.box.rows && before.box.rows[t].key == key && q.job in after.jobs && Delivers(after.jobs[q.job], key, q, t)))
    && (answer.Some? && !KeyTaken(before.box.rows, key) ==>
          && q.o in after.box.rows && after.box.rows[q.o].key == key
          && after.box.rows[q.o].state == (if q.deliver then Waiting else Suppressed)
          && after.bodies == before.bodies[q.o := answer.value]
          && (q.deliver && !WQ.DedupeKeyTaken(before.jobs, "outbound.deliver:" + key) ==> q.job in after.jobs && Delivers(after.jobs[q.job], key, q, q.o)))
    && (!q.deliver ==> after.jobs == before.jobs)
  }

  /** The job delivers the message in row `t`. */
  predicate Delivers(j: WQ.Job, key: string, q: Request, t: OutId) {
    && j.jobType == "outbound.deliver" && j.payloadVersion == 1 && j.target == Some(t) && j.dedupeKey == "outbound.deliver:" + key
    && j.serKey == Some(q.serKey) && j.priority == 10 && j.runAt == q.now && j.maxAttempts == 10 && j.state.Queued?
  }

  /** The verdict is what is stored: its tables, and the reply's row, body and job. */
  ghost predicate Decides<T, E>(a: Applied<T>, d: Decided<E>, q: Request, before: Mail, after: Mail, tables: T) {
    var key := Delivery.ReplyKey(q.e);
    && tables == a.tables
    && (Reply(a, d).Some? ==>
          && after.box == Inserted(before.box, key, q.deliver, q.o)
          && after.jobs == if q.deliver then WQ.WithJob(before.jobs, q.job, JobRequest(before.box, q, key), q.now) else before.jobs)
    && (Reply(a, d).None? ==> after.box == before.box && after.jobs == before.jobs)
    && after.bodies == Answered(before.bodies, before.box, q, Reply(a, d))
  }

  class IngressStore<T(!new, ==), E(!new)> {
    var mode: Delivery.Source
    var events: map<Delivery.EventKey, Delivery.Event>
    var box: Box
    var jobs: WQ.Jobs
    var tables: T
    var bodies: map<OutId, string>

    constructor (mode: Delivery.Source, tables: T)
      ensures this.mode == mode && this.tables == tables
      ensures events == map[] && box == Box(map[], map[]) && jobs == map[] && bodies == map[]
    {
      this.mode, this.tables := mode, tables;
      events, box, jobs, bodies := map[], Box(map[], map[]), map[], map[];
    }

    ghost function Posted(): Mail
      reads this
    {
      Mail(box, bodies, jobs)
    }

    ghost function View(): Delivery.Sys
      reads this
    {
      Delivery.Sys(Queue.State(jobs, map[], {}), box, map[], mode, events, map[], map[])
    }

    /** The effects loop. */
    method ApplyEffects(fx: Effects<T, E>, effects: seq<E>) returns (r: Result<Option<string>, ErrorClass>, ghost ts: seq<T>)
      modifies this`tables
      ensures |ts| > 0 && ts[0] == old(tables) && Chain(fx, effects, |ts| - 1, ts)
      ensures r.Ok? ==> |ts| == |effects| + 1 && tables == ts[|effects|] && LastReply(fx, effects, |effects|, ts, r.value)
      ensures r.Err? ==> |ts| <= |effects| && fx.apply(ts[|ts| - 1], effects[|ts| - 1]) == Err(r.error)
      ensures var all := ApplyFirst(fx, old(tables), effects, |effects|);
        if all.Ok? then r == Ok(all.value.reply) && tables == all.value.tables else r == Err(all.error)
    {
      var reply := None;
      ts := [tables];
      for n := 0 to |effects|
        invariant ApplyFirst(fx, old(tables), effects, n) == Ok(Applied(tables, reply))
        invariant Chain(fx, effects, n, ts) && ts[0] == old(tables) && ts[n] == tables && LastReply(fx, effects, n, ts, reply)
      {
        var applied := fx.apply(tables, effects[n]);
        if applied.Err? {
          ErrorsStay(fx, old(tables), effects, n + 1, |effects|);
          return Err(applied.error), ts;
        }
        tables := applied.value.tables;
        ghost var replied := reply;
        if applied.value.reply.Some? {
          reply := applied.value.reply;
        }
        ChainGrows(fx, effects, n, ts, tables);
        ReplyOfPrefix(fx, effects, n, ts, tables, replied);
        ts := ts + [tables];
        ReplyGrows(fx, effects, n, ts, replied, applied.value.reply);
      }
      return Ok(reply), ts;
    }

    /** `enqueue_outbound_in_transaction`: the row, and its job when it may be delivered. */
    method EnqueueOutbound(q: Request, key: string, body: string) returns (r: Result<(), ErrorClass>)
      requires q.o !in box.handoffs && q.job !in jobs && KeysUnique(box.rows)
      modifies this`box, this`jobs, this`bodies
      ensures box == Inserted(old(box), key, q.deliver, q.o) && KeysUnique(box.rows)
      ensures r.Err? <==> q.deliver && !WQ.ValidRequest(JobRequest(old(box), q, key))
      ensures jobs == if q.deliver then WQ.WithJob(old(jobs), q.job, JobRequest(old(box), q, key), q.now) else old(jobs)
      ensures bodies == if KeyTaken(old(box).rows, key) then old(bodies) else old(bodies)[q.o := body]
      ensures r.Err? ==> r.error == Validation
    {
      var o := q.o;
      if KeyTaken(box.rows, key) {
        o :| o in box.rows && box.rows[o].key == key;
      } else {
        box := Box(box.rows[o := NewRow(key, q.deliver)], box.handoffs[o := []]);
        bodies := bodies[o := body];
      }
      if !q.deliver {
        return Ok(());
      }
      var request := Delivery.DeliverRequest(key, o, q.serKey, q.now);
      if !WQ.ValidRequest(request) {
        return Err(Validation);
      }
      if !WQ.DedupeKeyTaken(jobs, request.dedupeKey) {
        jobs := jobs[q.job := WQ.NewJob(request, q.now)];
      }
      return Ok(());
    }

    /** The transaction. It errs exactly on the accepting path, when the decision or an effect fails
        or the reply's job is refused, and then nothing has changed. */
    method Process(fx: Effects<T, E>, q: Request, decision: Result<Decided<E>, ErrorClass>)
      returns (r: Result<Outcome, ErrorClass>, ghost ts: seq<T>, ghost given: Option<string>)
      requires q.o !in box.handoffs && q.job !in jobs && KeysUnique(box.rows)
      modifies this
      ensures mode == old(mode) && KeysUnique(box.rows)
      ensures r.Err? ==> events == old(events) && box == old(box) && jobs == old(jobs) && tables == old(tables) && bodies == old(bodies)
      ensures r == Ok(ModeRejected) <==> q.source != mode && q.e !in old(events)
      ensures r == Ok(DuplicateEvent) <==> q.e in old(events) && (q.source != mode || old(events)[q.e].Accepted?)
      ensures r.Err? <==> q.source == mode && !(q.e in old(events) && old(events)[q.e].Accepted?)
                          && Declined(fx, old(tables), old(box), q, decision)
      ensures r.Ok? ==> events == match r.value
        case AcceptedEvent => old(events)[q.e := Delivery.Accepted]
        case ModeRejected => old(events)[q.e := Delivery.Rejected]
        case DuplicateEvent => old(events)
      ensures r.Ok? && r != Ok(AcceptedEvent) ==> tables == old(tables) && bodies == old(bodies) && box == old(box) && jobs == old(jobs)
      ensures r == Ok(AcceptedEvent) ==>
        && decision.Ok? && Verdict(fx, old(tables), q.allowed, decision.value).Ok?
        && Decides(Verdict(fx, old(tables), q.allowed, decision.value).value, decision.value, q, old(Posted()), Posted(), tables)
      ensures Follows(old(View()), View(), q, r.Ok?, HasAnswer(fx, old(tables), q, decision))
      ensures r == Ok(AcceptedEvent) ==> decision.Ok? && Ran(fx, q.allowed, decision.value.effects, old(tables), tables, ts, given)
      ensures r == Ok(AcceptedEvent) ==> IsAnswered(old(Posted()), Posted(), q, if given.Some? then given else decision.value.reply)
      ensures r.Err? ==> ErrsWith(fx, q, decision, old(tables), ts, r.error)
    {
      r, ts, given := Transact(fx, q, decision);
      FollowsStep(old(View()), View(), q, r, HasAnswer(fx, old(tables), q, decision));
    }

    /** Its statements. */
    method Transact(fx: Effects<T, E>, q: Request, decision: Result<Decided<E>, ErrorClass>)
      returns (r: Result<Outcome, ErrorClass>, ghost ts: seq<T>, ghost given: Option<string>)
      requires q.o !in box.handoffs && q.job !in jobs && KeysUnique(box.rows)
      modifies this
      ensures mode == old(mode) && KeysUnique(box.rows)
      ensures r.Err? ==> events == old(events) && box == old(box) && jobs == old(jobs) && tables == old(tables) && bodies == old(bodies)
      ensures r == Ok(ModeRejected) <==> q.source != mode && q.e !in old(events)
      ensures r == Ok(DuplicateEvent) <==> q.e in old(events) && (q.source != mode || old(events)[q.e].Accepted?)
      ensures r.Err? <==> q.source == mode && !(q.e in old(events) && old(events)[q.e].Accepted?)
                          && Declined(fx, old(tables), old(box), q, decision)
      ensures r.Ok? ==> events == match r.value
        case AcceptedEvent => old(events)[q.e := Delivery.Accepted]
        case ModeRejected => old(events)[q.e := Delivery.Rejected]
        case DuplicateEvent => old(events)
      ensures r.Ok? && r != Ok(AcceptedEvent) ==> tables == old(tables) && bodies == old(bodies) && box == old(box) && jobs == old(jobs)
      ensures r == Ok(AcceptedEvent) ==>
        && decision.Ok? && Verdict(fx, old(tables), q.allowed, decision.value).Ok?
        && Decides(Verdict(fx, old(tables), q.allowed, decision.value).value, decision.value, q, old(Posted()), Posted(), tables)
      ensures r == Ok(AcceptedEvent) ==> decision.Ok? && Ran(fx, q.allowed, decision.value.effects, old(tables), tables, ts, given)
      ensures r == Ok(AcceptedEvent) ==> IsAnswered(old(Posted()), Posted(), q, if given.Some? then given else decision.value.reply)
      ensures r.Err? ==> ErrsWith(fx, q, decision, old(tables), ts, r.error)
      ensures r == Ok(AcceptedEvent) ==> IsSent(old(View()), View(), q, HasAnswer(fx, old(tables), q, decision))
    {
      ts, given := [tables], None;
      if q.source != mode {
        if q.e in events {
          return Ok(DuplicateEvent), ts, given;
        }
        events := events[q.e := Delivery.Rejected];
        return Ok(ModeRejected), ts, given;
      }
      if q.e in events && events[q.e].Accepted? {
        return Ok(DuplicateEvent), ts, given;
      }
      r, ts, given := Accept(fx, q, decision);
    }

    /** The accepting path, which leaves everything as it was when it fails. */
    method Accept(fx: Effects<T, E>, q: Request, decision: Result<Decided<E>, ErrorClass>)
      returns (r: Result<Outcome, ErrorClass>, ghost ts: seq<T>, ghost given: Option<string>)
      requires q.o !in box.handoffs && q.job !in jobs && KeysUnique(box.rows)
      modifies this
      ensures mode == old(mode) && KeysUnique(box.rows) && (r.Ok? ==> r.value == AcceptedEvent)
      ensures r.Err? ==> events == old(events) && box == old(box) && jobs == old(jobs) && tables == old(tables) && bodies == old(bodies)
      ensures r.Err? <==> Declined(fx, old(tables), old(box), q, decision)
      ensures r.Ok? ==> decision.Ok? && Verdict(fx, old(tables), q.allowed, decision.value).Ok? && events == old(events)[q.e := Delivery.Accepted]
      ensures r.Ok? ==> Decides(Verdict(fx, old(tables), q.allowed, decision.value).value, decision.value, q, old(Posted()), Posted(), tables)
      ensures r.Ok? ==> Ran(fx, q.allowed, decision.value.effects, old(tables), tables, ts, given)
      ensures r.Ok? ==> IsAnswered(old(Posted()), Posted(), q, if given.Some? then given else decision.value.reply)
      ensures r.Err? ==> ErrsWith(fx, q, decision, old(tables), ts, r.error)
    {
      var saved := (events, box, jobs, tables, bodies);
      events := events[q.e := Delivery.Accepted];
      r, ts, given := Decide(fx, q, decision);
      if r.Err? {
        events, box, jobs, tables, bodies := saved.0, saved.1, saved.2, saved.3, saved.4;
      }
    }

    /** The accepting path, from the decision to the commit. */
    method Decide(fx: Effects<T, E>, q: Request, decision: Result<Decided<E>, ErrorClass>)
      returns (r: Result<Outcome, ErrorClass>, ghost ts: seq<T>, ghost given: Option<string>)
      requires q.o !in box.handoffs && q.job !in jobs && KeysUnique(box.rows)
      modifies this`box, this`jobs, this`tables, this`bodies
      ensures KeysUnique(box.rows) && (r.Ok? ==> r.value == AcceptedEvent)
      ensures r.Err? <==> Declined(fx, old(tables), old(box), q, decision)
      ensures r.Ok? ==> decision.Ok? && Verdict(fx, old(tables), q.allowed, decision.value).Ok?
      ensures r.Ok? ==> Decides(Verdict(fx, old(tables), q.allowed, decision.value).value, decision.value, q, old(Posted()), Posted(), tables)
      ensures r.Ok? ==> Ran(fx, q.allowed, decision.value.effects, old(tables), tables, ts, given)
      ensures r.Ok? ==> IsAnswered(old(Posted()), Posted(), q, if given.Some? then given else decision.value.reply)
      ensures r.Err? ==> ErrsWith(fx, q, decision, old(tables), ts, r.error)
    {
      ts, given := [tables], None;
      if decision.Err? {
        return Err(decision.error), ts, given;
      }
      var reply := None;
      if q.allowed {
        var applied;
        applied, ts := ApplyEffects(fx, decision.value.effects);
        if applied.Err? {
          return Err(applied.error), ts, given;
        }
        reply := applied.value;
        given := reply;
      } else if exists i :: 0 <= i < |decision.value.effects| && !fx.isReadOnly(decision.value.effects[i]) {
        return Err(Forbidden), ts, given;
      }
      if reply.None? {
        reply := decision.value.reply;
      }
      if reply.Some? {
        var queued := EnqueueOutbound(q, Delivery.ReplyKey(q.e), reply.value);
        if queued.Err? {
          return Err(queued.error), ts, given;
        }
      }
      return Ok(AcceptedEvent), ts, given;
    }
  }

  /** The transaction is the step `Ingress` of the whole system, as far as its tables go. */
  ghost predicate Follows(s: Delivery.Sys, s': Delivery.Sys, q: Request, ok: bool, reply: bool) {
    var step := Delivery.Ingress(q.e, q.source, Delivery.Decision(ok, reply, q.deliver), q.o, q.job, q.serKey, q.now);
    && Delivery.Enabled(s, step)
    && s'.events == Delivery.EventsAfter(s, step)
    && s'.box == Delivery.BoxAfter(s, step)
    && forall hash :: s'.queue.jobs == Delivery.QueueAfter(hash, s, step).jobs
  }

  /** The reply's row and job, as the step has them. */
  ghost predicate IsSent(s: Delivery.Sys, s': Delivery.Sys, q: Request, reply: bool) {
    var key := Delivery.ReplyKey(q.e);
    && s'.box == (if reply then Inserted(s.box, key, q.deliver, q.o) else s.box)
    && s'.queue.jobs == (if reply && q.deliver then WQ.WithJob(s.queue.jobs, q.job, JobRequest(s.box, q, key), q.now) else s.queue.jobs)
    && (reply && q.deliver ==> WQ.ValidRequest(JobRequest(s.box, q, key)))
  }

  lemma FollowsStep(s: Delivery.Sys, s': Delivery.Sys, q: Request, r: Result<Outcome, ErrorClass>, reply: bool)
    requires q.o !in s.box.handoffs && q.job !in s.queue.jobs
    requires r == Ok(ModeRejected) ==> q.source != s.mode && q.e !in s.events
    requires r == Ok(DuplicateEvent) ==> q.e in s.events && (q.source != s.mode || s.events[q.e].Accepted?)
    requires r == Ok(AcceptedEvent) || r.Err? ==> q.source == s.mode && !(q.e in s.events && s.events[q.e].Accepted?)
    requires s'.events == (if r == Ok(AcceptedEvent) then s.events[q.e := Delivery.Accepted]
                           else if r == Ok(ModeRejected) then s.events[q.e := Delivery.Rejected] else s.events)
    requires if r == Ok(AcceptedEvent) then IsSent(s, s', q, reply) else s'.box == s.box && s'.queue.jobs == s.queue.jobs
    ensures Follows(s, s', q, r.Ok?, reply)
  {
    if r == Ok(AcceptedEvent) {
      FollowsAccepted(s, s', q, reply);
    } else if r.Ok? {
      assert r.value != AcceptedEvent;
      FollowsUnaccepted(s, s', q, reply);
    } else {
      FollowsError(s, s', q, reply);
    }
  }

  /** An event that is not accepted. */
  lemma FollowsUnaccepted(s: Delivery.Sys, s': Delivery.Sys, q: Request, reply: bool)
    requires q.o !in s.box.handoffs && q.job !in s.queue.jobs && s'.box == s.box && s'.queue.jobs == s.queue.jobs
    requires || (q.source != s.mode && q.e !in s.events && s'.events == s.events[q.e := Delivery.Rejected])
             || (q.e in s.events && (q.source != s.mode || s.events[q.e].Accepted?) && s'.events == s.events)
    ensures Follows(s, s', q, true, reply)
  {
  }

  lemma FollowsAccepted(s: Delivery.Sys, s': Delivery.Sys, q: Request, reply: bool)
    requires q.o !in s.box.handoffs && q.job !in s.queue.jobs && q.source == s.mode && !(q.e in s.events && s.events[q.e].Accepted?)
    requires s'.events == s.events[q.e := Delivery.Accepted] && IsSent(s, s', q, reply)
    ensures Follows(s, s', q, true, reply)
  {
  }

  lemma FollowsError(s: Delivery.Sys, s': Delivery.Sys, q: Request, reply: bool)
    requires q.o !in s.box.handoffs && q.job !in s.queue.jobs && q.source == s.mode
    requires s'.events == s.events && s'.box == s.box && s'.queue.jobs == s.queue.jobs
    ensures Follows(s, s', q, false, reply)
  {
  }
}
