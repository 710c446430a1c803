/** A bus round keeps the invariant of the worker protocol: first the drain, then the broadcast. */
module WorkerProtocolRounds {
  import opened EventBus
  import opened Sequences
  import opened EventBusProperties
  import opened WorkerProtocol
  import opened WorkerProtocolProofs

  // ------------------------------------------------------------------------- the drain

  /** Each consumed event is a good command of the queue it was pulled from. */
  ghost predicate GoodPulls(w: World, ds: seq<Delivery>) {
    forall d :: d in ds ==>
      d.Consumed? && d.event.kind == WORKER_TASK && GoodCommand(w, d.event.payload)
          && d.event.payload.taskType == d.queue
  }

  lemma {:induction false} SubmittedGood(w: World, behave: Behaviour, start: nat, ds: seq<Delivery>)
    requires GoodPulls(w, ds)
    ensures forall c :: c in Submitted(behave, start, ds) ==> GoodCommand(w, c)
    decreases |ds|
  {
    if ds != [] {
      assert ds[0] in ds;
      SubmittedGood(w, behave, start + 1, ds[1..]);
    }
  }

  lemma {:induction false} ImmediateKnown(w: World, behave: Behaviour, start: nat, ds: seq<Delivery>)
    requires GoodPulls(w, ds) && Honest(behave)
    ensures forall t :: t in Immediate(behave, start, ds) ==> t in w.waiters
    decreases |ds|
  {
    if ds != [] {
      assert ds[0] in ds;
      ImmediateKnown(w, behave, start + 1, ds[1..]);
      assert HonestConsumer(behave(start, ds[0]), ds[0].event.payload);
    }
  }

  function PullCount(w: World, ds: seq<Delivery>, t: string): nat
    requires t in w.waiters
  {
    var a := w.waiters[t];
    multiset(PulledFrom(ds, a.queue))[CommandEvent(t, a.queue, a.args)]
  }

  lemma PullCountHead(w: World, ds: seq<Delivery>, t: string)
    requires ds != [] && GoodPulls(w, ds) && t in w.waiters
    ensures PullCount(w, ds, t) == PullCount(w, ds[1..], t) + (if ds[0].event.payload.taskId == t then 1 else 0)
  {
    assert ds[0] in ds;
    var head := if ds[0].queue == w.waiters[t].queue then [ds[0].event] else [];
    assert PulledFrom(ds, w.waiters[t].queue) == head + PulledFrom(ds[1..], w.waiters[t].queue);
  }

  /** What the first delivery contributes to the pool, the results and the pushed ends. */
  lemma PullStep(w: World, behave: Behaviour, start: nat, ds: seq<Delivery>)
    requires ds != [] && GoodPulls(w, ds) && Honest(behave)
    ensures var c := ds[0].event.payload;
            var pushed := behave(start, ds[0]).pushed;
            && c.Command?
            && 1 <= |pushed| <= 2 && pushed[0].kind == WORKER_TASK_STARTED
            && (|pushed| == 2 ==>
                pushed[1].payload.Ended? && pushed[1] == EndedEvent(c.taskId, pushed[1].payload.result))
            && Submitted(behave, start, ds) ==
                 (if |pushed| == 2 then multiset{} else multiset{c}) + Submitted(behave, start + 1, ds[1..])
            && Immediate(behave, start, ds) ==
                 (var rest := Immediate(behave, start + 1, ds[1..]);
                  if |pushed| == 2 then rest[c.taskId := pushed[1].payload.result] else rest)
            && PushedBy(behave, start, ds) == pushed + PushedBy(behave, start + 1, ds[1..])
  {
    assert ds[0] in ds;
    assert HonestConsumer(behave(start, ds[0]), ds[0].event.payload);
  }

  lemma {:induction false} PullTokens(w: World, behave: Behaviour, start: nat, ds: seq<Delivery>, t: string)
    requires GoodPulls(w, ds) && Honest(behave) && t in w.waiters && PullCount(w, ds, t) <= 1
    ensures Submitted(behave, start, ds)[Command(t, w.waiters[t].queue, w.waiters[t].args)]
          + (if t in Immediate(behave, start, ds) then 1 else 0) == PullCount(w, ds, t)
    decreases |ds|
  {
    if ds != [] {
      assert ds[0] in ds;
      PullCountHead(w, ds, t);
      PullStep(w, behave, start, ds);
      PullTokens(w, behave, start + 1, ds[1..], t);
      if ds[0].event.payload.taskId != t {
        assert ds[0].event.payload != Command(t, w.waiters[t].queue, w.waiters[t].args);
      }
    }
  }

  lemma PushedCount(pushed: seq<Event>, e: Event, r: TaskResult, t: string)
    requires 1 <= |pushed| <= 2 && pushed[0].kind == WORKER_TASK_STARTED
    ensures multiset(pushed)[EndedEvent(t, r)] == if |pushed| == 2 && pushed[1] == EndedEvent(t, r) then 1 else 0
  {
    if |pushed| == 2 {
      assert pushed == [pushed[0], pushed[1]];
    } else {
      assert pushed == [pushed[0]];
    }
  }

  /** The drain pushes the end of `t` once if its result was already there, else not at all. */
  lemma {:induction false} PulledEnds(w: World, behave: Behaviour, start: nat, ds: seq<Delivery>, t: string,
      r: TaskResult)
    requires GoodPulls(w, ds) && Honest(behave) && t in w.waiters && PullCount(w, ds, t) <= 1
    ensures multiset(PushedBy(behave, start, ds))[EndedEvent(t, r)]
         == if t in Immediate(behave, start, ds) && Immediate(behave, start, ds)[t] == r then 1 else 0
    decreases |ds|
  {
    if ds != [] {
      assert ds[0] in ds;
      PullCountHead(w, ds, t);
      PullStep(w, behave, start, ds);
      PushedCount(behave(start, ds[0]).pushed, EndedEvent(t, r), r, t);
      PulledEnds(w, behave, start + 1, ds[1..], t, r);
      if ds[0].event.payload.taskId == t {
        PullTokens(w, behave, start + 1, ds[1..], t);
      }
    }
  }

  /** Every end pushed by the drain names a task of the waiters. */
  lemma {:induction false} PulledEndsAreEnds(w: World, behave: Behaviour, start: nat, ds: seq<Delivery>)
    requires GoodPulls(w, ds) && Honest(behave)
    ensures forall e :: e in PushedBy(behave, start, ds) && e.kind == WORKER_TASK_ENDED ==> KnownEnd(w, e)
    decreases |ds|
  {
    if ds != [] {
      assert ds[0] in ds;
      PullStep(w, behave, start, ds);
      FirstEnds(w, behave(start, ds[0]), ds[0].event.payload);
      PulledEndsAreEnds(w, behave, start + 1, ds[1..]);
    }
  }

  /** An end of some task that there is. */
  ghost predicate KnownEnd(w: World, e: Event) {
    var known := e.payload.Ended? && e.payload.taskId in w.waiters
                 && e == EndedEvent(e.payload.taskId, e.payload.result);
    known
  }

  lemma FirstEnds(w: World, x: Reaction, c: Payload)
    requires c.Command? && HonestConsumer(x, c) && c.taskId in w.waiters
    ensures forall e :: e in x.pushed && e.kind == WORKER_TASK_ENDED ==> KnownEnd(w, e)
  {
  }

  /** The world between the drain and the broadcast. */
  function AfterDrain(w: World, behave: Behaviour, pick: Picker, ds: seq<Delivery>): World {
    var (b, log) := Drain(w.bus, w.bus.consumers, w.log, behave, pick);
    w.(bus := b, log := log,
       running := w.running + Submitted(behave, |w.log|, ds),
       computed := w.computed + Immediate(behave, |w.log|, ds))
  }

  /** What the drain hands over, queue by queue, is what left the queue. */
  lemma DrainOrigins(b: Bus, log: seq<Delivery>, behave: Behaviour, pick: Picker, ds: seq<Delivery>)
    requires DistinctQueues(b.consumers)
    requires Drain(b, b.consumers, log, behave, pick).1 == log + ds
    requires forall i :: 0 <= i < |ds| ==> ds[i].Consumed?
    ensures forall q :: PulledFrom(ds, q) + Waiting(Drain(b, b.consumers, log, behave, pick).0, q) == Waiting(b, q)
    ensures forall d :: d in ds ==> d.Consumed? && d.event in Waiting(b, d.queue)
  {
    var b' := Drain(b, b.consumers, log, behave, pick).0;
    forall q ensures PulledFrom(ds, q) + Waiting(b', q) == Waiting(b, q) {
      DrainEmpties(b, b.consumers, log, behave, pick, q);
      PulledFromAppend(log, ds, q);
      Cancel(PulledFrom(log, q), PulledFrom(ds, q) + Waiting(b', q), Waiting(b, q));
      Associative(PulledFrom(log, q), PulledFrom(ds, q), Waiting(b', q));
    }
    forall d | d in ds ensures d.Consumed? && d.event in Waiting(b, d.queue) {
      var i :| 0 <= i < |ds| && ds[i] == d;
      PulledMember(ds, i);
      assert d.event in PulledFrom(ds, d.queue) + Waiting(b', d.queue);
    }
  }

  lemma WaitingArePulls(w: World, ds: seq<Delivery>)
    requires Commands(w) && forall d :: d in ds ==> d.Consumed? && d.event in Waiting(w.bus, d.queue)
    ensures GoodPulls(w, ds)
  {
  }

  lemma DrainFacts(w: World, behave: Behaviour, pick: Picker, ds: seq<Delivery>)
    requires Tables(w) && Commands(w)
    requires Drain(w.bus, w.bus.consumers, w.log, behave, pick).1 == w.log + ds
    requires forall i :: 0 <= i < |ds| ==> ds[i].Consumed?
    ensures GoodPulls(w, ds)
    ensures forall q :: PulledFrom(ds, q) + Waiting(Drain(w.bus, w.bus.consumers, w.log, behave, pick).0, q)
              == Waiting(w.bus, q)
  {
    DrainOrigins(w.bus, w.log, behave, pick, ds);
    WaitingArePulls(w, ds);
  }

  lemma Cancel<T>(a: seq<T>, b: seq<T>, c: seq<T>)
    ensures a + b == a + c ==> b == c
  {
    if a + b == a + c {
      assert b == (a + b)[|a|..] == (a + c)[|a|..] == c;
    }
  }

  lemma DrainCommands(w: World, w': World, behave: Behaviour, pick: Picker, ds: seq<Delivery>)
    requires Commands(w) && GoodPulls(w, ds) && w' == AfterDrain(w, behave, pick, ds)
    requires forall q :: PulledFrom(ds, q) + Waiting(w'.bus, q) == Waiting(w.bus, q)
    ensures Commands(w')
  {
    SubmittedGood(w, behave, |w.log|, ds);
    forall q, e | q in w'.bus.queues && e in w'.bus.queues[q]
      ensures e.kind == WORKER_TASK && GoodCommand(w', e.payload) && e.payload.taskType == q
    {
      assert e in PulledFrom(ds, q) + Waiting(w'.bus, q);
      assert e in Waiting(w.bus, q);
    }
    forall c | c in w'.running ensures GoodCommand(w', c) {
      assert GoodCommand(w, c);
    }
  }

  lemma DrainTokens(w: World, w': World, behave: Behaviour, pick: Picker, ds: seq<Delivery>, t: string)
    requires GoodPulls(w, ds) && Honest(behave) && w' == AfterDrain(w, behave, pick, ds)
    requires forall q :: PulledFrom(ds, q) + Waiting(w'.bus, q) == Waiting(w.bus, q)
    requires t in w.waiters && CommandTokens(w, t) <= 1
    ensures PullCount(w, ds, t) <= 1
    ensures CommandTokens(w', t) == CommandTokens(w, t)
    ensures t in Immediate(behave, |w.log|, ds) ==> t !in w.computed
  {
    var a := w.waiters[t];
    assert multiset(Waiting(w.bus, a.queue))
        == multiset(PulledFrom(ds, a.queue)) + multiset(Waiting(w'.bus, a.queue)) by {
      assert PulledFrom(ds, a.queue) + Waiting(w'.bus, a.queue) == Waiting(w.bus, a.queue);
    }
    PullTokens(w, behave, |w.log|, ds, t);
  }

  lemma DrainEnds(w: World, w': World, behave: Behaviour, pick: Picker, ds: seq<Delivery>, exact: bool)
    requires Inv(w, exact) && GoodPulls(w, ds) && Honest(behave) && w' == AfterDrain(w, behave, pick, ds)
    requires forall q :: PulledFrom(ds, q) + Waiting(w'.bus, q) == Waiting(w.bus, q)
    requires w'.bus.events == w.bus.events + PushedBy(behave, |w.log|, ds)
    ensures Ends(w') && Grows(w, w')
  {
    ImmediateKnown(w, behave, |w.log|, ds);
    var now := Immediate(behave, |w.log|, ds);
    forall t | t in w.waiters ensures PullCount(w, ds, t) <= 1 && (t in now ==> t !in w.computed) {
      assert TaskOK(w, t, exact);
      DrainTokens(w, w', behave, pick, ds, t);
    }
    PulledEndsAreEnds(w, behave, |w.log|, ds);
    forall e | e in PushedBy(behave, |w.log|, ds) ensures GoodEnd(w', e) {
      if e.kind == WORKER_TASK_ENDED {
        PulledEnds(w, behave, |w.log|, ds, e.payload.taskId, e.payload.result);
        assert multiset(PushedBy(behave, |w.log|, ds))[e] > 0;
      }
    }
    EndsFrame(w, w');
  }

  lemma DrainTask(w: World, w': World, behave: Behaviour, pick: Picker, ds: seq<Delivery>, t: string, exact: bool)
    requires Tables(w) && Ends(w) && GoodPulls(w, ds) && Honest(behave) && w' == AfterDrain(w, behave, pick, ds)
    requires forall q :: PulledFrom(ds, q) + Waiting(w'.bus, q) == Waiting(w.bus, q)
    requires w'.bus.events == w.bus.events + PushedBy(behave, |w.log|, ds)
    requires w'.bus.listeners == w.bus.listeners && Grows(w, w')
    requires t in w.waiters && TaskOK(w, t, exact)
    ensures TaskOK(w', t, exact)
  {
    DrainTokens(w, w', behave, pick, ds, t);
    assert Heard(w', t) && RightResult(w', t);
    if t in w'.computed {
      PulledEnds(w, behave, |w.log|, ds, t, w'.computed[t]);
      assert multiset(w'.bus.events)[EndedEvent(t, w'.computed[t])]
          == multiset(w.bus.events)[EndedEvent(t, w'.computed[t])]
             + (if t in Immediate(behave, |w.log|, ds) then 1 else 0);
      if t !in w.computed {
        NoResultBeforeComputed(w, t, w'.computed[t]);
      }
    }
  }

  lemma DrainKeeps(w: World, behave: Behaviour, pick: Picker, exact: bool) returns (ds: seq<Delivery>)
    requires Inv(w, exact) && Honest(behave)
    ensures Drain(w.bus, w.bus.consumers, w.log, behave, pick).1 == w.log + ds
    ensures forall i :: 0 <= i < |ds| ==> ds[i].Consumed?
    ensures Inv(AfterDrain(w, behave, pick, ds), exact)
  {
    ds := DrainPushes(w.bus, w.bus.consumers, w.log, behave, pick);
    DrainKeepsTables(w.bus, w.bus.consumers, w.log, behave, pick);
    DrainFacts(w, behave, pick, ds);
    var w' := AfterDrain(w, behave, pick, ds);
    DrainCommands(w, w', behave, pick, ds);
    DrainEnds(w, w', behave, pick, ds, exact);
    forall t | t in w'.waiters ensures TaskOK(w', t, exact) {
      DrainTask(w, w', behave, pick, ds, t, exact);
    }
  }

  // --------------------------------------------------------------------- the broadcast

  lemma {:induction false} NotifiedSubmitsNothing(behave: Behaviour, start: nat, ds: seq<Delivery>)
    requires forall i :: 0 <= i < |ds| ==> ds[i].Notified?
    ensures Submitted(behave, start, ds) == multiset{} && Immediate(behave, start, ds) == map[]
    decreases |ds|
  {
    if ds != [] {
      NotifiedSubmitsNothing(behave, start + 1, ds[1..]);
    }
  }

  lemma {:induction false} NotifiedEndsNothing(behave: Behaviour, start: nat, ds: seq<Delivery>)
    requires Honest(behave) && forall i :: 0 <= i < |ds| ==> ds[i].Notified?
    ensures forall e :: e in PushedBy(behave, start, ds) ==> e.kind != WORKER_TASK_ENDED
    decreases |ds|
  {
    if ds != [] {
      NotifiedEndsNothing(behave, start + 1, ds[1..]);
    }
  }

  lemma {:induction false} SubmittedAppend(behave: Behaviour, start: nat, a: seq<Delivery>, b: seq<Delivery>)
    requires forall i :: 0 <= i < |b| ==> b[i].Notified?
    ensures Submitted(behave, start, a + b) == Submitted(behave, start, a)
    ensures Immediate(behave, start, a + b) == Immediate(behave, start, a)
    decreases |a|
  {
    if a == [] {
      assert a + b == b;
      NotifiedSubmitsNothing(behave, start, b);
    } else {
      assert (a + b)[1..] == a[1..] + b;
      SubmittedAppend(behave, start + 1, a[1..], b);
    }
  }

  lemma {:induction false} ConsumedGivesNothing(a: seq<Delivery>, b: seq<Delivery>, listener: ListenerId, t: string)
    requires forall i :: 0 <= i < |a| ==> a[i].Consumed?
    ensures ResultsFor(a + b, listener, t) == ResultsFor(b, listener, t)
    decreases |a|
  {
    if a == [] {
      assert a + b == b;
    } else {
      assert (a + b)[1..] == a[1..] + b;
      ConsumedGivesNothing(a[1..], b, listener, t);
    }
  }

  predicate EndsOf(e: Event, t: string) {
    e.kind == WORKER_TASK_ENDED && e.payload.Ended? && e.payload.taskId == t
  }

  /** If every end of `t` carries `v`, the awaiter collects `v` once per end it is handed. */
  lemma {:induction false} ResultsCounted(ds: seq<Delivery>, listener: ListenerId, t: string, v: TaskResult)
    requires forall i :: 0 <= i < |ds| ==> ds[i].Notified?
    requires forall i :: 0 <= i < |ds| ==> EndsOf(ds[i].event, t) ==> ds[i].event == EndedEvent(t, v)
    ensures |ResultsFor(ds, listener, t)| == multiset(ds)[Notified(listener, EndedEvent(t, v))]
    ensures forall r :: r in ResultsFor(ds, listener, t) ==> r == v
    decreases |ds|
  {
    if ds != [] {
      assert ds == [ds[0]] + ds[1..];
      ResultsCounted(ds[1..], listener, t, v);
      OneResult(ds[0], ds[1..], listener, t, v);
    }
  }

  lemma OneResult(d: Delivery, rest: seq<Delivery>, listener: ListenerId, t: string, v: TaskResult)
    requires d.Notified? && (EndsOf(d.event, t) ==> d.event == EndedEvent(t, v))
    ensures ResultsFor([d] + rest, listener, t)
         == (if d == Notified(listener, EndedEvent(t, v)) then [v] else []) + ResultsFor(rest, listener, t)
    ensures var it := Notified(listener, EndedEvent(t, v));
            multiset([d] + rest)[it] == (if d == it then 1 else 0) + multiset(rest)[it]
  {
    assert ([d] + rest)[1..] == rest;
  }

  /** No end of `t` around: nothing to collect. */
  lemma {:induction false} NoResults(ds: seq<Delivery>, listener: ListenerId, t: string)
    requires forall i :: 0 <= i < |ds| ==> !EndsOf(ds[i].event, t)
    ensures ResultsFor(ds, listener, t) == []
    decreases |ds|
  {
    if ds != [] {
      NoResults(ds[1..], listener, t);
    }
  }

  /** The world after the broadcast of a round that drained into `w`. */
  function AfterBroadcast(w: World, r: Round, ds: seq<Delivery>): World {
    w.(bus := r.bus, log := r.log,
       waiters := map t | t in w.waiters ::
         w.waiters[t].(wrapper := w.waiters[t].wrapper + ResultsFor(ds, w.waiters[t].listener, t)))
  }

  /** What the broadcast of a round looks like: the deliveries owed to a prefix of the list. */
  ghost predicate BroadcastOf(w: World, behave: Behaviour, r: Round, j: nat)
    requires Valid(w.bus)
  {
    && Honest(behave)
    && j <= |r.seen| && w.bus.events <= r.seen
    && r.seen == w.bus.events + PushedBy(behave, |w.log|, Fanout(w.bus, r.seen[..j]))
    && r.bus == w.bus.(events := if r.outcome.Finished? then [] else r.seen)
    && (r.outcome.Finished? ==> j == |r.seen|)
  }

  /** The listeners' own events are no ends, so the ends on the list are those that were there. */
  lemma BroadcastSeen(w: World, behave: Behaviour, r: Round, j: nat)
    requires Ends(w) && Valid(w.bus) && BroadcastOf(w, behave, r, j)
    ensures forall e :: e in r.seen ==> GoodEnd(w, e)
    ensures forall e: Event :: e.kind == WORKER_TASK_ENDED ==> multiset(r.seen)[e] == multiset(w.bus.events)[e]
  {
    var ds := Fanout(w.bus, r.seen[..j]);
    FanoutOnlyNotifies(w.bus, r.seen[..j]);
    NotifiedEndsNothing(behave, |w.log|, ds);
    var pushed := PushedBy(behave, |w.log|, ds);
    forall e: Event | e.kind == WORKER_TASK_ENDED
      ensures multiset(r.seen)[e] == multiset(w.bus.events)[e]
    {
      NoCount(pushed, e);
    }
  }

  lemma BroadcastResults(w: World, behave: Behaviour, r: Round, j: nat, t: string)
    requires Ends(w) && Valid(w.bus) && BroadcastOf(w, behave, r, j) && t in w.waiters
    ensures var got := ResultsFor(Fanout(w.bus, r.seen[..j]), w.waiters[t].listener, t);
            && (t !in w.computed ==> got == [])
            && (t in w.computed ==>
                  && (forall x :: x in got ==> x == w.computed[t])
                  && |got| == multiset(r.seen[..j])[EndedEvent(t, w.computed[t])]
                              * Registrations(w.bus, w.waiters[t].listener, WORKER_TASK_ENDED))
  {
    var ds := Fanout(w.bus, r.seen[..j]);
    FanoutOnlyNotifies(w.bus, r.seen[..j]);
    BroadcastSeen(w, behave, r, j);
    forall i | 0 <= i < |ds| ensures GoodEnd(w, ds[i].event) {
      assert ds[i].event in r.seen;
    }
    if t in w.computed {
      ResultsCounted(ds, w.waiters[t].listener, t, w.computed[t]);
      FanoutCount(w.bus, r.seen[..j], w.waiters[t].listener, EndedEvent(t, w.computed[t]));
    } else {
      NoResults(ds, w.waiters[t].listener, t);
    }
  }

  lemma BroadcastRight(w: World, behave: Behaviour, r: Round, j: nat, t: string)
    requires Ends(w) && Valid(w.bus) && BroadcastOf(w, behave, r, j) && t in w.waiters && Heard(w, t)
             && RightResult(w, t)
    ensures var w' := AfterBroadcast(w, r, Fanout(w.bus, r.seen[..j]));
            Heard(w', t) && RightResult(w', t) && CommandTokens(w', t) == CommandTokens(w, t)
  {
    BroadcastResults(w, behave, r, j, t);
  }

  lemma BroadcastTokens(w: World, behave: Behaviour, r: Round, j: nat, t: string)
    requires Ends(w) && Valid(w.bus) && BroadcastOf(w, behave, r, j) && t in w.waiters && t in w.computed
    requires Registrations(w.bus, w.waiters[t].listener, WORKER_TASK_ENDED) == 1
    ensures var w' := AfterBroadcast(w, r, Fanout(w.bus, r.seen[..j]));
            if r.outcome.Finished? then ResultTokens(w', t) == ResultTokens(w, t)
            else ResultTokens(w', t) >= ResultTokens(w, t)
  {
    var e := EndedEvent(t, w.computed[t]);
    BroadcastSeen(w, behave, r, j);
    BroadcastResults(w, behave, r, j, t);
    assert |ResultsFor(Fanout(w.bus, r.seen[..j]), w.waiters[t].listener, t)| == multiset(r.seen[..j])[e];
    if r.outcome.Finished? {
      assert r.seen[..j] == r.seen;
    }
  }

  lemma BroadcastTask(w: World, behave: Behaviour, r: Round, j: nat, t: string, exact: bool)
    requires Ends(w) && Valid(w.bus) && BroadcastOf(w, behave, r, j) && t in w.waiters && TaskOK(w, t, exact)
    ensures TaskOK(AfterBroadcast(w, r, Fanout(w.bus, r.seen[..j])), t, exact && r.outcome.Finished?)
  {
    BroadcastRight(w, behave, r, j, t);
    if t in w.computed && w.waiters[t].pc == Awaiting {
      BroadcastTokens(w, behave, r, j, t);
    }
  }

  lemma BroadcastKeeps(w: World, behave: Behaviour, r: Round, j: nat, exact: bool)
    requires Inv(w, exact) && BroadcastOf(w, behave, r, j)
    ensures Inv(AfterBroadcast(w, r, Fanout(w.bus, r.seen[..j])), exact && r.outcome.Finished?)
  {
    var w' := AfterBroadcast(w, r, Fanout(w.bus, r.seen[..j]));
    BroadcastSeen(w, behave, r, j);
    CommandsFrame(w, w');
    EndsFrame(w, w');
    forall t | t in w'.waiters ensures TaskOK(w', t, exact && r.outcome.Finished?) {
      BroadcastTask(w, behave, r, j, t, exact);
    }
  }

  // ------------------------------------------------------------------- the whole round

  /** A round is a drain into `w1` followed by the broadcast of `w1`'s list up to event `j`. */
  lemma RoundShape(w: World, behave: Behaviour, pick: Picker, fuel: nat, exact: bool)
    returns (w1: World, j: nat)
    requires Inv(w, exact) && Honest(behave)
    ensures Inv(w1, exact)
    ensures w1.waiters == w.waiters && w1.finished == w.finished && w.bus.events <= w1.bus.events
    ensures var r := OnEvents(w.bus, w.log, behave, pick, fuel);
            && BroadcastOf(w1, behave, r, j)
            && AfterRound(w, behave, pick, fuel) == AfterBroadcast(w1, r, Fanout(w1.bus, r.seen[..j]))
    ensures forall t :: t in w.computed ==> t in w1.computed && w1.computed[t] == w.computed[t]
  {
    var pulls := DrainKeeps(w, behave, pick, exact);
    w1 := AfterDrain(w, behave, pick, pulls);
    var r := OnEvents(w.bus, w.log, behave, pick, fuel);
    DrainKeepsTables(w.bus, w.bus.consumers, w.log, behave, pick);
    j := BroadcastExact(w1.bus, 0, w1.log, behave, fuel);
    assert r.seen[0..j] == r.seen[..j];
    RoundIsDrainThenBroadcast(w, behave, pick, fuel, pulls, r, j);
    forall t | t in w.computed ensures t in w1.computed && w1.computed[t] == w.computed[t] {
      RoundFresh(w, behave, pick, pulls, t, exact);
    }
  }

  lemma RoundKeeps(w: World, behave: Behaviour, pick: Picker, fuel: nat, exact: bool)
    requires Inv(w, exact) && Honest(behave)
    ensures Inv(AfterRound(w, behave, pick, fuel),
                exact && OnEvents(w.bus, w.log, behave, pick, fuel).outcome.Finished?)
  {
    var w1, j := RoundShape(w, behave, pick, fuel, exact);
    BroadcastKeeps(w1, behave, OnEvents(w.bus, w.log, behave, pick, fuel), j, exact);
  }

  lemma RoundIsDrainThenBroadcast(w: World, behave: Behaviour, pick: Picker, fuel: nat,
                                  pulls: seq<Delivery>, r: Round, j: nat)
    requires Valid(w.bus) && r == OnEvents(w.bus, w.log, behave, pick, fuel) && j <= |r.seen|
    requires Drain(w.bus, w.bus.consumers, w.log, behave, pick).1 == w.log + pulls
    requires forall i :: 0 <= i < |pulls| ==> pulls[i].Consumed?
    requires Valid(AfterDrain(w, behave, pick, pulls).bus)
    requires r.log == w.log + pulls + Fanout(AfterDrain(w, behave, pick, pulls).bus, r.seen[..j])
    ensures var w1 := AfterDrain(w, behave, pick, pulls);
            AfterRound(w, behave, pick, fuel) == AfterBroadcast(w1, r, Fanout(w1.bus, r.seen[..j]))
  {
    var owed := Fanout(AfterDrain(w, behave, pick, pulls).bus, r.seen[..j]);
    FanoutOnlyNotifies(AfterDrain(w, behave, pick, pulls).bus, r.seen[..j]);
    LogSuffix(w.log, pulls, owed, r.log);
    SubmittedAppend(behave, |w.log|, pulls, owed);
    WrappersFromBroadcast(w, pulls, owed);
  }

  function Collected(w: World, ds: seq<Delivery>): map<string, Waiter> {
    map t | t in w.waiters ::
      w.waiters[t].(wrapper := w.waiters[t].wrapper + ResultsFor(ds, w.waiters[t].listener, t))
  }

  /** Only the broadcast fills wrappers. */
  lemma WrappersFromBroadcast(w: World, pulls: seq<Delivery>, owed: seq<Delivery>)
    requires forall i :: 0 <= i < |pulls| ==> pulls[i].Consumed?
    ensures Collected(w, pulls + owed) == Collected(w, owed)
  {
    forall t | t in w.waiters
      ensures ResultsFor(pulls + owed, w.waiters[t].listener, t) == ResultsFor(owed, w.waiters[t].listener, t)
    {
      ConsumedGivesNothing(pulls, owed, w.waiters[t].listener, t);
    }
  }

  lemma LogSuffix(log: seq<Delivery>, a: seq<Delivery>, b: seq<Delivery>, whole: seq<Delivery>)
    requires whole == log + a + b
    ensures |log| <= |whole| && whole[|log|..] == a + b
  {
  }

  // ------------------------------------------------------------------------ whole runs

  /** `exact` survives a step unless it is a round cut short by a raising listener. */
  ghost predicate Clean(w: World, s: Step) {
    s.BusRound? && Valid(w.bus) ==> OnEvents(w.bus, w.log, s.behave, s.pick, s.fuel).outcome.Finished?
  }

  lemma NextKeeps(w: World, s: Step, exact: bool)
    requires Inv(w, exact) && Enabled(w, s)
    ensures Inv(Next(w, s), exact && Clean(w, s))
  {
    match s {
      case Listen(t, queue, args) => ListenKeeps(w, t, queue, args, exact);
      case Send(t) => SendKeeps(w, t, exact);
      case Take(t) => TakeKeeps(w, t, exact);
      case AddWorker(queue) => AddWorkerKeeps(w, queue, exact);
      case OtherListener(kinds) => OtherListenerKeeps(w, kinds, exact);
      case OtherPush(e) => OtherPushKeeps(w, e, exact);
      case BusRound(behave, pick, fuel) => RoundKeeps(w, behave, pick, fuel, exact);
      case Execute(c, r) => ExecuteKeeps(w, c, r, exact);
      case Publish(e) => PublishKeeps(w, e, exact);
    }
  }

  ghost predicate Steps(w: World, s: Step, w': World) {
    // bound to a name, so that it is proved as one goal and not conjunct by conjunct
    var follows := Valid(w.bus) && Enabled(w, s) && w' == Next(w, s);
    follows
  }

  /** `ws` is a run of the system: it starts empty and each state follows by an enabled step. */
  ghost predicate Run(ws: seq<World>, steps: seq<Step>) {
    && |ws| == |steps| + 1
    && ws[0] == Init
    && forall i {:trigger steps[i]} :: 0 <= i < |steps| ==> Steps(ws[i], steps[i], ws[i + 1])
  }

  ghost predicate CleanRun(ws: seq<World>, steps: seq<Step>)
    requires Run(ws, steps)
  {
    forall i {:trigger steps[i]} :: 0 <= i < |steps| ==> Clean(ws[i], steps[i])
  }

  lemma StepKeeps(w: World, s: Step, w': World, exact: bool)
    requires Inv(w, exact) && Steps(w, s, w') && (exact ==> Clean(w, s))
    ensures Inv(w', exact)
  {
    NextKeeps(w, s, exact);
  }

  lemma RunKeeps(ws: seq<World>, steps: seq<Step>, n: nat)
    requires Run(ws, steps) && n <= |steps|
    ensures Inv(ws[n], CleanRun(ws, steps))
  {
    var exact := CleanRun(ws, steps);
    InitHolds();
    Weaken(Init, exact);
    forall w, s, w' | Inv(w, exact) && Steps(w, s, w') && (exact ==> Clean(w, s)) ensures Inv(w', exact) {
      StepKeeps(w, s, w', exact);
    }
    Invariance(ws, steps, w => Inv(w, exact), (w, s, w') => Steps(w, s, w') && (exact ==> Clean(w, s)), n);
  }

  lemma Weaken(w: World, exact: bool)
    requires Inv(w, true)
    ensures Inv(w, exact)
  {
    forall t | t in w.waiters ensures TaskOK(w, t, exact) {
      assert TaskOK(w, t, true);
    }
  }

  /** In every reachable state every waiting task has exactly one token: its command waits in its
      queue, or runs in a pool, or its result awaits the callback, is on the bus, or is in the
      wrapper.  With rounds cut short by raising listeners the bus may announce a result again,
      so the command token stays unique and there is at least one result token. */
  lemma NothingLost(ws: seq<World>, steps: seq<Step>, n: nat, t: string)
    requires Run(ws, steps) && n <= |steps|
    requires t in ws[n].waiters && ws[n].waiters[t].pc == Awaiting
    ensures var w, a := ws[n], ws[n].waiters[t];
            var waitingOrRunning := multiset(Waiting(w.bus, a.queue))[CommandEvent(t, a.queue, a.args)]
                                  + w.running[Command(t, a.queue, a.args)];
            && (t !in w.computed ==> waitingOrRunning == 1 && ResultTokens(w, t) == 0)
            && (t in w.computed ==> waitingOrRunning == 0 && ResultTokens(w, t) >= 1)
            && (CleanRun(ws, steps) ==> waitingOrRunning + ResultTokens(w, t) == 1)
  {
    RunKeeps(ws, steps, n);
    assert TaskOK(ws[n], t, CleanRun(ws, steps));
  }

  /** A step of the waiter of `t`. */
  predicate StepOf(s: Step, t: string) {
    (s.Listen? || s.Send? || s.Take?) && s.t == t
  }

  lemma TakenResult(w: World, t: string)
    requires Inv(w, false) && t in w.waiters && w.waiters[t].pc.Returned?
    ensures t in w.computed && w.waiters[t].pc.result == w.computed[t]
  {
    assert TaskOK(w, t, false);
  }

  /** The result that step `s` computes for task `t`, if it computes one. */
  ghost function ComputedBy(w: World, s: Step, t: string): seq<TaskResult> {
    match s
    case Execute(c, r) => if c.Command? && c.taskId == t then [r] else []
    case BusRound(behave, pick, fuel) =>
      if !Valid(w.bus) then []
      else
        var log := OnEvents(w.bus, w.log, behave, pick, fuel).log;
        var now := Immediate(behave, |w.log|, if |w.log| <= |log| then log[|w.log|..] else []);
        if t in now then [now[t]] else []
    case _ => []
  }

  /** A round computes exactly the results its drain found already there. */
  lemma RoundDeliveries(w: World, behave: Behaviour, pick: Picker, fuel: nat, pulls: seq<Delivery>)
    requires Valid(w.bus)
    requires Drain(w.bus, w.bus.consumers, w.log, behave, pick).1 == w.log + pulls
    ensures var log := OnEvents(w.bus, w.log, behave, pick, fuel).log;
            |w.log| <= |log| && Immediate(behave, |w.log|, log[|w.log|..]) == Immediate(behave, |w.log|, pulls)
  {
    var r := OnEvents(w.bus, w.log, behave, pick, fuel);
    var b1 := Drain(w.bus, w.bus.consumers, w.log, behave, pick).0;
    DrainKeepsTables(w.bus, w.bus.consumers, w.log, behave, pick);
    var j := BroadcastExact(b1, 0, w.log + pulls, behave, fuel);
    var owed := Fanout(b1, r.seen[0..j]);
    FanoutOnlyNotifies(b1, r.seen[0..j]);
    Associative(w.log, pulls, owed);
    assert r.log[|w.log|..] == pulls + owed;
    SubmittedAppend(behave, |w.log|, pulls, owed);
  }

  lemma RoundFresh(w: World, behave: Behaviour, pick: Picker, pulls: seq<Delivery>, t: string, exact: bool)
    requires Inv(w, exact) && Honest(behave)
    requires Drain(w.bus, w.bus.consumers, w.log, behave, pick).1 == w.log + pulls
    requires forall i :: 0 <= i < |pulls| ==> pulls[i].Consumed?
    ensures t in Immediate(behave, |w.log|, pulls) ==> t !in w.computed
  {
    DrainFacts(w, behave, pick, pulls);
    ImmediateKnown(w, behave, |w.log|, pulls);
    if t in w.waiters {
      assert TaskOK(w, t, exact);
      DrainTokens(w, AfterDrain(w, behave, pick, pulls), behave, pick, pulls, t);
    }
  }

  /** `now` is what a step computes for `t`, `before` and `after` the history around it. */
  ghost predicate ComputesFresh(before: map<string, TaskResult>, after: map<string, TaskResult>, t: string,
      now: seq<TaskResult>) {
    && (now != [] ==> t !in before && t in after && now == [after[t]])
    && (now == [] ==> (t in after <==> t in before))
    && (t in before ==> t in after && after[t] == before[t])
  }

  lemma RoundComputes(w: World, behave: Behaviour, pick: Picker, fuel: nat, t: string, exact: bool)
    requires Inv(w, exact) && Honest(behave)
    ensures ComputesFresh(w.computed, AfterRound(w, behave, pick, fuel).computed, t,
              ComputedBy(w, BusRound(behave, pick, fuel), t))
  {
    var pulls := DrainKeeps(w, behave, pick, exact);
    RoundFresh(w, behave, pick, pulls, t, exact);
    RoundDeliveries(w, behave, pick, fuel, pulls);
  }

  lemma ExecuteComputes(w: World, c: Payload, r: TaskResult, t: string, exact: bool)
    requires Inv(w, exact) && c in w.running && c.Command?
    ensures ComputesFresh(w.computed, AfterExecute(w, c, r).computed, t, if c.taskId == t then [r] else [])
  {
    RunningNotComputed(w, c, exact);
  }

  lemma ComputedStep(w: World, s: Step, w': World, t: string, exact: bool)
    requires Inv(w, exact) && Steps(w, s, w')
    ensures ComputesFresh(w.computed, w'.computed, t, ComputedBy(w, s, t))
  {
    match s {
      case Execute(c, r) => ExecuteComputes(w, c, r, t, exact);
      case BusRound(behave, pick, fuel) => RoundComputes(w, behave, pick, fuel, t, exact);
      case _ => assert w'.computed == w.computed;
    }
  }

  lemma RunComputes(ws: seq<World>, steps: seq<Step>, i: nat, t: string)
    requires Run(ws, steps) && i < |steps|
    ensures ComputesFresh(ws[i].computed, ws[i + 1].computed, t, ComputedBy(ws[i], steps[i], t))
    ensures steps[i].Execute? && steps[i].c.taskId == t ==>
              t in ws[i].waiters && steps[i].c == Command(t, ws[i].waiters[t].queue, ws[i].waiters[t].args)
  {
    RunKeeps(ws, steps, i);
    assert Steps(ws[i], steps[i], ws[i + 1]);
    ComputedStep(ws[i], steps[i], ws[i + 1], t, CleanRun(ws, steps));
    if steps[i].Execute? {
      RunningNotComputed(ws[i], steps[i].c, CleanRun(ws, steps));
    }
  }

  /** A history of computed results grows by one fresh result at a time, `nows[i]` at turn `i`. */
  ghost predicate History(maps: seq<map<string, TaskResult>>, nows: seq<seq<TaskResult>>, t: string) {
    && |maps| == |nows| + 1
    && t !in maps[0]
    && forall i :: 0 <= i < |nows| ==> ComputesFresh(maps[i], maps[i + 1], t, nows[i])
  }

  lemma {:induction false} NeverInHistory(maps: seq<map<string, TaskResult>>, nows: seq<seq<TaskResult>>, n: nat,
      t: string)
    requires History(maps, nows, t) && n <= |nows| && t !in maps[n]
    ensures forall k :: 0 <= k < n ==> nows[k] == []
    decreases n
  {
    if n > 0 {
      assert ComputesFresh(maps[n - 1], maps[n - 1 + 1], t, nows[n - 1]);
      NeverInHistory(maps, nows, n - 1, t);
    }
  }

  lemma {:induction false} OnceInHistory(maps: seq<map<string, TaskResult>>, nows: seq<seq<TaskResult>>, n: nat,
      t: string)
    returns (i: nat)
    requires History(maps, nows, t) && n <= |nows| && t in maps[n]
    ensures i < n && nows[i] == [maps[n][t]]
    ensures forall k :: 0 <= k < n && k != i ==> nows[k] == []
    decreases n
  {
    assert ComputesFresh(maps[n - 1], maps[n - 1 + 1], t, nows[n - 1]);
    if t in maps[n - 1] {
      i := OnceInHistory(maps, nows, n - 1, t);
    } else {
      i := n - 1;
      NeverInHistory(maps, nows, n - 1, t);
    }
  }

  /** A result is computed by exactly one step of the run, and it never changes afterwards. */
  lemma ComputedOnce(ws: seq<World>, steps: seq<Step>, n: nat, t: string) returns (i: nat)
    requires Run(ws, steps) && n <= |steps| && t in ws[n].computed
    ensures i < n && ComputedBy(ws[i], steps[i], t) == [ws[n].computed[t]]
    ensures forall k :: 0 <= k < n && k != i ==> ComputedBy(ws[k], steps[k], t) == []
  {
    var maps := seq(|ws|, k requires 0 <= k < |ws| => ws[k].computed);
    var nows := seq(|steps|, k requires 0 <= k < |steps| => ComputedBy(ws[k], steps[k], t));
    forall k | 0 <= k < |nows| ensures ComputesFresh(maps[k], maps[k + 1], t, nows[k]) {
      RunComputes(ws, steps, k, t);
    }
    i := OnceInHistory(maps, nows, n, t);
    assert nows[i] == ComputedBy(ws[i], steps[i], t);
    forall k | 0 <= k < n && k != i ensures ComputedBy(ws[k], steps[k], t) == [] {
      assert nows[k] == ComputedBy(ws[k], steps[k], t);
    }
  }

  /** Whatever a waiter returns is the one result computed for its own command, even when
      listeners raised along the way. */
  lemma NothingSwapped(ws: seq<World>, steps: seq<Step>, n: nat, t: string) returns (i: nat)
    requires Run(ws, steps) && n <= |steps|
    requires t in ws[n].waiters && ws[n].waiters[t].pc.Returned?
    ensures i < n && ComputedBy(ws[i], steps[i], t) == [ws[n].waiters[t].pc.result]
    ensures forall k :: 0 <= k < n && k != i ==> ComputedBy(ws[k], steps[k], t) == []
    ensures steps[i].Execute? ==>
              t in ws[i].waiters && steps[i].c == Command(t, ws[i].waiters[t].queue, ws[i].waiters[t].args)
  {
    RunKeeps(ws, steps, n);
    assert TaskOK(ws[n], t, CleanRun(ws, steps));
    i := ComputedOnce(ws, steps, n, t);
    RunComputes(ws, steps, i, t);
  }
}
