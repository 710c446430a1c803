/** Why a bus round must be atomic, and that a waiting task can always be brought to its end. */
module WorkerProtocolLiveness {
  import opened Options
  import opened EventBus
  import opened Sequences
  import opened EventBusProperties
  import opened WorkerProtocol
  import opened WorkerProtocolProofs
  import opened WorkerProtocolRounds

  // ------------------------------------------------------- a round that is not atomic

  /** Task `t` waits although nothing that could end its wait exists any more. */
  ghost predicate Lost(w: World, t: string) {
    && Valid(w.bus) && DistinctQueues(w.bus.consumers)
    && t in w.waiters && w.waiters[t].pc == Awaiting && w.waiters[t].wrapper == []
    && (forall q, e :: q in w.bus.queues && e in w.bus.queues[q] ==> e.payload.Command? && e.payload.taskId != t)
    && (forall c :: c in w.running ==> c.Command? && c.taskId != t)
    && (forall e :: e in w.bus.events ==> !EndsOf(e, t))
    && (forall e :: e in w.finished ==> !EndsOf(e, t))
  }

  /** A round in which a done-callback pushes `late` after the broadcast loop has ended and before
      `clear_events` runs. */
  function SplitRound(w: World, behave: Behaviour, pick: Picker, fuel: nat, late: Event): World
    requires Valid(w.bus)
  {
    var looped := AfterRound(w, behave, pick, fuel).(bus := OnEvents(w.bus, w.log, behave, pick, fuel).bus.(
      events := OnEvents(w.bus, w.log, behave, pick, fuel).seen));
    var pushed := AfterPublish(looped, late);
    pushed.(bus := pushed.bus.(events := []))
  }

  /** An exact state in which the computed result of `t` still awaits its callback. */
  ghost predicate AwaitsCallback(w: World, t: string) {
    && Inv(w, true)
    && t in w.waiters && w.waiters[t].pc == Awaiting && t in w.computed
    && EndedEvent(t, w.computed[t]) in w.finished
  }

  lemma RoundLeavesCallback(w: World, t: string, behave: Behaviour, pick: Picker, fuel: nat)
    requires AwaitsCallback(w, t) && Enabled(w, BusRound(behave, pick, fuel)) && Clean(w, BusRound(behave, pick, fuel))
    ensures var w' := AfterRound(w, behave, pick, fuel);
            AwaitsCallback(w', t) && w'.computed[t] == w.computed[t] && w'.bus.events == []
  {
    RoundKeeps(w, behave, pick, fuel, true);
    var w1, j := RoundShape(w, behave, pick, fuel, true);
  }

  lemma DroppedIsLost(w: World, w': World, t: string)
    requires AwaitsCallback(w, t)
    requires w' == w.(finished := w.finished - multiset{EndedEvent(t, w.computed[t])}, bus := w.bus.(events := []))
    ensures Lost(w', t)
  {
    var late := EndedEvent(t, w.computed[t]);
    assert TaskOK(w, t, true);
    assert w.finished[late] == 1 && |w.waiters[t].wrapper| == 0;
    LostCommands(w, t);
    forall e | e in w'.finished ensures !EndsOf(e, t) {
      assert e in w.finished && GoodEnd(w, e);
    }
  }

  /** The split drops the result: the task it belongs to is lost. */
  lemma SplitRoundLosesResult(w: World, t: string, behave: Behaviour, pick: Picker, fuel: nat)
    requires AwaitsCallback(w, t) && Enabled(w, BusRound(behave, pick, fuel)) && Clean(w, BusRound(behave, pick, fuel))
    ensures Lost(SplitRound(w, behave, pick, fuel, EndedEvent(t, w.computed[t])), t)
  {
    RoundLeavesCallback(w, t, behave, pick, fuel);
    var late := EndedEvent(t, w.computed[t]);
    DroppedIsLost(AfterRound(w, behave, pick, fuel), SplitRound(w, behave, pick, fuel, late), t);
  }

  /** Once its result is computed, no command of `t` is left anywhere. */
  lemma LostCommands(w: World, t: string)
    requires Commands(w) && t in w.waiters && t in w.computed && CommandTokens(w, t) == 1
    ensures forall q, e :: q in w.bus.queues && e in w.bus.queues[q] ==> e.payload.Command? && e.payload.taskId != t
    ensures forall c :: c in w.running ==> c.Command? && c.taskId != t
  {
    assert CommandEvent(t, w.waiters[t].queue, w.waiters[t].args) !in Waiting(w.bus, w.waiters[t].queue);
    forall q, e | q in w.bus.queues && e in w.bus.queues[q] ensures e.payload.Command? && e.payload.taskId != t {
      assert GoodCommand(w, e.payload);
    }
  }

  lemma {:induction false} PulledWithout(behave: Behaviour, start: nat, ds: seq<Delivery>, t: string)
    requires Honest(behave)
    requires forall i :: 0 <= i < |ds| ==>
             ds[i].Consumed? && ds[i].event.payload.Command? && ds[i].event.payload.taskId != t
    ensures forall c :: c in Submitted(behave, start, ds) ==> c.Command? && c.taskId != t
    ensures forall e :: e in PushedBy(behave, start, ds) ==> !EndsOf(e, t)
    decreases |ds|
  {
    if ds != [] {
      assert HonestConsumer(behave(start, ds[0]), ds[0].event.payload);
      PulledWithout(behave, start + 1, ds[1..], t);
    }
  }

  lemma LostRound(w: World, behave: Behaviour, pick: Picker, fuel: nat, t: string)
    requires Lost(w, t) && Honest(behave)
    ensures Lost(AfterRound(w, behave, pick, fuel), t)
  {
    var w' := AfterRound(w, behave, pick, fuel);
    var pulls := DrainPushes(w.bus, w.bus.consumers, w.log, behave, pick);
    DrainKeepsTables(w.bus, w.bus.consumers, w.log, behave, pick);
    DrainOrigins(w.bus, w.log, behave, pick, pulls);
    forall i | 0 <= i < |pulls| ensures pulls[i].event.payload.Command? && pulls[i].event.payload.taskId != t {
      assert pulls[i] in pulls;
    }
    PulledWithout(behave, |w.log|, pulls, t);
    var b1 := Drain(w.bus, w.bus.consumers, w.log, behave, pick).0;
    var r := OnEvents(w.bus, w.log, behave, pick, fuel);
    var j := BroadcastExact(b1, 0, w.log + pulls, behave, fuel);
    var owed := Fanout(b1, r.seen[0..j]);
    FanoutOnlyNotifies(b1, r.seen[0..j]);
    NotifiedEndsNothing(behave, |w.log + pulls|, owed);
    LostDeliveries(w, behave, pulls, owed, r, t);
    forall q, e | q in w'.bus.queues && e in w'.bus.queues[q] ensures e.payload.Command? && e.payload.taskId != t {
      assert e in PulledFrom(pulls, q) + Waiting(b1, q);
      assert e in Waiting(w.bus, q);
    }
  }

  lemma LostDeliveries(w: World, behave: Behaviour, pulls: seq<Delivery>, owed: seq<Delivery>, r: Round, t: string)
    requires t in w.waiters && w.waiters[t].wrapper == []
    requires r.log == w.log + pulls + owed
    requires forall i :: 0 <= i < |pulls| ==> pulls[i].Consumed?
    requires forall i :: 0 <= i < |owed| ==> owed[i].Notified? && owed[i].event in r.seen
    requires forall e :: e in r.seen ==> !EndsOf(e, t)
    ensures |w.log| <= |r.log|
    ensures ResultsFor(r.log[|w.log|..], w.waiters[t].listener, t) == []
    ensures Submitted(behave, |w.log|, r.log[|w.log|..]) == Submitted(behave, |w.log|, pulls)
  {
    assert r.log[|w.log|..] == pulls + owed;
    SubmittedAppend(behave, |w.log|, pulls, owed);
    ConsumedGivesNothing(pulls, owed, w.waiters[t].listener, t);
    NoResults(owed, w.waiters[t].listener, t);
  }

  lemma LostListener(w: World, id: ListenerId, kinds: seq<EventType>, t: string)
    requires Lost(w, t)
    ensures Lost(w.(bus := AddListeners(w.bus, id, kinds), nextId := w.nextId + 1), t)
  {
    AddListenersKeeps(w.bus, id, kinds);
  }

  lemma LostListen(w: World, u: string, queue: string, args: string, t: string)
    requires Lost(w, t) && u !in w.waiters
    ensures Lost(AfterListen(w, u, queue, args), t)
  {
    LostListener(w, w.nextId, [WORKER_TASK_ENDED], t);
  }

  lemma LostSend(w: World, u: string, t: string)
    requires Lost(w, t) && u in w.waiters && w.waiters[u].pc == Listening
    ensures Lost(AfterSend(w, u), t)
  {
  }

  lemma LostTake(w: World, u: string, t: string)
    requires Lost(w, t) && u in w.waiters && w.waiters[u].wrapper != []
    ensures Lost(AfterTake(w, u), t)
  {
  }

  lemma LostAddWorker(w: World, queue: string, t: string)
    requires Lost(w, t)
    ensures Lost(AfterAddWorker(w, queue), t)
  {
    AddToDistinct(w.bus.consumers, queue, w.nextId);
  }

  lemma LostExecute(w: World, c: Payload, r: TaskResult, t: string)
    requires Lost(w, t) && c in w.running && c.Command?
    ensures Lost(AfterExecute(w, c, r), t)
  {
  }

  lemma LostPush(w: World, e: Event, t: string)
    requires Lost(w, t) && !EndsOf(e, t)
    ensures Lost(AfterOtherPush(w, e), t) && Lost(AfterPublish(w, e), t)
  {
  }

  lemma LostStep(w: World, s: Step, t: string)
    requires Lost(w, t) && Enabled(w, s)
    ensures Lost(Next(w, s), t)
  {
    match s {
      case Listen(u, queue, args) => LostListen(w, u, queue, args, t);
      case Send(u) => LostSend(w, u, t);
      case Take(u) => LostTake(w, u, t);
      case AddWorker(queue) => LostAddWorker(w, queue, t);
      case OtherListener(kinds) => LostListener(w, w.nextId, KindsOrAny(kinds), t);
      case OtherPush(e) => LostPush(w, e, t);
      case BusRound(behave, pick, fuel) => LostRound(w, behave, pick, fuel, t);
      case Execute(c, r) => LostExecute(w, c, r, t);
      case Publish(e) => LostPush(w, e, t);
    }
  }

  /** A continuation of the system from an arbitrary state. */
  ghost predicate Continues(ws: seq<World>, steps: seq<Step>) {
    && |ws| == |steps| + 1
    && forall i {:trigger steps[i]} :: 0 <= i < |steps| ==> Steps(ws[i], steps[i], ws[i + 1])
  }

  /** A lost task never returns, whatever happens afterwards. */
  lemma {:induction false} LostForever(ws: seq<World>, steps: seq<Step>, n: nat, t: string)
    requires Continues(ws, steps) && n <= |steps| && Lost(ws[0], t)
    ensures Lost(ws[n], t) && !ws[n].waiters[t].pc.Returned?
    decreases n
  {
    if n > 0 {
      LostForever(ws, steps, n - 1, t);
      assert Steps(ws[n - 1], steps[n - 1], ws[n - 1 + 1]);
      LostStep(ws[n - 1], steps[n - 1], t);
    }
  }

  // ------------------------------------------------------------------- no dead ends

  /** Workers that never finish early and listeners that do nothing. */
  function Quiet(n: nat, d: Delivery): Reaction {
    Reaction(if d.Consumed? then [Event(WORKER_TASK_STARTED, d.event.payload)] else [], false)
  }

  lemma {:induction false} QuietListeners(start: nat, ds: seq<Delivery>)
    requires forall i :: 0 <= i < |ds| ==> ds[i].Notified?
    ensures PushedBy(Quiet, start, ds) == [] && !AnyRaises(Quiet, start, ds)
    decreases |ds|
  {
    if ds != [] {
      QuietListeners(start + 1, ds[1..]);
    }
  }

  lemma {:induction false} QuietFinishes(b: Bus, i: nat, log: seq<Delivery>, fuel: nat)
    requires Valid(b) && i <= |b.events| <= i + fuel
    ensures Broadcast(b, i, log, Quiet, fuel).outcome.Finished?
    decreases fuel
  {
    if i < |b.events| {
      var ds := NotifyAll(Recipients(b, b.events[i]), b.events[i]);
      QuietListeners(|log|, ds);
      QuietFinishes(b.(events := b.events + PushedBy(Quiet, |log|, ds)), i + 1, log + ds, fuel - 1);
    }
  }

  /** A round that ends normally, from any state. */
  function QuietRound(w: World): Step {
    BusRound(Quiet, n => 0, |Drain(w.bus, w.bus.consumers, w.log, Quiet, n => 0).0.events|)
  }

  lemma QuietIsHonest()
    ensures Honest(Quiet)
  {
  }

  lemma QuietRoundFinishes(w: World)
    requires Valid(w.bus)
    ensures var s := QuietRound(w); OnEvents(w.bus, w.log, s.behave, s.pick, s.fuel).outcome.Finished?
  {
    var s := QuietRound(w);
    DrainKeepsTables(w.bus, w.bus.consumers, w.log, s.behave, s.pick);
    var (b, log) := Drain(w.bus, w.bus.consumers, w.log, s.behave, s.pick);
    QuietFinishes(b, 0, log, s.fuel);
  }

  lemma RoundSteps(w: World, behave: Behaviour, pick: Picker, fuel: nat)
    requires Valid(w.bus) && Honest(behave) && OnEvents(w.bus, w.log, behave, pick, fuel).outcome.Finished?
    ensures var s := BusRound(behave, pick, fuel); Steps(w, s, AfterRound(w, behave, pick, fuel)) && Clean(w, s)
  {
  }

  lemma QuietRoundSteps(w: World)
    requires Valid(w.bus)
    ensures var s := QuietRound(w); Steps(w, s, AfterRound(w, s.behave, s.pick, s.fuel)) && Clean(w, s)
  {
    var s := QuietRound(w);
    QuietIsHonest();
    QuietRoundFinishes(w);
    RoundSteps(w, s.behave, s.pick, s.fuel);
  }

  lemma {:induction false} QuietComputesNothing(start: nat, ds: seq<Delivery>)
    ensures Immediate(Quiet, start, ds) == map[]
    decreases |ds|
  {
    if ds != [] {
      QuietComputesNothing(start + 1, ds[1..]);
    }
  }

  lemma QuietKeepsComputed(w: World)
    requires Valid(w.bus)
    ensures var s := QuietRound(w);
            AfterRound(w, s.behave, s.pick, s.fuel).computed == w.computed
  {
    var s := QuietRound(w);
    var log := OnEvents(w.bus, w.log, s.behave, s.pick, s.fuel).log;
    QuietComputesNothing(|w.log|, if |w.log| <= |log| then log[|w.log|..] else []);
  }

  /** How far `t` still is from its result. */
  ghost function Stage(w: World, t: string): nat
    requires t in w.waiters
  {
    if w.waiters[t].wrapper != [] then 0
    else if t in w.computed && EndedEvent(t, w.computed[t]) in w.bus.events then 1
    else if t in w.computed then 2
    else if Command(t, w.waiters[t].queue, w.waiters[t].args) in w.running then 3
    else 4
  }

  /** `t` waits, and its command has been pulled or some worker listens to its queue. */
  ghost predicate CanBeServed(w: World, t: string) {
    && t in w.waiters && w.waiters[t].pc == Awaiting
    && (Stage(w, t) == 4 ==> ConsumersOf(w.bus.consumers, w.waiters[t].queue) != [])
  }

  /** `s` leads from `w` to `w'`, where `t` is strictly closer to its result. */
  ghost predicate Advances(w: World, s: Step, w': World, t: string)
    requires t in w.waiters
  {
    // bound to a name, so that it is proved as one goal and not conjunct by conjunct
    var all := Steps(w, s, w') && Clean(w, s) && CanBeServed(w', t) && Stage(w', t) < Stage(w, t);
    all
  }

  lemma PulledStage(w: World, t: string, exact: bool)
    requires Inv(w, exact) && t in w.waiters && w.waiters[t].pc == Awaiting && Waiting(w.bus, w.waiters[t].queue) == []
    ensures CanBeServed(w, t) && Stage(w, t) < 4
  {
    assert TaskOK(w, t, exact);
  }

  lemma RoundPulls(w: World, behave: Behaviour, pick: Picker, fuel: nat, queue: string)
    requires Valid(w.bus) && DistinctQueues(w.bus.consumers) && ConsumersOf(w.bus.consumers, queue) != []
    ensures Waiting(AfterRound(w, behave, pick, fuel).bus, queue) == []
  {
    RoundPerQueue(State(w.bus, w.log), behave, pick, fuel, queue);
  }

  lemma AdvancePulled(w: World, t: string, exact: bool) returns (w': World)
    requires Inv(w, exact) && CanBeServed(w, t) && Stage(w, t) == 4
    ensures Advances(w, QuietRound(w), w', t)
    ensures w'.computed == w.computed
  {
    var s := QuietRound(w);
    QuietIsHonest();
    QuietRoundFinishes(w);
    QuietRoundSteps(w);
    w' := AfterRound(w, s.behave, s.pick, s.fuel);
    RoundKeeps(w, s.behave, s.pick, s.fuel, exact);
    RoundPulls(w, s.behave, s.pick, s.fuel, w.waiters[t].queue);
    PulledStage(w', t, exact);
    QuietKeepsComputed(w);
  }

  lemma ExecuteSteps(w: World, c: Payload, r: TaskResult)
    requires Valid(w.bus) && c in w.running && c.Command?
    ensures Steps(w, Execute(c, r), AfterExecute(w, c, r))
  {
  }

  lemma AdvanceRunning(w: World, t: string, c: Payload, r: TaskResult) returns (w': World)
    requires Valid(w.bus) && CanBeServed(w, t) && Stage(w, t) == 3
    requires c == Command(t, w.waiters[t].queue, w.waiters[t].args)
    ensures Advances(w, Execute(c, r), w', t)
  {
    w' := AfterExecute(w, c, r);
    ExecuteSteps(w, c, r);
    assert t in w'.computed && w'.waiters == w.waiters;
    assert Stage(w', t) <= 2;
  }

  lemma AdvanceFinished(w: World, t: string, e: Event, exact: bool) returns (w': World)
    requires Valid(w.bus) && CanBeServed(w, t) && TaskOK(w, t, exact) && Stage(w, t) == 2
    requires e == EndedEvent(t, w.computed[t])
    ensures Advances(w, Publish(e), w', t)
  {
    assert w.finished[e] >= 1;
    w' := AfterPublish(w, e);
    assert e in w'.bus.events;
    assert Stage(w', t) <= 1;
  }

  lemma ResultsArrive(w: World, behave: Behaviour, r: Round, j: nat, t: string, e: Event)
    requires Ends(w) && Valid(w.bus) && BroadcastOf(w, behave, r, j)
    requires t in w.waiters && Registrations(w.bus, w.waiters[t].listener, WORKER_TASK_ENDED) == 1
    requires t in w.computed && e == EndedEvent(t, w.computed[t]) && e in r.seen[..j]
    ensures ResultsFor(Fanout(w.bus, r.seen[..j]), w.waiters[t].listener, t) != []
  {
    BroadcastResults(w, behave, r, j, t);
  }

  /** The broadcast of a finished round brings an announced result into the wrapper. */
  lemma BroadcastDelivers(w: World, behave: Behaviour, r: Round, j: nat, t: string, e: Event)
    requires Ends(w) && Valid(w.bus) && BroadcastOf(w, behave, r, j) && r.outcome.Finished?
    requires t in w.waiters && w.waiters[t].pc == Awaiting && Heard(w, t)
    requires t in w.computed && e == EndedEvent(t, w.computed[t]) && e in w.bus.events
    ensures AfterBroadcast(w, r, Fanout(w.bus, r.seen[..j])).waiters[t].wrapper != []
  {
    assert r.seen[..j] == r.seen;
    assert e in r.seen;
    ResultsArrive(w, behave, r, j, t, e);
  }

  lemma RoundDelivers(w: World, behave: Behaviour, pick: Picker, fuel: nat, t: string, e: Event, exact: bool)
    requires Inv(w, exact) && Honest(behave) && OnEvents(w.bus, w.log, behave, pick, fuel).outcome.Finished?
    requires t in w.waiters && w.waiters[t].pc == Awaiting
    requires t in w.computed && e == EndedEvent(t, w.computed[t]) && e in w.bus.events
    ensures AfterRound(w, behave, pick, fuel).waiters[t].wrapper != []
  {
    var w1, j := RoundShape(w, behave, pick, fuel, exact);
    assert TaskOK(w1, t, exact);
    BroadcastDelivers(w1, behave, OnEvents(w.bus, w.log, behave, pick, fuel), j, t, e);
  }

  lemma DeliveredStage(w: World, w': World, t: string)
    requires t in w.waiters && w.waiters[t].pc == Awaiting && t in w'.waiters && w'.waiters[t].pc == Awaiting
    requires w'.waiters[t].wrapper != []
    ensures CanBeServed(w', t) && Stage(w', t) == 0
  {
  }

  lemma AdvanceAnnounced(w: World, t: string, exact: bool) returns (w': World)
    requires Inv(w, exact) && CanBeServed(w, t) && Stage(w, t) == 1
    ensures Advances(w, QuietRound(w), w', t)
  {
    var s := QuietRound(w);
    QuietIsHonest();
    QuietRoundFinishes(w);
    QuietRoundSteps(w);
    w' := AfterRound(w, s.behave, s.pick, s.fuel);
    RoundDelivers(w, s.behave, s.pick, s.fuel, t, EndedEvent(t, w.computed[t]), exact);
    DeliveredStage(w, w', t);
  }

  lemma Advance(w: World, t: string, exact: bool) returns (s: Step, w': World)
    requires Inv(w, exact) && CanBeServed(w, t) && Stage(w, t) > 0
    ensures Advances(w, s, w', t)
  {
    assert TaskOK(w, t, exact);
    if Stage(w, t) == 4 {
      w' := AdvancePulled(w, t, exact);
      s := QuietRound(w);
    } else if Stage(w, t) == 3 {
      var c, r := Command(t, w.waiters[t].queue, w.waiters[t].args), TaskResult(true, "", None);
      w' := AdvanceRunning(w, t, c, r);
      s := Execute(c, r);
    } else if Stage(w, t) == 2 {
      var e := EndedEvent(t, w.computed[t]);
      w' := AdvanceFinished(w, t, e, exact);
      s := Publish(e);
    } else {
      w' := AdvanceAnnounced(w, t, exact);
      s := QuietRound(w);
    }
  }

  lemma ContinuesCons(w: World, s: Step, ws: seq<World>, steps: seq<Step>)
    requires Continues(ws, steps) && Steps(w, s, ws[0])
    ensures Continues([w] + ws, [s] + steps)
  {
    RunCons(w, s, ws, steps, (a, b, c) => Steps(a, b, c));
  }

  lemma CanTake(w: World, t: string, exact: bool)
    requires Inv(w, exact) && CanBeServed(w, t) && Stage(w, t) == 0
    ensures Steps(w, Take(t), AfterTake(w, t)) && AfterTake(w, t).waiters[t].pc.Returned?
  {
  }

  lemma TakeReturns(w: World, t: string, exact: bool) returns (ws: seq<World>, steps: seq<Step>)
    requires Inv(w, exact) && CanBeServed(w, t) && Stage(w, t) == 0
    ensures Continues(ws, steps) && ws[0] == w && |steps| == 1
    ensures t in ws[1].waiters && ws[1].waiters[t].pc.Returned?
  {
    CanTake(w, t, exact);
    ws, steps := [w, AfterTake(w, t)], [Take(t)];
  }

  lemma AdvanceKeeps(w: World, s: Step, w': World, t: string, exact: bool)
    requires Inv(w, exact) && t in w.waiters && Advances(w, s, w', t)
    ensures Steps(w, s, w') && Inv(w', exact && Clean(w, s)) && CanBeServed(w', t) && Stage(w', t) < Stage(w, t)
  {
    NextKeeps(w, s, exact);
  }

  /** From every reachable state a waiting task whose queue has a worker, or whose command has
      already been pulled, can be brought to its end in at most five steps. */
  lemma {:induction false} CanReturn(w: World, t: string, exact: bool) returns (ws: seq<World>, steps: seq<Step>)
    requires Inv(w, exact) && CanBeServed(w, t)
    ensures Continues(ws, steps) && ws[0] == w && |steps| <= Stage(w, t) + 1
    ensures t in ws[|steps|].waiters && ws[|steps|].waiters[t].pc.Returned?
    decreases Stage(w, t)
  {
    if Stage(w, t) == 0 {
      ws, steps := TakeReturns(w, t, exact);
    } else {
      var s, w' := Advance(w, t, exact);
      AdvanceKeeps(w, s, w', t, exact);
      var rest, more := CanReturn(w', t, exact && Clean(w, s));
      ContinuesCons(w, s, rest, more);
      ws, steps := [w] + rest, [s] + more;
      assert ws[|steps|] == rest[|more|];
    }
  }

  lemma RunOnward(ws: seq<World>, steps: seq<Step>, s: Step, w: World)
    requires Run(ws, steps) && Steps(ws[|steps|], s, w)
    ensures Run(ws + [w], steps + [s])
  {
    RunSnoc(ws, steps, s, w, (a, b, c) => Steps(a, b, c));
    assert (ws + [w])[0] == ws[0];
  }

  /** A run, its last state and one more step. */
  lemma Onward(ws: seq<World>, steps: seq<Step>, s: Step, w: World) returns (ws': seq<World>, steps': seq<Step>)
    requires Run(ws, steps) && Steps(ws[|steps|], s, w)
    ensures Run(ws', steps') && ws'[|steps'|] == w
  {
    RunOnward(ws, steps, s, w);
    ws', steps' := ws + [w], steps + [s];
  }

  /** `t` has come as far as `pc`, and no worker is there yet. */
  ghost predicate Unserved(w: World, t: string, queue: string, args: string, pc: Pc) {
    // bound to a name, so that it is proved as one goal and not conjunct by conjunct
    var all := Inv(w, true) && t in w.waiters && w.bus.consumers == [] && At(w.waiters[t], queue, args, pc);
    all
  }

  predicate At(a: Waiter, queue: string, args: string, pc: Pc) {
    a.pc == pc && a.queue == queue && a.args == args
  }

  lemma ListenUnserved(t: string, queue: string, args: string)
    ensures Steps(Init, Listen(t, queue, args), AfterListen(Init, t, queue, args))
    ensures Unserved(AfterListen(Init, t, queue, args), t, queue, args, Listening)
  {
    InitHolds();
    ListenBus(Init, t, queue, args);
    ListenKeeps(Init, t, queue, args, true);
  }

  lemma SendUnserved(w: World, t: string, queue: string, args: string)
    requires Unserved(w, t, queue, args, Listening)
    ensures Steps(w, Send(t), AfterSend(w, t)) && Unserved(AfterSend(w, t), t, queue, args, Awaiting)
  {
    SendSteps(w, t);
    SendKeeps(w, t, true);
  }

  lemma SendSteps(w: World, t: string)
    requires Valid(w.bus) && t in w.waiters && w.waiters[t].pc == Listening
    ensures Steps(w, Send(t), AfterSend(w, t))
    ensures AfterSend(w, t).bus.consumers == w.bus.consumers
    ensures AfterSend(w, t).waiters[t] == w.waiters[t].(pc := Awaiting)
  {
  }

  lemma AddWorkerSteps(w: World, queue: string, t: string)
    requires Valid(w.bus) && w.bus.consumers == [] && t in w.waiters
    requires w.waiters[t].pc == Awaiting && w.waiters[t].queue == queue
    ensures Steps(w, AddWorker(queue), AfterAddWorker(w, queue)) && CanBeServed(AfterAddWorker(w, queue), t)
  {
    assert AfterAddWorker(w, queue).bus.consumers == [QueueConsumers(queue, [w.nextId])];
  }

  lemma ServeSent(w: World, t: string, queue: string, args: string)
    requires Unserved(w, t, queue, args, Awaiting)
    ensures var w' := AfterAddWorker(w, queue);
            Steps(w, AddWorker(queue), w') && Inv(w', true) && CanBeServed(w', t)
  {
    AddWorkerKeeps(w, queue, true);
    AddWorkerSteps(w, queue, t);
  }

  lemma SentReachable(t: string, queue: string, args: string) returns (ws: seq<World>, steps: seq<Step>)
    ensures Run(ws, steps) && Inv(ws[|steps|], true) && CanBeServed(ws[|steps|], t)
    ensures ws[|steps|].computed == map[]
  {
    InitHolds();
    ListenUnserved(t, queue, args);
    ws, steps := Onward([Init], [], Listen(t, queue, args), AfterListen(Init, t, queue, args));
    var w1 := ws[|steps|];
    SendUnserved(w1, t, queue, args);
    ws, steps := Onward(ws, steps, Send(t), AfterSend(w1, t));
    var w2 := ws[|steps|];
    ServeSent(w2, t, queue, args);
    ws, steps := Onward(ws, steps, AddWorker(queue), AfterAddWorker(w2, queue));
  }

  lemma RunningStage(w: World, t: string)
    requires Inv(w, true) && CanBeServed(w, t) && Stage(w, t) < 4 && t !in w.computed
    ensures Stage(w, t) == 3
  {
    assert TaskOK(w, t, true);
    FirstIsMember(w.waiters[t].wrapper);
  }

  lemma ExecutedAwaits(w: World, t: string, c: Payload, r: TaskResult) returns (w': World)
    requires Inv(w, true) && CanBeServed(w, t) && Stage(w, t) == 3
    requires c == Command(t, w.waiters[t].queue, w.waiters[t].args)
    ensures Steps(w, Execute(c, r), w') && AwaitsCallback(w', t) && w'.computed[t] == r
  {
    w' := AfterExecute(w, c, r);
    ExecuteSteps(w, c, r);
    ExecuteKeeps(w, c, r, true);
  }

  lemma RunningReachable(t: string, queue: string, args: string) returns (ws: seq<World>, steps: seq<Step>)
    ensures Run(ws, steps)
    ensures Inv(ws[|steps|], true) && CanBeServed(ws[|steps|], t) && Stage(ws[|steps|], t) == 3
  {
    ws, steps := SentReachable(t, queue, args);
    var w := ws[|steps|];
    if Stage(w, t) == 4 {
      var w1 := AdvancePulled(w, t, true);
      NextKeeps(w, QuietRound(w), true);
      RunningStage(w1, t);
      ws, steps := Onward(ws, steps, QuietRound(w), w1);
    } else {
      RunningStage(w, t);
    }
  }

  /** The state that a split round breaks is reachable: a task is sent, pulled and executed. */
  lemma AwaitsCallbackReachable(t: string, queue: string, args: string, r: TaskResult)
    returns (ws: seq<World>, steps: seq<Step>)
    ensures Run(ws, steps) && AwaitsCallback(ws[|steps|], t) && ws[|steps|].computed[t] == r
  {
    ws, steps := RunningReachable(t, queue, args);
    var w := ws[|steps|];
    var c := Command(t, w.waiters[t].queue, w.waiters[t].args);
    var w' := ExecutedAwaits(w, t, c, r);
    ws, steps := Onward(ws, steps, Execute(c, r), w');
  }
}
