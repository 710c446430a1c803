/** No worker result is lost or swapped: the invariant of `WorkerProtocol` over every run. */
module WorkerProtocolProofs {
  import opened EventBus
  import opened EventBusProperties
  import opened WorkerProtocol

  lemma NoCount<T>(s: seq<T>, x: T)
    requires x !in s
    ensures multiset(s)[x] == 0
  {
  }

  lemma FirstIsMember<T>(s: seq<T>)
    ensures |s| > 0 ==> s[0] in s
  {
  }

  lemma InitHolds()
    ensures Inv(Init, true)
  {
  }

  /** `w'` knows every task and every result of `w`, unchanged. */
  ghost predicate Grows(w: World, w': World) {
    && (forall t :: t in w.waiters ==>
          && t in w'.waiters
          && w'.waiters[t].queue == w.waiters[t].queue && w'.waiters[t].args == w.waiters[t].args
          && (w.waiters[t].pc != Listening ==> w'.waiters[t].pc != Listening))
    && (forall t :: t in w.computed ==> t in w'.computed && w'.computed[t] == w.computed[t])
    && (forall t :: t in w'.computed ==> t in w'.waiters)
  }

  lemma CommandsFrame(w: World, w': World)
    requires Commands(w) && Grows(w, w') && w'.running <= w.running
    requires forall q, e :: q in w'.bus.queues && e in w'.bus.queues[q] ==> q in w.bus.queues && e in w.bus.queues[q]
    ensures Commands(w')
  {
    forall c | c in w'.running ensures GoodCommand(w', c) {
      assert c in w.running;
    }
  }

  lemma EndsFrame(w: World, w': World)
    requires Ends(w) && Grows(w, w') && w'.finished <= w.finished
    requires forall e :: e in w'.bus.events ==> e in w.bus.events || GoodEnd(w', e)
    ensures Ends(w')
  {
    forall e | e in w'.bus.events ensures GoodEnd(w', e) {
      if e in w.bus.events { assert GoodEnd(w, e); }
    }
    forall e | e in w'.finished ensures e.kind == WORKER_TASK_ENDED && GoodEnd(w', e) {
      assert e in w.finished;
    }
  }

  // ------------------------------------------------------------ the waiter's own steps

  lemma ListenBus(w: World, t: string, queue: string, args: string)
    requires Tables(w) && t !in w.waiters
    ensures var w' := AfterListen(w, t, queue, args);
            && Tables(w')
            && w'.bus == w.bus.(listeners := w'.bus.listeners)
            && w.nextId !in w.bus.listeners[WORKER_TASK_ENDED] && w.nextId !in w.bus.listeners[ANY]
            && w'.bus.listeners == w.bus.listeners[WORKER_TASK_ENDED := w.bus.listeners[WORKER_TASK_ENDED] + [w.nextId]]
  {
    assert AddListeners(w.bus, w.nextId, [WORKER_TASK_ENDED]) == AddListener(w.bus, w.nextId, WORKER_TASK_ENDED);
  }

  lemma ListenNewTask(w: World, t: string, queue: string, args: string, exact: bool)
    requires Tables(w) && Commands(w) && Ends(w) && t !in w.waiters
    requires forall u :: u in w.waiters ==> w.waiters[u].listener < w.nextId
    ensures TaskOK(AfterListen(w, t, queue, args), t, exact)
  {
    ListenBus(w, t, queue, args);
    NoCount(w.bus.listeners[WORKER_TASK_ENDED], w.nextId);
    NoCount(w.bus.listeners[ANY], w.nextId);
    NoCount(Waiting(w.bus, queue), CommandEvent(t, queue, args));
    assert !GoodCommand(w, Command(t, queue, args));
  }

  lemma ListenOldTask(w: World, t: string, queue: string, args: string, u: string, exact: bool)
    requires Tables(w) && t !in w.waiters && u in w.waiters && TaskOK(w, u, exact)
    ensures TaskOK(AfterListen(w, t, queue, args), u, exact)
  {
    ListenBus(w, t, queue, args);
  }

  lemma ListenKeeps(w: World, t: string, queue: string, args: string, exact: bool)
    requires Inv(w, exact) && t !in w.waiters
    ensures Inv(AfterListen(w, t, queue, args), exact)
  {
    var w' := AfterListen(w, t, queue, args);
    ListenBus(w, t, queue, args);
    CommandsFrame(w, w');
    EndsFrame(w, w');
    assert forall u :: u in w.waiters ==> TaskOK(w, u, exact);
    ListenNewTask(w, t, queue, args, exact);
    forall u | u in w.waiters ensures TaskOK(w', u, exact) {
      ListenOldTask(w, t, queue, args, u, exact);
    }
  }

  lemma SendCommands(w: World, w': World, t: string)
    requires Commands(w) && t in w.waiters && w.waiters[t].pc == Listening
    requires w'.waiters == w.waiters[t := w.waiters[t].(pc := Awaiting)] && w'.running == w.running
    requires w'.bus == Enqueue(w.bus, CommandEvent(t, w.waiters[t].queue, w.waiters[t].args), w.waiters[t].queue)
    ensures Commands(w')
  {
    forall q, e | q in w'.bus.queues && e in w'.bus.queues[q]
      ensures e.kind == WORKER_TASK && GoodCommand(w', e.payload) && e.payload.taskType == q
    {
      if !(q in w.bus.queues && e in w.bus.queues[q]) {
        assert e == CommandEvent(t, w.waiters[t].queue, w.waiters[t].args);
      }
    }
  }

  lemma SendTask(w: World, t: string, u: string, exact: bool)
    requires Valid(w.bus) && t in w.waiters && w.waiters[t].pc == Listening
    requires u in w.waiters && TaskOK(w, u, exact)
    ensures TaskOK(AfterSend(w, t), u, exact)
  {
    var w' := AfterSend(w, t);
    var sent := CommandEvent(t, w.waiters[t].queue, w.waiters[t].args);
    var x := CommandEvent(u, w.waiters[u].queue, w.waiters[u].args);
    assert Heard(w', u);
    assert multiset(Waiting(w'.bus, w.waiters[u].queue))[x]
        == multiset(Waiting(w.bus, w.waiters[u].queue))[x] + (if u == t then 1 else 0);
  }

  lemma SendKeeps(w: World, t: string, exact: bool)
    requires Inv(w, exact) && t in w.waiters && w.waiters[t].pc == Listening
    ensures Inv(AfterSend(w, t), exact)
  {
    var w' := AfterSend(w, t);
    SendCommands(w, w', t);
    EndsFrame(w, w');
    forall u | u in w'.waiters ensures TaskOK(w', u, exact) {
      SendTask(w, t, u, exact);
    }
  }

  lemma {:induction false} WithoutCount(ids: seq<ListenerId>, id: ListenerId, other: ListenerId)
    ensures multiset(Without(ids, id))[other] == if other == id then 0 else multiset(ids)[other]
    decreases |ids|
  {
    if ids != [] {
      assert ids == [ids[0]] + ids[1..];
      WithoutCount(ids[1..], id, other);
    }
  }

  lemma TakeTables(w: World, w': World, t: string)
    requires Tables(w) && t in w.waiters && w.waiters[t].pc == Awaiting && w.waiters[t].wrapper != []
             && w' == AfterTake(w, t)
    ensures Tables(w')
  {
    var id := w.waiters[t].listener;
    forall kind, other | kind in w'.bus.listeners && other in w'.bus.listeners[kind]
      ensures other < w'.nextId
    {
      WithoutCount(w.bus.listeners[kind], id, other);
      assert multiset(w'.bus.listeners[kind])[other] > 0;
      assert other in w.bus.listeners[kind];
    }
  }

  lemma TakeHeard(w: World, t: string, u: string)
    requires Valid(w.bus) && t in w.waiters && w.waiters[t].wrapper != []
    requires u in w.waiters && Heard(w, u)
    ensures Heard(AfterTake(w, t), u)
  {
    WithoutCount(w.bus.listeners[WORKER_TASK_ENDED], w.waiters[t].listener, w.waiters[u].listener);
    WithoutCount(w.bus.listeners[ANY], w.waiters[t].listener, w.waiters[u].listener);
  }

  lemma TakeTask(w: World, t: string, u: string, exact: bool)
    requires Valid(w.bus) && t in w.waiters && w.waiters[t].pc == Awaiting && w.waiters[t].wrapper != []
    requires u in w.waiters && TaskOK(w, u, exact)
    ensures TaskOK(AfterTake(w, t), u, exact)
  {
    TakeHeard(w, t, u);
    FirstIsMember(w.waiters[t].wrapper);
  }

  lemma TakeKeeps(w: World, t: string, exact: bool)
    requires Inv(w, exact) && t in w.waiters && w.waiters[t].pc == Awaiting && w.waiters[t].wrapper != []
    ensures Inv(AfterTake(w, t), exact)
  {
    var w' := AfterTake(w, t);
    TakeTables(w, w', t);
    CommandsFrame(w, w');
    EndsFrame(w, w');
    forall u | u in w'.waiters ensures TaskOK(w', u, exact) {
      TakeTask(w, t, u, exact);
    }
  }

  // ------------------------------------------------------------------ other components

  lemma {:induction false} AddListenersCount(b: Bus, id: ListenerId, kinds: seq<EventType>, other: ListenerId)
    requires Valid(b) && other != id
    ensures forall kind: EventType ::
              multiset(AddListeners(b, id, kinds).listeners[kind])[other] == multiset(b.listeners[kind])[other]
    decreases |kinds|
  {
    if kinds != [] {
      var b' := if id in b.listeners[kinds[0]] then b else AddListener(b, id, kinds[0]);
      AddListenersCount(b', id, kinds[1..], other);
    }
  }

  lemma OtherListenerTables(w: World, w': World, kinds: seq<EventType>)
    requires Tables(w) && w' == AfterOtherListener(w, kinds)
    ensures Tables(w') && w'.bus == w.bus.(listeners := w'.bus.listeners)
  {
    AddListenersKeeps(w.bus, w.nextId, KindsOrAny(kinds));
    forall kind, other | kind in w'.bus.listeners && other in w'.bus.listeners[kind]
      ensures other < w'.nextId
    {
      if other != w.nextId {
        AddListenersCount(w.bus, w.nextId, KindsOrAny(kinds), other);
        assert multiset(w'.bus.listeners[kind])[other] > 0;
        assert other in w.bus.listeners[kind];
      }
    }
  }

  lemma OtherListenerTask(w: World, kinds: seq<EventType>, u: string, exact: bool)
    requires Tables(w) && u in w.waiters && TaskOK(w, u, exact)
    ensures TaskOK(AfterOtherListener(w, kinds), u, exact)
  {
    OtherListenerTables(w, AfterOtherListener(w, kinds), kinds);
    AddListenersCount(w.bus, w.nextId, KindsOrAny(kinds), w.waiters[u].listener);
    assert Heard(AfterOtherListener(w, kinds), u);
  }

  lemma OtherListenerKeeps(w: World, kinds: seq<EventType>, exact: bool)
    requires Inv(w, exact)
    ensures Inv(AfterOtherListener(w, kinds), exact)
  {
    var w' := AfterOtherListener(w, kinds);
    OtherListenerTables(w, w', kinds);
    CommandsFrame(w, w');
    EndsFrame(w, w');
    forall u | u in w'.waiters ensures TaskOK(w', u, exact) {
      OtherListenerTask(w, kinds, u, exact);
    }
  }

  lemma AddWorkerTables(w: World, queue: string)
    requires Tables(w)
    ensures Tables(AfterAddWorker(w, queue))
  {
    AddToDistinct(w.bus.consumers, queue, w.nextId);
  }

  lemma AddWorkerTask(w: World, queue: string, u: string, exact: bool)
    requires Valid(w.bus) && u in w.waiters && TaskOK(w, u, exact)
    ensures TaskOK(AfterAddWorker(w, queue), u, exact)
  {
  }

  lemma AddWorkerKeeps(w: World, queue: string, exact: bool)
    requires Inv(w, exact)
    ensures Inv(AfterAddWorker(w, queue), exact)
  {
    var w' := AfterAddWorker(w, queue);
    AddWorkerTables(w, queue);
    CommandsFrame(w, w');
    EndsFrame(w, w');
    forall u | u in w'.waiters ensures TaskOK(w', u, exact) {
      AddWorkerTask(w, queue, u, exact);
    }
  }

  lemma OtherPushTask(w: World, e: Event, u: string, exact: bool)
    requires Valid(w.bus) && e.kind != WORKER_TASK_ENDED && u in w.waiters && TaskOK(w, u, exact)
    ensures TaskOK(AfterOtherPush(w, e), u, exact)
  {
  }

  lemma OtherPushKeeps(w: World, e: Event, exact: bool)
    requires Inv(w, exact) && e.kind != WORKER_TASK_ENDED
    ensures Inv(AfterOtherPush(w, e), exact)
  {
    var w' := AfterOtherPush(w, e);
    CommandsFrame(w, w');
    EndsFrame(w, w');
    forall u | u in w'.waiters ensures TaskOK(w', u, exact) {
      OtherPushTask(w, e, u, exact);
    }
  }

  // ------------------------------------------------------------------- the worker's pool

  lemma PublishTask(w: World, e: Event, u: string, exact: bool)
    requires Valid(w.bus) && e in w.finished && u in w.waiters && TaskOK(w, u, exact)
    ensures TaskOK(AfterPublish(w, e), u, exact)
  {
    var w' := AfterPublish(w, e);
    assert Heard(w', u) && RightResult(w', u);
    forall x ensures w'.finished[x] + multiset(w'.bus.events)[x] == w.finished[x] + multiset(w.bus.events)[x] {}
  }

  lemma PublishEnds(w: World, e: Event)
    requires Ends(w) && e in w.finished
    ensures Ends(AfterPublish(w, e))
  {
    assert GoodEnd(w, e);
    EndsFrame(w, AfterPublish(w, e));
  }

  lemma PublishKeeps(w: World, e: Event, exact: bool)
    requires Inv(w, exact) && e in w.finished
    ensures Inv(AfterPublish(w, e), exact)
  {
    var w' := AfterPublish(w, e);
    CommandsFrame(w, w');
    PublishEnds(w, e);
    forall u | u in w'.waiters ensures TaskOK(w', u, exact) {
      PublishTask(w, e, u, exact);
    }
  }

  /** A running command has not been computed: one execution per task. */
  lemma RunningNotComputed(w: World, c: Payload, exact: bool)
    requires Inv(w, exact) && c in w.running
    ensures GoodCommand(w, c) && c.taskId !in w.computed && w.running[c] == 1
  {
    assert GoodCommand(w, c);
    assert TaskOK(w, c.taskId, exact);
  }

  lemma NoResultBeforeComputed(w: World, t: string, r: TaskResult)
    requires Ends(w) && t in w.waiters && RightResult(w, t) && t !in w.computed
    ensures |w.waiters[t].wrapper| == 0
    ensures w.finished[EndedEvent(t, r)] == 0 && multiset(w.bus.events)[EndedEvent(t, r)] == 0
  {
    assert !GoodEnd(w, EndedEvent(t, r));
    NoCount(w.bus.events, EndedEvent(t, r));
    FirstIsMember(w.waiters[t].wrapper);
  }

  lemma ExecuteEnds(w: World, w': World, c: Payload, r: TaskResult)
    requires Ends(w) && Grows(w, w') && c.Command?
    requires w'.computed == w.computed[c.taskId := r] && w'.bus == w.bus
    requires w'.finished == w.finished + multiset{EndedEvent(c.taskId, r)}
    ensures Ends(w')
  {
    forall e | e in w'.bus.events ensures GoodEnd(w', e) {
      assert GoodEnd(w, e);
    }
    forall e | e in w'.finished ensures e.kind == WORKER_TASK_ENDED && GoodEnd(w', e) {
      if e != EndedEvent(c.taskId, r) { assert e in w.finished; }
    }
  }

  lemma ExecuteTask(w: World, c: Payload, r: TaskResult, u: string, exact: bool)
    requires Valid(w.bus) && Ends(w) && c in w.running && GoodCommand(w, c)
    requires c.taskId !in w.computed && w.running[c] == 1
    requires u in w.waiters && TaskOK(w, u, exact) && TaskOK(w, c.taskId, exact)
    ensures TaskOK(AfterExecute(w, c, r), u, exact)
  {
    var w' := AfterExecute(w, c, r);
    NoResultBeforeComputed(w, c.taskId, r);
    assert Heard(w', u) && RightResult(w', u);
    if u != c.taskId {
      assert c != Command(u, w.waiters[u].queue, w.waiters[u].args);
      assert CommandTokens(w', u) == CommandTokens(w, u);
    }
  }

  lemma ExecuteKeeps(w: World, c: Payload, r: TaskResult, exact: bool)
    requires Inv(w, exact) && c in w.running && c.Command?
    ensures Inv(AfterExecute(w, c, r), exact)
  {
    var w' := AfterExecute(w, c, r);
    RunningNotComputed(w, c, exact);
    CommandsFrame(w, w');
    ExecuteEnds(w, w', c, r);
    ExecuteTasks(w, c, r, exact);
    Assembled(w', exact);
  }

  lemma Assembled(w: World, exact: bool)
    requires Tables(w) && Commands(w) && Ends(w)
    requires forall u :: u in w.waiters ==> TaskOK(w, u, exact)
    ensures Inv(w, exact)
  {
  }

  lemma ExecuteTasks(w: World, c: Payload, r: TaskResult, exact: bool)
    requires Valid(w.bus) && Ends(w) && c in w.running && GoodCommand(w, c)
    requires c.taskId !in w.computed && w.running[c] == 1
    requires forall u :: u in w.waiters ==> TaskOK(w, u, exact)
    ensures forall u :: u in AfterExecute(w, c, r).waiters ==> TaskOK(AfterExecute(w, c, r), u, exact)
  {
    forall u | u in w.waiters ensures TaskOK(AfterExecute(w, c, r), u, exact) {
      ExecuteTask(w, c, r, u, exact);
    }
  }
}
