/** The remote worker protocol as interleaved steps: the waiter inside `_create_worker_task`,
    the bus rounds, and the worker's pool with its done-callback.  Every database-free action
    of one thread between two points where another thread may run is one step. */
module WorkerProtocol {
  import opened EventBus
  import opened EventBusProperties

  // ------------------------------------------------------------------------- state

  datatype Pc = Listening | Awaiting | Returned(result: TaskResult)

  /** The awaiting side of one task: its listener, its command and its result wrapper. */
  datatype Waiter = Waiter(pc: Pc, listener: ListenerId, queue: string, args: string, wrapper: seq<TaskResult>)

  datatype World = World(
    bus: Bus,
    log: seq<Delivery>,
    nextId: nat,
    waiters: map<string, Waiter>,
    running: multiset<Payload>,         // commands submitted to a worker pool, not yet computed
    finished: multiset<Event>,          // computed results whose done-callback has not pushed yet
    computed: map<string, TaskResult>)  // history: what executing the task's command gave

  const Init := World(EmptyBus, [], 0, map[], multiset{}, multiset{}, map[])

  function CommandEvent(t: string, queue: string, args: string): Event {
    Event(WORKER_TASK, Command(t, queue, args))
  }

  function EndedEvent(t: string, r: TaskResult): Event {
    Event(WORKER_TASK_ENDED, Ended(t, r))
  }

  // ------------------------------------------------------------------------- steps

  datatype Step =
    | Listen(t: string, queue: string, args: string)  // add_listener
    | Send(t: string)                                 // event_bus.queue
    | Take(t: string)                                 // result seen: remove_listener, return
    | AddWorker(queue: string)                        // add_queue_consumer
    | OtherListener(kinds: seq<EventType>)            // some other component listens
    | OtherPush(e: Event)                             // some other component pushes
    | BusRound(behave: Behaviour, pick: Picker, fuel: nat)
    | Execute(c: Payload, r: TaskResult)              // the pool computes; exceptions become results
    | Publish(e: Event)                               // the done-callback pushes WORKER_TASK_ENDED

  /** The callbacks of this system.  A worker's consumer announces the start and submits the
      command; when the future is already done, its done-callback runs at once and pushes the end
      as well.  Listeners never announce the end of a worker task; they may raise. */
  ghost predicate Honest(behave: Behaviour) {
    && (forall n: nat, d: Delivery :: d.Consumed? && d.event.payload.Command? ==>
        HonestConsumer(behave(n, d), d.event.payload))
    && (forall n: nat, d: Delivery, e: Event :: d.Notified? && e in behave(n, d).pushed ==> e.kind != WORKER_TASK_ENDED)
  }

  ghost predicate HonestConsumer(x: Reaction, c: Payload)
    requires c.Command?
  {
    && !x.raises
    && 1 <= |x.pushed| <= 2
    && x.pushed[0] == Event(WORKER_TASK_STARTED, c)
    && (|x.pushed| == 2 ==>
        x.pushed[1].payload.Ended? && x.pushed[1] == EndedEvent(c.taskId, x.pushed[1].payload.result))
  }

  /** The commands that `ds` leaves in the pool. */
  function Submitted(behave: Behaviour, start: nat, ds: seq<Delivery>): multiset<Payload>
    decreases |ds|
  {
    if ds == [] then multiset{}
    else
      (if ds[0].Consumed? && |behave(start, ds[0]).pushed| != 2 then multiset{ds[0].event.payload} else multiset{})
      + Submitted(behave, start + 1, ds[1..])
  }

  /** The results that were already there when the done-callback was added. */
  function Immediate(behave: Behaviour, start: nat, ds: seq<Delivery>): map<string, TaskResult>
    decreases |ds|
  {
    if ds == [] then map[]
    else
      var rest := Immediate(behave, start + 1, ds[1..]);
      var pushed := behave(start, ds[0]).pushed;
      if ds[0].Consumed? && |pushed| == 2 && pushed[1].payload.Ended?
      then rest[pushed[1].payload.taskId := pushed[1].payload.result] else rest
  }

  /** What the awaiter of task `t`, registered as `listener`, appends to its wrapper. */
  function ResultsFor(ds: seq<Delivery>, listener: ListenerId, t: string): seq<TaskResult> {
    if ds == [] then []
    else
      var d := ds[0];
      (if d.Notified? && d.to == listener && d.event.kind == WORKER_TASK_ENDED
          && d.event.payload.Ended? && d.event.payload.taskId == t
       then [d.event.payload.result] else [])
      + ResultsFor(ds[1..], listener, t)
  }

  ghost predicate Enabled(w: World, s: Step) {
    match s
    case Listen(t, _, _) => t !in w.waiters
    case Send(t) => t in w.waiters && w.waiters[t].pc == Listening
    case Take(t) => t in w.waiters && w.waiters[t].pc == Awaiting && w.waiters[t].wrapper != []
    case AddWorker(_) => true
    case OtherListener(_) => true
    case OtherPush(e) => e.kind != WORKER_TASK_ENDED
    case BusRound(behave, pick, fuel) =>
      Honest(behave) && Valid(w.bus) && OnEvents(w.bus, w.log, behave, pick, fuel).outcome != OutOfFuel
    case Execute(c, _) => c in w.running && c.Command?
    case Publish(e) => e in w.finished
  }

  function AfterListen(w: World, t: string, queue: string, args: string): World
    requires Valid(w.bus)
  {
    w.(bus := AddListeners(w.bus, w.nextId, [WORKER_TASK_ENDED]),
       nextId := w.nextId + 1,
       waiters := w.waiters[t := Waiter(Listening, w.nextId, queue, args, [])])
  }

  function AfterSend(w: World, t: string): World
    requires t in w.waiters
  {
    var a := w.waiters[t];
    w.(bus := Enqueue(w.bus, CommandEvent(t, a.queue, a.args), a.queue),
       waiters := w.waiters[t := a.(pc := Awaiting)])
  }

  function AfterTake(w: World, t: string): World
    requires t in w.waiters && w.waiters[t].wrapper != []
  {
    var a := w.waiters[t];
    w.(bus := RemoveListener(w.bus, a.listener),
       waiters := w.waiters[t := a.(pc := Returned(a.wrapper[0]))])
  }

  function AfterAddWorker(w: World, queue: string): World {
    w.(bus := w.bus.(consumers := AddTo(w.bus.consumers, queue, w.nextId)), nextId := w.nextId + 1)
  }

  function AfterOtherListener(w: World, kinds: seq<EventType>): World
    requires Valid(w.bus)
  {
    w.(bus := AddListeners(w.bus, w.nextId, KindsOrAny(kinds)), nextId := w.nextId + 1)
  }

  function AfterOtherPush(w: World, e: Event): World {
    w.(bus := Push(w.bus, e))
  }

  function AfterRound(w: World, behave: Behaviour, pick: Picker, fuel: nat): World
    requires Valid(w.bus)
  {
    var r := OnEvents(w.bus, w.log, behave, pick, fuel);
    var ds := if |w.log| <= |r.log| then r.log[|w.log|..] else [];
    w.(bus := r.bus,
       log := r.log,
       waiters := map t | t in w.waiters ::
         w.waiters[t].(wrapper := w.waiters[t].wrapper + ResultsFor(ds, w.waiters[t].listener, t)),
       running := w.running + Submitted(behave, |w.log|, ds),
       computed := w.computed + Immediate(behave, |w.log|, ds))
  }

  function AfterExecute(w: World, c: Payload, r: TaskResult): World
    requires c.Command?
  {
    w.(running := w.running - multiset{c},
       finished := w.finished + multiset{EndedEvent(c.taskId, r)},
       computed := w.computed[c.taskId := r])
  }

  function AfterPublish(w: World, e: Event): World {
    w.(bus := Push(w.bus, e), finished := w.finished - multiset{e})
  }

  function Next(w: World, s: Step): World
    requires Enabled(w, s) && Valid(w.bus)
  {
    match s
    case Listen(t, queue, args) => AfterListen(w, t, queue, args)
    case Send(t) => AfterSend(w, t)
    case Take(t) => AfterTake(w, t)
    case AddWorker(queue) => AfterAddWorker(w, queue)
    case OtherListener(kinds) => AfterOtherListener(w, kinds)
    case OtherPush(e) => AfterOtherPush(w, e)
    case BusRound(behave, pick, fuel) => AfterRound(w, behave, pick, fuel)
    case Execute(c, r) => AfterExecute(w, c, r)
    case Publish(e) => AfterPublish(w, e)
  }

  // ------------------------------------------------------------------------- invariant

  /** `e` is the command of a task that has sent it. */
  ghost predicate GoodCommand(w: World, c: Payload) {
    && c.Command? && c.taskId in w.waiters
    && w.waiters[c.taskId].pc != Listening
    && c == Command(c.taskId, w.waiters[c.taskId].queue, w.waiters[c.taskId].args)
  }

  /** An end announcement carries the result computed for the task it names. */
  ghost predicate GoodEnd(w: World, e: Event) {
    e.kind == WORKER_TASK_ENDED ==>
      e.payload.Ended? && e.payload.taskId in w.computed && e.payload.result == w.computed[e.payload.taskId]
  }

  ghost predicate Tables(w: World) {
    && Valid(w.bus) && DistinctQueues(w.bus.consumers)
    && (forall kind, id :: kind in w.bus.listeners && id in w.bus.listeners[kind] ==> id < w.nextId)
  }

  ghost predicate Commands(w: World) {
    && (forall q, e :: q in w.bus.queues && e in w.bus.queues[q] ==>
          e.kind == WORKER_TASK && GoodCommand(w, e.payload) && e.payload.taskType == q)
    && (forall c :: c in w.running ==> GoodCommand(w, c))
  }

  ghost predicate Ends(w: World) {
    && (forall e :: e in w.bus.events ==> GoodEnd(w, e))
    && (forall e :: e in w.finished ==> e.kind == WORKER_TASK_ENDED && GoodEnd(w, e))
    && (forall t :: t in w.computed ==> t in w.waiters)
  }

  /** Where the command of `t` is: in its queue, in a pool, or already computed. */
  function CommandTokens(w: World, t: string): nat
    requires t in w.waiters
  {
    var a := w.waiters[t];
    multiset(Waiting(w.bus, a.queue))[CommandEvent(t, a.queue, a.args)]
    + w.running[Command(t, a.queue, a.args)]
    + (if t in w.computed then 1 else 0)
  }

  /** Where the result of `t` is: awaiting its callback, on the bus, or in the wrapper. */
  function ResultTokens(w: World, t: string): nat
    requires t in w.waiters
  {
    if t !in w.computed then 0
    else
      var e := EndedEvent(t, w.computed[t]);
      w.finished[e] + multiset(w.bus.events)[e] + |w.waiters[t].wrapper|
  }

  /** The listener of `t` is its own, and registered exactly once until the result is taken. */
  ghost predicate Heard(w: World, t: string)
    requires t in w.waiters && Valid(w.bus)
  {
    && w.waiters[t].listener < w.nextId
    && (forall u :: u in w.waiters && u != t ==> w.waiters[u].listener != w.waiters[t].listener)
    && (!w.waiters[t].pc.Returned? ==> Registrations(w.bus, w.waiters[t].listener, WORKER_TASK_ENDED) == 1)
  }

  /** Whatever the wrapper holds or the waiter returned is the computed result. */
  ghost predicate RightResult(w: World, t: string)
    requires t in w.waiters
  {
    && (forall r :: r in w.waiters[t].wrapper ==> t in w.computed && r == w.computed[t])
    && (w.waiters[t].pc.Returned? ==> t in w.computed && w.waiters[t].pc.result == w.computed[t])
  }

  ghost predicate Tokens(w: World, t: string, exact: bool)
    requires t in w.waiters
  {
    && CommandTokens(w, t) == (if w.waiters[t].pc == Listening then 0 else 1)
    && (w.waiters[t].pc == Awaiting && t in w.computed ==>
          if exact then ResultTokens(w, t) == 1 else ResultTokens(w, t) >= 1)
  }

  ghost predicate TaskOK(w: World, t: string, exact: bool)
    requires t in w.waiters && Valid(w.bus)
  {
    Heard(w, t) && RightResult(w, t) && Tokens(w, t, exact)
  }

  /** `exact` when no bus round was cut short by a raising listener. */
  ghost predicate Inv(w: World, exact: bool) {
    // bound to a name, so that it is proved as one goal and not conjunct by conjunct
    var parts := Tables(w) && Commands(w) && Ends(w) && forall t :: t in w.waiters ==> TaskOK(w, t, exact);
    parts
  }
}
