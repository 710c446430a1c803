/** The event bus: typed events, the broadcast list, the named queues and one
    `_on_events` round, as values.  `EventBusObjects` holds the classes that
    update them in place and are proved against these functions. */
module EventBus {
  import opened Options

  datatype EventType =
    | ANY
    | STUDY_CREATED | STUDY_DELETED | STUDY_EDITED | STUDY_DATA_EDITED
    | STUDY_JOB_STARTED | STUDY_JOB_LOG_UPDATE | STUDY_JOB_COMPLETED | STUDY_JOB_STATUS_UPDATE
    | STUDY_JOB_CANCEL_REQUEST | STUDY_JOB_CANCELLED | STUDY_VARIANT_GENERATION_COMMAND_RESULT
    | TASK_ADDED | TASK_RUNNING | TASK_PROGRESS | TASK_COMPLETED | TASK_FAILED | TASK_CANCEL_REQUEST
    | DOWNLOAD_CREATED | DOWNLOAD_READY | DOWNLOAD_EXPIRED | DOWNLOAD_FAILED
    | MESSAGE_INFO | MAINTENANCE_MODE
    | WORKER_TASK | WORKER_TASK_STARTED | WORKER_TASK_ENDED
    | LAUNCH_PROGRESS

  datatype TaskResult = TaskResult(success: bool, message: string, returnValue: Option<string>)

  datatype Payload =
    | Command(taskId: string, taskType: string, args: string)
    | Ended(taskId: string, result: TaskResult)
    | Text(text: string)

  datatype Event = Event(kind: EventType, payload: Payload)

  type ListenerId = nat

  /** One call of a callback: a queue consumer or a listener. */
  datatype Delivery =
    | Consumed(queue: string, to: ListenerId, event: Event)
    | Notified(to: ListenerId, event: Event)

  /** What a callback does: the events it pushes, and whether it ends by raising. */
  datatype Reaction = Reaction(pushed: seq<Event>, raises: bool)

  /** Callbacks may keep state, so a behaviour is told how many deliveries came before. */
  type Behaviour = (nat, Delivery) -> Reaction

  /** The generator behind `random.randint`: which consumer gets the n-th delivery. */
  type Picker = nat -> nat

  datatype QueueConsumers = QueueConsumers(queue: string, ids: seq<ListenerId>)

  datatype Bus = Bus(
    events: seq<Event>,
    queues: map<string, seq<Event>>,
    listeners: map<EventType, seq<ListenerId>>,
    consumers: seq<QueueConsumers>)

  const EmptyBus := Bus([], map[], map kind: EventType | true :: [], [])

  /** The listener table has an entry for every event type, as the constructor builds it. */
  ghost predicate Valid(b: Bus) {
    forall kind: EventType :: kind in b.listeners
  }

  function Waiting(b: Bus, queue: string): seq<Event> {
    if queue in b.queues then b.queues[queue] else []
  }

  function Push(b: Bus, e: Event): Bus {
    b.(events := b.events + [e])
  }

  function Enqueue(b: Bus, e: Event, queue: string): Bus {
    b.(queues := b.queues[queue := Waiting(b, queue) + [e]])
  }

  function AddListener(b: Bus, id: ListenerId, kind: EventType): Bus
    requires Valid(b)
  {
    b.(listeners := b.listeners[kind := b.listeners[kind] + [id]])
  }

  /** Registers one fresh identifier under each type of `kinds`, in order. */
  function AddListeners(b: Bus, id: ListenerId, kinds: seq<EventType>): (r: Bus)
    requires Valid(b)
    ensures Valid(r)
    decreases |kinds|
  {
    if kinds == [] then b
    else
      // a dictionary entry that is already there is only overwritten
      var b' := if id in b.listeners[kinds[0]] then b else AddListener(b, id, kinds[0]);
      AddListeners(b', id, kinds[1..])
  }

  function Without(ids: seq<ListenerId>, id: ListenerId): seq<ListenerId> {
    if ids == [] then [] else (if ids[0] == id then [] else [ids[0]]) + Without(ids[1..], id)
  }

  function RemoveListener(b: Bus, id: ListenerId): (r: Bus) {
    b.(listeners := map kind | kind in b.listeners :: Without(b.listeners[kind], id))
  }

  function AddTo(tables: seq<QueueConsumers>, queue: string, id: ListenerId): seq<QueueConsumers> {
    if tables == [] then [QueueConsumers(queue, [id])]
    else if tables[0].queue == queue then [tables[0].(ids := tables[0].ids + [id])] + tables[1..]
    else [tables[0]] + AddTo(tables[1..], queue, id)
  }

  function RemoveFrom(tables: seq<QueueConsumers>, id: ListenerId): seq<QueueConsumers> {
    if tables == [] then []
    else [tables[0].(ids := Without(tables[0].ids, id))] + RemoveFrom(tables[1..], id)
  }

  /** The listeners called for `e`: those under its type, then those under ANY. */
  function Recipients(b: Bus, e: Event): seq<ListenerId>
    requires Valid(b)
  {
    b.listeners[e.kind] + b.listeners[ANY]
  }

  // ---------------------------------------------------------------- one round

  datatype Outcome = Finished | Crashed | OutOfFuel

  /** `seen` is the event list as it stood when the broadcast loop stopped. */
  datatype Round = Round(bus: Bus, seen: seq<Event>, log: seq<Delivery>, outcome: Outcome)

  function Deliver(b: Bus, log: seq<Delivery>, d: Delivery, behave: Behaviour): (Bus, seq<Delivery>) {
    (b.(events := b.events + behave(|log|, d).pushed), log + [d])
  }

  /** Pulls one queue until it is empty; a raising consumer is logged and the drain goes on. */
  function DrainQueue(b: Bus, table: QueueConsumers, log: seq<Delivery>, behave: Behaviour, pick: Picker)
    : (Bus, seq<Delivery>)
    requires table.ids != []
    decreases |Waiting(b, table.queue)|
  {
    var waiting := Waiting(b, table.queue);
    if waiting == [] then (b, log)
    else
      var pulled := b.(queues := b.queues[table.queue := waiting[1..]]);
      var d := Consumed(table.queue, table.ids[pick(|log|) % |table.ids|], waiting[0]);
      var (b', log') := Deliver(pulled, log, d, behave);
      DrainQueue(b', table, log', behave, pick)
  }

  function Drain(b: Bus, tables: seq<QueueConsumers>, log: seq<Delivery>, behave: Behaviour, pick: Picker)
    : (Bus, seq<Delivery>)
    decreases |tables|
  {
    if tables == [] then (b, log)
    else
      var (b', log') := if tables[0].ids == [] then (b, log) else DrainQueue(b, tables[0], log, behave, pick);
      Drain(b', tables[1..], log', behave, pick)
  }

  function NotifyAll(ids: seq<ListenerId>, e: Event): seq<Delivery> {
    seq(|ids|, i requires 0 <= i < |ids| => Notified(ids[i], e))
  }

  /** The events pushed by the callbacks of `ds`, the first of which is delivery number `start`. */
  function PushedBy(behave: Behaviour, start: nat, ds: seq<Delivery>): seq<Event>
    decreases |ds|
  {
    if ds == [] then [] else behave(start, ds[0]).pushed + PushedBy(behave, start + 1, ds[1..])
  }

  predicate AnyRaises(behave: Behaviour, start: nat, ds: seq<Delivery>)
    decreases |ds|
  {
    ds != [] && (behave(start, ds[0]).raises || AnyRaises(behave, start + 1, ds[1..]))
  }

  lemma DrainQueueKeepsTables(b: Bus, table: QueueConsumers, log: seq<Delivery>, behave: Behaviour, pick: Picker)
    requires table.ids != []
    ensures var (b', log') := DrainQueue(b, table, log, behave, pick);
            && b'.listeners == b.listeners && b'.consumers == b.consumers && b.events <= b'.events
    decreases |Waiting(b, table.queue)|
  {
  }

  lemma DrainKeepsTables(b: Bus, tables: seq<QueueConsumers>, log: seq<Delivery>, behave: Behaviour, pick: Picker)
    ensures var (b', log') := Drain(b, tables, log, behave, pick);
            && b'.listeners == b.listeners && b'.consumers == b.consumers && b.events <= b'.events
    decreases |tables|
  {
    if tables != [] {
      if tables[0].ids != [] {
        DrainQueueKeepsTables(b, tables[0], log, behave, pick);
      }
      var (b', log') := if tables[0].ids == [] then (b, log) else DrainQueue(b, tables[0], log, behave, pick);
      DrainKeepsTables(b', tables[1..], log', behave, pick);
    }
  }

  /** The loop over the live list: events pushed by callbacks are reached too.
      `fuel` bounds how many events are handed over before the observer stops watching. */
  function Broadcast(b: Bus, i: nat, log: seq<Delivery>, behave: Behaviour, fuel: nat): Round
    requires Valid(b) && i <= |b.events|
    decreases fuel
  {
    if i == |b.events| then Round(b.(events := []), b.events, log, Finished)
    else if fuel == 0 then Round(b, b.events, log, OutOfFuel)
    else
      // `asyncio.gather` runs every listener of the event before an exception of one is seen
      var ds := NotifyAll(Recipients(b, b.events[i]), b.events[i]);
      var b' := b.(events := b.events + PushedBy(behave, |log|, ds));
      if AnyRaises(behave, |log|, ds) then Round(b', b'.events, log + ds, Crashed)
      else Broadcast(b', i + 1, log + ds, behave, fuel - 1)
  }

  function OnEvents(b: Bus, log: seq<Delivery>, behave: Behaviour, pick: Picker, fuel: nat): Round
    requires Valid(b)
  {
    DrainKeepsTables(b, b.consumers, log, behave, pick);
    var (b', log') := Drain(b, b.consumers, log, behave, pick);
    Broadcast(b', 0, log', behave, fuel)
  }
}
