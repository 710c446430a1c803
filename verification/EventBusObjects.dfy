/** The in-memory back end and the bus service as objects that update their fields in place. */
module EventBusObjects {
  import opened EventBus
  import opened EventBusProperties

  class LocalEventBus {
    var events: seq<Event>
    var queues: map<string, seq<Event>>

    constructor ()
      ensures events == [] && queues == map[]
    {
      events, queues := [], map[];
    }

    method PushEvent(event: Event)
      modifies this`events
      ensures events == old(events) + [event]
    {
      events := events + [event];
    }

    method ClearEvents()
      modifies this`events
      ensures events == []
    {
      events := [];
    }

    method QueueEvent(event: Event, queue: string)
      modifies this`queues
      ensures queues == old(queues)[queue := (if queue in old(queues) then old(queues)[queue] else []) + [event]]
    {
      if queue !in queues {
        queues := queues[queue := []];
      }
      queues := queues[queue := queues[queue] + [event]];
    }

    /** First in, first out; nothing when the queue is unknown or empty. */
    method PullQueue(queue: string) returns (event: seq<Event>)
      modifies this`queues
      ensures var waiting := if queue in old(queues) then old(queues)[queue] else [];
              if waiting == [] then event == [] && queues == old(queues)
              else event == [waiting[0]] && queues == old(queues)[queue := waiting[1..]]
    {
      if queue in queues && |queues[queue]| > 0 {
        event := [queues[queue][0]];
        queues := queues[queue := queues[queue][1..]];
      } else {
        event := [];
      }
    }
  }

  class EventBusService {
    const backend: LocalEventBus
    var listeners: map<EventType, seq<ListenerId>>
    var consumers: seq<QueueConsumers>
    /** Stands for `uuid4`: the next identifier nobody holds. */
    var nextId: ListenerId
    /** Every callback call so far, oldest first. */
    var log: seq<Delivery>

    ghost function Model(): Bus
      reads this, backend
    {
      Bus(backend.events, backend.queues, listeners, consumers)
    }

    ghost predicate WellFormed()
      reads this, backend
    {
      && Sound(State(Model(), log))
      && (forall kind, id :: kind in listeners && id in listeners[kind] ==> id < nextId)
      && (forall i, id :: 0 <= i < |consumers| && id in consumers[i].ids ==> id < nextId)
    }

    constructor (backend: LocalEventBus)
      requires backend.events == [] && backend.queues == map[]
      ensures this.backend == backend
      ensures WellFormed() && Model() == EmptyBus && log == []
    {
      this.backend := backend;
      listeners := EmptyBus.listeners;
      consumers, nextId, log := [], 0, [];
    }

    method PushEvent(event: Event)
      requires WellFormed()
      modifies backend
      ensures WellFormed() && State(Model(), log) == Apply(old(State(Model(), log)), PushOp(event))
    {
      backend.PushEvent(event);
    }

    method QueueEvent(event: Event, queue: string)
      requires WellFormed()
      modifies backend
      ensures WellFormed() && State(Model(), log) == Apply(old(State(Model(), log)), QueueOp(event, queue))
    {
      backend.QueueEvent(event, queue);
    }

    method AddQueueConsumer(queue: string) returns (id: ListenerId)
      requires WellFormed()
      modifies this
      ensures WellFormed() && State(Model(), log) == Apply(old(State(Model(), log)), AddConsumerOp(queue, id))
      ensures forall i :: 0 <= i < |old(consumers)| ==> id !in old(consumers)[i].ids
      ensures Registered(old(consumers), consumers, queue, id)
    {
      id := nextId;
      AddToExactly(consumers, queue, id);
      AddToDistinct(consumers, queue, id);
      AddToMembers(consumers, queue, id);
      consumers, nextId := AddTo(consumers, queue, id), nextId + 1;
    }

    method RemoveQueueConsumer(id: ListenerId)
      requires WellFormed()
      modifies this`consumers
      ensures WellFormed() && State(Model(), log) == Apply(old(State(Model(), log)), RemoveConsumerOp(id))
      ensures |consumers| == |old(consumers)|
      ensures forall i :: 0 <= i < |consumers| ==>
                && consumers[i].queue == old(consumers)[i].queue
                && multiset(consumers[i].ids) == multiset(old(consumers)[i].ids)[id := 0]
    {
      RemoveFromQueues(consumers, id);
      ghost var target := RemoveFrom(consumers, id);
      var i := 0;
      while i < |consumers|
        invariant 0 <= i <= |consumers| == |old(consumers)|
        invariant forall k :: 0 <= k < |consumers| ==> consumers[k] == if k < i then target[k] else old(consumers)[k]
      {
        consumers := consumers[i := consumers[i].(ids := Without(consumers[i].ids, id))];
        i := i + 1;
      }
      assert consumers == target;
      RemoveFromExactly(old(consumers), id);
    }

    method AddListener(typeFilter: seq<EventType>) returns (id: ListenerId)
      requires WellFormed()
      modifies this
      ensures WellFormed() && State(Model(), log) == Apply(old(State(Model(), log)), AddListenerOp(id, typeFilter))
      ensures forall kind :: kind in old(listeners) ==> id !in old(listeners)[kind]
      ensures forall kind :: kind in listeners && kind in old(listeners) && listeners[kind] ==
                old(listeners)[kind] +
                (if kind in typeFilter || (typeFilter == [] && kind == ANY) then [id] else [])
    {
      id := nextId;
      var types := KindsOrAny(typeFilter);
      ghost var before := Model();
      AddListenersKeeps(before, id, types);
      ghost var target := AddListeners(before, id, types);
      nextId := nextId + 1;
      var i := 0;
      while i < |types|
        invariant 0 <= i <= |types|
        invariant consumers == old(consumers) && log == old(log) && nextId == id + 1
        invariant Valid(Model()) && AddListeners(Model(), id, types[i..]) == target
        invariant forall kind, other :: kind in listeners && other in listeners[kind] ==> other < nextId
      {
        if id !in listeners[types[i]] {
          listeners := listeners[types[i] := listeners[types[i]] + [id]];
        }
        i := i + 1;
        assert types[i - 1..][1..] == types[i..];
      }
      forall kind: EventType
        ensures listeners[kind] == before.listeners[kind] + if kind in types then [id] else []
      {
        AddListenersExactly(before, id, types, kind);
      }
    }

    method RemoveListener(id: ListenerId)
      requires WellFormed()
      modifies this`listeners
      ensures WellFormed() && State(Model(), log) == Apply(old(State(Model(), log)), RemoveListenerOp(id))
      ensures listeners.Keys == old(listeners).Keys
      ensures forall kind :: kind in listeners ==> multiset(listeners[kind]) == multiset(old(listeners)[kind])[id := 0]
    {
      ghost var before := Model();
      RemoveListenerExactly(before, id);
      listeners := map kind | kind in listeners :: Without(listeners[kind], id);
      assert Model() == EventBus.RemoveListener(before, id);
    }

    /** `_on_events`: drains the queues that have a consumer, then broadcasts the live list. */
    method OnEvents(behave: Behaviour, pick: Picker, fuel: nat) returns (outcome: Outcome)
      requires WellFormed()
      modifies this`log, backend
      ensures WellFormed() && State(Model(), log) == Apply(old(State(Model(), log)), RoundOp(behave, pick, fuel))
      ensures outcome == EventBus.OnEvents(old(Model()), old(log), behave, pick, fuel).outcome
    {
      ApplyConserves(State(Model(), log), RoundOp(behave, pick, fuel), "");
      DrainKeepsTables(Model(), consumers, log, behave, pick);
      DrainQueues(behave, pick);
      outcome := BroadcastEvents(behave, fuel);
    }

    /** The loop over the consumer tables. */
    method DrainQueues(behave: Behaviour, pick: Picker)
      modifies this`log, backend
      ensures (Model(), log) == Drain(old(Model()), old(consumers), old(log), behave, pick)
    {
      ghost var before, oldLog := Model(), log;
      var t := 0;
      while t < |consumers|
        invariant 0 <= t <= |consumers|
        invariant Drain(Model(), consumers[t..], log, behave, pick) == Drain(before, consumers, oldLog, behave, pick)
        modifies this`log, backend
      {
        assert consumers[t..][1..] == consumers[t + 1..];
        if |consumers[t].ids| > 0 {
          DrainOneQueue(t, behave, pick);
        }
        t := t + 1;
      }
    }

    /** The loop over the live list, and the clearing behind it. */
    method BroadcastEvents(behave: Behaviour, fuel: nat) returns (outcome: Outcome)
      requires Valid(Model())
      modifies this`log, backend
      ensures Valid(old(Model()))
      ensures var r := Broadcast(old(Model()), 0, old(log), behave, fuel);
              Model() == r.bus && log == r.log && outcome == r.outcome
    {
      ghost var before, oldLog := Model(), log;
      var i := 0;
      outcome := OutOfFuel;
      var watched := 0;
      while i < |backend.events| && watched < fuel
        invariant 0 <= i <= |backend.events| && 0 <= watched <= fuel
        invariant Valid(Model())
        invariant Broadcast(Model(), i, log, behave, fuel - watched) == Broadcast(before, 0, oldLog, behave, fuel)
        decreases fuel - watched
      {
        var event := backend.events[i];
        var ds := NotifyAll(listeners[event.kind] + listeners[ANY], event);
        var raised := AnyRaises(behave, |log|, ds);
        backend.events := backend.events + PushedBy(behave, |log|, ds);
        log := log + ds;
        if raised {
          outcome := Crashed;
          return;
        }
        i, watched := i + 1, watched + 1;
      }
      if i == |backend.events| {
        backend.ClearEvents();
        outcome := Finished;
      }
    }

    method DrainOneQueue(t: nat, behave: Behaviour, pick: Picker)
      requires t < |consumers| && consumers[t].ids != []
      modifies this`log, backend
      ensures (Model(), log) == DrainQueue(old(Model()), consumers[t], old(log), behave, pick)
    {
      ghost var before, oldLog := Model(), log;
      ghost var target := DrainQueue(before, consumers[t], oldLog, behave, pick);
      var queue, ids := consumers[t].queue, consumers[t].ids;
      label start:
      var event := backend.PullQueue(queue);
      ghost var pulling := before;
      while event != []
        invariant |event| <= 1
        invariant listeners == pulling.listeners && consumers == pulling.consumers && backend.events == pulling.events
        invariant var waiting := Waiting(pulling, queue);
                  if waiting == [] then event == [] && backend.queues == pulling.queues
                  else event == [waiting[0]] && backend.queues == pulling.queues[queue := waiting[1..]]
        invariant DrainQueue(pulling, consumers[t], log, behave, pick) == target
        decreases |Waiting(pulling, queue)|
      {
        var d := Consumed(queue, ids[pick(|log|) % |ids|], event[0]);
        backend.events := backend.events + behave(|log|, d).pushed;
        log := log + [d];
        pulling := Model();
        event := backend.PullQueue(queue);
      }
    }
  }

  lemma {:induction false} WithoutMembers(ids: seq<ListenerId>, id: ListenerId)
    ensures forall other :: other in Without(ids, id) <==> other in ids && other != id
    decreases |ids|
  {
    if ids != [] {
      WithoutMembers(ids[1..], id);
    }
  }

  lemma RemoveFromExactly(tables: seq<QueueConsumers>, id: ListenerId)
    ensures var after := RemoveFrom(tables, id);
            && |after| == |tables|
            && (forall i :: 0 <= i < |tables| ==>
                  && after[i].queue == tables[i].queue
                  && multiset(after[i].ids) == multiset(tables[i].ids)[id := 0])
            && (forall i, other :: 0 <= i < |tables| && other in after[i].ids ==> other in tables[i].ids)
  {
    RemoveFromQueues(tables, id);
    forall i | 0 <= i < |tables|
      ensures multiset(Without(tables[i].ids, id)) == multiset(tables[i].ids)[id := 0]
    {
      WithoutExactly(tables[i].ids, id);
    }
    forall i, other | 0 <= i < |tables| && other in Without(tables[i].ids, id) ensures other in tables[i].ids {
      WithoutMembers(tables[i].ids, id);
    }
  }

  lemma RemoveListenerExactly(b: Bus, id: ListenerId)
    ensures var after := EventBus.RemoveListener(b, id).listeners;
            && after.Keys == b.listeners.Keys
            && (forall kind :: kind in after ==> multiset(after[kind]) == multiset(b.listeners[kind])[id := 0])
            && (forall kind, other :: kind in after && other in after[kind] ==> other in b.listeners[kind])
  {
    var after := EventBus.RemoveListener(b, id).listeners;
    forall kind | kind in after ensures multiset(after[kind]) == multiset(b.listeners[kind])[id := 0] {
      WithoutExactly(b.listeners[kind], id);
    }
    forall kind, other | kind in after && other in after[kind] ensures other in b.listeners[kind] {
      WithoutMembers(b.listeners[kind], id);
    }
  }

  lemma {:induction false} AddToMembers(tables: seq<QueueConsumers>, queue: string, id: ListenerId)
    ensures forall i, x :: 0 <= i < |AddTo(tables, queue, id)| && x in AddTo(tables, queue, id)[i].ids ==>
              x == id || exists j :: 0 <= j < |tables| && x in tables[j].ids
    decreases |tables|
  {
    if tables != [] && tables[0].queue != queue {
      AddToMembers(tables[1..], queue, id);
      var rest := AddTo(tables[1..], queue, id);
      forall i, x | 0 <= i < |AddTo(tables, queue, id)| && x in AddTo(tables, queue, id)[i].ids
        ensures x == id || exists j :: 0 <= j < |tables| && x in tables[j].ids
      {
        if i > 0 && x != id {
          assert x in rest[i - 1].ids;
          var j :| 0 <= j < |tables[1..]| && x in tables[1..][j].ids;
          assert x in tables[j + 1].ids;
        }
      }
    }
  }
}
