/** What one bus round guarantees, and what every run of the bus keeps. */
module EventBusProperties {
  import opened EventBus
  import opened Sequences

  // ------------------------------------------------------ queues: order and conservation

  /** The events of `queue` that were handed to consumers, in hand-over order. */
  function PulledFrom(log: seq<Delivery>, queue: string): seq<Event> {
    if log == [] then []
    else (if log[0].Consumed? && log[0].queue == queue then [log[0].event] else []) + PulledFrom(log[1..], queue)
  }

  lemma {:induction false} PulledFromAppend(a: seq<Delivery>, b: seq<Delivery>, queue: string)
    ensures PulledFrom(a + b, queue) == PulledFrom(a, queue) + PulledFrom(b, queue)
    decreases |a|
  {
    if a == [] {
      assert a + b == b;
    } else {
      assert (a + b)[1..] == a[1..] + b;
      PulledFromAppend(a[1..], b, queue);
    }
  }

  /** A queue has at most one consumer table. */
  ghost predicate DistinctQueues(tables: seq<QueueConsumers>) {
    forall i, j :: 0 <= i < j < |tables| ==> tables[i].queue != tables[j].queue
  }

  function ConsumersOf(tables: seq<QueueConsumers>, queue: string): seq<ListenerId> {
    if tables == [] then []
    else if tables[0].queue == queue then tables[0].ids
    else ConsumersOf(tables[1..], queue)
  }

  /** Every delivery of `log` from position `start` on went to a consumer registered on its queue. */
  ghost predicate RightConsumers(log: seq<Delivery>, start: nat, tables: seq<QueueConsumers>) {
    forall i :: start <= i < |log| && log[i].Consumed? ==> log[i].to in ConsumersOf(tables, log[i].queue)
  }

  lemma {:induction false} DrainQueueEmpties(b: Bus, table: QueueConsumers, log: seq<Delivery>,
                                              behave: Behaviour, pick: Picker, queue: string)
    requires table.ids != []
    ensures var (b', log') := DrainQueue(b, table, log, behave, pick);
            && log <= log'
            && Waiting(b', queue) == (if queue == table.queue then [] else Waiting(b, queue))
            && PulledFrom(log', queue) + Waiting(b', queue) == PulledFrom(log, queue) + Waiting(b, queue)
            && (forall i :: |log| <= i < |log'| ==>
                  log'[i].Consumed? && log'[i].queue == table.queue && log'[i].to in table.ids)
    decreases |Waiting(b, table.queue)|
  {
    var waiting := Waiting(b, table.queue);
    if waiting != [] {
      var pulled := b.(queues := b.queues[table.queue := waiting[1..]]);
      var d := Consumed(table.queue, table.ids[pick(|log|) % |table.ids|], waiting[0]);
      var (b1, log1) := Deliver(pulled, log, d, behave);
      DrainQueueEmpties(b1, table, log1, behave, pick, queue);
      PulledFromAppend(log, [d], queue);
      if queue == table.queue {
        assert PulledFrom([d], queue) == [waiting[0]];
        assert waiting == [waiting[0]] + waiting[1..];
        Associative(PulledFrom(log, queue), [waiting[0]], waiting[1..]);
      } else {
        assert PulledFrom([d], queue) == [];
      }
    }
  }

  /** After the drain a queue with a consumer is empty and any other queue is untouched; what
      left the queue is exactly what was handed over, in order, and to its own consumers. */
  lemma {:induction false} DrainEmpties(b: Bus, tables: seq<QueueConsumers>, log: seq<Delivery>,
                                         behave: Behaviour, pick: Picker, queue: string)
    requires DistinctQueues(tables)
    ensures var (b', log') := Drain(b, tables, log, behave, pick);
            && log <= log'
            && Waiting(b', queue) == (if ConsumersOf(tables, queue) != [] then [] else Waiting(b, queue))
            && PulledFrom(log', queue) + Waiting(b', queue) == PulledFrom(log, queue) + Waiting(b, queue)
            && RightConsumers(log', |log|, tables)
    decreases |tables|
  {
    if tables != [] {
      var (b1, log1) := if tables[0].ids == [] then (b, log) else DrainQueue(b, tables[0], log, behave, pick);
      if tables[0].ids != [] {
        DrainQueueEmpties(b, tables[0], log, behave, pick, queue);
      }
      DrainEmpties(b1, tables[1..], log1, behave, pick, queue);
      var (b', log') := Drain(b, tables, log, behave, pick);
      if tables[0].queue == queue {
        NoTable(tables[1..], queue);
      }
      forall i | |log| <= i < |log'| && log'[i].Consumed?
        ensures log'[i].to in ConsumersOf(tables, log'[i].queue)
      {
        if i < |log1| {
          assert log'[i] == log1[i];
        } else if log'[i].queue == tables[0].queue {
          NoTable(tables[1..], log'[i].queue);
        }
      }
    }
  }

  /** The drain only calls consumers, and appends to the list what they push. */
  lemma {:induction false} DrainQueuePushes(b: Bus, table: QueueConsumers, log: seq<Delivery>, behave: Behaviour,
      pick: Picker)
    returns (ds: seq<Delivery>)
    requires table.ids != []
    ensures var (b', log') := DrainQueue(b, table, log, behave, pick);
            log' == log + ds && b'.events == b.events + PushedBy(behave, |log|, ds)
    ensures forall i :: 0 <= i < |ds| ==> ds[i].Consumed?
    decreases |Waiting(b, table.queue)|
  {
    var waiting := Waiting(b, table.queue);
    ds := [];
    if waiting == [] {
      assert log + [] == log && b.events + [] == b.events;
    } else {
      var pulled := b.(queues := b.queues[table.queue := waiting[1..]]);
      var d := Consumed(table.queue, table.ids[pick(|log|) % |table.ids|], waiting[0]);
      var (b1, log1) := Deliver(pulled, log, d, behave);
      var rest := DrainQueuePushes(b1, table, log1, behave, pick);
      ds := [d] + rest;
      Associative(log, [d], rest);
      assert PushedBy(behave, |log|, ds) == behave(|log|, d).pushed + PushedBy(behave, |log| + 1, rest);
      Associative(b.events, behave(|log|, d).pushed, PushedBy(behave, |log| + 1, rest));
    }
  }

  lemma {:induction false} DrainPushes(b: Bus, tables: seq<QueueConsumers>, log: seq<Delivery>, behave: Behaviour,
      pick: Picker)
    returns (ds: seq<Delivery>)
    ensures var (b', log') := Drain(b, tables, log, behave, pick);
            log' == log + ds && b'.events == b.events + PushedBy(behave, |log|, ds)
    ensures forall i :: 0 <= i < |ds| ==> ds[i].Consumed?
    decreases |tables|
  {
    ds := [];
    if tables == [] {
      assert log + [] == log && b.events + [] == b.events;
    } else {
      var (b1, log1) := if tables[0].ids == [] then (b, log) else DrainQueue(b, tables[0], log, behave, pick);
      var first := [];
      if tables[0].ids == [] {
        assert log + [] == log && b.events + [] == b.events;
      } else {
        first := DrainQueuePushes(b, tables[0], log, behave, pick);
      }
      var rest := DrainPushes(b1, tables[1..], log1, behave, pick);
      ds := first + rest;
      Associative(log, first, rest);
      PushedByAppend(behave, |log|, first, rest);
      Associative(b.events, PushedBy(behave, |log|, first), PushedBy(behave, |log1|, rest));
    }
  }

  lemma {:induction false} PulledMember(ds: seq<Delivery>, i: nat)
    requires i < |ds| && ds[i].Consumed?
    ensures ds[i].event in PulledFrom(ds, ds[i].queue)
    decreases |ds|
  {
    if i > 0 {
      assert ds[1..][i - 1] == ds[i];
      PulledMember(ds[1..], i - 1);
    }
  }

  lemma {:induction false} NoTable(tables: seq<QueueConsumers>, queue: string)
    requires forall i :: 0 <= i < |tables| ==> tables[i].queue != queue
    ensures ConsumersOf(tables, queue) == []
    decreases |tables|
  {
    if tables != [] {
      NoTable(tables[1..], queue);
    }
  }

  // ------------------------------------------------------------------ broadcast count

  /** The deliveries owed to a list of events: each to its recipients, in order. */
  function Fanout(b: Bus, events: seq<Event>): seq<Delivery>
    requires Valid(b)
  {
    if events == [] then [] else NotifyAll(Recipients(b, events[0]), events[0]) + Fanout(b, events[1..])
  }

  lemma {:induction false} PushedByAppend(behave: Behaviour, start: nat, a: seq<Delivery>, b: seq<Delivery>)
    ensures PushedBy(behave, start, a + b) == PushedBy(behave, start, a) + PushedBy(behave, start + |a|, b)
    decreases |a|
  {
    if a == [] {
      assert a + b == b;
    } else {
      assert (a + b)[1..] == a[1..] + b;
      PushedByAppend(behave, start + 1, a[1..], b);
    }
  }

  /** A broadcast loop that started at event `i` has handed over exactly what is owed to the
      events from `i` up to `j`, callbacks' own events included; a finished loop saw every event
      and clears the list, an aborted one ends with the failing event and keeps every event. */
  ghost predicate ExactBroadcast(b: Bus, i: nat, log: seq<Delivery>, behave: Behaviour, r: Round, j: nat)
    requires Valid(b)
  {
    && i <= j <= |r.seen|
    && b.events <= r.seen
    && r.log == log + Fanout(b, r.seen[i..j])
    && r.seen == b.events + PushedBy(behave, |log|, Fanout(b, r.seen[i..j]))
    && r.bus == b.(events := if r.outcome.Finished? then [] else r.seen)
    && (r.outcome.Finished? ==> j == |r.seen|)
    && (r.outcome.Crashed? ==> i < j)
  }

  lemma {:induction false} BroadcastExact(b: Bus, i: nat, log: seq<Delivery>, behave: Behaviour, fuel: nat)
    returns (j: nat)
    requires Valid(b) && i <= |b.events|
    ensures ExactBroadcast(b, i, log, behave, Broadcast(b, i, log, behave, fuel), j)
    decreases fuel
  {
    var r := Broadcast(b, i, log, behave, fuel);
    if i == |b.events| || fuel == 0 {
      j := i;
      assert r.seen[i..i] == [];
      assert b.events == b.events + [];
      assert log == log + [];
    } else {
      var owed := NotifyAll(Recipients(b, b.events[i]), b.events[i]);
      var b1 := b.(events := b.events + PushedBy(behave, |log|, owed));
      if AnyRaises(behave, |log|, owed) {
        j := i + 1;
        assert r.seen[i] == b.events[i];
        assert r.seen[i..j] == [b.events[i]];
        FanoutStep(b, b.events[i], []);
        assert [b.events[i]] + [] == [b.events[i]];
        assert owed + [] == owed;
      } else {
        j := BroadcastExact(b1, i + 1, log + owed, behave, fuel - 1);
        BroadcastTurn(b, b1, owed, i, j, log, behave, r);
      }
    }
  }

  /** What is owed to the events from `i` on: to event `i`, then to those after it. */
  lemma TurnFanout(b: Bus, b1: Bus, seen: seq<Event>, i: nat, j: nat)
    requires Valid(b) && Valid(b1) && b1.listeners == b.listeners && i < j <= |seen|
    ensures Fanout(b, seen[i..j]) == NotifyAll(Recipients(b, seen[i]), seen[i]) + Fanout(b1, seen[i + 1..j])
  {
    assert seen[i..j] == [seen[i]] + seen[i + 1..j];
    FanoutTables(b, b1, seen[i + 1..j]);
    FanoutStep(b, seen[i], seen[i + 1..j]);
  }

  /** What the callbacks of two stretches of deliveries push, appended to a list of events. */
  lemma TurnPushed(events: seq<Event>, behave: Behaviour, start: nat, owed: seq<Delivery>, rest: seq<Delivery>)
    ensures events + PushedBy(behave, start, owed) + PushedBy(behave, start + |owed|, rest)
         == events + PushedBy(behave, start, owed + rest)
  {
    PushedByAppend(behave, start, owed, rest);
    Associative(events, PushedBy(behave, start, owed), PushedBy(behave, start + |owed|, rest));
  }

  /** One turn of the loop prepended to the turns that follow it. */
  lemma BroadcastTurn(b: Bus, b1: Bus, owed: seq<Delivery>, i: nat, j: nat, log: seq<Delivery>,
                      behave: Behaviour, r: Round)
    requires Valid(b) && i < |b.events|
    requires owed == NotifyAll(Recipients(b, b.events[i]), b.events[i])
    requires b1 == b.(events := b.events + PushedBy(behave, |log|, owed))
    requires ExactBroadcast(b1, i + 1, log + owed, behave, r, j)
    ensures ExactBroadcast(b, i, log, behave, r, j)
  {
    var rest := Fanout(b1, r.seen[i + 1..j]);
    assert r.seen[i] == b1.events[i] == b.events[i];
    TurnFanout(b, b1, r.seen, i, j);
    assert |log + owed| == |log| + |owed|;
    TurnPushed(b.events, behave, |log|, owed, rest);
    Associative(log, owed, rest);
    SameTurn(b, b1, i, log, behave, r, j, owed, rest);
  }

  /** The clauses of the two turns, put together. */
  lemma SameTurn(b: Bus, b1: Bus, i: nat, log: seq<Delivery>, behave: Behaviour, r: Round, j: nat,
                 owed: seq<Delivery>, rest: seq<Delivery>)
    requires Valid(b) && Valid(b1) && b1 == b.(events := b1.events) && b.events <= b1.events
    requires ExactBroadcast(b1, i + 1, log + owed, behave, r, j) && rest == Fanout(b1, r.seen[i + 1..j])
    requires i < j <= |r.seen| && Fanout(b, r.seen[i..j]) == owed + rest
    requires log + owed + rest == log + (owed + rest)
    requires r.seen == b.events + PushedBy(behave, |log|, owed + rest)
    ensures ExactBroadcast(b, i, log, behave, r, j)
  {
  }

  lemma FanoutStep(b: Bus, e: Event, rest: seq<Event>)
    requires Valid(b)
    ensures Fanout(b, [e] + rest) == NotifyAll(Recipients(b, e), e) + Fanout(b, rest)
  {
    assert ([e] + rest)[1..] == rest;
  }

  lemma {:induction false} FanoutTables(b: Bus, b': Bus, events: seq<Event>)
    requires Valid(b) && Valid(b') && b.listeners == b'.listeners
    ensures Fanout(b, events) == Fanout(b', events)
    decreases |events|
  {
    if events != [] {
      FanoutTables(b, b', events[1..]);
    }
  }

  lemma {:induction false} NotifyAllCount(ids: seq<ListenerId>, e: Event, to: ListenerId, x: Event)
    ensures multiset(NotifyAll(ids, e))[Notified(to, x)] == if e == x then multiset(ids)[to] else 0
    decreases |ids|
  {
    if ids != [] {
      assert NotifyAll(ids, e) == [Notified(ids[0], e)] + NotifyAll(ids[1..], e);
      assert ids == [ids[0]] + ids[1..];
      NotifyAllCount(ids[1..], e, to, x);
    }
  }

  /** How often `to` is registered for events of type `kind`: under the type, and under ANY. */
  function Registrations(b: Bus, to: ListenerId, kind: EventType): nat
    requires Valid(b)
  {
    multiset(b.listeners[kind])[to] + multiset(b.listeners[ANY])[to]
  }

  /** The first event's contribution to the deliveries. */
  lemma FanoutHead(b: Bus, e: Event, rest: seq<Event>, to: ListenerId, x: Event)
    requires Valid(b)
    ensures multiset(Fanout(b, [e] + rest))[Notified(to, x)]
         == (if e == x then Registrations(b, to, x.kind) else 0) + multiset(Fanout(b, rest))[Notified(to, x)]
  {
    FanoutStep(b, e, rest);
    NotifyAllCount(Recipients(b, e), e, to, x);
  }

  lemma CountHead(e: Event, rest: seq<Event>, x: Event)
    ensures multiset([e] + rest)[x] == multiset(rest)[x] + (if e == x then 1 else 0)
  {
  }

  lemma OneMoreTimes(a: nat, b: nat, n: nat)
    ensures a == b + 1 ==> a * n == n + b * n
  {
  }

  /** A listener gets an event once per registration, for each occurrence of the event. */
  lemma {:induction false} FanoutCount(b: Bus, events: seq<Event>, to: ListenerId, x: Event)
    requires Valid(b)
    ensures multiset(Fanout(b, events))[Notified(to, x)] == multiset(events)[x] * Registrations(b, to, x.kind)
    decreases |events|
  {
    if events != [] {
      var rest := events[1..];
      assert events == [events[0]] + rest;
      FanoutHead(b, events[0], rest, to, x);
      FanoutCount(b, rest, to, x);
      CountHead(events[0], rest, x);
      OneMoreTimes(multiset(events)[x], multiset(rest)[x], Registrations(b, to, x.kind));
    }
  }

  lemma {:induction false} FanoutOnlyNotifies(b: Bus, events: seq<Event>)
    requires Valid(b)
    ensures forall i :: 0 <= i < |Fanout(b, events)| ==>
              Fanout(b, events)[i].Notified? && Fanout(b, events)[i].event in events
    decreases |events|
  {
    if events != [] {
      FanoutOnlyNotifies(b, events[1..]);
    }
  }

  /** `_on_events` as a whole.  `log` grows by the drain's deliveries, then by the broadcast's. */
  lemma {:induction false} OnEventsExact(b: Bus, log: seq<Delivery>, behave: Behaviour, pick: Picker, fuel: nat)
    returns (drained: seq<Delivery>, j: nat)
    requires Valid(b) && DistinctQueues(b.consumers)
    ensures var r := OnEvents(b, log, behave, pick, fuel);
            && drained == Drain(b, b.consumers, log, behave, pick).1
            && log <= drained && j <= |r.seen|
            && RightConsumers(drained, |log|, b.consumers)
            && Drain(b, b.consumers, log, behave, pick).0.events <= r.seen
            && b.events <= r.seen
            && r.log == drained + Fanout(b, r.seen[..j])
            && r.bus.listeners == b.listeners && r.bus.consumers == b.consumers
            && r.bus.queues == Drain(b, b.consumers, log, behave, pick).0.queues
            && r.bus.events == (if r.outcome.Finished? then [] else r.seen)
            && (r.outcome.Finished? ==> j == |r.seen|)
            && r.seen == b.events + PushedBy(behave, |log|, r.log[|log|..])
  {
    DrainKeepsTables(b, b.consumers, log, behave, pick);
    DrainEmpties(b, b.consumers, log, behave, pick, "");
    var (b1, log1) := Drain(b, b.consumers, log, behave, pick);
    drained := log1;
    j := BroadcastExact(b1, 0, log1, behave, fuel);
    var r := OnEvents(b, log, behave, pick, fuel);
    assert r.seen[0..j] == r.seen[..j];
    FanoutTables(b, b1, r.seen[..j]);
    RoundPushes(b, log, behave, pick, fuel);
  }

  /** The list a round sees is the one it found, with everything appended that the callbacks of
      the round push: those of the drain first, then those of the broadcast. */
  lemma RoundPushes(b: Bus, log: seq<Delivery>, behave: Behaviour, pick: Picker, fuel: nat)
    requires Valid(b)
    ensures var r := OnEvents(b, log, behave, pick, fuel);
            |log| <= |r.log| && r.seen == b.events + PushedBy(behave, |log|, r.log[|log|..])
  {
    DrainKeepsTables(b, b.consumers, log, behave, pick);
    var pulls := DrainPushes(b, b.consumers, log, behave, pick);
    var (b1, log1) := Drain(b, b.consumers, log, behave, pick);
    var j := BroadcastExact(b1, 0, log1, behave, fuel);
    var r := OnEvents(b, log, behave, pick, fuel);
    var owed := Fanout(b1, r.seen[0..j]);
    Associative(log, pulls, owed);
    assert r.log[|log|..] == pulls + owed;
    TurnPushed(b.events, behave, |log|, pulls, owed);
  }

  /** The count a caller sees: in a finished round each event of the list, including those pushed
      by callbacks during the round, reaches each listener exactly as often as it is registered
      for it, and the list ends empty; an aborted round drops no event from the list. */
  lemma {:induction false} BroadcastCount(b: Bus, log: seq<Delivery>, behave: Behaviour, pick: Picker, fuel: nat,
                                           to: ListenerId, x: Event)
    requires Valid(b) && DistinctQueues(b.consumers)
    ensures var r := OnEvents(b, log, behave, pick, fuel);
            && |log| <= |r.log| && r.seen == b.events + PushedBy(behave, |log|, r.log[|log|..])
            && (r.outcome.Finished? ==>
                  && r.bus.events == []
                  && multiset(r.log)[Notified(to, x)] == multiset(log)[Notified(to, x)]
                     + multiset(r.seen)[x] * Registrations(b, to, x.kind))
            && (!r.outcome.Finished? ==> r.bus.events == r.seen)
  {
    var drained, j := OnEventsExact(b, log, behave, pick, fuel);
    var r := OnEvents(b, log, behave, pick, fuel);
    DrainOnlyConsumes(b, b.consumers, log, behave, pick, to, x);
    if r.outcome.Finished? {
      assert r.seen[..j] == r.seen;
      FanoutCount(b, r.seen, to, x);
    }
  }

  lemma {:induction false} DrainQueueOnlyConsumes(b: Bus, table: QueueConsumers, log: seq<Delivery>,
                                                   behave: Behaviour, pick: Picker, to: ListenerId, x: Event)
    requires table.ids != []
    ensures multiset(DrainQueue(b, table, log, behave, pick).1)[Notified(to, x)] == multiset(log)[Notified(to, x)]
    decreases |Waiting(b, table.queue)|
  {
    var waiting := Waiting(b, table.queue);
    if waiting != [] {
      var pulled := b.(queues := b.queues[table.queue := waiting[1..]]);
      var d := Consumed(table.queue, table.ids[pick(|log|) % |table.ids|], waiting[0]);
      var (b1, log1) := Deliver(pulled, log, d, behave);
      DrainQueueOnlyConsumes(b1, table, log1, behave, pick, to, x);
    }
  }

  lemma {:induction false} DrainOnlyConsumes(b: Bus, tables: seq<QueueConsumers>, log: seq<Delivery>,
                                              behave: Behaviour, pick: Picker, to: ListenerId, x: Event)
    ensures multiset(Drain(b, tables, log, behave, pick).1)[Notified(to, x)] == multiset(log)[Notified(to, x)]
    decreases |tables|
  {
    if tables != [] {
      if tables[0].ids != [] {
        DrainQueueOnlyConsumes(b, tables[0], log, behave, pick, to, x);
      }
      var (b1, log1) := if tables[0].ids == [] then (b, log) else DrainQueue(b, tables[0], log, behave, pick);
      DrainOnlyConsumes(b1, tables[1..], log1, behave, pick, to, x);
    }
  }

  /** How long the observer watches does not matter once the round has ended. */
  lemma {:induction false} FuelIrrelevant(b: Bus, i: nat, log: seq<Delivery>, behave: Behaviour, fuel: nat, more: nat)
    requires Valid(b) && i <= |b.events| && fuel <= more
    requires !Broadcast(b, i, log, behave, fuel).outcome.OutOfFuel?
    ensures Broadcast(b, i, log, behave, more) == Broadcast(b, i, log, behave, fuel)
    decreases fuel
  {
    if i < |b.events| {
      var ds := NotifyAll(Recipients(b, b.events[i]), b.events[i]);
      if !AnyRaises(behave, |log|, ds) {
        FuelIrrelevant(b.(events := b.events + PushedBy(behave, |log|, ds)), i + 1, log + ds, behave, fuel - 1,
            more - 1);
      }
    }
  }

  // ------------------------------------------------------------------ raising callbacks

  lemma {:induction false} RaisesMeans(behave: Behaviour, log: seq<Delivery>, ds: seq<Delivery>)
    ensures AnyRaises(behave, |log|, ds) <==>
            exists k :: |log| <= k < |log + ds| && behave(k, (log + ds)[k]).raises
    decreases |ds|
  {
    if ds != [] {
      RaisesMeans(behave, log + [ds[0]], ds[1..]);
      assert log + [ds[0]] + ds[1..] == log + ds;
      assert (log + ds)[|log|] == ds[0];
      if k :| |log| <= k < |log + ds| && behave(k, (log + ds)[k]).raises {
        assert k == |log| || k >= |log + [ds[0]]|;
      }
    }
  }

  lemma {:induction false} BroadcastRaises(b: Bus, i: nat, log: seq<Delivery>, behave: Behaviour, fuel: nat)
    requires Valid(b) && i <= |b.events|
    ensures var r := Broadcast(b, i, log, behave, fuel);
            && log <= r.log && (forall k :: |log| <= k < |r.log| ==> r.log[k].Notified?)
            && (r.outcome.Crashed? <==> exists k :: |log| <= k < |r.log| && behave(k, r.log[k]).raises)
    decreases fuel
  {
    if i < |b.events| && fuel > 0 {
      var ds := NotifyAll(Recipients(b, b.events[i]), b.events[i]);
      RaisesMeans(behave, log, ds);
      if !AnyRaises(behave, |log|, ds) {
        var b' := b.(events := b.events + PushedBy(behave, |log|, ds));
        BroadcastRaises(b', i + 1, log + ds, behave, fuel - 1);
        var r := Broadcast(b, i, log, behave, fuel);
        forall k | |log| <= k < |r.log| && k < |log + ds| ensures r.log[k] == (log + ds)[k] {
        }
      }
    }
  }

  /** A round is aborted exactly when one of the listeners it calls raises; a consumer that raises
      does not abort it. */
  lemma AbortedIffListenerRaises(b: Bus, log: seq<Delivery>, behave: Behaviour, pick: Picker, fuel: nat)
    requires Valid(b)
    ensures var r := OnEvents(b, log, behave, pick, fuel);
            && log <= r.log
            && (r.outcome.Crashed? <==>
                exists k :: |log| <= k < |r.log| && r.log[k].Notified? && behave(k, r.log[k]).raises)
  {
    DrainKeepsTables(b, b.consumers, log, behave, pick);
    var pulls := DrainPushes(b, b.consumers, log, behave, pick);
    var (b1, log1) := Drain(b, b.consumers, log, behave, pick);
    BroadcastRaises(b1, 0, log1, behave, fuel);
    var r := OnEvents(b, log, behave, pick, fuel);
    forall k | |log| <= k < |log1| ensures r.log[k].Consumed? {
      assert r.log[k] == pulls[k - |log|];
    }
  }

  // ------------------------------------------------------------------------ whole runs

  datatype Op =
    | PushOp(event: Event)
    | QueueOp(event: Event, queue: string)
    | AddConsumerOp(queue: string, id: ListenerId)
    | RemoveConsumerOp(id: ListenerId)
    | AddListenerOp(id: ListenerId, kinds: seq<EventType>)
    | RemoveListenerOp(id: ListenerId)
    | RoundOp(behave: Behaviour, pick: Picker, fuel: nat)

  datatype State = State(bus: Bus, log: seq<Delivery>)

  /** An empty type filter registers under ANY. */
  function KindsOrAny(kinds: seq<EventType>): seq<EventType> {
    if kinds == [] then [ANY] else kinds
  }

  ghost predicate Sound(s: State) {
    Valid(s.bus) && DistinctQueues(s.bus.consumers)
  }

  function Apply(s: State, op: Op): State
    requires Valid(s.bus)
  {
    match op
    case PushOp(e) => s.(bus := Push(s.bus, e))
    case QueueOp(e, queue) => s.(bus := Enqueue(s.bus, e, queue))
    case AddConsumerOp(queue, id) => s.(bus := s.bus.(consumers := AddTo(s.bus.consumers, queue, id)))
    case RemoveConsumerOp(id) => s.(bus := s.bus.(consumers := RemoveFrom(s.bus.consumers, id)))
    case AddListenerOp(id, kinds) => s.(bus := AddListeners(s.bus, id, KindsOrAny(kinds)))
    case RemoveListenerOp(id) => s.(bus := RemoveListener(s.bus, id))
    case RoundOp(behave, pick, fuel) =>
      var r := OnEvents(s.bus, s.log, behave, pick, fuel);
      State(r.bus, r.log)
  }

  /** All the events ever queued on `queue` by the operations `ops`, in order. */
  function QueuedBy(ops: seq<Op>, queue: string): seq<Event> {
    if ops == [] then []
    else
      var last := ops[|ops| - 1];
      QueuedBy(ops[..|ops| - 1], queue)
      + (if last.QueueOp? && last.queue == queue then [last.event] else [])
  }

  lemma {:induction false} AddToDistinct(tables: seq<QueueConsumers>, queue: string, id: ListenerId)
    requires DistinctQueues(tables)
    ensures DistinctQueues(AddTo(tables, queue, id))
    ensures forall i :: 0 <= i < |AddTo(tables, queue, id)| ==>
              AddTo(tables, queue, id)[i].queue == queue || exists j ::
                  0 <= j < |tables| && tables[j].queue == AddTo(tables, queue, id)[i].queue
    decreases |tables|
  {
    var r := AddTo(tables, queue, id);
    if tables == [] {
    } else if tables[0].queue == queue {
      forall i | 0 <= i < |r| ensures r[i].queue == tables[i].queue {}
    } else {
      AddToDistinct(tables[1..], queue, id);
      var rest := AddTo(tables[1..], queue, id);
      forall i | 0 <= i < |rest|
        ensures rest[i].queue != tables[0].queue
        ensures rest[i].queue == queue || exists j :: 0 <= j < |tables| && tables[j].queue == rest[i].queue
      {
        if rest[i].queue != queue {
          var j :| 0 <= j < |tables[1..]| && tables[1..][j].queue == rest[i].queue;
          assert tables[j + 1].queue == rest[i].queue;
        }
      }
      forall i | 0 <= i < |r|
        ensures r[i].queue == queue || exists j :: 0 <= j < |tables| && tables[j].queue == r[i].queue
      {
        if i > 0 { assert r[i] == rest[i - 1]; } else { assert tables[0].queue == r[0].queue; }
      }
    }
  }

  lemma {:induction false} RemoveFromQueues(tables: seq<QueueConsumers>, id: ListenerId)
    ensures |RemoveFrom(tables, id)| == |tables|
    ensures forall i :: 0 <= i < |tables| ==> RemoveFrom(tables, id)[i] == tables[i].(ids := Without(tables[i].ids, id))
    decreases |tables|
  {
    if tables != [] {
      RemoveFromQueues(tables[1..], id);
    }
  }

  lemma {:induction false} AddListenersKeeps(b: Bus, id: ListenerId, kinds: seq<EventType>)
    requires Valid(b)
    ensures var r := AddListeners(b, id, kinds);
            r.events == b.events && r.queues == b.queues && r.consumers == b.consumers
    decreases |kinds|
  {
    if kinds != [] {
      var b' := if id in b.listeners[kinds[0]] then b else AddListener(b, id, kinds[0]);
      AddListenersKeeps(b', id, kinds[1..]);
    }
  }

  /** The identifier is appended under each of the kinds, once, and under no other. */
  lemma {:induction false} AddListenersExactly(b: Bus, id: ListenerId, kinds: seq<EventType>, kind: EventType)
    requires Valid(b)
    ensures AddListeners(b, id, kinds).listeners[kind]
         == b.listeners[kind] + (if kind in kinds && id !in b.listeners[kind] then [id] else [])
    decreases |kinds|
  {
    if kinds != [] {
      var b' := if id in b.listeners[kinds[0]] then b else AddListener(b, id, kinds[0]);
      AddListenersExactly(b', id, kinds[1..], kind);
      assert kind in kinds <==> kind == kinds[0] || kind in kinds[1..];
      assert b.listeners[kind] + [] == b.listeners[kind];
    }
  }

  /** What a registration does to the tables: the identifier is appended to the table of the queue,
      which is created when there is none, and the other tables stay as they are. */
  ghost predicate Registered(before: seq<QueueConsumers>, after: seq<QueueConsumers>, queue: string, id: ListenerId) {
    && |before| <= |after| <= |before| + 1
    && (forall i :: 0 <= i < |before| ==>
          after[i] == if before[i].queue == queue then QueueConsumers(queue, before[i].ids + [id]) else before[i])
    && (|after| == |before| <==> exists i :: 0 <= i < |before| && before[i].queue == queue)
    && (|after| > |before| ==> after[|before|] == QueueConsumers(queue, [id]))
  }

  lemma {:induction false} AddToExactly(tables: seq<QueueConsumers>, queue: string, id: ListenerId)
    requires DistinctQueues(tables)
    ensures Registered(tables, AddTo(tables, queue, id), queue, id)
    decreases |tables|
  {
    if tables != [] {
      var rest, after := tables[1..], AddTo(tables, queue, id);
      if tables[0].queue == queue {
        forall i | 0 < i < |tables| ensures after[i] == tables[i] && tables[i].queue != queue {
        }
      } else {
        AddToExactly(rest, queue, id);
        forall i | 0 <= i < |rest| ensures after[i + 1] == AddTo(rest, queue, id)[i] && tables[i + 1] == rest[i] {
        }
        if i :| 0 <= i < |tables| && tables[i].queue == queue {
          assert rest[i - 1].queue == queue;
        }
      }
    }
  }

  lemma {:induction false} WithoutExactly(ids: seq<ListenerId>, id: ListenerId)
    ensures multiset(Without(ids, id)) == multiset(ids)[id := 0]
  {
    if ids != [] {
      WithoutExactly(ids[1..], id);
      assert ids == [ids[0]] + ids[1..];
    }
  }

  /** Queue contents in a state: what was pulled from the queue, then what waits in it. */
  function Contents(s: State, queue: string): seq<Event> {
    PulledFrom(s.log, queue) + Waiting(s.bus, queue)
  }

  lemma RoundConserves(s: State, behave: Behaviour, pick: Picker, fuel: nat, queue: string)
    requires Sound(s)
    ensures Sound(Apply(s, RoundOp(behave, pick, fuel)))
    ensures Contents(Apply(s, RoundOp(behave, pick, fuel)), queue) == Contents(s, queue)
  {
    var drained, j := OnEventsExact(s.bus, s.log, behave, pick, fuel);
    var r := OnEvents(s.bus, s.log, behave, pick, fuel);
    var owed := Fanout(s.bus, r.seen[..j]);
    DrainEmpties(s.bus, s.bus.consumers, s.log, behave, pick, queue);
    FanoutOnlyNotifies(s.bus, r.seen[..j]);
    NotificationsPullNothing(owed, queue);
    PulledFromAppend(drained, owed, queue);
    assert PulledFrom(drained, queue) + [] == PulledFrom(drained, queue);
  }

  lemma QueueOpConserves(s: State, e: Event, q: string, queue: string)
    requires Sound(s)
    ensures Contents(Apply(s, QueueOp(e, q)), queue) == Contents(s, queue) + (if q == queue then [e] else [])
  {
    if q == queue {
      Associative(PulledFrom(s.log, queue), Waiting(s.bus, queue), [e]);
    }
  }

  /** One operation keeps the tables well formed, and moves events of a queue only from its
      front to the log. */
  lemma {:induction false} ApplyConserves(s: State, op: Op, queue: string)
    requires Sound(s)
    ensures Sound(Apply(s, op))
    ensures Contents(Apply(s, op), queue)
         == Contents(s, queue) + (if op.QueueOp? && op.queue == queue then [op.event] else [])
  {
    match op {
      case QueueOp(e, q) => QueueOpConserves(s, e, q, queue);
      case AddConsumerOp(q, id) => AddToDistinct(s.bus.consumers, q, id);
      case RemoveConsumerOp(id) => RemoveFromQueues(s.bus.consumers, id);
      case AddListenerOp(id, kinds) => AddListenersKeeps(s.bus, id, KindsOrAny(kinds));
      case RoundOp(behave, pick, fuel) => RoundConserves(s, behave, pick, fuel, queue);
      case _ =>
    }
  }

  lemma {:induction false} NotificationsPullNothing(ds: seq<Delivery>, queue: string)
    requires forall i :: 0 <= i < |ds| ==> ds[i].Notified?
    ensures PulledFrom(ds, queue) == []
    decreases |ds|
  {
    if ds != [] {
      NotificationsPullNothing(ds[1..], queue);
    }
  }

  ghost function RunFrom(s: State, ops: seq<Op>): (r: State)
    requires Sound(s)
    ensures Sound(r)
    decreases |ops|
  {
    if ops == [] then s
    else
      var s' := RunFrom(s, ops[..|ops| - 1]);
      ApplyConserves(s', ops[|ops| - 1], "");
      Apply(s', ops[|ops| - 1])
  }

  /** Queue conservation and order, in every reachable state and for every queue: what was queued
      is what was handed to consumers followed by what still waits, in the same order. */
  lemma {:induction false} QueueConservation(ops: seq<Op>, queue: string)
    ensures Sound(State(EmptyBus, []))
    ensures var s := RunFrom(State(EmptyBus, []), ops);
            QueuedBy(ops, queue) == PulledFrom(s.log, queue) + Waiting(s.bus, queue)
    decreases |ops|
  {
    if ops != [] {
      QueueConservation(ops[..|ops| - 1], queue);
      ApplyConserves(RunFrom(State(EmptyBus, []), ops[..|ops| - 1]), ops[|ops| - 1], queue);
    }
  }

  lemma NotificationsConsumeNothing(drained: seq<Delivery>, owed: seq<Delivery>, start: nat,
      tables: seq<QueueConsumers>)
    requires start <= |drained| && RightConsumers(drained, start, tables)
    requires forall i :: 0 <= i < |owed| ==> owed[i].Notified?
    ensures RightConsumers(drained + owed, start, tables)
  {
  }

  /** A round hands over each pulled event to a consumer of its queue. */
  lemma RoundConsumesRightly(s: State, behave: Behaviour, pick: Picker, fuel: nat)
    requires Sound(s)
    ensures RightConsumers(Apply(s, RoundOp(behave, pick, fuel)).log, |s.log|, s.bus.consumers)
  {
    var drained, j := OnEventsExact(s.bus, s.log, behave, pick, fuel);
    var r := OnEvents(s.bus, s.log, behave, pick, fuel);
    var owed := Fanout(s.bus, r.seen[..j]);
    FanoutOnlyNotifies(s.bus, r.seen[..j]);
    NotificationsConsumeNothing(drained, owed, |s.log|, s.bus.consumers);
    assert r.log == drained + owed;
  }

  /** What a round leaves in a queue. */
  lemma RoundLeaves(s: State, behave: Behaviour, pick: Picker, fuel: nat, queue: string)
    requires Sound(s)
    ensures Waiting(Apply(s, RoundOp(behave, pick, fuel)).bus, queue)
         == (if ConsumersOf(s.bus.consumers, queue) == [] then Waiting(s.bus, queue) else [])
  {
    var drained, j := OnEventsExact(s.bus, s.log, behave, pick, fuel);
    DrainEmpties(s.bus, s.bus.consumers, s.log, behave, pick, queue);
  }

  /** One round, per queue: queues with a consumer are emptied in order and to their own
      consumers even when consumers raise; queues without one are untouched. */
  lemma RoundPerQueue(s: State, behave: Behaviour, pick: Picker, fuel: nat, queue: string)
    requires Sound(s)
    ensures var s' := Apply(s, RoundOp(behave, pick, fuel));
            && RightConsumers(s'.log, |s.log|, s.bus.consumers)
            && (if ConsumersOf(s.bus.consumers, queue) == []
                then Waiting(s'.bus, queue) == Waiting(s.bus, queue)
                     && PulledFrom(s'.log, queue) == PulledFrom(s.log, queue)
                else Waiting(s'.bus, queue) == []
                     && PulledFrom(s'.log, queue) == PulledFrom(s.log, queue) + Waiting(s.bus, queue))
  {
    RoundConsumesRightly(s, behave, pick, fuel);
    RoundLeaves(s, behave, pick, fuel, queue);
    RoundConserves(s, behave, pick, fuel, queue);
    var s' := Apply(s, RoundOp(behave, pick, fuel));
    if ConsumersOf(s.bus.consumers, queue) != [] {
      assert PulledFrom(s'.log, queue) + [] == PulledFrom(s'.log, queue);
    } else {
      SameSuffix(PulledFrom(s'.log, queue), PulledFrom(s.log, queue), Waiting(s.bus, queue));
    }
  }

  lemma SameSuffix(a: seq<Event>, b: seq<Event>, c: seq<Event>)
    requires a + c == b + c
    ensures a == b
  {
    assert |a| == |b|;
    assert a == (a + c)[..|a|] == (b + c)[..|b|] == b;
  }
}
