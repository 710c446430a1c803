/** The two ends of the worker protocol as objects: the waiter of `_create_worker_task` and the
    worker with its pool, while everybody else acts as they please in between. */
module WorkerService {
  import opened Options
  import opened EventBus
  import opened EventBusProperties
  import opened WorkerProtocol
  import opened WorkerProtocolProofs
  import opened WorkerProtocolRounds

  /** What can be checked of a step when it is tried; the rest is the honesty of its callbacks. */
  predicate Possible(w: World, s: Step)
    requires Valid(w.bus)
  {
    match s
    case Listen(t, _, _) => t !in w.waiters
    case Send(t) => t in w.waiters && w.waiters[t].pc == Listening
    case Take(t) => t in w.waiters && w.waiters[t].pc == Awaiting && w.waiters[t].wrapper != []
    case AddWorker(_) => true
    case OtherListener(_) => true
    case OtherPush(e) => e.kind != WORKER_TASK_ENDED
    case BusRound(behave, pick, fuel) => OnEvents(w.bus, w.log, behave, pick, fuel).outcome != OutOfFuel
    case Execute(c, _) => c in w.running && c.Command?
    case Publish(e) => e in w.finished
  }

  ghost predicate HonestStep(s: Step) {
    s.BusRound? ==> Honest(s.behave)
  }

  ghost predicate HonestPlan(plan: seq<Step>) {
    forall i :: 0 <= i < |plan| ==> HonestStep(plan[i])
  }

  /** The part of a waiter that only its own thread writes. */
  ghost predicate SameWaiter(w: World, w': World, t: string) {
    && t in w.waiters && t in w'.waiters
    && w'.waiters[t].(wrapper := []) == w.waiters[t].(wrapper := [])
  }

  lemma OthersKeepWaiter(w: World, s: Step, t: string)
    requires Valid(w.bus) && Enabled(w, s) && t in w.waiters && !StepOf(s, t)
    ensures SameWaiter(w, Next(w, s), t)
  {
  }

  lemma ListenerGone(w: World, t: string)
    requires Valid(w.bus) && t in w.waiters && w.waiters[t].wrapper != []
    ensures Registrations(AfterTake(w, t).bus, w.waiters[t].listener, WORKER_TASK_ENDED) == 0
  {
    WithoutCount(w.bus.listeners[WORKER_TASK_ENDED], w.waiters[t].listener, w.waiters[t].listener);
    WithoutCount(w.bus.listeners[ANY], w.waiters[t].listener, w.waiters[t].listener);
  }

  lemma InvValid(w: World)
    requires Inv(w, false)
    ensures Valid(w.bus)
  {
  }

  /** How `_execute_task` of a worker ends. */
  datatype Attempt = Returns(result: TaskResult) | Throws(repr: string)

  class RemoteTasks {
    var world: World

    ghost predicate Good()
      reads this
    {
      Inv(world, false)
    }

    constructor ()
      ensures Good() && world == Init
    {
      InitHolds();
      Weaken(Init, false);
      world := Init;
    }

    method Do(s: Step)
      requires Good() && Valid(world.bus) && Enabled(world, s)
      modifies this
      ensures Good() && Valid(world.bus) && world == Next(old(world), s)
    {
      NextKeeps(world, s, false);
      world := Next(world, s);
      InvValid(world);
    }

    /** The other threads run `plan`, as far as its steps are possible. */
    method Others(mine: string, plan: seq<Step>)
      requires Good() && mine in world.waiters && HonestPlan(plan)
      modifies this
      ensures Good() && SameWaiter(old(world), world, mine)
    {
      var i := 0;
      while i < |plan|
        invariant 0 <= i <= |plan|
        invariant Good() && SameWaiter(old(world), world, mine)
      {
        InvValid(world);
        if Possible(world, plan[i]) && !StepOf(plan[i], mine) {
          OthersKeepWaiter(world, plan[i], mine);
          Do(plan[i]);
        }
        i := i + 1;
      }
    }

    /** The listener first, then the command. */
    method Open(t: string, queue: string, args: string, before: seq<Step>)
      requires Good() && t !in world.waiters && HonestPlan(before)
      modifies this
      ensures Good() && t in world.waiters
      ensures world.waiters[t].pc == Awaiting && world.waiters[t].queue == queue && world.waiters[t].args == args
    {
      InvValid(world);
      Do(Listen(t, queue, args));
      Others(t, before);
      InvValid(world);
      Do(Send(t));
    }

    /** Once there is a result: away with the listener. */
    method Collect(t: string) returns (result: TaskResult)
      requires Good() && t in world.waiters && world.waiters[t].pc == Awaiting && world.waiters[t].wrapper != []
      modifies this
      ensures Good() && t in world.waiters && world.waiters[t].pc == Returned(result)
      ensures t in world.computed && result == world.computed[t]
      ensures world.waiters[t].queue == old(world).waiters[t].queue
                && world.waiters[t].args == old(world).waiters[t].args
      ensures Valid(world.bus) && Registrations(world.bus, world.waiters[t].listener, WORKER_TASK_ENDED) == 0
    {
      InvValid(world);
      result := world.waiters[t].wrapper[0];
      ListenerGone(world, t);
      Do(Take(t));
      TakenResult(world, t);
    }

    /** `_send_worker_task`, watched for `polls` turns of its waiting loop: what it returns is what
        was computed for this very task, and its listener is then gone; as long as it returns
        nothing, nothing has come and it goes on waiting. */
    method SendWorkerTask(t: string, queue: string, args: string, before: seq<Step>, plans: nat -> seq<Step>,
        polls: nat)
      returns (r: Option<TaskResult>, waited: nat)
      requires Good() && t !in world.waiters && HonestPlan(before) && forall n :: HonestPlan(plans(n))
      modifies this
      ensures Good() && t in world.waiters
      ensures world.waiters[t].queue == queue && world.waiters[t].args == args
      ensures r.None? ==> world.waiters[t].pc == Awaiting && world.waiters[t].wrapper == [] && waited == polls
      ensures r.Some? ==> world.waiters[t].pc == Returned(r.value)
      ensures r.Some? ==> t in world.computed && r.value == world.computed[t]
      ensures r.Some? ==>
                Valid(world.bus) && Registrations(world.bus, world.waiters[t].listener, WORKER_TASK_ENDED) == 0
    {
      Open(t, queue, args, before);
      waited := 0;
      while waited < polls && world.waiters[t].wrapper == []
        invariant waited <= polls && Good() && t in world.waiters && world.waiters[t].pc == Awaiting
        invariant world.waiters[t].queue == queue && world.waiters[t].args == args
      {
        Others(t, plans(waited));
        waited := waited + 1;
      }
      if world.waiters[t].wrapper == [] {
        return None, waited;
      }
      var result := Collect(t);
      r := Some(result);
    }

    /** `_safe_execute_task`: an exception becomes a failed result, so the pool always computes one. */
    method SafeExecuteTask(c: Payload, attempt: Attempt) returns (result: TaskResult)
      requires Good() && c.Command? && c in world.running
      modifies this
      ensures Good() && c.taskId in world.computed && world.computed[c.taskId] == result
      ensures EndedEvent(c.taskId, result) in world.finished
      ensures if attempt.Returns? then result == attempt.result else result == TaskResult(false, attempt.repr, None)
    {
      InvValid(world);
      result := match attempt case Returns(value) => value case Throws(repr) => TaskResult(false, repr, None);
      Do(Execute(c, result));
    }

    /** `_WorkerTaskEndedCallback.__call__`. */
    method EndedCallback(e: Event)
      requires Good() && e in world.finished
      modifies this
      ensures Good() && world.bus == Push(old(world).bus, e) && world.finished == old(world).finished - multiset{e}
    {
      InvValid(world);
      Do(Publish(e));
    }
  }
}
