/** `TaskJobService` as an object: each method makes the steps of the source in its order, and
    between two steps lets the other threads and processes act as they please. */
module TaskService {
  import opened Options
  import opened TaskLifecycle
  import opened TaskLifecycleProofs

  /** A step of somebody else. */
  datatype Foreign = Create(id: string) | On(id: string, action: Action)

  /** What the action passed to the task does. */
  datatype Script = Script(
    progress: seq<int>,
    ending: Ending)

  datatype Ending =
    | Gives(outcome: Outcome)                           // returns, and its result is recorded
    | GivesUnrecorded(given: Outcome, dbError: string)  // returns, but the update raises
    | Throws(error: string)

  predicate EndsWell(e: Ending) {
    e.Gives? && e.outcome.success
  }

  function Repeat(n: nat): seq<Kind> {
    seq(n, i => PROGRESS)
  }

  /** What others may do to a task while its runner is alive in this process. */
  predicate NotMine(a: Action) {
    a == Register || a.CancelRead? || a.CancelFuture? || a.CancelWrite? || a.TimeoutWrite? || (a.Sweep? && !a.killed)
  }

  /** The runner's own variables: nobody else writes them. */
  ghost predicate SameRunner(k: Task, k': Task) {
    && k'.run == k.run && k'.pushed == k.pushed && k'.invoked == k.invoked && k'.future == k.future
    && k'.row.progress == k.row.progress
  }

  lemma NotMineKeepsRunner(k: Task, a: Action)
    requires Inv(k, false) && Enabled(k, a) && NotMine(a) && k.future == Running
    ensures SameRunner(k, Act(k, a))
  {
  }

  /** A thread in the middle of a call: launching the task, or cancelling it. */
  datatype Caller = Launcher | Canceller(token: Cancel)

  ghost predicate Engaged(who: Caller, k: Task) {
    match who
    case Launcher => k.launch == Added || k.launch == Submitted
    case Canceller(c) => c in k.cancels && k.launch == Registered && (c.requested ==> k.future != Pending)
  }

  /** A step of another thread; the process of the caller is alive. */
  predicate LeavesAlone(who: Caller, k: Task, a: Action) {
    && !(a.Sweep? && a.killed)
    && match who
       case Launcher => a != PushAdded && a != Submit && a != Register
       case Canceller(c) => (a.CancelFuture? || a.CancelWrite?) && a.c == c ==> k.cancels[c] > 1
  }

  /** What the caller finds as it left it. */
  ghost predicate Undisturbed(who: Caller, k: Task, k': Task) {
    who == Launcher ==> k'.launch == k.launch && k.pushed <= k'.pushed
  }

  lemma CallGoesOn(who: Caller, k: Task, a: Action)
    requires Inv(k, false) && Enabled(k, a) && Engaged(who, k) && LeavesAlone(who, k, a)
    ensures Engaged(who, Act(k, a)) && Undisturbed(who, k, Act(k, a))
  {
  }

  lemma RecordedRow(k: Task)
    requires Inv(k, false) && k.run.Recorded?
    ensures k.row.completionDate.Some? && k.row.status.IsFinal()
    ensures k.row.resultStatus == Some(k.run.success && !k.overtaken)
  {
  }

  /** Once recorded, the result and its date stay, unless a waiter times out on top of them. */
  ghost predicate ResultKept(k: Task, k': Task) {
    k.run.Recorded? ==>
      && k'.row.completionDate == k.row.completionDate
      && (k'.row.status == k.row.status || k'.row.status == CANCELLED || k'.row.status == TIMEOUT)
      && (!k'.overtaken ==> !k.overtaken && k'.row.resultMsg == k.row.resultMsg && k'.row.result == k.row.result)
  }

  lemma NotMineKeepsResult(k: Task, a: Action)
    requires Inv(k, false) && Enabled(k, a) && NotMine(a)
    ensures ResultKept(k, Act(k, a))
  {
    if k.run.Recorded? {
      RecordedRow(k);
    }
  }

  /** What a restart makes of a row: it is neither pending nor running afterwards. */
  predicate Interrupted(row: Row, row': Row, now: int) {
    && row'.status != PENDING && row'.status != RUNNING
    && if row.status in {PENDING, RUNNING}
       then && row'.status == FAILED && row'.resultStatus == Some(false) && row'.completionDate == Some(now)
            && row'.resultMsg == Some("Task was interrupted due to server restart")
            && row'.result == row.result && row'.progress == row.progress
       else row' == row
  }

  /** ... and of the rest of the task: its threads are gone with their process. */
  ghost predicate Restarted(k: Task, k': Task, now: int, killed: bool) {
    && Interrupted(k.row, k'.row, now)
    && (!killed ==> k' == k.(row := k'.row))
    && (killed ==>
          && k'.launch == Gone && k'.run == (if k.run == Ended then Ended else Dead) && k'.cancels == multiset{}
          && k'.future == (if k.future == Cancelled then Cancelled else Finished)
          && k'.pushed == k.pushed && k'.invoked == k.invoked)
  }

  lemma SweepRestarts(k: Task, now: int, killed: bool)
    ensures Restarted(k, Act(k, Sweep(now, killed)), now, killed)
  {
  }

  /** What the action's end puts into the row. */
  ghost predicate Holds(k: Task, e: Ending, now: int) {
    && k.row.completionDate == Some(now)
    && (!k.overtaken ==>
          match e
          case Gives(outcome) => k.row.resultMsg == Some(outcome.message) && k.row.result == outcome.returnValue
          case GivesUnrecorded(_, error) => k.row.resultMsg == Some(error)
          case Throws(error) => k.row.resultMsg == Some(error))
  }

  /** How a call of `_cancel_task` ends. */
  datatype Cancellation =
    | NotFound
    | Saved(read: TaskStatus)  // the task is here; the status it had been read with
    | Dispatched               // TASK_CANCEL_REQUEST pushed
    | Ignored

  /** How a call of `await_task` ends: by an exception when the future failed, was cancelled, or is
      not done in time, and after writing TIMEOUT or not in the polling branch. */
  datatype Awaited =
    | Done | Failed | WasCancelled | TimedOut
    | Unknown
    | SeenFinal(status: TaskStatus)

  function FutureEnd(k: Task): Awaited {
    match k.future
    case Finished => if k.run == Ended then Done else Failed
    case Cancelled => WasCancelled
    case _ => TimedOut
  }

  class TaskJobService {
    /** Rows, futures and runners of every task created so far. */
    var tasks: map<string, Task>

    ghost predicate Valid()
      reads this
    {
      forall t :: t in tasks ==> Inv(tasks[t], false)
    }

    constructor ()
      ensures Valid() && tasks == map[]
    {
      tasks := map[];
    }

    method Do(t: string, a: Action)
      requires Valid() && t in tasks && Enabled(tasks[t], a)
      modifies this
      ensures Valid() && tasks == old(tasks)[t := Act(old(tasks)[t], a)]
    {
      ActKeeps(tasks[t], a, false);
      tasks := tasks[t := Act(tasks[t], a)];
    }

    /** The other threads and processes run `plan`, as far as its steps are possible; a step of the
        runner of `mine` is not theirs to make. */
    method Others(mine: string, plan: seq<Foreign>)
      requires Valid() && mine in tasks && tasks[mine].future == Running
      modifies this
      ensures Valid() && mine in tasks && SameRunner(old(tasks)[mine], tasks[mine])
      ensures ResultKept(old(tasks)[mine], tasks[mine])
      ensures plan == [] ==> tasks == old(tasks)
    {
      var i := 0;
      while i < |plan|
        invariant 0 <= i <= |plan| && (i == 0 ==> tasks == old(tasks))
        invariant Valid() && mine in tasks && SameRunner(old(tasks)[mine], tasks[mine])
        invariant ResultKept(old(tasks)[mine], tasks[mine])
      {
        match plan[i] {
          case Create(id) =>
            if id !in tasks {
              tasks := tasks[id := NewTask];
            }
          case On(id, a) =>
            if id in tasks && Enabled(tasks[id], a) && (id == mine ==> NotMine(a)) {
              if id == mine {
                NotMineKeepsRunner(tasks[id], a);
                NotMineKeepsResult(tasks[id], a);
              }
              Do(id, a);
            }
        }
        i := i + 1;
      }
    }

    method CreateTask(id: string)
      requires Valid() && id !in tasks
      modifies this
      ensures Valid() && id in tasks && tasks == old(tasks)[id := tasks[id]]
      ensures tasks[id] == Task(Row(PENDING, None, None, None, None, None), Created, NoFuture, Idle, multiset{}, [],
                                false, false)
    {
      tasks := tasks[id := NewTask];
    }

    /** The others run `plan` while `who` is in the middle of a call on task `mine`. */
    method OthersDuring(mine: string, who: Caller, plan: seq<Foreign>)
      requires Valid() && mine in tasks && Engaged(who, tasks[mine])
      modifies this
      ensures Valid() && mine in tasks && Engaged(who, tasks[mine])
      ensures Undisturbed(who, old(tasks)[mine], tasks[mine])
      ensures plan == [] ==> tasks == old(tasks)
    {
      var i := 0;
      while i < |plan|
        invariant 0 <= i <= |plan|
        invariant Valid() && mine in tasks && Engaged(who, tasks[mine])
        invariant Undisturbed(who, old(tasks)[mine], tasks[mine])
        invariant i == 0 ==> tasks == old(tasks)
      {
        OneDuring(mine, who, plan[i]);
        i := i + 1;
      }
    }

    method OneDuring(mine: string, who: Caller, step: Foreign)
      requires Valid() && mine in tasks && Engaged(who, tasks[mine])
      modifies this
      ensures Valid() && mine in tasks && Engaged(who, tasks[mine])
      ensures Undisturbed(who, old(tasks)[mine], tasks[mine])
    {
      match step {
        case Create(id) =>
          if id !in tasks {
            tasks := tasks[id := NewTask];
          }
        case On(id, a) =>
          if id in tasks && Enabled(tasks[id], a) && (id == mine ==> LeavesAlone(who, tasks[id], a)) {
            if id == mine {
              CallGoesOn(who, tasks[id], a);
            }
            Do(id, a);
          }
      }
    }

    /** `_launch_task`: the event first, then the pool, then the dictionary. The pool may have
        started, or even ended, the task by the time it is registered. */
    method LaunchTask(t: string, plans: nat -> seq<Foreign>)
      requires Valid() && t in tasks && tasks[t].launch == Created
      modifies this
      ensures Valid() && t in tasks
      ensures tasks[t].launch == Registered && tasks[t].future != NoFuture && [ADDED] <= tasks[t].pushed
      ensures (forall n :: plans(n) == []) ==> tasks[t].future == Pending && tasks[t].pushed == [ADDED]
    {
      Do(t, PushAdded);
      OthersDuring(t, Launcher, plans(0));
      Do(t, Submit);
      OthersDuring(t, Launcher, plans(1));
      Do(t, Register);
    }

    /** `_cancel_task`, which returns what it has read; `here` tells whether the task is in the
        dictionary of this process. If so, the future is pending no longer afterwards; the status is
        CANCELLED unless it was so at the beginning, in which case the mapper saves nothing and
        whatever the others wrote stands. If not, nothing changes, and the other processes are asked
        if the caller says so. */
    method CancelTask(t: string, here: bool, dispatch: bool, plans: nat -> seq<Foreign>) returns (r: Cancellation)
      requires Valid() && (here ==> t in tasks && tasks[t].launch == Registered)
      modifies this
      ensures Valid() && (r.NotFound? <==> t !in old(tasks))
      ensures t in old(tasks) ==>
                r == if here then Saved(old(tasks)[t].row.status) else if dispatch then Dispatched else Ignored
      ensures !here ==> tasks == old(tasks)
      ensures here ==> t in tasks && tasks[t].future != Pending && tasks[t].future != NoFuture
      ensures here && r != Saved(CANCELLED) ==> tasks[t].row.status == CANCELLED
      ensures here && (forall n :: plans(n) == []) ==>
                && tasks[t].row == old(tasks)[t].row.(status := CANCELLED)
                && tasks[t].future == (if old(tasks)[t].future == Pending then Cancelled else old(tasks)[t].future)
    {
      if t !in tasks {
        return NotFound;
      }
      if !here {
        return if dispatch then Dispatched else Ignored;
      }
      var read := CancelHere(t, plans);
      r := Saved(read);
    }

    /** The branch for a task of this process. */
    method CancelHere(t: string, plans: nat -> seq<Foreign>) returns (read: TaskStatus)
      requires Valid() && t in tasks && tasks[t].launch == Registered
      modifies this
      ensures Valid() && t in tasks && read == old(tasks)[t].row.status
      ensures read != CANCELLED ==> tasks[t].row.status == CANCELLED
      ensures tasks[t].future != Pending && tasks[t].future != NoFuture
      ensures (forall n :: plans(n) == []) ==>
                && tasks[t].row == old(tasks)[t].row.(status := CANCELLED)
                && tasks[t].future == (if old(tasks)[t].future == Pending then Cancelled else old(tasks)[t].future)
    {
      read := tasks[t].row.status;
      var c := Cancel(read, false);
      Do(t, CancelRead);
      OthersDuring(t, Canceller(c), plans(0));
      Do(t, CancelFuture(c));
      var c' := c.(requested := true);
      OthersDuring(t, Canceller(c'), plans(1));
      Do(t, CancelWrite(c'));
    }

    /** `await_task`. For a task of this process it waits for the future, for as long as the others
        take `polls` turns, and tells how the future ended. Otherwise it polls the status, and writes
        TIMEOUT when the time is up without looking again. */
    method AwaitTask(t: string, here: bool, polls: nat, plans: nat -> seq<Foreign>) returns (r: Awaited, waited: nat)
      requires Valid() && (here ==> t in tasks)
      modifies this
      ensures waited <= polls && (r.TimedOut? ==> waited == polls)
      ensures Valid()
      ensures here ==> t in tasks && (r.Done? || r.Failed? <==> tasks[t].future == Finished)
      ensures here ==> (r.Done? ==> tasks[t].run == Ended) && (r.Failed? ==> tasks[t].run != Ended)
      ensures here ==> (r.WasCancelled? <==> tasks[t].future == Cancelled)
      ensures here ==> (r.TimedOut? <==> tasks[t].future != Finished && tasks[t].future != Cancelled)
      ensures here && (forall n :: plans(n) == []) ==> tasks == old(tasks)
      ensures !here ==> r.Unknown? || r.SeenFinal? || r.TimedOut?
      ensures !here && polls > 0 && t !in old(tasks) ==> r == Unknown && tasks == old(tasks)
      ensures !here && polls > 0 && t in old(tasks) && old(tasks)[t].row.status.IsFinal() ==>
                r == SeenFinal(old(tasks)[t].row.status) && tasks == old(tasks)
      ensures !here && t in old(tasks) && !old(tasks)[t].row.status.IsFinal() && (forall n :: plans(n) == []) ==>
                r == TimedOut
      ensures r.Unknown? ==> t !in old(tasks)
      ensures r.SeenFinal? ==> t in tasks && r.status == tasks[t].row.status && r.status.IsFinal()
      ensures r.TimedOut? && !here && t in tasks ==>
                tasks[t].row.status == TIMEOUT && tasks[t].row.resultStatus == Some(false)
                    && tasks[t].row.resultMsg.Some?
    {
      if here {
        r, waited := AwaitFuture(t, polls, plans);
        return;
      }
      waited := 0;
      while waited < polls
        invariant waited <= polls && Valid() && old(tasks).Keys <= tasks.Keys
        invariant waited == 0 || (forall k :: plans(k) == []) ==> tasks == old(tasks)
        invariant waited > 0 ==> t in old(tasks) && !old(tasks)[t].row.status.IsFinal()
      {
        if t !in tasks {
          return Unknown, waited;
        }
        if tasks[t].row.status.IsFinal() {
          return SeenFinal(tasks[t].row.status), waited;
        }
        OthersOnly(plans(waited));
        waited := waited + 1;
      }
      if t in tasks {
        Do(t, TimeoutWrite("Task '" + t + "' timeout"));
      }
      r := TimedOut;
    }

    /** `Future.result` with a timeout: it writes nothing. */
    method AwaitFuture(t: string, turns: nat, plans: nat -> seq<Foreign>) returns (r: Awaited, waited: nat)
      requires Valid() && t in tasks
      modifies this
      ensures waited <= turns && (r.TimedOut? ==> waited == turns)
      ensures Valid() && t in tasks && r == FutureEnd(tasks[t])
      ensures (forall n :: plans(n) == []) ==> tasks == old(tasks)
    {
      waited := 0;
      while waited < turns && tasks[t].future != Finished && tasks[t].future != Cancelled
        invariant waited <= turns && Valid() && t in tasks
        invariant (forall n :: plans(n) == []) ==> tasks == old(tasks)
      {
        OthersOnly(plans(waited));
        waited := waited + 1;
      }
      r := FutureEnd(tasks[t]);
    }

    /** While nobody of this object runs anything, the others do as they please. */
    method OthersOnly(plan: seq<Foreign>)
      requires Valid()
      modifies this
      ensures Valid() && old(tasks).Keys <= tasks.Keys
      ensures plan == [] ==> tasks == old(tasks)
    {
      var i := 0;
      while i < |plan|
        invariant 0 <= i <= |plan| && Valid() && old(tasks).Keys <= tasks.Keys
        invariant i == 0 ==> tasks == old(tasks)
      {
        match plan[i] {
          case Create(id) =>
            if id !in tasks {
              tasks := tasks[id := NewTask];
            }
          case On(id, a) =>
            if id in tasks && Enabled(tasks[id], a) {
              Do(id, a);
            }
        }
        i := i + 1;
      }
    }

    /** `_run_task` up to the call of the action. */
    method Start(t: string, plans: nat -> seq<Foreign>)
      requires Valid() && t in tasks && tasks[t].future == Pending && tasks[t].pushed == [ADDED]
      modifies this
      ensures Valid() && t in tasks && tasks[t].future == Running
      ensures tasks[t].run == Acting && tasks[t].invoked && tasks[t].pushed == [ADDED, RUNNING_EVENT]
      ensures plans(2) == [] ==> tasks[t].row.status == RUNNING
    {
      Do(t, PickUp);
      Others(t, plans(0));
      Do(t, PushRunning);
      Others(t, plans(1));
      Do(t, MarkRunning);
      Others(t, plans(2));
      Do(t, Invoke);
    }

    /** The action's calls of `notify_progress`. */
    method ReportProgress(t: string, percents: seq<int>, plans: nat -> seq<Foreign>)
      requires Valid() && t in tasks && tasks[t].future == Running && tasks[t].run == Acting
      modifies this
      ensures Valid() && t in tasks && tasks[t].future == Running
      ensures tasks[t].run == Acting && tasks[t].invoked == old(tasks)[t].invoked
      ensures tasks[t].pushed == old(tasks)[t].pushed + Repeat(|percents|)
      ensures tasks[t].row.progress ==
              if percents == [] then old(tasks)[t].row.progress else Some(percents[|percents| - 1])
    {
      var i := 0;
      while i < |percents|
        invariant 0 <= i <= |percents|
        invariant Valid() && t in tasks && tasks[t].run == Acting && tasks[t].future == Running
        invariant tasks[t].invoked == old(tasks)[t].invoked
        invariant tasks[t].pushed == old(tasks)[t].pushed + Repeat(i)
        invariant tasks[t].row.progress == if i == 0 then old(tasks)[t].row.progress else Some(percents[i - 1])
      {
        Others(t, plans(i));
        Do(t, Progress(percents[i]));
        i := i + 1;
      }
    }

    /** The final event; by then the row is dated and final, and holds the outcome unless a waiter
        timed out on top of it. */
    method Finish(t: string, won: bool)
      requires Valid() && t in tasks && tasks[t].future == Running && tasks[t].run == Recorded(won)
      modifies this
      ensures Valid() && t in tasks && tasks[t].run == Ended && tasks[t].invoked == old(tasks)[t].invoked
      ensures tasks[t].pushed == old(tasks)[t].pushed + [if won then COMPLETED_EVENT else FAILED_EVENT]
      ensures tasks[t].row == old(tasks)[t].row && tasks[t].overtaken == old(tasks)[t].overtaken
      ensures tasks[t].row.completionDate.Some? && tasks[t].row.status.IsFinal()
      ensures tasks[t].row.resultStatus == Some(won && !tasks[t].overtaken)
    {
      RecordedRow(tasks[t]);
      Do(t, PushEnd);
    }

    /** `_run_task`: whatever the others do in between, the task's events come out whole and in
        order, end with COMPLETED exactly when the action succeeded and its result was recorded,
        and the row is dated, final and holds the outcome unless a waiter timed out on top of it. */
    method RunTask(t: string, script: Script, now: int, starting: nat -> seq<Foreign>, acting: nat -> seq<Foreign>,
                   ending: nat -> seq<Foreign>)
      requires Valid() && t in tasks && tasks[t].future == Pending && tasks[t].pushed == [ADDED]
      modifies this
      ensures Valid() && t in tasks
      ensures tasks[t].run == Ended && tasks[t].invoked
      ensures tasks[t].pushed == [ADDED, RUNNING_EVENT] + Repeat(|script.progress|)
                                 + [if EndsWell(script.ending) then COMPLETED_EVENT else FAILED_EVENT]
      ensures Holds(tasks[t], script.ending, now)
      ensures var status := if EndsWell(script.ending) then COMPLETED else FAILED;
              && (tasks[t].row.status == status || tasks[t].row.status == CANCELLED || tasks[t].row.status == TIMEOUT)
              && (ending(2) == [] ==> tasks[t].row.status == status && !tasks[t].overtaken)
      ensures tasks[t].row.resultStatus == Some(EndsWell(script.ending) && !tasks[t].overtaken)
    {
      Start(t, starting);
      ReportProgress(t, script.progress, acting);
      Conclude(t, script.ending, now, ending(0), ending(1));
      Others(t, ending(2));
      Finish(t, EndsWell(script.ending));
    }

    /** The `try` block after the action, with its handler. */
    method Conclude(t: string, ending: Ending, now: int, plan1: seq<Foreign>, plan2: seq<Foreign>)
      requires Valid() && t in tasks && tasks[t].run == Acting && tasks[t].future == Running
      modifies this
      ensures Valid() && t in tasks && tasks[t].future == Running
      ensures tasks[t].run == Recorded(EndsWell(ending)) && Holds(tasks[t], ending, now)
      ensures tasks[t].row.status == if EndsWell(ending) then COMPLETED else FAILED
      ensures tasks[t].pushed == old(tasks)[t].pushed && tasks[t].invoked == old(tasks)[t].invoked
      ensures !tasks[t].overtaken
    {
      match ending {
        case Gives(outcome) =>
          Do(t, Return(outcome));
          Others(t, plan1);
          Do(t, RecordResult(now));
        case GivesUnrecorded(outcome, error) =>
          Do(t, Return(outcome));
          Others(t, plan1);
          Do(t, RecordFails(error));
          Others(t, plan2);
          Do(t, RecordFailure(now));
        case Throws(error) =>
          Do(t, Raise(error));
          Others(t, plan1);
          Do(t, RecordFailure(now));
      }
    }

    /** `cancel_orphan_tasks`: one bulk update, run by a process that starts while the runners of
        `killed` are gone. */
    method CancelOrphanTasks(now: int, killed: set<string>)
      requires Valid()
      modifies this
      ensures Valid() && tasks.Keys == old(tasks).Keys
      ensures forall t :: t in tasks ==> Restarted(old(tasks)[t], tasks[t], now, t in killed)
    {
      forall t | t in tasks
        ensures Inv(Act(tasks[t], Sweep(now, t in killed)), false)
        ensures Restarted(tasks[t], Act(tasks[t], Sweep(now, t in killed)), now, t in killed)
      {
        ActKeeps(tasks[t], Sweep(now, t in killed), false);
        SweepRestarts(tasks[t], now, t in killed);
      }
      tasks := map t | t in tasks :: Act(tasks[t], Sweep(now, t in killed));
    }
  }
}
