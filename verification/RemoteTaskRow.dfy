/** A task that runs on a remote worker: the worker protocol and the life of the task's row, put
    together. The action of the task is the waiter of the protocol. */
module RemoteTaskRow {
  import opened Options
  import opened Sequences
  import EventBus
  import W = WorkerProtocol
  import WP = WorkerProtocolProofs
  import WR = WorkerProtocolRounds
  import L = TaskLifecycle
  import LP = TaskLifecycleProofs

  /** `told`: the runner has recorded what the action returned. */
  datatype Joint = Joint(world: W.World, task: L.Task, told: bool)

  datatype Step = Remote(step: W.Step) | Local(action: L.Action)

  const Init := Joint(W.Init, L.NewTask, false)

  /** A worker's result as the runner sees it. */
  function AsOutcome(r: EventBus.TaskResult): L.Outcome {
    L.Outcome(r.success, r.message, r.returnValue)
  }

  /** The waiter of `t` moves only inside the action of `t`, and the action returns what the waiter
      returns; everything else in either system goes on independently. */
  ghost predicate Enabled(j: Joint, s: Step, t: string) {
    match s
    case Remote(step) => WR.Steps(j.world, step, After(j, s).world) && (WR.StepOf(step, t) ==> j.task.run == L.Acting)
    case Local(a) =>
      && L.Enabled(j.task, a)
      && (a.Return? ==>
            && t in j.world.waiters && j.world.waiters[t].pc.Returned?
            && a.outcome == AsOutcome(j.world.waiters[t].pc.result))
  }

  ghost function After(j: Joint, s: Step): Joint {
    match s
    case Remote(step) =>
      if W.Enabled(j.world, step) && EventBus.Valid(j.world.bus) then j.(world := W.Next(j.world, step)) else j
    case Local(a) =>
      if L.Enabled(j.task, a) then j.(task := L.Act(j.task, a), told := j.told || a.RecordResult?) else j
  }

  /** The outcome is the one computed for `t`. */
  ghost predicate IsComputed(w: W.World, t: string, o: L.Outcome) {
    t in w.computed && o == AsOutcome(w.computed[t])
  }

  /** The row shows the result. */
  predicate Shows(row: L.Row, r: EventBus.TaskResult) {
    row.resultStatus == Some(r.success) && row.resultMsg == Some(r.message) && row.result == r.returnValue
  }

  /** The status that belongs to the result, unless the task was cancelled or a waiter timed out. */
  predicate Stands(status: L.TaskStatus, success: bool, overtaken: bool) {
    || status == (if success then L.COMPLETED else L.FAILED) || status == L.CANCELLED
    || (overtaken && status == L.TIMEOUT)
  }

  /** What has been recorded: the computed result, for good unless a waiter of another process has
      timed out on top of it. */
  ghost predicate Recorded(w: W.World, k: L.Task, told: bool, t: string) {
    && (told ==>
          && t in w.computed && Stands(k.row.status, w.computed[t].success, k.overtaken)
          && (LP.WasRecorded(k) || k.run == L.Dead)
          && (!k.overtaken ==> Shows(k.row, w.computed[t])))
    && (k.run.Recorded? && k.run.success ==> told && t in w.computed && w.computed[t].success)
    && (L.COMPLETED_EVENT in k.pushed ==> told && t in w.computed && w.computed[t].success)
  }

  ghost predicate Inv(j: Joint, t: string) {
    // bound to a name, so that it is proved as one goal and not conjunct by conjunct
    var all := W.Inv(j.world, false) && LP.Inv(j.task, false)
               && (j.task.run.Returned? ==> IsComputed(j.world, t, j.task.run.outcome))
               && Recorded(j.world, j.task, j.told, t);
    all
  }

  lemma InitKeeps(t: string)
    ensures Inv(Init, t)
  {
    WP.InitHolds();
    WR.Weaken(W.Init, false);
    LP.NewTaskKeeps(false);
  }

  /** What is computed stays as it is. */
  lemma ComputedStays(w: W.World, s: W.Step, w': W.World, t: string)
    requires W.Inv(w, false) && WR.Steps(w, s, w')
    ensures t in w.computed ==> t in w'.computed && w'.computed[t] == w.computed[t]
  {
    WR.ComputedStep(w, s, w', t, false);
  }

  lemma RemoteKeeps(j: Joint, s: Step, t: string)
    requires Inv(j, t) && s.Remote? && Enabled(j, s, t)
    ensures Inv(After(j, s), t)
  {
    var w' := After(j, s).world;
    WR.NextKeeps(j.world, s.step, false);
    ComputedStays(j.world, s.step, w', t);
  }

  /** What the waiter of `t` has returned is the computed result. */
  lemma ReturnedIsComputed(w: W.World, t: string)
    requires W.Inv(w, false) && t in w.waiters && w.waiters[t].pc.Returned?
    ensures IsComputed(w, t, AsOutcome(w.waiters[t].pc.result))
  {
    WR.TakenResult(w, t);
  }

  lemma RecordKeeps(w: W.World, k: L.Task, told: bool, a: L.Action, t: string)
    requires LP.Inv(k, false) && Recorded(w, k, told, t) && L.Enabled(k, a) && (a.RecordResult? || a.RecordFailure?)
    requires k.run.Returned? ==> IsComputed(w, t, k.run.outcome)
    ensures Recorded(w, L.Act(k, a), told || a.RecordResult?, t)
  {
  }

  lemma PushEndKeeps(w: W.World, k: L.Task, told: bool, t: string)
    requires LP.Inv(k, false) && Recorded(w, k, told, t) && L.Enabled(k, L.PushEnd)
    ensures Recorded(w, L.Act(k, L.PushEnd), told, t)
  {
    LP.LastIsFinal(k.pushed, if k.run.success then L.COMPLETED_EVENT else L.FAILED_EVENT);
  }

  lemma QuietKeeps(w: W.World, k: L.Task, told: bool, a: L.Action, t: string)
    requires LP.Inv(k, false) && Recorded(w, k, told, t) && L.Enabled(k, a) && LP.Quiet(a)
    ensures Recorded(w, L.Act(k, a), told, t)
  {
    assert L.COMPLETED_EVENT in L.Act(k, a).pushed <==> L.COMPLETED_EVENT in k.pushed;
  }

  lemma SweepKeeps(w: W.World, k: L.Task, told: bool, a: L.Action, t: string)
    requires Recorded(w, k, told, t) && L.Enabled(k, a) && a.Sweep?
    ensures Recorded(w, L.Act(k, a), told, t)
  {
    assert L.Act(k, a).pushed == k.pushed && L.Act(k, a).overtaken == k.overtaken;
    assert told ==> L.Act(k, a).row == k.row;
  }

  lemma OverwriteKeeps(w: W.World, k: L.Task, told: bool, a: L.Action, t: string)
    requires Recorded(w, k, told, t) && L.Enabled(k, a) && (a.TimeoutWrite? || a.CancelWrite?)
    ensures Recorded(w, L.Act(k, a), told, t)
  {
    assert L.Act(k, a).pushed == k.pushed && L.Act(k, a).run == k.run;
  }

  lemma RowUntouched(w: W.World, k: L.Task, told: bool, a: L.Action, t: string)
    requires Recorded(w, k, told, t) && L.Enabled(k, a) && (a.CancelRead? || a.CancelFuture? || a == L.Die)
    ensures Recorded(w, L.Act(k, a), told, t)
  {
    assert L.Act(k, a).pushed == k.pushed && L.Act(k, a).row == k.row && L.Act(k, a).overtaken == k.overtaken;
  }

  lemma ActKeepsRecorded(w: W.World, k: L.Task, told: bool, a: L.Action, t: string)
    requires LP.Inv(k, false) && Recorded(w, k, told, t) && L.Enabled(k, a)
    requires k.run.Returned? ==> IsComputed(w, t, k.run.outcome)
    ensures Recorded(w, L.Act(k, a), told || a.RecordResult?, t)
  {
    if a.RecordResult? || a.RecordFailure? {
      RecordKeeps(w, k, told, a, t);
    } else if a == L.PushEnd {
      PushEndKeeps(w, k, told, t);
    } else if LP.Quiet(a) {
      QuietKeeps(w, k, told, a, t);
    } else if a.TimeoutWrite? || a.CancelWrite? {
      OverwriteKeeps(w, k, told, a, t);
    } else if a.Sweep? {
      SweepKeeps(w, k, told, a, t);
    } else {
      RowUntouched(w, k, told, a, t);
    }
  }

  lemma ReturnKeeps(k: L.Task, a: L.Action)
    requires L.Enabled(k, a)
    ensures L.Act(k, a).run.Returned? ==>
              if a.Return? then L.Act(k, a).run.outcome == a.outcome else L.Act(k, a).run == k.run
  {
  }

  lemma LocalKeeps(j: Joint, s: Step, t: string)
    requires Inv(j, t) && s.Local? && Enabled(j, s, t)
    ensures Inv(After(j, s), t)
  {
    var a := s.action;
    LP.ActKeeps(j.task, a, false);
    ActKeepsRecorded(j.world, j.task, j.told, a, t);
    ReturnKeeps(j.task, a);
    if a.Return? {
      ReturnedIsComputed(j.world, t);
    }
  }

  ghost predicate Follows(j: Joint, s: Step, j': Joint, t: string) {
    // bound to a name, so that it is proved as one goal and not conjunct by conjunct
    var follows := Enabled(j, s, t) && j' == After(j, s);
    follows
  }

  ghost predicate Continues(js: seq<Joint>, steps: seq<Step>, t: string) {
    && |js| == |steps| + 1
    && forall i {:trigger steps[i]} :: 0 <= i < |steps| ==> Follows(js[i], steps[i], js[i + 1], t)
  }

  lemma StepKeeps(j: Joint, s: Step, j': Joint, t: string)
    requires Inv(j, t) && Follows(j, s, j', t)
    ensures Inv(j', t)
  {
    if s.Remote? {
      RemoteKeeps(j, s, t);
    } else {
      LocalKeeps(j, s, t);
    }
  }

  lemma RunKeeps(js: seq<Joint>, steps: seq<Step>, n: nat, t: string)
    requires Continues(js, steps, t) && n <= |steps| && Inv(js[0], t)
    ensures Inv(js[n], t)
  {
    forall a, s, b | Inv(a, t) && Follows(a, s, b, t) ensures Inv(b, t) {
      StepKeeps(a, s, b, t);
    }
    Invariance(js, steps, j => Inv(j, t), (a, s, b) => Follows(a, s, b, t), n);
  }

  // --------------------------------------------------------------------- time is up

  predicate IsTimeout(s: Step) {
    s.Local? && s.action.TimeoutWrite?
  }

  /** A waiter of another process wrote TIMEOUT after the result was recorded. */
  ghost predicate TimedOutOnTop(js: seq<Joint>, steps: seq<Step>, n: nat)
    requires n <= |steps| && |js| == |steps| + 1
  {
    exists i :: 0 <= i < n && IsTimeout(steps[i]) && js[i].told
  }

  /** How one step changes the two flags. */
  predicate Raises(told: bool, over: bool, timeout: bool, told': bool, over': bool) {
    if told then told' && (over' <==> over || timeout) else told' ==> !over'
  }

  /** Flags that are set and raised as `told` and `overtaken` are. */
  lemma {:induction false} FlagMeans(told: seq<bool>, over: seq<bool>, timeout: seq<bool>, n: nat)
    requires |told| == |over| == |timeout| + 1 && n <= |timeout| && !told[0]
    requires forall i {:trigger timeout[i]} :: 0 <= i < |timeout| ==>
               Raises(told[i], over[i], timeout[i], told[i + 1], over[i + 1])
    ensures told[n] ==> (over[n] <==> exists i :: 0 <= i < n && timeout[i] && told[i])
    ensures !told[n] ==> forall i :: 0 <= i < n ==> !told[i]
    decreases n
  {
    if n > 0 {
      FlagMeans(told, over, timeout, n - 1);
      assert Raises(told[n - 1], over[n - 1], timeout[n - 1], told[n], over[n]);
    }
  }

  lemma ActRaises(k: L.Task, told: bool, a: L.Action)
    requires L.Enabled(k, a) && (told ==> LP.WasRecorded(k) || k.run == L.Dead)
    ensures Raises(told, k.overtaken, a.TimeoutWrite?, told || a.RecordResult?, L.Act(k, a).overtaken)
  {
  }

  lemma ToldMeans(j: Joint, t: string)
    requires Inv(j, t) && j.told
    ensures LP.WasRecorded(j.task) || j.task.run == L.Dead
  {
  }

  lemma FlagStep(j: Joint, s: Step, j': Joint, t: string)
    requires j' == After(j, s) && (s.Local? ==> L.Enabled(j.task, s.action))
    requires j.told ==> LP.WasRecorded(j.task) || j.task.run == L.Dead
    ensures Raises(j.told, j.task.overtaken, IsTimeout(s), j'.told, j'.task.overtaken)
  {
    if s.Local? {
      ActRaises(j.task, j.told, s.action);
    } else {
      assert j'.task == j.task && j'.told == j.told;
    }
  }

  lemma FlagStepOfRun(js: seq<Joint>, steps: seq<Step>, i: nat, t: string)
    requires Continues(js, steps, t) && Inv(js[0], t) && i < |steps|
    ensures Raises(js[i].told, js[i].task.overtaken, IsTimeout(steps[i]), js[i + 1].told, js[i + 1].task.overtaken)
  {
    RunKeeps(js, steps, i, t);
    if js[i].told {
      ToldMeans(js[i], t);
    }
    FlagStep(js[i], steps[i], js[i + 1], t);
  }

  lemma OvertakenMeans(js: seq<Joint>, steps: seq<Step>, n: nat, t: string)
    requires Continues(js, steps, t) && js[0] == Init && n <= |steps| && js[n].told
    ensures js[n].task.overtaken <==> TimedOutOnTop(js, steps, n)
  {
    var told := seq(|js|, i requires 0 <= i < |js| => js[i].told);
    var over := seq(|js|, i requires 0 <= i < |js| => js[i].task.overtaken);
    var timeout := seq(|steps|, i requires 0 <= i < |steps| => IsTimeout(steps[i]));
    InitKeeps(t);
    forall i | 0 <= i < |timeout|
      ensures Raises(told[i], over[i], timeout[i], told[i + 1], over[i + 1])
    {
      FlagStepOfRun(js, steps, i, t);
    }
    FlagMeans(told, over, timeout, n);
    if TimedOutOnTop(js, steps, n) {
      var i :| 0 <= i < n && IsTimeout(steps[i]) && js[i].told;
      assert timeout[i] && told[i];
    }
  }

  /** End to end, in every run: once the runner of a remote task has recorded what came back, the
      row shows the result that a worker computed for this very task, unless a waiter of another
      process has timed out on top, and the status that belongs to it, unless the task was cancelled;
      and COMPLETED is pushed only for a computed success. */
  lemma RowShowsComputedResult(js: seq<Joint>, steps: seq<Step>, n: nat, t: string)
    requires Continues(js, steps, t) && js[0] == Init && n <= |steps|
    ensures var j := js[n];
            && (j.told ==> t in j.world.computed && j.task.row.status.IsFinal())
            && (j.told ==> Stands(j.task.row.status, j.world.computed[t].success, TimedOutOnTop(js, steps, n)))
            && (j.told && !TimedOutOnTop(js, steps, n) ==> Shows(j.task.row, j.world.computed[t]))
            && (L.COMPLETED_EVENT in j.task.pushed ==> t in j.world.computed && j.world.computed[t].success)
  {
    InitKeeps(t);
    RunKeeps(js, steps, n, t);
    if js[n].told {
      OvertakenMeans(js, steps, n, t);
    }
  }
}
