/** What every run of a task keeps: the order of its events, the meaning of its row, and what a
    cancelled future or a completion date imply for the rest of the run. */
module TaskLifecycleProofs {
  import opened Options
  import opened Sequences
  import opened TaskLifecycle

  // --------------------------------------------------------------------------- events

  /** A complete life: ADDED RUNNING PROGRESS* (COMPLETED | FAILED). */
  ghost predicate FullLife(w: seq<Kind>) {
    && |w| >= 3 && w[0] == ADDED && w[1] == RUNNING_EVENT
    && (forall i :: 2 <= i < |w| - 1 ==> w[i] == PROGRESS)
    && (w[|w| - 1] == COMPLETED_EVENT || w[|w| - 1] == FAILED_EVENT)
  }

  /** ADDED RUNNING PROGRESS*. */
  ghost predicate Underway(w: seq<Kind>) {
    |w| >= 2 && w[0] == ADDED && w[1] == RUNNING_EVENT && forall i :: 2 <= i < |w| ==> w[i] == PROGRESS
  }

  ghost predicate PartialLife(w: seq<Kind>) {
    exists rest :: FullLife(w + rest)
  }

  lemma UnderwayIsPartial(w: seq<Kind>)
    requires w == [] || w == [ADDED] || Underway(w) || FullLife(w)
    ensures PartialLife(w)
  {
    var rest :=
      if w == [] then [ADDED, RUNNING_EVENT, FAILED_EVENT]
      else if w == [ADDED] then [RUNNING_EVENT, FAILED_EVENT]
      else if Underway(w) then [FAILED_EVENT] else [];
    assert FullLife(w + rest);
  }

  ghost predicate GoodEvents(k: Task) {
    match k.run
    case Idle => k.pushed == (if k.launch == Created then [] else [ADDED])
    case Announced => k.pushed == [ADDED, RUNNING_EVENT]
    case Marked => k.pushed == [ADDED, RUNNING_EVENT]
    case Acting => Underway(k.pushed)
    case Returned(_) => Underway(k.pushed)
    case Raised(_) => Underway(k.pushed)
    case Recorded(_) => Underway(k.pushed)
    case Ended => FullLife(k.pushed)
    case Dead => k.pushed == [] || k.pushed == [ADDED] || Underway(k.pushed)
  }

  /** The runner only starts from a future that the launcher submitted and nobody cancelled. */
  ghost predicate GoodFuture(k: Task) {
    && (k.launch == Created || k.launch == Added ==> k.future == NoFuture)
    && (k.launch == Submitted || k.launch == Registered ==> k.future != NoFuture)
    && (k.future == NoFuture || k.future == Pending ==> k.run == Idle)
    && (k.future == Cancelled ==> (k.run == Idle || k.run == Dead) && |k.pushed| == 1)
    && (k.run == Idle || k.run == Announced || k.run == Marked ==> !k.invoked)
    && (k.future == Cancelled ==> !k.invoked)
    && (k.future == Finished ==> k.run == Ended || k.run == Dead)
    && (k.run == Ended ==> k.future == Finished)
    && (k.run == Dead ==> k.future == Finished || k.future == Cancelled)
    && (k.launch == Gone ==> k.run == Ended || k.run == Dead)
  }

  // ------------------------------------------------------------------------------ row

  /** The runner could still write status RUNNING. */
  predicate CanMark(k: Task) {
    (k.run == Idle || k.run == Announced) && k.future != Cancelled
  }

  /** A completion date comes with a result message and a result status. */
  ghost predicate HasResult(row: Row) {
    row.completionDate.Some? ==> row.resultMsg.Some? && row.resultStatus.Some?
  }

  /** From the moment the runner has written the result, the row is final and holds what the
      runner wrote, unless a waiter that timed out has put `false` over it. */
  ghost predicate GoodRow(k: Task) {
    && HasResult(k.row)
    && (k.run.Recorded? || k.run == Ended ==> k.row.completionDate.Some? && k.row.status.IsFinal())
    && (k.run.Recorded? ==> k.row.resultStatus == Some(k.run.success && !k.overtaken))
    && (k.run == Ended ==> k.row.resultStatus == Some(COMPLETED_EVENT in k.pushed && !k.overtaken))
  }

  ghost predicate FinalOnceDated(k: Task) {
    k.row.completionDate.Some? ==> k.row.status.IsFinal() && !CanMark(k)
  }

  ghost predicate Inv(k: Task, strict: bool) {
    // bound to a name, so that it is proved as one goal and not conjunct by conjunct
    var parts := GoodEvents(k) && GoodFuture(k) && GoodRow(k) && (strict ==> FinalOnceDated(k));
    parts
  }

  /** A sweep that leaves alive a runner which has not marked its swept row yet. */
  predicate Spares(k: Task, a: Action) {
    a.Sweep? && !a.killed && CanMark(k) && (k.row.status == PENDING || k.row.status == RUNNING)
  }

  lemma LastIsFinal(w: seq<Kind>, e: Kind)
    requires Underway(w) && (e == COMPLETED_EVENT || e == FAILED_EVENT)
    ensures FullLife(w + [e]) && (COMPLETED_EVENT in w + [e] <==> e == COMPLETED_EVENT)
  {
  }

  /** The steps of launch and runner that push an event. */
  predicate Pushes(a: Action) {
    a == PushAdded || a == PushRunning || a.Progress? || a == PushEnd
  }

  lemma PushKeepsEvents(k: Task, a: Action)
    requires GoodEvents(k) && GoodFuture(k) && Enabled(k, a) && Pushes(a)
    ensures GoodEvents(Act(k, a))
  {
    if a == PushEnd {
      LastIsFinal(k.pushed, if k.run.success then COMPLETED_EVENT else FAILED_EVENT);
    }
  }

  lemma SilentKeepsEvents(k: Task, a: Action)
    requires GoodEvents(k) && GoodFuture(k) && Enabled(k, a) && !Pushes(a)
    ensures GoodEvents(Act(k, a))
  {
  }

  lemma ActKeepsEvents(k: Task, a: Action)
    requires GoodEvents(k) && GoodFuture(k) && Enabled(k, a)
    ensures GoodEvents(Act(k, a))
  {
    if Pushes(a) {
      PushKeepsEvents(k, a);
    } else {
      SilentKeepsEvents(k, a);
    }
  }

  lemma ActKeepsFuture(k: Task, a: Action)
    requires GoodEvents(k) && GoodFuture(k) && Enabled(k, a)
    ensures GoodFuture(Act(k, a))
  {
  }

  lemma RecordKeepsRow(k: Task, a: Action)
    requires GoodRow(k) && Enabled(k, a) && (a.RecordResult? || a.RecordFailure?)
    ensures GoodRow(Act(k, a))
  {
  }

  lemma PushEndKeepsRow(k: Task)
    requires GoodEvents(k) && GoodRow(k) && Enabled(k, PushEnd)
    ensures GoodRow(Act(k, PushEnd))
  {
    LastIsFinal(k.pushed, if k.run.success then COMPLETED_EVENT else FAILED_EVENT);
  }

  lemma SweepKeepsRow(k: Task, a: Action)
    requires GoodRow(k) && a.Sweep?
    ensures GoodRow(Act(k, a))
  {
    assert k.run.Recorded? || k.run == Ended ==> Swept(k.row, a.now) == k.row;
  }

  lemma WaitKeepsRow(k: Task, a: Action)
    requires GoodRow(k) && Enabled(k, a)
             && (a.TimeoutWrite? || a.CancelWrite? || a.CancelRead? || a.CancelFuture? || a == Die)
    ensures GoodRow(Act(k, a))
  {
  }

  /** The steps that leave every column of the result alone. */
  predicate Quiet(a: Action) {
    || a == PushAdded || a == Submit || a == Register || a == PickUp || a == PushRunning
    || a == MarkRunning || a == Invoke || a.Progress? || a.Return? || a.Raise? || a.RecordFails?
  }

  lemma QuietKeepsRow(k: Task, a: Action)
    requires GoodFuture(k) && GoodRow(k) && Enabled(k, a) && Quiet(a)
    ensures GoodRow(Act(k, a))
  {
  }

  lemma ActKeepsRow(k: Task, a: Action)
    requires GoodEvents(k) && GoodFuture(k) && GoodRow(k) && Enabled(k, a)
    ensures GoodRow(Act(k, a))
  {
    if a.RecordResult? || a.RecordFailure? {
      RecordKeepsRow(k, a);
    } else if a == PushEnd {
      PushEndKeepsRow(k);
    } else if a.Sweep? {
      SweepKeepsRow(k, a);
    } else if a.TimeoutWrite? || a.CancelWrite? || a.CancelRead? || a.CancelFuture? || a == Die {
      WaitKeepsRow(k, a);
    } else {
      QuietKeepsRow(k, a);
    }
  }

  lemma DatingKeepsDated(k: Task, a: Action)
    requires GoodFuture(k) && FinalOnceDated(k) && Enabled(k, a) && !Spares(k, a)
    requires a.Sweep? || a.RecordResult? || a.RecordFailure?
    ensures FinalOnceDated(Act(k, a))
  {
    if a.Sweep? {
      assert a.killed ==> !CanMark(Act(k, a));
    } else {
      assert !CanMark(Act(k, a));
    }
  }

  lemma UndatedKeepsDated(k: Task, a: Action)
    requires GoodFuture(k) && FinalOnceDated(k) && Enabled(k, a)
    requires !a.Sweep? && !a.RecordResult? && !a.RecordFailure?
    ensures FinalOnceDated(Act(k, a))
  {
    assert Act(k, a).row.completionDate == k.row.completionDate;
  }

  lemma ActKeepsDated(k: Task, a: Action)
    requires GoodFuture(k) && FinalOnceDated(k) && Enabled(k, a) && !Spares(k, a)
    ensures FinalOnceDated(Act(k, a))
  {
    if a.Sweep? || a.RecordResult? || a.RecordFailure? {
      DatingKeepsDated(k, a);
    } else {
      UndatedKeepsDated(k, a);
    }
  }

  /** One step keeps the invariant; the strict part is only at risk when a sweep spares a runner. */
  lemma ActKeeps(k: Task, a: Action, strict: bool)
    requires Inv(k, strict) && Enabled(k, a)
    ensures Inv(Act(k, a), strict && !Spares(k, a))
  {
    ActKeepsEvents(k, a);
    ActKeepsFuture(k, a);
    ActKeepsRow(k, a);
    if strict && !Spares(k, a) {
      ActKeepsDated(k, a);
    }
  }

  // ---------------------------------------------------------------------------- runs

  ghost predicate Steps(k: Task, a: Action, k': Task) {
    // bound to a name, so that it is proved as one goal and not conjunct by conjunct
    var follows := Enabled(k, a) && k' == Act(k, a);
    follows
  }

  /** A stretch of the life of a task. */
  ghost predicate Continues(ks: seq<Task>, acts: seq<Action>) {
    && |ks| == |acts| + 1
    && forall i {:trigger acts[i]} :: 0 <= i < |acts| ==> Steps(ks[i], acts[i], ks[i + 1])
  }

  ghost predicate TaskRun(ks: seq<Task>, acts: seq<Action>) {
    Continues(ks, acts) && ks[0] == NewTask
  }

  lemma StepOfRun(ks: seq<Task>, acts: seq<Action>, n: nat)
    requires Continues(ks, acts) && n < |acts|
    ensures Steps(ks[n], acts[n], ks[n + 1])
  {
  }

  /** No restart leaves a runner alive that has not marked its row yet; in particular, no restart. */
  ghost predicate CleanRestarts(ks: seq<Task>, acts: seq<Action>)
    requires TaskRun(ks, acts)
  {
    forall i {:trigger acts[i]} :: 0 <= i < |acts| ==> !Spares(ks[i], acts[i])
  }

  lemma StepKeeps(k: Task, a: Action, k': Task, strict: bool)
    requires Inv(k, strict) && Steps(k, a, k') && (strict ==> !Spares(k, a))
    ensures Inv(k', strict)
  {
    ActKeeps(k, a, strict);
  }

  lemma NewTaskKeeps(strict: bool)
    ensures Inv(NewTask, strict)
  {
  }

  lemma CleanAt(ks: seq<Task>, acts: seq<Action>, n: nat)
    requires TaskRun(ks, acts) && n < |acts| && CleanRestarts(ks, acts)
    ensures !Spares(ks[n], acts[n])
  {
  }

  lemma {:induction false} RunKeeps(ks: seq<Task>, acts: seq<Action>, n: nat)
    requires TaskRun(ks, acts) && n <= |acts|
    ensures Inv(ks[n], CleanRestarts(ks, acts))
    decreases n
  {
    var strict := CleanRestarts(ks, acts);
    if n == 0 {
      NewTaskKeeps(strict);
    } else {
      RunKeeps(ks, acts, n - 1);
      StepOfRun(ks, acts, n - 1);
      if strict {
        CleanAt(ks, acts, n - 1);
      }
      StepKeeps(ks[n - 1], acts[n - 1], ks[n], strict);
    }
  }

  /** The events pushed for a task always form a prefix of ADDED RUNNING PROGRESS* (COMPLETED|FAILED). */
  lemma EventsInOrder(ks: seq<Task>, acts: seq<Action>, n: nat)
    requires TaskRun(ks, acts) && n <= |acts|
    ensures PartialLife(ks[n].pushed)
  {
    RunKeeps(ks, acts, n);
    UnderwayIsPartial(ks[n].pushed);
  }

  lemma RunFuture(ks: seq<Task>, acts: seq<Action>, n: nat)
    requires TaskRun(ks, acts) && n <= |acts|
    ensures GoodFuture(ks[n])
  {
    RunKeeps(ks, acts, n);
  }

  lemma CancelledStep(k: Task, a: Action, k': Task)
    requires GoodFuture(k) && Steps(k, a, k') && k.future == Cancelled
    ensures k'.future == Cancelled
  {
  }

  lemma CancelledInRun(ks: seq<Task>, acts: seq<Action>, n: nat)
    requires TaskRun(ks, acts) && n < |acts| && ks[n].future == Cancelled
    ensures ks[n + 1].future == Cancelled
  {
    RunFuture(ks, acts, n);
    CancelledStep(ks[n], acts[n], ks[n + 1]);
  }

  lemma {:induction false} CancelledStays(ks: seq<Task>, acts: seq<Action>, i: nat, j: nat)
    requires TaskRun(ks, acts) && i <= j <= |acts| && ks[i].future == Cancelled
    ensures ks[j].future == Cancelled
    decreases j
  {
    if i < j {
      CancelledStays(ks, acts, i, j - 1);
      CancelledInRun(ks, acts, j - 1);
    }
  }

  lemma CancelledOnlyAdded(k: Task)
    requires GoodEvents(k) && GoodFuture(k) && k.future == Cancelled
    ensures k.pushed == [ADDED] && !k.invoked
  {
  }

  /** A future cancelled before the pool starts it stays cancelled: its action is never invoked
      and nothing but TASK_ADDED is ever pushed for it. */
  lemma CancelledNeverRuns(ks: seq<Task>, acts: seq<Action>, i: nat, j: nat)
    requires TaskRun(ks, acts) && i <= j <= |acts| && ks[i].future == Cancelled
    ensures ks[j].future == Cancelled && !ks[j].invoked && ks[j].pushed == [ADDED]
  {
    RunKeeps(ks, acts, j);
    CancelledStays(ks, acts, i, j);
    CancelledOnlyAdded(ks[j]);
  }

  lemma DateKept(k: Task, a: Action, k': Task)
    requires Steps(k, a, k') && k.row.completionDate.Some?
    ensures k'.row.completionDate.Some?
  {
  }

  lemma {:induction false} DateStays(ks: seq<Task>, acts: seq<Action>, i: nat, j: nat)
    requires TaskRun(ks, acts) && i <= j <= |acts| && ks[i].row.completionDate.Some?
    ensures ks[j].row.completionDate.Some?
    decreases j
  {
    if i < j {
      DateStays(ks, acts, i, j - 1);
      DateKept(ks[j - 1], acts[j - 1], ks[j - 1 + 1]);
    }
  }

  /** Once a row has a completion date, its status is final in every later state. */
  lemma FinalForGood(ks: seq<Task>, acts: seq<Action>, i: nat, j: nat)
    requires TaskRun(ks, acts) && CleanRestarts(ks, acts)
    requires i <= j <= |acts| && ks[i].row.completionDate.Some?
    ensures ks[j].row.completionDate.Some? && ks[j].row.status.IsFinal()
  {
    DateStays(ks, acts, i, j);
    RunKeeps(ks, acts, j);
  }

  /** The condition is exact: whenever a restart spares such a runner, the run can go on to a row
      that has a completion date and yet says RUNNING. */
  lemma SparedRunnerRevives(k: Task, a: Action, strict: bool) returns (ks: seq<Task>, acts: seq<Action>)
    requires Inv(k, strict) && Enabled(k, a) && Spares(k, a)
    ensures Continues(ks, acts) && ks[0] == Act(k, a)
    ensures ks[|acts|].row.completionDate.Some? && ks[|acts|].row.status == RUNNING
  {
    SparedIsOnItsWay(k, a, strict);
    ks, acts := [Act(k, a)], [];
    while !ks[|acts|].run.Marked?
      invariant Continues(ks, acts) && ks[0] == Act(k, a)
      invariant OnItsWay(ks[|acts|])
      decreases StepsToMark(ks[|acts|])
    {
      var z := ks[|acts|];
      var next := NextTowardsMark(z);
      StepTowardsMark(z);
      ks, acts := Extended(ks, acts, next);
    }
  }

  /** A dated row whose runner will mark it, or has marked it, RUNNING. */
  ghost predicate OnItsWay(k: Task) {
    // bound to a name, so that it is proved as one goal and not conjunct by conjunct
    var all := GoodFuture(k) && k.row.completionDate.Some?
               && (CanMark(k) || (k.run.Marked? && k.row.status == RUNNING));
    all
  }

  lemma SparedIsOnItsWay(k: Task, a: Action, strict: bool)
    requires Inv(k, strict) && Enabled(k, a) && Spares(k, a)
    ensures OnItsWay(Act(k, a))
  {
    ActKeepsFuture(k, a);
  }

  lemma StepTowardsMark(k: Task)
    requires OnItsWay(k) && !k.run.Marked?
    ensures var next := NextTowardsMark(k);
            Steps(k, next, Act(k, next)) && OnItsWay(Act(k, next)) && StepsToMark(Act(k, next)) < StepsToMark(k)
  {
  }

  function NextTowardsMark(k: Task): Action {
    if k.launch == Created then PushAdded
    else if k.launch == Added then Submit
    else if k.future == Pending then PickUp
    else if k.run == Idle then PushRunning
    else MarkRunning
  }

  function StepsToMark(k: Task): nat {
    if k.run.Marked? then 0
    else if k.run == Announced then 1
    else if k.future == Running then 2
    else if k.future == Pending then 3
    else if k.launch == Added then 4
    else 5
  }

  predicate WasRecorded(k: Task) {
    k.run.Recorded? || k.run == Ended
  }

  /** A waiter of another process wrote TIMEOUT over a result that was already recorded. */
  ghost predicate TimedOutOnTop(ks: seq<Task>, acts: seq<Action>, n: nat)
    requires n <= |acts| && |ks| == |acts| + 1
  {
    exists i :: 0 <= i < n && acts[i].TimeoutWrite? && WasRecorded(ks[i])
  }

  lemma RecordedOrDead(k: Task, a: Action, k': Task)
    requires Steps(k, a, k') && (WasRecorded(k) || k.run == Dead)
    ensures WasRecorded(k') || k'.run == Dead
  {
  }

  lemma {:induction false} StaysRecorded(ks: seq<Task>, acts: seq<Action>, i: nat, j: nat)
    requires TaskRun(ks, acts) && i <= j <= |acts| && WasRecorded(ks[i])
    ensures WasRecorded(ks[j]) || ks[j].run == Dead
    decreases j
  {
    if i < j {
      StaysRecorded(ks, acts, i, j - 1);
      StepOfRun(ks, acts, j - 1);
      RecordedOrDead(ks[j - 1], acts[j - 1], ks[j]);
    }
  }

  lemma OvertakenStep(k: Task, a: Action, k': Task)
    requires Steps(k, a, k') && WasRecorded(k')
    ensures WasRecorded(k) ==> (k'.overtaken <==> k.overtaken || a.TimeoutWrite?)
    ensures !WasRecorded(k) ==> !k'.overtaken && k.run != Dead
  {
  }

  /** The same, step by step. */
  predicate OnTop(ks: seq<Task>, acts: seq<Action>, n: nat)
    requires n <= |acts| && |ks| == |acts| + 1
    decreases n
  {
    n > 0 && (OnTop(ks, acts, n - 1) || (acts[n - 1].TimeoutWrite? && WasRecorded(ks[n - 1])))
  }

  lemma {:induction false} OnTopMeans(ks: seq<Task>, acts: seq<Action>, n: nat)
    requires n <= |acts| && |ks| == |acts| + 1
    ensures OnTop(ks, acts, n) <==> TimedOutOnTop(ks, acts, n)
    decreases n
  {
    if n > 0 {
      OnTopMeans(ks, acts, n - 1);
    }
  }

  /** As long as nothing is recorded, and the runner is alive, there is nothing to time out on. */
  lemma NotOnTopYet(ks: seq<Task>, acts: seq<Action>, n: nat)
    requires TaskRun(ks, acts) && n <= |acts| && !WasRecorded(ks[n]) && ks[n].run != Dead
    ensures !OnTop(ks, acts, n)
  {
    OnTopMeans(ks, acts, n);
    if TimedOutOnTop(ks, acts, n) {
      var i :| 0 <= i < n && acts[i].TimeoutWrite? && WasRecorded(ks[i]);
      StaysRecorded(ks, acts, i, n);
    }
  }

  lemma StartsUnrecorded(ks: seq<Task>, acts: seq<Action>)
    requires TaskRun(ks, acts)
    ensures !WasRecorded(ks[0])
  {
  }

  lemma OvertakenStepMeans(k: Task, a: Action, k': Task, before: bool)
    requires Steps(k, a, k') && WasRecorded(k') && (WasRecorded(k) ==> (k.overtaken <==> before))
    requires !WasRecorded(k) && k.run != Dead ==> !before
    ensures k'.overtaken <==> before || (a.TimeoutWrite? && WasRecorded(k))
  {
    OvertakenStep(k, a, k');
  }

  lemma {:induction false} OvertakenMeans(ks: seq<Task>, acts: seq<Action>, n: nat)
    requires TaskRun(ks, acts) && n <= |acts| && WasRecorded(ks[n])
    ensures ks[n].overtaken <==> OnTop(ks, acts, n)
    decreases n
  {
    if n == 0 {
      StartsUnrecorded(ks, acts);
    } else {
      if WasRecorded(ks[n - 1]) {
        OvertakenMeans(ks, acts, n - 1);
      } else if ks[n - 1].run != Dead {
        NotOnTopYet(ks, acts, n - 1);
      }
      StepOfRun(ks, acts, n - 1);
      OvertakenStepMeans(ks[n - 1], acts[n - 1], ks[n], OnTop(ks, acts, n - 1));
    }
  }

  /** Once the runner has ended, `result_status` is true iff TASK_COMPLETED was pushed and no waiter
      of another process has timed out on top of the recorded result. */
  lemma StatusMatchesEvent(ks: seq<Task>, acts: seq<Action>, n: nat)
    requires TaskRun(ks, acts) && n <= |acts| && ks[n].run == Ended
    ensures ks[n].row.resultStatus == Some(true) <==>
            COMPLETED_EVENT in ks[n].pushed && !TimedOutOnTop(ks, acts, n)
  {
    RunKeeps(ks, acts, n);
    OvertakenMeans(ks, acts, n);
    OnTopMeans(ks, acts, n);
  }

  /** One more action at the end of a run. */
  lemma Extended(ks: seq<Task>, acts: seq<Action>, a: Action) returns (ks': seq<Task>, acts': seq<Action>)
    requires Continues(ks, acts) && Enabled(ks[|acts|], a)
    ensures Continues(ks', acts') && acts' == acts + [a]
    ensures ks'[0] == ks[0] && ks'[|acts'|] == Act(ks[|acts|], a)
  {
    ks', acts' := ks + [Act(ks[|acts|], a)], acts + [a];
    forall i | 0 <= i < |acts'| ensures Steps(ks'[i], acts'[i], ks'[i + 1]) {
      if i < |acts| {
        StepOfRun(ks, acts, i);
      }
    }
  }

  /** A task can get as far as its action. */
  lemma ActionReachable() returns (ks: seq<Task>, acts: seq<Action>)
    ensures TaskRun(ks, acts)
    ensures ks[|acts|] == Task(NewRow.(status := RUNNING), Registered, Running, Acting, multiset{},
                               [ADDED, RUNNING_EVENT], true, false)
  {
    ks, acts := [NewTask], [];
    ks, acts := Extended(ks, acts, PushAdded);
    ks, acts := Extended(ks, acts, Submit);
    ks, acts := Extended(ks, acts, Register);
    ks, acts := Extended(ks, acts, PickUp);
    ks, acts := Extended(ks, acts, PushRunning);
    ks, acts := Extended(ks, acts, MarkRunning);
    ks, acts := Extended(ks, acts, Invoke);
  }

  /** The one way in which they differ is open: a task that succeeds, whose result is recorded, and
      which a waiter gives up on before the final event ends with COMPLETED pushed and a false
      `result_status`. */
  lemma StatusCanMismatch(o: Outcome, now: int, message: string) returns (ks: seq<Task>, acts: seq<Action>)
    requires o.success
    ensures TaskRun(ks, acts) && ks[|acts|].run == Ended
    ensures COMPLETED_EVENT in ks[|acts|].pushed && ks[|acts|].row.resultStatus == Some(false)
  {
    ks, acts := ActionReachable();
    ks, acts := Extended(ks, acts, Return(o));
    ks, acts := Extended(ks, acts, RecordResult(now));
    ks, acts := Extended(ks, acts, TimeoutWrite(message));
    ks, acts := Extended(ks, acts, PushEnd);
  }

  // ------------------------------------------------------------------ the status column

  /** The step writes `status` into the row. */
  predicate Wrote(k: Task, a: Action, status: TaskStatus) {
    match status
    case PENDING => false
    case RUNNING => a == MarkRunning
    case COMPLETED => a.RecordResult? && k.run.Returned? && k.run.outcome.success
    case FAILED =>
      || (a.RecordResult? && k.run.Returned? && !k.run.outcome.success) || a.RecordFailure?
      || (a.Sweep? && (k.row.status == PENDING || k.row.status == RUNNING))
    case TIMEOUT => a.TimeoutWrite?
    case CANCELLED => a.CancelWrite? && a.c.read != CANCELLED
  }

  predicate WroteNothing(k: Task, a: Action) {
    !(Wrote(k, a, RUNNING) || Wrote(k, a, COMPLETED) || Wrote(k, a, FAILED) || Wrote(k, a, TIMEOUT)
      || Wrote(k, a, CANCELLED))
  }

  function Written(k: Task, a: Action): (status: TaskStatus)
    requires !WroteNothing(k, a)
    ensures Wrote(k, a, status)
  {
    if Wrote(k, a, RUNNING) then RUNNING
    else if Wrote(k, a, COMPLETED) then COMPLETED
    else if Wrote(k, a, FAILED) then FAILED
    else if Wrote(k, a, TIMEOUT) then TIMEOUT else CANCELLED
  }

  lemma StatusWritten(k: Task, a: Action, status: TaskStatus)
    requires Enabled(k, a) && Wrote(k, a, status)
    ensures Act(k, a).row.status == status
  {
  }

  lemma StatusKept(k: Task, a: Action)
    requires Enabled(k, a) && WroteNothing(k, a)
    ensures Act(k, a).row.status == k.row.status
  {
  }

  /** Step `i` is the last before `n` to write a status, and writes this one. */
  ghost predicate LastWrote(ks: seq<Task>, acts: seq<Action>, i: nat, n: nat, status: TaskStatus)
    requires |ks| == |acts| + 1 && n <= |acts|
  {
    i < n && Wrote(ks[i], acts[i], status)
    && forall j {:trigger acts[j]} :: i < j < n ==> WroteNothing(ks[j], acts[j])
  }

  ghost predicate Unwritten(ks: seq<Task>, acts: seq<Action>, n: nat)
    requires |ks| == |acts| + 1 && n <= |acts|
  {
    forall j {:trigger acts[j]} :: 0 <= j < n ==> WroteNothing(ks[j], acts[j])
  }

  ghost predicate RightStatus(ks: seq<Task>, acts: seq<Action>, n: nat)
    requires |ks| == |acts| + 1 && n <= |acts|
  {
    || (ks[n].row.status == PENDING && Unwritten(ks, acts, n))
    || exists i :: LastWrote(ks, acts, i, n, ks[n].row.status)
  }

  lemma WritingStep(ks: seq<Task>, acts: seq<Action>, n: nat, status: TaskStatus)
    requires |ks| == |acts| + 1 && n < |acts| && Steps(ks[n], acts[n], ks[n + 1]) && Wrote(ks[n], acts[n], status)
    ensures RightStatus(ks, acts, n + 1)
  {
    StatusWritten(ks[n], acts[n], status);
    assert LastWrote(ks, acts, n, n + 1, ks[n + 1].row.status);
  }

  lemma SilentStep(ks: seq<Task>, acts: seq<Action>, n: nat)
    requires |ks| == |acts| + 1 && n < |acts| && Steps(ks[n], acts[n], ks[n + 1]) && WroteNothing(ks[n], acts[n])
    requires RightStatus(ks, acts, n)
    ensures RightStatus(ks, acts, n + 1)
  {
    StatusKept(ks[n], acts[n]);
    if i :| LastWrote(ks, acts, i, n, ks[n].row.status) {
      assert LastWrote(ks, acts, i, n + 1, ks[n + 1].row.status);
    } else {
      assert Unwritten(ks, acts, n + 1);
    }
  }

  lemma StepKeepsRight(ks: seq<Task>, acts: seq<Action>, n: nat)
    requires Continues(ks, acts) && n < |acts| && RightStatus(ks, acts, n)
    ensures RightStatus(ks, acts, n + 1)
  {
    StepOfRun(ks, acts, n);
    if WroteNothing(ks[n], acts[n]) {
      SilentStep(ks, acts, n);
    } else {
      WritingStep(ks, acts, n, Written(ks[n], acts[n]));
    }
  }

  lemma StartsPending(ks: seq<Task>, acts: seq<Action>)
    requires TaskRun(ks, acts)
    ensures RightStatus(ks, acts, 0)
  {
  }

  /** In every run, the status is PENDING until one is written, and then the last one written: in
      particular COMPLETED only comes from recording a success, and FAILED from recording a failure or
      from a restart. */
  lemma {:induction false} StatusIsLastWritten(ks: seq<Task>, acts: seq<Action>, n: nat)
    requires TaskRun(ks, acts) && n <= |acts|
    ensures RightStatus(ks, acts, n)
    decreases n
  {
    if n == 0 {
      StartsPending(ks, acts);
    } else {
      StatusIsLastWritten(ks, acts, n - 1);
      StepKeepsRight(ks, acts, n - 1);
    }
  }

  // ------------------------------------------------------------------------ cancelling

  /** A call of `_cancel_task` for a task of this process: it reads the status, cancels the future
      at step `j` and saves at the end; in between, anything may happen. */
  ghost predicate CancelCall(ks: seq<Task>, acts: seq<Action>, j: nat) {
    && Continues(ks, acts) && 0 < j < |acts| - 1
    && acts[0] == CancelRead
    && acts[j] == CancelFuture(Cancel(ks[0].row.status, false))
    && acts[|acts| - 1] == CancelWrite(Cancel(ks[0].row.status, true))
  }

  lemma CancelSticks(ks: seq<Task>, acts: seq<Action>, j: nat)
    requires CancelCall(ks, acts, j) && ks[0].row.status != CANCELLED
    ensures ks[|acts|].row.status == CANCELLED
  {
    StepOfRun(ks, acts, |acts| - 1);
  }

  lemma Preceded(k: Task, a: Action, ks: seq<Task>, acts: seq<Action>)
    requires Continues(ks, acts) && Steps(k, a, ks[0])
    ensures Continues([k] + ks, [a] + acts)
  {
    RunCons(k, a, ks, acts, (x, b, y) => Steps(x, b, y));
  }

  /** The task after the first two steps of a cancellation. */
  function CancelRequested(k: Task): Task
    requires k.launch == Registered
  {
    Act(Act(k, CancelRead), CancelFuture(Cancel(k.row.status, false)))
  }

  lemma RequestSteps(k: Task)
    requires k.launch == Registered
    ensures var c, k1 := Cancel(k.row.status, false), Act(k, CancelRead);
            && Steps(k, CancelRead, k1) && Steps(k1, CancelFuture(c), CancelRequested(k))
            && CancelRequested(k).row == k.row && Cancel(k.row.status, true) in CancelRequested(k).cancels
  {
  }

  lemma RequestPrecedes(k: Task, ks: seq<Task>, acts: seq<Action>)
    requires k.launch == Registered && Continues(ks, acts) && ks[0] == CancelRequested(k)
    ensures Continues([k] + ([Act(k, CancelRead)] + ks),
                      [CancelRead] + ([CancelFuture(Cancel(k.row.status, false))] + acts))
  {
    RequestSteps(k);
    Preceded(Act(k, CancelRead), CancelFuture(Cancel(k.row.status, false)), ks, acts);
    Preceded(k, CancelRead, [Act(k, CancelRead)] + ks, [CancelFuture(Cancel(k.row.status, false))] + acts);
  }

  lemma TwoMore<T>(x: T, y: T, s: seq<T>)
    requires s != []
    ensures var all := [x] + ([y] + s); all[0] == x && all[1] == y && all[|all| - 1] == s[|s| - 1]
  {
  }

  lemma SavesNothing(k: Task)
    requires Cancel(CANCELLED, true) in k.cancels
    ensures Enabled(k, CancelWrite(Cancel(CANCELLED, true)))
    ensures Act(k, CancelWrite(Cancel(CANCELLED, true))).row == k.row
  {
  }

  /** A call on a cancelled task saves nothing: whatever the others have written since stands. */
  lemma SecondCancelSavesNothing(k: Task, ms: seq<Task>, xs: seq<Action>) returns (ks: seq<Task>, acts: seq<Action>)
    requires k.launch == Registered && k.row.status == CANCELLED
    requires Continues(ms, xs) && ms[0] == CancelRequested(k) && Cancel(CANCELLED, true) in ms[|xs|].cancels
    ensures CancelCall(ks, acts, 1) && ks[0] == k && ks[|acts|].row == ms[|xs|].row
    ensures |acts| == |xs| + 3
  {
    var read, request := CancelRead, CancelFuture(Cancel(CANCELLED, false));
    SavesNothing(ms[|xs|]);
    var states, steps := Extended(ms, xs, CancelWrite(Cancel(CANCELLED, true)));
    RequestPrecedes(k, states, steps);
    TwoMore(k, Act(k, read), states);
    TwoMore(read, request, steps);
    ks, acts := [k] + ([Act(k, read)] + states), [read] + ([request] + steps);
  }

  /** So a timeout does. */
  lemma SecondCancelKeepsTimeout(k: Task, message: string) returns (ks: seq<Task>, acts: seq<Action>)
    requires k.launch == Registered && k.row.status == CANCELLED
    ensures CancelCall(ks, acts, 1) && ks[0] == k && ks[|acts|].row.status == TIMEOUT
  {
    RequestSteps(k);
    var ms, xs := Extended([CancelRequested(k)], [], TimeoutWrite(message));
    ks, acts := SecondCancelSavesNothing(k, ms, xs);
  }

  /** A cancellation ends with CANCELLED whatever the others do, exactly when it is not the second. */
  lemma CancelSticksExactlyWhen(k: Task)
    requires k.launch == Registered
    ensures (forall ks: seq<Task>, acts: seq<Action>, j: nat ::
               CancelCall(ks, acts, j) && ks[0] == k ==> ks[|acts|].row.status == CANCELLED)
       <==> k.row.status != CANCELLED
  {
    if k.row.status == CANCELLED {
      var ks, acts := SecondCancelKeepsTimeout(k, "");
    } else {
      forall ks: seq<Task>, acts: seq<Action>, j: nat | CancelCall(ks, acts, j) && ks[0] == k
        ensures ks[|acts|].row.status == CANCELLED
      {
        CancelSticks(ks, acts, j);
      }
    }
  }

  /** A task may go on after its cancellation. */
  lemma CancelledReachable() returns (ks: seq<Task>, acts: seq<Action>)
    ensures TaskRun(ks, acts)
    ensures ks[|acts|] == Task(NewRow.(status := CANCELLED), Registered, Running, Acting, multiset{},
                               [ADDED, RUNNING_EVENT], true, false)
  {
    ks, acts := ActionReachable();
    ks, acts := Extended(ks, acts, CancelRead);
    ks, acts := Extended(ks, acts, CancelFuture(Cancel(RUNNING, false)));
    ks, acts := Extended(ks, acts, CancelWrite(Cancel(RUNNING, true)));
  }

  lemma ReturnsMeanwhile(k: Task, o: Outcome, now: int) returns (ms: seq<Task>, xs: seq<Action>)
    requires k.run == Acting && o.success
    ensures Continues(ms, xs) && |xs| == 2 && ms[0] == k
    ensures ms[2].row.status == COMPLETED && ms[2].cancels == k.cancels
  {
    ms, xs := Extended([k], [], Return(o));
    ms, xs := Extended(ms, xs, RecordResult(now));
  }

  /** A task that is cancelled, cancelled again, and succeeds during the second call: it says
      COMPLETED when the call has returned. */
  lemma CancelledTaskCompletes(o: Outcome, now: int)
    returns (before: seq<Task>, past: seq<Action>, ks: seq<Task>, acts: seq<Action>)
    requires o.success
    ensures TaskRun(before, past) && before[|past|].row.status == CANCELLED
    ensures CancelCall(ks, acts, 1) && ks[0] == before[|past|] && ks[|acts|].row.status == COMPLETED
  {
    before, past := CancelledReachable();
    var k := before[|past|];
    RequestSteps(k);
    var ms, xs := ReturnsMeanwhile(CancelRequested(k), o, now);
    ks, acts := SecondCancelSavesNothing(k, ms, xs);
  }

  // --------------------------------------------------------------------------- to_dto

  datatype Dto = Dto(status: TaskStatus, completionDate: Option<int>, outcome: Option<Outcome>)

  /** `to_dto`; `None` stands for a failed assertion. */
  function ToDto(row: Row): Option<Dto> {
    if row.completionDate.Some? then
      if row.resultStatus.None? || row.resultMsg.None? then None
      else Some(Dto(row.status, row.completionDate,
          Some(Outcome(row.resultStatus.value, row.resultMsg.value, row.result))))
    else Some(Dto(row.status, None, None))
  }

  /** It fails on dated rows without a message or a result status only; otherwise it shows the columns
      of the row, those of the result exactly when there is a completion date. */
  lemma DtoShowsRow(row: Row)
    ensures ToDto(row).None? <==> row.completionDate.Some? && (row.resultMsg.None? || row.resultStatus.None?)
    ensures ToDto(row).Some? ==>
              var d := ToDto(row).value;
              && d.status == row.status && d.completionDate == row.completionDate
              && (d.outcome.Some? <==> row.completionDate.Some?)
              && (d.outcome.Some? ==>
                    && row.resultStatus == Some(d.outcome.value.success)
                    && row.resultMsg == Some(d.outcome.value.message) && row.result == d.outcome.value.returnValue)
  {
  }

  /** The assertions of `to_dto` never fail, restarts included, and the DTO carries a result
      exactly when the row has a completion date. */
  lemma DtoNeverFails(ks: seq<Task>, acts: seq<Action>, n: nat)
    requires TaskRun(ks, acts) && n <= |acts|
    ensures ToDto(ks[n].row).Some?
    ensures ToDto(ks[n].row).value.outcome.Some? <==> ks[n].row.completionDate.Some?
  {
    RunKeeps(ks, acts, n);
  }
}
