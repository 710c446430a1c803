/** The life of one background task: its row, its future, its launcher and its runner, with
    every database write, push and future operation of `TaskJobService` as one step.
    Tasks only meet in the database sweep of a restart, so a task is a machine of its own. */
module TaskLifecycle {
  import opened Options

  datatype TaskStatus = PENDING | RUNNING | COMPLETED | FAILED | TIMEOUT | CANCELLED {
    predicate IsFinal() {
      this in {COMPLETED, FAILED, CANCELLED, TIMEOUT}
    }
  }

  /** The columns of a task row that the service writes. */
  datatype Row = Row(
    status: TaskStatus,
    completionDate: Option<int>,
    resultMsg: Option<string>,
    resultStatus: Option<bool>,
    result: Option<string>,
    progress: Option<int>)

  const NewRow := Row(PENDING, None, None, None, None, None)

  datatype Outcome = Outcome(success: bool, message: string, returnValue: Option<string>)

  /** `_create_task` and `_launch_task`: save, push TASK_ADDED, submit, register the future. */
  datatype Launch = Created | Added | Submitted | Registered | Gone

  datatype Future = NoFuture | Pending | Running | Finished | Cancelled

  /** Where `_run_task` is. */
  datatype Run =
    | Idle                      // not started, or started and nothing pushed yet
    | Announced                 // TASK_RUNNING pushed
    | Marked                    // status RUNNING written
    | Acting                    // inside the action
    | Returned(outcome: Outcome)
    | Raised(error: string)
    | Recorded(success: bool)   // result columns written
    | Ended                     // final event pushed
    | Dead                      // the thread or its process is gone

  datatype Kind = ADDED | RUNNING_EVENT | PROGRESS | COMPLETED_EVENT | FAILED_EVENT

  /** A `_cancel_task` call: the status it read, and whether it has cancelled the future yet. */
  datatype Cancel = Cancel(read: TaskStatus, requested: bool)

  datatype Task = Task(
    row: Row,
    launch: Launch,
    future: Future,
    run: Run,
    cancels: multiset<Cancel>,
    pushed: seq<Kind>,   // history: the events of this task pushed by its launch and its runner
    invoked: bool,       // history: the action was called
    overtaken: bool)     // history: a waiter timed out after the result columns were written

  const NewTask := Task(NewRow, Created, NoFuture, Idle, multiset{}, [], false, false)

  datatype Action =
    | PushAdded | Submit | Register
    | PickUp | PushRunning | MarkRunning | Invoke
    | Progress(percent: int)
    | Return(outcome: Outcome) | Raise(error: string)
    | RecordResult(now: int) | RecordFails(error: string) | RecordFailure(now: int)
    | PushEnd | Die
    | CancelRead | CancelFuture(c: Cancel) | CancelWrite(c: Cancel)
    | TimeoutWrite(message: string)
    | Sweep(now: int, killed: bool)  // a restart's `cancel_orphan_tasks`, seen by this task

  predicate Enabled(k: Task, a: Action) {
    match a
    case PushAdded => k.launch == Created
    case Submit => k.launch == Added
    case Register => k.launch == Submitted
    case PickUp => k.future == Pending
    case PushRunning => k.future == Running && k.run == Idle
    case MarkRunning => k.run == Announced
    case Invoke => k.run == Marked
    case Progress(_) => k.run == Acting
    case Return(_) => k.run == Acting
    case Raise(_) => k.run == Acting
    case RecordResult(_) => k.run.Returned?
    case RecordFails(_) => k.run.Returned?
    case RecordFailure(_) => k.run.Raised?
    case PushEnd => k.run.Recorded?
    case Die => k.future == Running && k.run != Ended
    case CancelRead => true
    case CancelFuture(c) => c in k.cancels && !c.requested && k.launch == Registered
    case CancelWrite(c) => c in k.cancels && c.requested
    case TimeoutWrite(_) => true
    case Sweep(_, _) => true
  }

  /** The bulk update of `cancel_orphan_tasks` on one row. */
  function Swept(row: Row, now: int): Row {
    if row.status == RUNNING || row.status == PENDING
    then row.(status := FAILED, resultStatus := Some(false),
              resultMsg := Some("Task was interrupted due to server restart"), completionDate := Some(now))
    else row
  }

  function Act(k: Task, a: Action): Task
    requires Enabled(k, a)
  {
    match a
    case PushAdded => k.(launch := Added, pushed := k.pushed + [ADDED])
    case Submit => k.(launch := Submitted, future := Pending)
    case Register => k.(launch := Registered)
    case PickUp => k.(future := Running)
    case PushRunning => k.(run := Announced, pushed := k.pushed + [RUNNING_EVENT])
    case MarkRunning => k.(run := Marked, row := k.row.(status := RUNNING))
    case Invoke => k.(run := Acting, invoked := true)
    case Progress(percent) => k.(row := k.row.(progress := Some(percent)), pushed := k.pushed + [PROGRESS])
    case Return(outcome) => k.(run := Returned(outcome))
    case Raise(error) => k.(run := Raised(error))
    case RecordResult(now) =>
      var o := k.run.outcome;
      var status := if o.success then COMPLETED else FAILED;
      k.(run := Recorded(o.success), overtaken := false,
         row := k.row.(status := status, resultMsg := Some(o.message), resultStatus := Some(o.success),
                       result := o.returnValue, completionDate := if status.IsFinal() then Some(now) else None))
    case RecordFails(error) => k.(run := Raised(error))
    case RecordFailure(now) =>
      k.(run := Recorded(false), overtaken := false,
         row := k.row.(status := FAILED, resultMsg := Some(k.run.error), resultStatus := Some(false),
                       completionDate := Some(now)))
    case PushEnd =>
      k.(run := Ended, future := Finished,
         pushed := k.pushed + [if k.run.success then COMPLETED_EVENT else FAILED_EVENT])
    case Die => k.(run := Dead, future := Finished)
    case CancelRead => k.(cancels := k.cancels + multiset{Cancel(k.row.status, false)})
    case CancelFuture(c) =>
      k.(future := if k.future == Pending then Cancelled else k.future,
         cancels := k.cancels - multiset{c} + multiset{c.(requested := true)})
    case CancelWrite(c) =>
      // the mapper only writes the column when it differs from what was loaded
      k.(row := if c.read != CANCELLED then k.row.(status := CANCELLED) else k.row,
         cancels := k.cancels - multiset{c})
    case TimeoutWrite(message) =>
      k.(row := k.row.(status := TIMEOUT, resultMsg := Some(message), resultStatus := Some(false)), overtaken := true)
    case Sweep(now, killed) =>
      if killed
      then k.(row := Swept(k.row, now), cancels := multiset{},
              launch := Gone, run := if k.run == Ended then Ended else Dead,
              future := if k.future == Cancelled then Cancelled else Finished)
      else k.(row := Swept(k.row, now))
  }
}
