# AntaREST: verified models of its stateful core

AntaREST is a web server for energy studies. Behind its routes it has a few real algorithms and
protocols: background tasks and remote workers that meet on an event bus, a study search compiled to
SQL, a watcher that reconciles the database with the disk, a content-addressed matrix store with a
garbage collector, and some smaller loops. This project models them in Dafny and proves what they
are for. `dafny verify dfyconfig.toml` checks everything.

## How it is laid out

| part | files |
|---|---|
| Event bus | `EventBus` (one round as a function), `EventBusProperties`, `EventBusObjects` (the classes) |
| Remote workers | `WorkerProtocol` (interleaved steps), `WorkerProtocolProofs`, `WorkerProtocolRounds`, `WorkerProtocolLiveness`, `WorkerService` (waiter and worker as objects) |
| Tasks | `TaskLifecycle` (one task, every write and push a step), `TaskLifecycleProofs`, `TaskService` (the class), `RemoteTaskRow` (a remote task and its row together) |
| Study search | `LikePattern`, `Permissions`, `StudyQuery` (SQL with NULLs, joins, set operations), `StudySearch`, `StudySearchPermissions`, `StudySearchCount` |
| Tags | `StudyTags`, `TagMigration` |
| Watcher | `DiskSync` (the class and its specification), `DiskSyncProofs`, `DiskSyncResults`, `DiskSyncFates` (what becomes of a row, in plain terms), `DiskSyncHistory`, `DuplicateStudies` |
| Matrices | `MatrixStore`, `MatrixCollector`, `MatrixCollectorRuns` (a clean while others work) |
| Small loops | `LogFollower`, `Changelog`, `ChangelogProofs`, `ChangelogUpdate`, `ChangelogPatterns` (the regular expressions as relations) |
| Shared | `Options`, `Text`, `Sequences` |

Objects whose methods update their fields are classes here; each method is proved equal to a function
of the old state, and the lemmas are about that function. Threads are modelled as interleaved steps:
a step is what one thread does between two points at which another may run, a run is any sequence of
enabled steps, and the lemmas quantify over all runs. `TaskService` and `WorkerService` make the same
steps in the order of the source, with arbitrary steps of others in between.

## What the models take for granted

- One `_on_events` round is atomic for the other threads. Its own callbacks do push during the round,
  onto the list that is being iterated. `SplitRoundLosesResult` and `LostForever` show what is lost
  when a push falls between the end of the loop and `clear_events`.
- `event_bus.push` does not raise. A callback pushes events and may raise; it registers and queues
  nothing during the round. `asyncio.gather` starts every listener of an event before the exception of
  one of them ends the round.
- `uuid4` gives fresh identifiers; `random.randint` is an arbitrary choice, clocks, random colors and
  the iteration order of sets are parameters.
- The loop over the live event list may never end (a listener may push for ever), so a bound on the
  number of events watched is a parameter; `FuelIrrelevant` shows that it does not matter once a round
  has ended.
- A restart is the bulk update of `cancel_orphan_tasks`; for each task it may or may not have killed
  the runner (another process may own it). The mapper writes a column only if it changed, so a cancel
  that read CANCELLED writes nothing.
- The letters whose upper form the database knows are a parameter, and so are those of Python:
  PostgreSQL and SQLite differ here. Elsewhere in the study search letter case is ASCII case, and ILIKE
  compares lower-case forms. The query names no escape character, so the dialect of the database is a
  parameter too: PostgreSQL escapes with a backslash by default, SQLite not at all.
- The owner of a study refers to an existing identity (a foreign key of the schema).
- In a synchronisation, reading the metadata of a folder succeeds; every raw study has a path, a
  sequence of components; folders and workspaces are as the configuration says.
- A table is listed in the order in which the database answers; `list_duplicates` asks for none, so the
  row that `remove_duplicates` keeps is the first of that answer.
- The classes of the collector run a whole clean at once. In `MatrixCollectorRuns` others work between
  its listing, its collection of the uses, which is one step, and its deletions.
- SHA-256 is injective and gives no dot. A cell is a number of units of the eighteenth decimal, so
  `%.18f` loses nothing; a matrix is its list of rows.
- JSON encoding and decoding are inverse.

## Where the code and its purpose part

- A bot, whose identity differs from its impersonator, does not get exactly the studies it may read: the
  list compares the owner with `user_id`, the permission check with `impersonator`
  (`WhoCanTrustTheList`: the two agree for all data exactly for admins and non-bots;
  `BotSeesTooMuch` gives the data).
- `count_studies` counts rows of joins. For users it is the length of the list; for an admin it is so
  exactly when no study that passes the filters has two of the tags, or two of the groups, asked for
  (`CountIsExactForAdmins`, with `TwoTagsCountTwice`).
- Where LIKE has no default escape character (SQLite), the name filter and the folder filter are wrong
  exactly for texts with `%`, `_` or a backslash (`NameFilterWithoutEscape`,
  `FolderFilterWithoutEscape`), and so is the search built on them (`WhereTextIsRight`, with
  `SpecialSearchMisses`).
- Where Python and the database disagree on the upper form of a letter (an accented one on SQLite),
  `update_tags` can create a second tag that differs by case only. Labels stay unique exactly when the
  database finds each label that has another spelling (`UniqueExactlyWhen`, with `AccentsMakeTwins`), and
  repetitions change nothing under the same condition (`RepeatableExactlyWhen`). A study still has what
  was last requested, as long as the database takes no label for another (`LastRequestWinsExactlyWhen`),
  which one that merely knows fewer letters never does (`AccentsAreGivenAsRequested`). The tag filter of
  the search misses such a label (`WhereTextIsRight`, with `AccentedTagIsMissed`).
- A restart that leaves alive a runner which has not marked its task yet can put a completion date on
  a row that then says RUNNING; no other restart can (`FinalForGood`, `SparedRunnerRevives`).
- `result_status` and the final event differ exactly when a waiter of another process wrote TIMEOUT
  after the result was recorded (`StatusMatchesEvent`, with `StatusCanMismatch`).
- A second cancellation that has read CANCELLED saves nothing, so what others have written meanwhile
  stands: a timeout, or a success (`CancelSticksExactlyWhen`, with `CancelledTaskCompletes`).
- The collector decides once what to delete: a matrix that comes into use during the deletions is
  deleted exactly when it is on their list (`SafeExactlyWhenNotListed`, with `UsedMatrixIsLost`).
- The key of a stored matrix does not contain its shape: saving a matrix gives it back unless one with
  the same cells and another shape was there before (`SaveThenGet`). The table row takes the new shape
  and the file keeps the old one, so `get` returns a shape that its data do not have
  (`CreateShapeIsRightIffFits`, with `ReshapedMatrixDisagrees`).
- `update_changelog` ends with an IndexError exactly on texts whose first release title is blank
  (`UpdateFailsOnBlankTitle`, with `BlankTitleFails`); the file, open for writing by then, is left with
  the text before that title and nothing more (`RewriteChangelog`).

## Model

| member | source | states |
|---|---|---|
| `EventBusObjects.LocalEventBus.PushEvent` | antarest/eventbus/business/local_eventbus.py:27-28 | appends one event to the list and changes nothing else |
| `EventBusObjects.LocalEventBus.ClearEvents` | antarest/eventbus/business/local_eventbus.py:33-34 | empties the list and leaves the queues |
| `EventBusObjects.LocalEventBus.QueueEvent` | antarest/eventbus/business/local_eventbus.py:36-39 | appends to the named queue, creating it when it is new; other queues stay |
| `EventBusObjects.LocalEventBus.PullQueue` | antarest/eventbus/business/local_eventbus.py:41-44 | first in, first out; an unknown or empty queue gives nothing and stays as it is |
| `EventBusObjects.EventBusService.PushEvent` | antarest/eventbus/service.py:39-40 | is the push of the run model |
| `EventBusObjects.EventBusService.QueueEvent` | antarest/eventbus/service.py:42-43 | is the queueing of the run model |
| `EventBusObjects.EventBusService.AddQueueConsumer` | antarest/eventbus/service.py:45-51 | appends an identifier that no consumer has to the table of the queue, new if need be, and leaves the other tables |
| `EventBusObjects.EventBusService.RemoveQueueConsumer` | antarest/eventbus/service.py:53-57 | takes the identifier out of every consumer table |
| `EventBusObjects.EventBusService.AddListener` | antarest/eventbus/service.py:59-69 | one identifier, held by nobody, is appended once under each type of the filter, or under ANY when there is none, and nowhere else |
| `EventBusObjects.EventBusService.RemoveListener` | antarest/eventbus/service.py:71-75 | takes the identifier out of every listener table |
| `EventBusObjects.EventBusService.OnEvents` | antarest/eventbus/service.py:85-117 | the two loops, updating in place, make exactly the round of the run model, crash included |
| `EventBusObjects.EventBusService.DrainQueues` | antarest/eventbus/service.py:87-100 | the loop over the consumer tables is the drain of the run model |
| `EventBusObjects.EventBusService.DrainOneQueue` | antarest/eventbus/service.py:88-100 | the pull loop of one queue, going on after a consumer that raises |
| `EventBusObjects.EventBusService.BroadcastEvents` | antarest/eventbus/service.py:102-117 | the loop over the live list and the clearing are the broadcast of the run model, crash included |
| `EventBusProperties.QueueConservation` | antarest/eventbus/service.py:85-100 | in every run and for every queue: the queued events are the pulled ones followed by the waiting ones, in order |
| `EventBusProperties.RoundPerQueue` | antarest/eventbus/service.py:87-100 | a round empties each queue that has a consumer, in order and to its own consumers even if they raise, and leaves the others alone |
| `EventBusProperties.DrainEmpties` | antarest/eventbus/service.py:87-100 | what leaves a queue in a drain is what is handed over, each event to one consumer registered on that queue |
| `EventBusProperties.BroadcastCount` | antarest/eventbus/service.py:102-117 | the list a round sees is the one it found followed by all that the callbacks of the round push; in a finished round each of these events reaches a listener as often as it is registered under its type and under ANY, and the list ends empty; an aborted round drops no event |
| `EventBusProperties.RoundPushes` | antarest/eventbus/business/local_eventbus.py:27-34 | pushes of queue consumers come before those of listeners, and none is missing from the live list |
| `EventBusProperties.BroadcastExact` | antarest/eventbus/service.py:102-117 | the deliveries are those owed to a prefix of the list, in order; all of it exactly when the round finishes |
| `EventBusProperties.OnEventsExact` | antarest/eventbus/service.py:85-117 | a whole round is the drain's deliveries followed by the broadcast's |
| `EventBusProperties.FuelIrrelevant` | antarest/eventbus/service.py:102-117 | watching a finished or aborted round longer gives the same round |
| `EventBusProperties.AbortedIffListenerRaises` | antarest/eventbus/service.py:85-117 | a round is aborted iff a listener that it calls raises; raising consumers do not abort it |
| `EventBusProperties.ApplyConserves` | antarest/eventbus/service.py:39-117 | every bus operation keeps one table per queue and moves events of a queue only from its front to the log |
| `WorkerProtocolRounds.NothingLost` | antarest/core/tasks/service.py:175-210 | in every reachable state a waiting task has its command in its queue or in the pool, or its result awaiting the callback, on the bus or in the wrapper: never none, and exactly one when no listener raised |
| `WorkerProtocolRounds.NothingSwapped` | antarest/core/tasks/service.py:180-210 | what a waiter returns is the one result computed in the run for its own command, even if listeners raised |
| `WorkerProtocolRounds.ComputedOnce` | antarest/worker/worker.py:113-136 | in every run a task is computed at most once |
| `WorkerProtocolRounds.RunKeeps` | antarest/worker/worker.py:57-65 | the protocol invariant holds in every reachable state |
| `WorkerProtocolRounds.RoundKeeps` | antarest/eventbus/service.py:85-117 | a bus round with worker consumers and awaiting listeners keeps the invariant, and keeps it exact if no listener raises |
| `WorkerProtocolRounds.NextKeeps` | antarest/core/tasks/service.py:188-210 | every step of waiter, bus, pool and callback keeps the invariant |
| `WorkerProtocolLiveness.SplitRoundLosesResult` | antarest/eventbus/service.py:102-117 | if a done-callback pushes after the broadcast loop and before the list is cleared, its task is lost |
| `WorkerProtocolLiveness.LostForever` | antarest/core/tasks/service.py:207-210 | a lost task never returns, whatever happens afterwards |
| `WorkerProtocolLiveness.AwaitsCallbackReachable` | antarest/worker/worker.py:113-126 | the state that such a split breaks is reachable |
| `WorkerProtocolLiveness.CanReturn` | antarest/core/tasks/service.py:188-210 | from every state of the invariant a served waiting task can return within five steps |
| `WorkerService.RemoteTasks.SendWorkerTask` | antarest/core/tasks/service.py:188-210 | listen, queue, poll, unlisten: whatever the others do, the returned value is the one computed for this task and the listener is gone; without a value it still waits |
| `WorkerService.RemoteTasks.SafeExecuteTask` | antarest/worker/worker.py:128-136 | an exception becomes a failed result, and the result is recorded and due to be announced under the task's own id |
| `WorkerService.RemoteTasks.EndedCallback` | antarest/worker/worker.py:57-65 | pushes the end event once and takes it off the pool |
| `TaskLifecycleProofs.EventsInOrder` | antarest/core/tasks/service.py:274-488 | in every run the events of a task form a prefix of ADDED RUNNING PROGRESS* (COMPLETED or FAILED) |
| `TaskLifecycleProofs.CancelledNeverRuns` | antarest/core/tasks/service.py:314-319 | a future cancelled before the pool starts it never runs its action and stays at ADDED |
| `TaskLifecycleProofs.FinalForGood` | antarest/core/tasks/service.py:399-488 | a row with a completion date has a final status in every later state, unless a restart spared a runner that had not marked the row yet |
| `TaskLifecycleProofs.SparedRunnerRevives` | antarest/core/tasks/model.py:230-254 | that condition is exact: after every such restart the run can reach a dated row that says RUNNING |
| `TaskLifecycleProofs.StatusMatchesEvent` | antarest/core/tasks/service.py:415-488 | after the run `result_status` is true iff COMPLETED was pushed and no foreign waiter wrote TIMEOUT after the result was recorded |
| `TaskLifecycleProofs.OvertakenMeans` | antarest/core/tasks/service.py:376-385 | a recorded result is overwritten exactly by a timeout written after it |
| `TaskLifecycleProofs.StatusCanMismatch` | antarest/core/tasks/service.py:376-385 | a run in which COMPLETED is pushed and `result_status` is false |
| `TaskLifecycleProofs.CancelSticksExactlyWhen` | antarest/core/tasks/service.py:314-319 | a cancellation ends with CANCELLED whatever the others do in between iff it had read another status |
| `TaskLifecycleProofs.SecondCancelSavesNothing` | antarest/core/tasks/service.py:314-319 | a call that has read CANCELLED leaves the row as the others have written it |
| `TaskLifecycleProofs.CancelledTaskCompletes` | antarest/core/tasks/service.py:314-319 | a task that is cancelled twice, and says COMPLETED when the second call has returned |
| `TaskLifecycleProofs.DtoNeverFails` | antarest/core/tasks/model.py:177-199 | restarts included, the assertions of `to_dto` hold, and the DTO has a result exactly with a completion date |
| `TaskLifecycleProofs.DtoShowsRow` | antarest/core/tasks/model.py:177-199 | on which rows the assertions fail, and that the DTO shows the columns otherwise |
| `TaskLifecycleProofs.StatusIsLastWritten` | antarest/core/tasks/service.py:415-488 | in every run the status is the last one written: COMPLETED only from recording a success, FAILED only from recording a failure or from a restart |
| `TaskLifecycleProofs.ActKeeps` | antarest/core/tasks/service.py:387-488 | every write, push and future operation keeps the task invariant |
| `TaskLifecycleProofs.RunKeeps` | antarest/core/tasks/service.py:253-488 | the task invariant holds in every run |
| `RemoteTaskRow.RowShowsComputedResult` | antarest/core/tasks/service.py:169-210 | end to end: the row of a remote task shows the result a worker computed for this very task, unless a foreign waiter timed out on top, and the status that belongs to it, unless the task was cancelled; the COMPLETED event means a computed success |
| `RemoteTaskRow.RunKeeps` | antarest/core/tasks/service.py:421-441 | worker protocol and task row, run together, keep their joint invariant |
| `TaskService.TaskJobService.CreateTask` | antarest/core/tasks/service.py:253-272 | adds a pending row and nothing else |
| `TaskService.TaskJobService.LaunchTask` | antarest/core/tasks/service.py:274-299 | pushes ADDED, submits and registers the future, in this order, with others in between: the pool may have started the task before it is registered; undisturbed, the future is pending |
| `TaskService.TaskJobService.CancelTask` | antarest/core/tasks/service.py:314-328 | an unknown task is an error; for a task of this process, with others in between, the future is pending no longer afterwards and the status is CANCELLED, unless CANCELLED was read, when nothing is saved; for another the request is passed on or ignored |
| `TaskService.TaskJobService.AwaitTask` | antarest/core/tasks/service.py:355-385 | for a task of this process tells how its future stands when it ends or time is up, and writes nothing; otherwise ends on a final status or an unknown task, or writes TIMEOUT with a false result when the time is up |
| `TaskService.TaskJobService.RunTask` | antarest/core/tasks/service.py:387-488 | whatever the others do: the events of the task come out whole and in order, and its row is dated and says COMPLETED after a recorded success and FAILED otherwise, unless it was cancelled or timed out meanwhile |
| `TaskService.TaskJobService.Start` | antarest/core/tasks/service.py:393-424 | RUNNING is pushed before the status is written and the action called |
| `TaskService.TaskJobService.ReportProgress` | antarest/core/tasks/service.py:137-151 | one PROGRESS event per notification, in between all others' steps |
| `TaskService.TaskJobService.Conclude` | antarest/core/tasks/service.py:419-476 | the result goes into the row with COMPLETED or FAILED, and an exception, of the action or of recording, with FAILED |
| `TaskService.TaskJobService.Finish` | antarest/core/tasks/service.py:443-488 | the final event agrees with what was recorded |
| `TaskService.TaskJobService.CancelOrphanTasks` | antarest/core/tasks/model.py:230-254 | pending and running rows become FAILED with the date and the message of a restart, the others stay, and the threads of the ended process are gone |
| `LikePattern.EscapeInOnePass` | antarest/study/repository.py:31-48 | the three replace passes equal one character-by-character map |
| `LikePattern.NameFilterIsContains` | antarest/study/repository.py:347-349 | with the backslash as escape, for every name and text, the pattern matches iff the text contains the name, up to case |
| `LikePattern.FolderFilterIsPrefix` | antarest/study/repository.py:350-352 | with the backslash as escape, for every folder and text, the pattern matches iff the text starts with the folder, up to case |
| `LikePattern.NameFilterWithoutEscape` | antarest/study/repository.py:347-349 | without an escape character the filter is right for all texts iff the name has no special character |
| `LikePattern.SpecialNameMisses` | antarest/study/repository.py:347-349 | otherwise a study is not even found under its own name |
| `LikePattern.FolderFilterWithoutEscape` | antarest/study/repository.py:350-352 | the folder filter likewise: right for all texts iff the folder has no special character |
| `Permissions.PermissionsFormAChain` | antarest/core/permissions.py:24-88 | whoever has a permission has every weaker one |
| `Permissions.WhoMayRead` | antarest/core/permissions.py:22-88 | reading: site admins, user 1 and its bots, the owner and its bots, any role in a group of the study, or any public mode |
| `Permissions.WhoMayRun` | antarest/core/permissions.py:22-88 | running: the same without readers and the mode READ |
| `Permissions.WhoMayWrite` | antarest/core/permissions.py:22-88 | writing: the same without runners and the mode EXECUTE |
| `Permissions.WhoMayManage` | antarest/core/permissions.py:22-88 | managing: of the roles only ADMIN, and no public mode |
| `Permissions.StrangersMayNothing` | antarest/core/permissions.py:53-88 | whoever is none of these has no permission on a private study, roles in other groups notwithstanding |
| `StudySearch.SearchMeansPredicate` | antarest/study/repository.py:300-383 | the query, with joins, intersections and unions over nullable columns, finds exactly the studies that pass the filters, share a group with the group filter, and are public, owned or shared with the user; provided that LIKE escapes with a backslash or there is nothing to escape, and that the database agrees with Python on the labels asked for |
| `StudySearch.WhereTextIsRight` | antarest/study/repository.py:342-352 | that condition is exact for a search by name, folder and tags |
| `StudySearch.AccentedTagIsMissed` | antarest/study/repository.py:342-344 | on SQLite a study is not found by its accented tag |
| `StudySearch.NonAdminSearchHasNoRepeats` | antarest/study/repository.py:364-379 | for anybody but an admin no study comes twice |
| `StudySearch.BaseStudies` | antarest/study/repository.py:320-361 | the filters before groups and permissions, the tag join included, mean their plain predicate |
| `StudySearch.BeforeTagsMeans` | antarest/study/repository.py:321-341 | existence, managed, id and owner conditions with NULL columns mean what they say |
| `StudySearch.AfterTagsMeans` | antarest/study/repository.py:345-361 | archived, name, folder, workspace, variant and version conditions with NULL columns mean what they say, on SQLite as far as name and folder have no special character |
| `StudySearchPermissions.SearchAgrees` | antarest/core/permissions.py:53-88 | for admins and for users that are their own impersonator, and all filters and data, the list is the filtered studies that `check_permission` lets them read |
| `StudySearchPermissions.WhoCanTrustTheList` | antarest/study/repository.py:62-85 | the agreement holds for all data exactly for those |
| `StudySearchPermissions.WhatUserSees` | antarest/study/repository.py:362-383 | the plain list of a user who is no bot, written out on the groups, the mode and the owner |
| `StudySearchPermissions.WithoutUserNothing` | antarest/study/repository.py:376-379 | without a user it is empty |
| `StudySearchPermissions.BotSeesTooMuch` | antarest/core/jwt.py:40-52 | any other bot is listed a private study that it may not read |
| `StudySearchPermissions.VisibleIsReadable` | antarest/core/model.py:52-57 | visibility by columns is READ permission by the loaded study, NULL owner and public mode included |
| `StudySearchCount.AdminRepeats` | antarest/study/repository.py:342-383 | an admin's query repeats a study once per matching tag and matching group |
| `StudySearchCount.CountIsExactForAdmins` | antarest/study/repository.py:284-298 | an admin's count is the length of the list iff no study that passes the filters is reached in two ways |
| `StudySearchCount.TwoTagsCountTwice` | antarest/study/repository.py:342-344 | a study with both tags of a filter is listed once and counted twice |
| `StudySearchCount.CountIsExactForUsers` | antarest/study/repository.py:284-298 | everybody else's count is the length of the list |
| `StudyTags.StudyMetadataRepository.UpdateTags` | antarest/study/repository.py:401-422 | the popping loop and the table rewrites give the specified tables |
| `StudyTags.StudyMetadataRepository.PopExisting` | antarest/study/repository.py:413-415 | exactly the requested tags that the table has in no spelling are left |
| `StudyTags.UpdateGivesRequested` | antarest/study/repository.py:410-418 | no requested tag is missing, and none is added exactly when the database finds requested tags only |
| `StudyTags.UpdateKeepsSpelling` | antarest/study/repository.py:412-416 | a tag that exists in another spelling is linked as it is, with its color |
| `StudyTags.UpdateCreatesTag` | antarest/study/repository.py:410-416 | a tag that is found in no spelling is linked in its last requested one, and created if need be |
| `StudyTags.UpdateSparesOthers` | antarest/study/repository.py:416-422 | other studies keep their tags and these their colors |
| `StudyTags.UpdateIsIdempotent` | antarest/study/repository.py:401-422 | repeating a request in any spelling changes nothing, as far as the database finds spellings |
| `StudyTags.RepeatableExactlyWhen` | antarest/study/repository.py:401-422 | that condition is exact: over all runs with labels of a set, repetitions change nothing iff the database finds each label that has another spelling in the set |
| `StudyTags.RunKeepsLinked` | antarest/study/repository.py:401-422 | over any sequence of calls links stay valid, every tag is in use, and the table holds requested labels only |
| `StudyTags.UniqueExactlyWhen` | antarest/study/repository.py:401-422 | over all runs with labels of a set, labels stay unique up to case iff the database finds each label that has another spelling in the set |
| `StudyTags.TwinsArise` | antarest/study/repository.py:410-416 | two calls after which two tags differ by case only |
| `StudyTags.AccentsMakeTwins` | antarest/study/repository.py:410-416 | so it is on SQLite with an accented label and its upper form |
| `StudyTags.LastRequestWins` | antarest/study/repository.py:401-422 | after any sequence of calls a study has its last request, up to case, as far as the database takes no label for another |
| `StudyTags.LastRequestWinsExactlyWhen` | antarest/study/repository.py:401-422 | that condition is exact, over all runs with labels of a set |
| `StudyTags.AccentsAreGivenAsRequested` | antarest/study/repository.py:401-422 | with an ASCII upper-case function in the database it holds for all labels |
| `DiskSync.StudyService.SyncStudiesOnDisk` | antarest/study/service.py:891-998 | the two loops over loaded objects give the specified table |
| `DiskSync.StudyService.MarkMissing` | antarest/study/service.py:916-947 | the marking and deleting loop, on table and objects |
| `DiskSync.StudyService.AddFolders` | antarest/study/service.py:949-989 | the reviving and creating loop, against the state before it |
| `DiskSyncProofs.AncestorsAreParents` | antarest/study/service.py:909-913 | the recursive scope is the closure of the one-level scope under parents |
| `DiskSyncFates.WhatBecomesOfARow` | antarest/study/service.py:906-998 | for every row, on path components, the workspace "default" and 48 hours: listed, it is there and not missing; missed by a scan that reached it, it is marked, stays marked for two days and is dropped then; otherwise it is as it was |
| `DiskSyncFates.NothingElse` | antarest/study/service.py:949-989 | there is nothing else in the table but new rows for listed folders that had none |
| `DiskSyncFates.OneLevelScan` | antarest/study/service.py:909-913 | a scan of one level leaves alone what is not directly below its directory, and marks what it misses there |
| `DiskSyncFates.RecursiveScan` | antarest/study/service.py:909-913 | a recursive scan does so for everything below its directory |
| `DiskSyncProofs.SyncSettles` | antarest/study/service.py:906-998 | both loops together settle every row by itself and create a row for every other folder |
| `DiskSyncResults.SyncKeepsNoTwins` | antarest/study/service.py:906-998 | ids and paths stay distinct |
| `DiskSyncResults.EveryFolderHasItsRow` | antarest/study/service.py:949-989 | every listed folder ends with exactly one row, not missing: its old one, or a new one, public iff without groups |
| `DiskSyncResults.EveryRowHasItsOutcome` | antarest/study/service.py:906-998 | the fate of a row depends on that row alone |
| `DiskSyncResults.ReappearingStudyKeepsItsId` | antarest/study/service.py:974-989 | a study that reappears keeps its id and row |
| `DiskSyncResults.ProtectedStudiesStay` | antarest/study/service.py:919-947 | default-workspace and archived studies are never marked or dropped |
| `DiskSyncResults.UnseenStudiesAreMarked` | antarest/study/service.py:919-947 | an external unarchived study of the scope that was not listed is marked, for at most the grace period, or gone |
| `DiskSyncResults.SyncTwiceIsOnce` | antarest/study/service.py:891-998 | the same folders and clock again change nothing |
| `DiskSyncHistory.DroppedOnlyAfterGrace` | antarest/study/service.py:906-981 | in every history a study is dropped at T only if an earlier synchronisation marked it before T minus two days and none in between listed its path |
| `DiskSyncHistory.DroppedAfterGrace` | antarest/study/service.py:941-947 | a study that qualifies is dropped |
| `DiskSyncHistory.RunKeepsNoTwins` | antarest/study/service.py:891-998 | in every history ids and paths stay distinct |
| `DuplicateStudies.StudyService.RemoveDuplicates` | antarest/study/service.py:879-889 | keeps the first row of each path and every row without a path |
| `DuplicateStudies.StudyService.GroupByPath` | antarest/study/service.py:883-885 | the dictionary of lists holds the ids of each repeated path in order |
| `DuplicateStudies.StudyService.AllButFirst` | antarest/study/service.py:886-887 | the collected ids are all but the first of each list |
| `DuplicateStudies.OneRowPerPath` | antarest/study/service.py:879-889 | no path is left twice and none disappears |
| `DuplicateStudies.StaysIffFirst` | antarest/study/repository.py:424-431 | a row stays iff it has no path or is the first of its path |
| `MatrixStore.MatrixContentRepository.Get` | antarest/matrixstore/repository.py:152-169 | what is read hashes to the id; a missing file is an error |
| `MatrixStore.MatrixContentRepository.Save` | antarest/matrixstore/repository.py:184-236 | returns the hash of the cells, writes only when the file is new, and keeps the store invariant |
| `MatrixStore.MatrixContentRepository.Delete` | antarest/matrixstore/repository.py:238-257 | removes matrix and lock file, or fails and removes neither |
| `MatrixStore.SaveThenGet` | antarest/matrixstore/repository.py:152-236 | after a save the same row-major cells are read; the matrix itself iff it has cells and no other shape of them was stored, or is the one empty row |
| `MatrixStore.CellsAreRowMajor` | antarest/matrixstore/repository.py:184-236 | the cells that are hashed and stored are those of the rows one after the other |
| `MatrixStore.SaveAltersNothing` | antarest/matrixstore/repository.py:218-220 | a later save never alters an existing file |
| `MatrixStore.RunKeepsInv` | antarest/matrixstore/repository.py:184-257 | in every run of saves and deletions each file's cells hash to its name |
| `MatrixStore.StaysUntilDeleted` | antarest/matrixstore/repository.py:184-257 | a saved matrix keeps its cells and shape until it is deleted |
| `MatrixCollector.MatrixService.Create` | antarest/matrixstore/service.py:168-203 | saves the file and upserts the row, so that the matrix exists |
| `MatrixCollector.MatrixService.Get` | antarest/matrixstore/service.py:375-398 | the shape of the row with the data of the file |
| `MatrixCollector.MatrixService.Delete` | antarest/matrixstore/service.py:412-431 | removes row and file, either of which may be missing |
| `MatrixCollector.MatrixService.HasMatrix` | antarest/matrixstore/service.py:400-410 | a matrix exists iff it has both a row and a file |
| `MatrixCollector.MatrixGarbageCollector.CleanMatrices` | antarest/matrixstore/matrix_garbage_collector.py:91-120 | afterwards a matrix exists iff it did before and one of the four sources names it; a dry run changes nothing |
| `MatrixCollector.MatrixGarbageCollector.DeleteUnusedSavedMatrices` | antarest/matrixstore/matrix_garbage_collector.py:103-110 | the deleting loop, in any order |
| `MatrixCollector.CleanKeepsExactlyUsed` | antarest/matrixstore/matrix_garbage_collector.py:91-119 | after a clean a matrix exists iff it did before and is used |
| `MatrixCollector.CleanKeepsUsedFiles` | antarest/matrixstore/matrix_garbage_collector.py:54-56 | the matrix files left are those that were there and are used |
| `MatrixCollector.CleanTwiceIsOnce` | antarest/matrixstore/matrix_garbage_collector.py:112-120 | a second clean changes nothing, leftover lock files or not |
| `MatrixCollector.UsedMatrixSurvives` | antarest/matrixstore/matrix_garbage_collector.py:112-120 | over any run of creations and cleans a matrix that stays in use keeps file and row |
| `MatrixCollector.RunKeepsRowsHaveFiles` | antarest/matrixstore/service.py:168-203 | over any run no row is left without its file |
| `MatrixCollector.CreateShapeIsRightIffFits` | antarest/matrixstore/service.py:190-203 | a creation leaves the shape of the stored data in the row iff no file of another shape was there, or the matrix is the one empty row |
| `MatrixCollector.RunKeepsShapes` | antarest/matrixstore/service.py:375-398 | over any run of such creations and of cleans row and data agree on the shape |
| `MatrixCollector.ReshapedMatrixDisagrees` | antarest/matrixstore/service.py:190-203 | two matrices of the same cells after which they disagree |
| `MatrixCollectorRuns.UsedMatrixSurvivesCleans` | antarest/matrixstore/matrix_garbage_collector.py:91-120 | while others create matrices and change uses between the steps of cleans, a matrix that no collection finds unused keeps file and row |
| `MatrixCollectorRuns.SafeExactlyWhenNotListed` | antarest/matrixstore/matrix_garbage_collector.py:103-110 | during the deletions a matrix is safe iff it is not on their list, whatever becomes of its use |
| `MatrixCollectorRuns.CreatedDuringClean` | antarest/matrixstore/matrix_garbage_collector.py:103-110 | a matrix created during the deletions is there after them iff it was not on their list |
| `MatrixCollectorRuns.UsedMatrixIsLost` | antarest/matrixstore/matrix_garbage_collector.py:112-119 | a run in which a matrix is in use and gone |
| `MatrixCollector.LinkedMatrixIsUsed` | antarest/matrixstore/matrix_garbage_collector.py:58-66 | a link file written for a matrix makes it used |
| `MatrixCollector.UsedMeans` | antarest/matrixstore/matrix_garbage_collector.py:58-101 | a matrix is used iff a link file, a command block that can be parsed, a dataset or the constants name it |
| `MatrixCollector.ExtractMeans` | antarest/matrixstore/uri_resolver_service.py:38-50 | an id is extracted from the texts `word://id` on one line, and from no other |
| `MatrixCollector.ExtractBuilt` | antarest/matrixstore/uri_resolver_service.py:38-50 | the id is extracted from the URI that was built for it |
| `LogFollower.Follow` | antarest/launcher/adapters/log_manager.py:80-109 | the loop is the turns of the specification |
| `LogFollower.NothingLostOrReordered` | antarest/launcher/adapters/log_manager.py:86-109 | at every turn the batches and the pending text are what was read, and `line_count` is the number of pending line breaks, below ten |
| `LogFollower.StopDrops` | antarest/launcher/adapters/log_manager.py:86-91 | when `stop` ends the loop, what is lost is the pending text, with at most nine line breaks, and what was not read |
| `LogFollower.BatchesAreGood` | antarest/launcher/adapters/log_manager.py:92-108 | every batch is non-empty with at most ten line breaks: ten and a full line, or all that the file had |
| `LogFollower.SilentFileIsHandedOver` | antarest/launcher/adapters/log_manager.py:101-109 | once the writer is silent, everything is handed over within a bounded number of turns |
| `TagMigration.Database.Upgrade` | alembic/versions/dae93f1d9110_populate_tag_and_study_tag_tables_with_.py:43-86 | the loops over rows give the specified tables |
| `TagMigration.Database.CollectLabels` | alembic/versions/dae93f1d9110_populate_tag_and_study_tag_tables_with_.py:70-71 | one label per tag over all studies, the last spelling |
| `TagMigration.Database.CollectLinks` | alembic/versions/dae93f1d9110_populate_tag_and_study_tag_tables_with_.py:77-86 | one link per study and tag, to the common label |
| `TagMigration.Database.Downgrade` | alembic/versions/dae93f1d9110_populate_tag_and_study_tag_tables_with_.py:89-123 | the loops over links and rows give the specified tables |
| `TagMigration.Database.GroupLabels` | alembic/versions/dae93f1d9110_populate_tag_and_study_tag_tables_with_.py:101-105 | the dictionary of sets is the labels of each study |
| `TagMigration.AvoidsDuplicates` | alembic/versions/dae93f1d9110_populate_tag_and_study_tag_tables_with_.py:27-31 | the same tags up to case, each once |
| `TagMigration.KeepsLastSpelling` | alembic/versions/dae93f1d9110_populate_tag_and_study_tag_tables_with_.py:27-31 | of several spellings the last one |
| `TagMigration.LoadPatchMeans` | alembic/versions/dae93f1d9110_populate_tag_and_study_tag_tables_with_.py:34-40 | loading a patch gives its tags up to case, each once, none when there are none, and everything else as it is |
| `TagMigration.UpgradeIsWellFormed` | alembic/versions/dae93f1d9110_populate_tag_and_study_tag_tables_with_.py:64-86 | links distinct and valid, tags unique up to case and all used |
| `TagMigration.UpgradeLinksPatchTags` | alembic/versions/dae93f1d9110_populate_tag_and_study_tag_tables_with_.py:58-86 | each study is linked to exactly the tags of its patch, up to case |
| `TagMigration.DowngradeMerges` | alembic/versions/dae93f1d9110_populate_tag_and_study_tag_tables_with_.py:101-123 | each patch gets the tags of table and patch, each once, and keeps the rest |
| `TagMigration.RoundTrip` | alembic/versions/dae93f1d9110_populate_tag_and_study_tag_tables_with_.py:43-123 | down after up writes into every patch a list with its tags, up to case, each once, and leaves the rest of the patch as it was |
| `ChangelogProofs.LexerIsTotal` | scripts/update_version.py:20-30 | on every text the matches begin lines or are line breaks, none is a mismatch, and together they are the text |
| `ChangelogPatterns.UnderlinedMeans` | scripts/update_version.py:21-22 | the matcher of underlined titles is the regular expression, as a relation between text, title and bar |
| `ChangelogPatterns.HashesMean` | scripts/update_version.py:23-24 | so is that of titles behind hashes, with the most white space |
| `ChangelogPatterns.StripMeans` | scripts/update_version.py:56 | stripping takes white space off both ends, and all of it |
| `ChangelogPatterns.FirstWordMeans` | scripts/update_version.py:90 | the first word, or none exactly in a blank text |
| `ChangelogPatterns.UpdateAt` | scripts/update_version.py:79-103 | the update written out at the first title of level two |
| `ChangelogProofs.ParserNeverFails` | scripts/update_version.py:65-76 | the parser never raises |
| `ChangelogProofs.LexPrintRoundTrip` | scripts/update_version.py:55-76 | on canonical streams lexing the printed text gives the stream back |
| `Changelog.UpdateChangelog` | scripts/update_version.py:79-103 | the generator loop, with its flag, is the specified update; when it raises it has yielded what precedes the first release title |
| `Changelog.RewriteChangelog` | scripts/update_version.py:164-169 | the file gets the updated text, or after an exception the text before the first release title |
| `ChangelogUpdate.UpdateFailsOnBlankTitle` | scripts/update_version.py:88-91 | the update fails iff the first release title of the text is blank |
| `ChangelogUpdate.BlankTitleFails` | scripts/update_version.py:88-91 | such a text |
| `ChangelogUpdate.UpdateTouchesFirstReleaseOnly` | scripts/update_version.py:82-103 | only the first release title is replaced, or gets the new one in front |
| `ChangelogUpdate.NewTitleNamesVersion` | scripts/update_version.py:80-91 | titles are compared by version, whatever their date |
| `ChangelogUpdate.UpdateKeepsCanonical` | scripts/update_version.py:79-103 | an update keeps a canonical stream canonical |
| `ChangelogUpdate.UpdateTwiceIsOnce` | scripts/update_version.py:88-103 | a second update with the same title changes nothing |
| `ChangelogUpdate.ReleasingTwiceIsReleasingOnce` | scripts/update_version.py:164-169 | on the text, parsing, updating and printing twice writes the same file |

## Left out

- HTTP routes, websockets, the desktop tray, the web application, the command line and logging: input, output and user interface.
- The Redis event bus, SSH and SLURM, LDAP, archive libraries, file locks and threads proper: foreign calls.
- Tokens, passwords and access checks of paths: they rest on libraries that are not part of this model.
- Login, bots and groups as services: their cascades depend on the database.
- The rest of the study service, variants and launchers: they delegate to modules that are not part of this model.
- Callbacks that register, unregister or queue events during a bus round: no listener of the modelled services does.
- Task logs, task names, owners and a progress given at creation: plain fields.
- Sorting and pagination of the study list: they order and cut the list that is modelled.
- The events STUDY_CREATED and STUDY_DELETED, and the name and version refresh of a synchronisation: they do not touch the modelled columns.
- A synchronisation in which reading metadata fails half-way: what is persisted then depends on session flushing.
- Raw studies without a path: with a directory given, `sync_studies_on_disk` raises on them.
- Letter case beyond ASCII in the tag migration, where Python alone compares, and in the name and folder filters.
- Number formatting and parsing of matrix files, NaN and negative zero: a file keeps its cells as numbers.
- The tracking table of log threads: a dictionary of names.
- The string replacements of the release script in other files: regular expressions without structure.
