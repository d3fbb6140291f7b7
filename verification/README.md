# Verification of the sentry agent

A model, in Dafny, of the parts of the agent whose correctness rests on state that many events
change: the dashboard's request scheduler and row reconciler, the single-writer event store with its
retention and archive, the push cursors, the snapshot fallback, and the honeypot's parsers and limiter.
`dafny verify dfyconfig.toml` checks everything, in about two minutes, with the limits and flags that
`dfyconfig.toml` sets: 2,000,000 resource units for each proof, no time limit, and warnings about
contradictory assumptions.

Code that updates state in place is modelled twice: by a class whose methods follow the source step by
step, and by functions on values that the methods are shown to compute. What the source promises is
proved about those functions, mostly for every run: every finite sequence of events, with every clock,
every failure and every order the environment may choose.

## The parts

**Request scheduler** (`RequestScheduler`, `TaskKeys`, `SchedulerTheorems`, `SchedulerDelivery`,
`SchedulerCallbacks`, `SchedulerProgress`, `SchedulerEvents`, `SchedulerMachine`). Tasks queue,
start within a slot limit, keep a gap between heavy starts and a cooldown after a 429, time out, are
called off when the generation changes, and settle. A promise chain is cut into its microtasks, so
any other event can come between two of them; `pump` calls itself when a fetch throws. In every run
the slot counter is the number of fetches under way, nobody waits without a timer or a fetch that
will wake the queue, starts are paced, a 429 keeps everything back for as long as it asks
(`TooManyHoldsBack`), light tasks overtake heavy ones that wait for their gap (`FirstFreeStarts`),
and callbacks are delivered at most once and never for a task called off. Every waiting task starts:
a run has at most five productive events for each task, while a live task waits an event is due, and
every run in which such events keep being taken reaches a state where none waits
(`ProductiveStepsEnd`, `SomethingProductive`, `WaitingEnds`).

Two claims one might make are false, and the exact facts are proved instead. A settled task is not
told just once: it has both its callbacks exactly when the success callback threw
(`SettledIsAnsweredOnce`). And an enqueue that an unsettled task answers need not be heard: its
callbacks are the ones run exactly when the task was not timed out and not yet delivered at the
call; when the chain had failed by then, only the error callback is (`LatestRoundIsHeard`). A
success callback that enqueues its own path again is such an enqueue, and gets nothing
(`DeliveredTaskDropsRound`, `SecondRoundUnheard`).

**Row reconciler** (`RowDiff`). Whatever the table held before, a render leaves exactly one row for
each description, in order; a row whose key was known keeps its node. The result looks like a full
rebuild exactly when every row that is kept has as many cells as its description and shows nothing
where no content is given (`Render`): cells beyond the description stay, missing ones are not added,
and a cell given neither text nor markup keeps its old content. The keys of one page are pairwise
distinct whatever their contents, so a page and its render always go together, and a table whose
rows all have n cells with content looks rebuilt after every page (`RenderPage`).

**Event store** (`EventStore`, `StoreShutdown`, `StoreReturn`, `StoreOrder`, `StoreSteps`,
`StoreWriter`). Producers, services, timers, commits, drains and shutdown interleave freely; the
drain is cut at each poll. What each step of the writer commits is spelled out for every run
(`TickCommits`, `SystemCommitsAtOnce`, `OthersAreBatched`, `FailedYieldEndsRun`). Everything a
channel accepted is committed, pending or still in the channel, in order for the six kinds other
than System and as a multiset for System. System events can overtake one another: their order is
kept in every run exactly when retention is off or a batch holds one event (`SystemOrderExact`). A
System event whose immediate commit fails is lost, and the run ends with that error; where order is
kept, the lost event comes right after those committed. Shutdown waits for the producers only: the
archiver, the SSH learner, the API, GeoIP and the disk monitor may report on System at any time
(`cmd/sentry-agent/main.go` 147-250). So a clean return has all of six kinds committed, and leaves
on System exactly what was reported since its last poll: by such services, and by the writer itself
when its last commit is the first of the run and cannot tighten the file modes (`ReturnLeaves`,
`NothingLeftExactly`). With finitely many such reports, and a last batch that commits, it is always
reached (`ShutdownCompletes`).

**Retention** (`Retention`, `RetentionRound`, `RetentionCleaner`). Batched deletion, with rows
committed to any table between two batches, is one filter: no row outside 0 < ts < cutoff is ever
lost, a normal return leaves none inside unless batches are empty, and a cancelled or failed
clean-up is made good by a later one.

**Monthly archive** (`MonthArchive`, `ArchiveTheorems`, `Archiver`). Each file and meta operation
may fail, or be the last thing the process does. At every point of every history a recorded month
has a whole archive of exactly the rows of that month, as the main tables had them at some earlier
point, unless it was removed from outside; from every such point one undisturbed run on a month with
data ends recorded and complete, and a second run changes nothing.

**Push cursors** (`PushCursors`, `PushTheorems`, `PushRows`, `PushServer`). The tables are declared
INTEGER PRIMARY KEY without AUTOINCREMENT, so ids come back once the newest rows are deleted, and
the count cursor can go backwards (`CursorGoesBack`), while the System cursor never does. No row is
reported twice. For all three feeds, a row is reported exactly when its id was above the cursor as
it was inserted and a later tick reached it in its table (`RowReportedExactly`): for NEW and DESTROY
any successful count, for System any tick in whose readable twenty the row stands. A System row born
below the cursor is never pushed, however long it stays (`SystemRowNeverPushed`). Over tables that
only grow nothing is missed.

**Snapshot fallback** (`SnapshotDiff`). The key is the five-tuple, no more and no less; replaying
the events turns the keys of one snapshot into those of the next, for every map iteration order, and
over any run with failed polls gives the connections that the last poll that worked listed.

**Honeypot** (`IpRateLimiter`, `RespWire`, `RespTheorems`, `RespReader`, `MongoWire`,
`MongoTheorems`, `MongoHandler`, `TdsWire`). The limiter's clean-up is invisible unless it falls
back to dropping every bucket; up to the first time, that step, and no other, gives an address more
than it has left, and none less (`ForgetsExactlyOnRebuild`), and one stranger more than the table
holds brings it about (`OneStrangerTooMany`). In every run an address is admitted, within any span
as long as the window, at most `limit` times for each of two buckets and each rebuild in the span
(`EachRebuildOneLimit`). Nobody is refused who was not admitted `limit` times within the last window
(`RefusedOnlyWhenFull`). The table stays within its bound exactly when the limit is at least one.
The RESP reader and the BSON walker invert the encodings clients send, stay within bounds on any
bytes at all, and whole pipelined connections, byte for byte, are served command by command. The TDS
password is recovered exactly from what a client sends.

**Timeline and network test** (`Timeline`, `FwFilter`). Hourly buckets count every event of the hours
they cover once; the mask test is membership in the aligned block.

`Bytes`, `Decimal` and `Wrappers` hold what several parts share.

## Where comments and code differ

The code is followed. The comment on the limiter's sweep says that rebuilding does not affect
correctness; `ForgetsExactlyOnRebuild` says when it does. The comment on the push cursors rests on ids
that only grow; `RowReportedExactly` says what happens when they do not.

## Model

| member | source | states |
|---|---|---|
| SchedulerTheorems.RunInv | internal/web/static/app.js:1445-1667 | in every run, under any monotone clock, the queue, key index, task records, slot counter, pacing and delivery counts agree, and waiting work has a wake-up |
| SchedulerTheorems.SlotsAccounted | internal/web/static/app.js:1511-1524 | `activeCount` is the number of tasks started and not released, and never exceeds `maxConcurrency` |
| SchedulerDelivery.SlotsFreedBySettlingOnly | internal/web/static/app.js:1538-1576 | a task under way keeps its slot through timeouts, invalidations and every other event; it gives it up exactly when it settles |
| SchedulerTheorems.NoLostWakeup | internal/web/static/app.js:1577-1618 | a live task that waits is queued, and either all slots are taken or the wake timer is set no later than the last gate opens, for a light task no later than the cooldown ends; with any slot at all a timer or an unsettled fetch will call `pump` again |
| SchedulerProgress.ProductiveStepsEnd | internal/web/static/app.js:1511-1618 | in every run, callers, timeouts and generation changes included, at most five events for each task ever enqueued are productive: steps of a fetch under way, or a wake timer firing with work, a free slot and the gates open |
| SchedulerProgress.SomethingProductive | internal/web/static/app.js:1577-1618 | while a live task waits and there is a slot at all, either some fetch under way has a productive step before it, or the wake timer is set and productive as soon as the gates are open |
| SchedulerProgress.WaitingEnds | internal/web/static/app.js:1495-1618 | in every run without end in which enqueues cease, and one of the events due is taken sooner or later whenever a live task waits (there always is one: `SomethingDue`), a state is reached in which none waits |
| SchedulerProgress.EveryTaskStarts | internal/web/static/app.js:1495-1618 | from every reachable state, steps of the fetches under way and firings of the wake timer lead to one where no live task waits, and none was called off |
| SchedulerTheorems.OpenGateStartsHead | internal/web/static/app.js:1588-1617 | a pump with a free slot and every gate open starts the oldest waiting task first |
| SchedulerTheorems.WakeIsEffective | internal/web/static/app.js:1495-1505 | a wake timer that fires when the gates are open and a slot is free starts the oldest waiting task |
| SchedulerEvents.FirstFreeStarts | internal/web/static/app.js:1588-1617 | a wake timer that fires with a slot free and the cooldown over starts the first queued task that is light, or heavy with its gap over: light tasks overtake heavy ones that wait |
| SchedulerTheorems.RunsArePaced | internal/web/static/app.js:1557-1616 | consecutive heavy starts are a gap apart, nothing starts before a 429 deadline already learnt, and tasks of one weight start in the order enqueued |
| SchedulerEvents.TooManyTeaches | internal/web/static/app.js:1555-1565 | a 429 raises the cooldown to the reading of the clock plus what it asks for, never lowers it, and fails the fetch |
| SchedulerEvents.TooManyHoldsBack | internal/web/static/app.js:1555-1565 | whatever happens after a 429, the cooldown reaches that far and no start is logged for an earlier instant |
| SchedulerEvents.OtherAnswers | internal/web/static/app.js:1555-1565 | any other answer leaves the cooldown and everything but the task's own phase alone |
| SchedulerEvents.StartsAreReal | internal/web/static/app.js:1543-1554 | in every run a task was logged as started just once if it left the queue for a fetch; each new entry bears the weight of the task's path and a reading of the clock made during the event |
| SchedulerEvents.TimeoutTells | internal/web/static/app.js:1531-1542 | a timeout is told at once with the error callback of the moment, aborts the fetch and keeps the slot; tasks called off, timed out or released are left alone |
| SchedulerEvents.InvalidateExactly | internal/web/static/app.js:1642-1658 | exactly the live tasks of other generations are called off, lose callbacks and place, and are told to abort; any other task is left to the pump |
| SchedulerEvents.QueryIsIgnored | internal/web/static/app.js:1464-1476 | a path is heavy exactly when it is listed, whatever its query |
| SchedulerTheorems.CallbacksAreLive | internal/web/static/app.js:1525-1569 | no event lowers the cooldown, and a callback runs only for a task that is neither cancelled nor of another generation, before and after it |
| SchedulerTheorems.DeliveredAtMostOnce | internal/web/static/app.js:1525-1571 | at most one success and one failure for each task, both only if the success callback threw, and no success after a timeout |
| SchedulerTheorems.LiveTasksDistinct | internal/web/static/app.js:1619-1641 | two live tasks never share generation and path |
| TaskKeys.TaskKeyExact | internal/web/static/app.js:1475 | the text of a key determines generation and path, whatever characters the path holds |
| SchedulerTheorems.EnqueueAnswers | internal/web/static/app.js:1619-1641 | an enqueue of the current generation answers with the live task for its path; the task carries the new callbacks unless it has timed out, and then nothing changes |
| SchedulerCallbacks.LatestRoundIsHeard | internal/web/static/app.js:1525-1641 | in polite runs, for the last call a task answered, if the task settles without being called off: what is run since is that call's own callbacks, success first and failure after it only if it threw; something is run if and only if at the call the task was new, or not timed out and not yet delivered; after a failed chain only the error callback is |
| SchedulerCallbacks.OnlyLatestCallbacksRun | internal/web/static/app.js:1619-1641 | in every run, after the last call a task accepted only that call's callbacks run for it |
| SchedulerCallbacks.DeliveredTaskDropsRound | internal/web/static/app.js:1566-1576 | whatever came before, a call that finds its task delivered and not yet settled is answered by it, and its callbacks are never run |
| SchedulerCallbacks.SecondRoundUnheard | internal/web/static/app.js:1566-1641 | such a run from the start: of two rounds on one path, the second is never run |
| SchedulerTheorems.PumpEvolves | internal/web/static/app.js:1543-1618 | a pump, nested calls included, leaves each task as it was, or starts it, or starts it and lets it fail when its fetch throws at once |
| SchedulerCallbacks.SettledIsAnsweredOnce | internal/web/static/app.js:1511-1576 | in runs whose callers and fetches play by the rules, a settled task never called off has had its success callback or its failure callback, and both if and only if the success callback threw |
| SchedulerDelivery.AbandonedFetchesAreAborted | internal/web/static/app.js:1531-1542 | with an AbortController, the fetch of a task called off or timed out has been told to abort |
| SchedulerMachine.Scheduler.RemoveFromQueue | internal/web/static/app.js:1506-1510 | first occurrence leaves the queue and the index entry goes if it is the task's own |
| SchedulerMachine.Scheduler.FinishTask | internal/web/static/app.js:1511-1524 | releasing, un-indexing and pumping compute the machine's transition |
| SchedulerMachine.Scheduler.StartTask | internal/web/static/app.js:1543-1554 | the synchronous-throw path included, it computes the machine's transition |
| SchedulerMachine.Scheduler.SelectNext | internal/web/static/app.js:1589-1606 | the inner loop, which drops stale entries while scanning, computes the scan |
| SchedulerMachine.Scheduler.Pump | internal/web/static/app.js:1577-1618 | the loop and its recursion terminate and compute the machine's transition |
| SchedulerMachine.Scheduler.Enqueue | internal/web/static/app.js:1619-1641 | computes the machine's transition and answer |
| SchedulerMachine.Scheduler.Invalidate | internal/web/static/app.js:1642-1658 | the sweep over the key index, the queue filter and the pump compute the machine's transition |
| RowDiff.RowKeysDistinct | internal/web/static/app.js:1224-1240 | the generated row keys of a page are pairwise distinct, whatever the bases contain |
| RowDiff.RowKeyExact | internal/web/static/app.js:1224-1240 | a row has the same key on two pages exactly when its base and its number among equal bases are the same, wherever it stands |
| RowDiff.AssignKeys | internal/web/static/app.js:1233-1238 | the counting loop gives each row its base and its number among equal bases |
| RowDiff.UpdateCell | internal/web/static/app.js:1189-1203 | afterwards the cell shows its description, written over what stood there, and its snapshots tell the truth, although only differences are written |
| RowDiff.Tr.Paint | internal/web/static/app.js:1180-1203 | a row with truthful snapshots shows its description over the cells it had, keeps the cells beyond it, and has truthful snapshots |
| RowDiff.Tbody.RemoveOrphans | internal/web/static/app.js:1154-1157 | the rows whose key the map knows stay, in order, and no other does |
| RowDiff.Tbody.SetTableState | internal/web/static/app.js:144-150 | one placeholder row without a key, and nothing is known any more |
| RowDiff.Tbody.DrawRow | internal/web/static/app.js:1158-1206 | the row for the key, old or new, shows its description and is moved to the end |
| RowDiff.Tbody.DrawAll | internal/web/static/app.js:1158-1206 | what was drawn stands in order behind what is left over |
| RowDiff.Tbody.DropVanished | internal/web/static/app.js:1208-1214 | rows not drawn this time leave the list and the map |
| RowDiff.Tbody.Render | internal/web/static/app.js:1149-1215 | whatever the table held, the children are one row for each description, in order, and the map holds exactly these; known keys keep their node; the table looks as if rebuilt from nothing if and only if every row kept has as many cells as described and shows nothing where no content is given; tables of n cells a row stay so |
| RowDiff.Tbody.RenderPage | internal/web/static/app.js:1224-1240 | placeholders while loading and for no rows; otherwise keys and render together, for any key bases: one row for each of the page in order, known keys keep their node, it looks rebuilt exactly when kept rows fit, and always when every row has n cells with content |
| EventStore.StepConserved | internal/store/store.go:360-419 | each step of producers, timers, the database or the writer keeps conservation, and System order too unless an immediate commit overtakes |
| EventStore.RunConserved | internal/store/store.go:296-428 | conservation over every interleaving |
| EventStore.NothingLost | internal/store/store.go:305-428 | for six kinds, accepted events are committed, pending, then in the channel, in that order; for System as a multiset, with at most the one event whose immediate commit failed and ended the run |
| StoreShutdown.DrainedMoves | internal/event/event.go:233-282 | a drain with nobody sending empties every channel into the batch in order and touches nothing else |
| StoreReturn.DrainFinishes | internal/event/event.go:233-282 | however sends and reports come between its polls, a drain ends within sixteen steps for each event there or arriving, and eight more |
| StoreShutdown.RunBetween | internal/store/store.go:414-418 | whenever the select loop waits, the batch is below its size or empty |
| StoreSteps.TickCommits | internal/store/store.go:371-374 | in every run the batch timer commits all that is pending; when a statement fails, nothing is committed and the run ends; the first commit tightens the modes, or notes that it cannot |
| StoreSteps.SystemCommitsAtOnce | internal/store/store.go:408-413 | in every run a System event received is committed alone at once, or lost with the end of the run |
| StoreSteps.OthersAreBatched | internal/store/store.go:396-418 | in every run an event of another kind joins the batch, which is committed once it is full |
| StoreSteps.YieldCommits | internal/store/store.go:345-358 | inside a retention round a full batch is committed between two deletes, and a failure remembered |
| StoreSteps.FailedYieldEndsRun | internal/store/retention.go:120-132 | once a commit inside a round failed, the loop never selects or returns again, and the end of the round ends the run |
| StoreSteps.RoundResumes | internal/store/store.go:375-390 | a round without such a failure goes back to the select loop, a full batch committed |
| StoreShutdown.CleanReturn | internal/store/store.go:362-370 | a clean return means producers gone, nothing pending, six channels empty with everything committed in order, and of System every accepted event committed or still in its channel |
| StoreReturn.ReturnLeaves | internal/store/store.go:305-370 | what a clean return leaves on System is exactly what was reported since the last poll, by the writer's note or by services nobody waits for, as far as there was room |
| StoreReturn.NothingLeftExactly | internal/store/store.go:305-370 | nothing is left if and only if nobody reported since that poll and no note was due |
| StoreReturn.ShutdownCompletes | internal/store/store.go:362-370 | once the producers are gone, the writer's own steps reach a clean return through any interleaving with finitely many reports of services, provided the last batch commits |
| StoreOrder.SystemOrderExact | internal/store/store.go:345-358 | System events keep their order in every run, an event lost to a failed immediate commit standing after those committed, if and only if retention is off or a batch holds one event |
| StoreOrder.Overtaken | internal/store/store.go:408-412 | otherwise a run in which a System event drained during retention is overtaken by a later immediate commit |
| StoreWriter.Writer.WriteBatch | internal/store/store_batch.go:46-78 | whichever statement fails, all rows are committed or none, and no transaction is left open as long as ROLLBACK works |
| StoreWriter.Writer.Flush | internal/store/store.go:305-322 | commits the batch or leaves it, and tightens the file modes after the first commit |
| StoreWriter.Writer.EndTurn | internal/store/store.go:414-418 | a full batch is committed; a failure ends the run |
| StoreWriter.Writer.Receive | internal/store/store.go:396-418 | a System event is committed at once, alone; any other joins the batch, which is committed when full: one step of the machine, from any state a run reaches |
| StoreWriter.Writer.Tick | internal/store/store.go:371-374 | the timer commits all that is pending when no statement fails; else nothing, and the run ends |
| StoreWriter.Writer.DrainAll | internal/event/event.go:233-282 | the passes over the seven channels terminate, with others sending before every poll, and take the steps of the machine |
| StoreWriter.Writer.Yield | internal/store/store.go:351-358 | between two deletes, one drain with producers running and a commit of a full batch, step for step the machine's |
| StoreWriter.Writer.Shutdown | internal/store/store.go:362-370 | drain and final commit with services reporting meanwhile; on success nothing is pending and all six channels accepted is committed in order |
| Retention.CutTakesLowest | internal/store/retention.go:54-57 | a batch takes the lowest ids in range: what it takes lies below what it leaves |
| Retention.CleanKeeps | internal/store/retention.go:46-73 | whatever happens meanwhile, no row outside the range is lost or moved, old or newly arrived, and other tables only grow |
| Retention.KeepExact | internal/store/retention.go:46-57 | the filter by which the clean-up is judged keeps exactly the rows outside 0 < ts < cutoff, each as often as before, in order |
| Retention.CleanSpares | internal/store/retention.go:46-73 | of every row outside 0 < ts < cutoff the cleaned table has as many as it had and got |
| Retention.CommitExact | internal/store/store.go:351-358 | what arrives in a table while the clean-up yields is what was queued for it, in order, with successive ids |
| Retention.StatusIsReason | internal/store/retention.go:47-65 | a clean-up is cancelled or fails only where the context or a statement says so, and then at once |
| Retention.CleanCounts | internal/store/retention.go:46-73 | the number returned is the number of rows removed, on every way out |
| Retention.DoneLeavesNoneExactly | internal/store/retention.go:66-68 | a normal return leaves no row with 0 < ts < cutoff exactly when batches are not empty, or none was there |
| Retention.CleanAscending | internal/store/retention.go:54-57 | every table stays in id order, rows arriving in between included |
| Retention.CleanIsOneFilter | internal/store/retention.go:46-73 | undisturbed, the batches together are one filter, and their counts its difference |
| Retention.ResumingFinishes | internal/store/retention.go:45-73 | a clean-up cancelled or failed anywhere is completed by a later one, even with a later cutoff; the counts add up |
| RetentionRound.RoundCleansEvents | internal/store/retention.go:84-118 | each event table is filtered at some moment of the round, loses nothing else, and only grows afterwards; a recorded round finished that |
| RetentionRound.RoundCleansCreds | internal/store/retention.go:107-113 | the credentials table likewise with its own cutoff |
| RetentionRound.RoundSparesDisabled | internal/store/retention.go:84-113 | tables of a disabled period only grow |
| RetentionRound.RoundReports | internal/store/retention.go:84-118 | the notes of a round give the rows removed from the event tables and from the credentials; it is recorded when all of it finished and the record was written |
| RetentionCleaner.Cleaner.CleanupTable | internal/store/retention.go:46-73 | the delete loop, with its yields, terminates and computes the specification |
| RetentionCleaner.Cleaner.Yield | internal/store/store.go:351-358 | the rows that queued up are committed in order, each with the next id of its table |
| RetentionCleaner.Cleaner.CleanupAll | internal/store/retention.go:92-102 | tables one after the other, up to the first that fails |
| RetentionCleaner.Cleaner.RunRetentionOnce | internal/store/retention.go:84-118 | disabled periods are skipped, the first failure ends the round, success is recorded last |
| ArchiveTheorems.MetaRoundTrip | internal/archive/archive.go:255-283 | the list of months written to meta is the list read back, the empty one included |
| ArchiveTheorems.MonthRowsExact | internal/archive/archive.go:155-190 | the rows a run copies are those with lo <= ts < hi, each as often as in its table and in its order; there are any exactly when some table has one |
| ArchiveTheorems.ValidMonthExact | internal/archive/archive.go:35-45 | a month is four digits, a bar and 01 to 12 |
| ArchiveTheorems.OtherMonthsUntouched | internal/archive/archive.go:71-153 | archiving a month, however it is cut short, leaves every other month's files and records and the main tables alone |
| ArchiveTheorems.RunHeals | internal/archive/archive.go:71-153 | from any state one undisturbed run leaves no temporary files and the month recorded exactly when its archive is there; a recorded month keeps the file it has; any other is skipped exactly when no table has a row with lo <= ts < hi, and else gets an archive of exactly those rows |
| ArchiveTheorems.SecondRunIsIdle | internal/archive/archive.go:97-100 | a second undisturbed run changes nothing |
| ArchiveTheorems.RecordedMonthIsComplete | internal/archive/archive.go:71-153 | at every point of every history of runs, failures, crashes, removals and changing tables, an archive is whole and holds exactly the rows its month had in the main tables at some earlier point, and a recorded month has one unless it was removed |
| ArchiveTheorems.AnyCrashHeals | internal/archive/archive.go:71-153 | from every point of every history one undisturbed run leaves a month with data recorded, with the archive it had or one of exactly its rows |
| Archiver.FilterOut | internal/archive/archive.go:102-107 | the in-place filter over the same array keeps exactly the other months, in order |
| Archiver.Archive.ArchiveMonth | internal/archive/archive.go:71-153 | the operations in their order, each of which may fail or be the last, compute the machine's run |
| Archiver.Archive.Consult | internal/archive/archive.go:92-118 | what the records and files of the month call for |
| Archiver.Archive.ForgetMonth | internal/archive/archive.go:101-112 | the record of a missing archive is withdrawn before anything else |
| Archiver.Archive.ExportMonth | internal/archive/archive.go:171-215 | tables are copied one by one and every copy is checked |
| Archiver.Archive.GzipFile | internal/archive/archive.go:221-252 | the target is torn until it is closed |
| Archiver.Archive.Publish | internal/archive/archive.go:141-152 | rename, removal of the scratch file and the record, in this order |
| Archiver.Archive.RecordMonth | internal/archive/archive.go:271-283 | a month is recorded once |
| PushTheorems.RunInv | internal/api/ws.go:169-211 | in every run, whatever is deleted and whichever queries fail, no row is reported twice, the counts sent add up to the rows reported, and every row still there was reported, is beyond the cursor, or was inserted at or below it |
| PushRows.RowReportedExactly | internal/api/ws.go:163-282 | for each of the three feeds and every run, a row is reported if and only if its id was above the feed's cursor as it was inserted and a later tick reached it in its table |
| PushRows.StayingRowCounted | internal/api/ws.go:239-254 | a NEW or DESTROY row still there at a later successful count is in the end counted if and only if it was inserted above the cursor |
| PushRows.StayingRowPushed | internal/api/ws.go:258-282 | a System row still there after enough fully readable ticks for the rows that waited before it has been pushed, if and only if it was inserted above the cursor |
| PushRows.SystemRowNeverPushed | internal/api/ws.go:258-282 | a run after which a System row is never pushed, whatever follows, because the cursor does not go back |
| PushTheorems.NothingMissed | internal/api/ws.go:231-238 | while each deletion spares the newest row, nothing is missed |
| PushTheorems.CursorGoesBack | internal/api/ws.go:243-253 | a run in which the cursor goes back and a row is never counted |
| PushTheorems.GrowingTables | internal/api/ws.go:166-168 | over tables that only grow, NEW, DESTROY and System feeds each report, oldest first and without a repeat, exactly the rows up to their cursor |
| PushTheorems.ReportedExactly | internal/api/ws.go:258-282 | over tables that only grow, a System row was pushed if and only if its id is at or below the cursor |
| PushTheorems.SystemCatchesUp | internal/api/ws.go:258-282 | a tick that reads everything sends twenty System rows, or all there are, and then none is left out |
| PushServer.Server.FrameConnStats | internal/api/ws.go:239-254 | both counts and both new cursors, or the old ones when the query fails |
| PushServer.Server.FrameSystem | internal/api/ws.go:258-282 | frames for the next rows in id order, up to the limit or the first unreadable row, and the cursor at the last of them |
| PushServer.Server.StatTick | internal/api/ws.go:191-205 | the three cursors move as the machine's do, and what is sent is what it sends |
| SnapshotDiff.KeyIsTuple | internal/conn/fallback.go:64-68 | two connections share a key exactly when they share the five-tuple |
| SnapshotDiff.EventsExactly | internal/conn/fallback.go:72-88 | a NEW, DESTROY or UPDATE event for a tuple is there exactly when the snapshots differ in that way |
| SnapshotDiff.DiffReplays | internal/conn/fallback.go:72-88 | replaying the events turns the keys of the one snapshot into those of the other |
| SnapshotDiff.CutShortReplays | internal/conn/fallback.go:53-57 | events sent before a cancellation lose nothing that stays and invent nothing |
| SnapshotDiff.RunReplays | internal/conn/fallback.go:35-61 | over any run, failed polls included, replaying everything sent gives the keys of the connections that the last poll that worked listed, and none when none worked |
| SnapshotDiff.Listener.Index | internal/conn/fallback.go:49-52 | the keys are those of the connections listed, and each stands for the last connection listed with it |
| SnapshotDiff.Listener.DiffSnapshots | internal/conn/fallback.go:72-88 | for every order of both iterations, one event for each key with something to report, and no other |
| SnapshotDiff.Listener.Tick | internal/conn/fallback.go:42-58 | a failed poll changes nothing; a successful one sends the differences and is remembered |
| IpRateLimiter.SweepingIsInvisible | internal/honeypot/ratelimit.go:37-71 | without a rebuild every answer is that of a limiter that never sweeps |
| IpRateLimiter.ForgetsExactlyOnRebuild | internal/honeypot/ratelimit.go:66-78 | up to the first rebuild, the call after which some address has a larger allowance than it should is exactly the one that rebuilds, and no address has a smaller one |
| IpRateLimiter.OneStrangerTooMany | internal/honeypot/ratelimit.go:72-77 | 10001 addresses within one window give the first its whole limit back |
| IpRateLimiter.AtMostTheLimitPerBucket | internal/honeypot/ratelimit.go:37-63 | within the window of one bucket an address is admitted at most `limit` times |
| IpRateLimiter.EachRebuildOneLimit | internal/honeypot/ratelimit.go:37-78 | in every run, within any span as long as the window, an address is admitted at most `limit` times for each of two buckets and for each rebuild in the span |
| IpRateLimiter.AtMostTwiceTheLimit | internal/honeypot/ratelimit.go:37-63 | within any span as long as the window an address is admitted at most twice `limit` times |
| IpRateLimiter.RefusedOnlyWhenFull | internal/honeypot/ratelimit.go:37-63 | in every run an address is refused only when it was admitted `limit` times within the window before the call |
| IpRateLimiter.SweptRegularly | internal/honeypot/ratelimit.go:57-71 | after every 1024th admitted call no bucket is expired |
| IpRateLimiter.WindowEnds | internal/honeypot/ratelimit.go:41-51 | a window is over one instant after its end, and not before |
| IpRateLimiter.TableBoundedExactly | internal/honeypot/ratelimit.go:57-77 | the table has at most 10000 buckets after every call if and only if the limit is at least one |
| IpRateLimiter.Limiter.Allow | internal/honeypot/ratelimit.go:37-63 | answer and new state are those of the specification |
| IpRateLimiter.Limiter.Sweep | internal/honeypot/ratelimit.go:66-78 | for every iteration order, the expired buckets go, or all of them |
| RespTheorems.CommandReads | internal/honeypot/redis.go:73-117 | a command of 1 to 64 elements of up to 65536 bytes, sent as an array of bulk strings, is read back with its name upper-cased, and only its bytes are used |
| RespTheorems.PipelineReads | internal/honeypot/redis.go:73-154 | a pipeline is read back command by command and byte for byte |
| RespTheorems.SessionRecords | internal/honeypot/redis.go:23-68 | a whole pipelined session is answered command by command up to QUIT, and its first ten credentials are recorded in order |
| RespTheorems.AuthRecords | internal/honeypot/redis.go:32-48 | AUTH in any letter case records a password, or a user and a password, and refuses; with any other number of arguments it records nothing and says so |
| RespTheorems.HelloRecords | internal/honeypot/redis.go:49-59 | HELLO in any letter case records the user and password behind an AUTH in any letter case, and is always answered alike |
| RespTheorems.OtherCommands | internal/honeypot/redis.go:60-66 | any other word records nothing; QUIT is wished well and the rest is unknown |
| RespTheorems.MalformedIsZero | internal/honeypot/redis.go:120-130 | a line that is no number reads as 0 |
| RespTheorems.InlineReads | internal/honeypot/redis.go:78-95 | a line of words is read as a command and its arguments |
| RespTheorems.NumberReads | internal/honeypot/redis.go:120-130 | a number up to 65536 is read back from its decimal line |
| RespTheorems.NegotiationsVanish | internal/honeypot/telnet.go:81-90 | negotiations leave nothing behind, wherever they stand: what is left is what was typed |
| RespTheorems.LinesAreBounded | internal/honeypot/telnet.go:53-96 | on any bytes a line takes at most 65536 of them, at least one, and yields at most 4096 |
| RespReader.Reader.ReadLine | internal/honeypot/telnet.go:64-96 | reading segment by segment through a 4096-byte buffer takes exactly the bytes through the first LF, or 65536, or what is left |
| RespReader.StripNegotiations | internal/honeypot/telnet.go:81-90 | the index loop computes the stripped text |
| RespReader.Reader.ReadRespInt | internal/honeypot/redis.go:120-130 | value and input left are those of the specification, malformed numbers read as 0 |
| RespReader.Reader.ReadRespBulk | internal/honeypot/redis.go:134-154 | element and input left, or the end of the connection |
| RespReader.Reader.ReadRespCommand | internal/honeypot/redis.go:73-117 | command and input left, or the end of the connection, array and inline form |
| RespReader.HandleRedis | internal/honeypot/redis.go:23-68 | the command loop terminates and computes the session |
| MongoTheorems.SkipEncoded | internal/honeypot/mongodb.go:200-269 | `skipBSONValue` lands exactly after every encoded value of a supported type |
| MongoTheorems.WalkInvertsEncoding | internal/honeypot/mongodb.go:87-147 | an encoded document, whatever follows it, is walked element by element: same types, same names, each value where it stands |
| MongoTheorems.CommandOfDocument | internal/honeypot/mongodb.go:87-147 | a command document yields exactly what its elements say |
| MongoTheorems.AuthExact | internal/honeypot/mongodb.go:87-147 | it is an authentication command if and only if some element says so |
| MongoTheorems.LastAuthNames | internal/honeypot/mongodb.go:87-147 | the command is named after the last such element |
| MongoTheorems.LoginOfPayloads | internal/honeypot/mongodb.go:119-137 | the login has the user that the last payload to give one gives, and none if none does; its nonce likewise, whichever payload gave the user |
| MongoTheorems.PayloadNamesLogin | internal/honeypot/mongodb.go:119-194 | a payload that encodes a document gives its last user string as the user and its last rnonce string as the nonce, unless empty |
| MongoTheorems.Widths | internal/honeypot/mongodb.go:200-269 | the walker's fixed widths are those of BSON, type by type |
| MongoTheorems.ScramOfDocument | internal/honeypot/mongodb.go:150-194 | a SCRAM payload yields its last user and its last rnonce string |
| MongoTheorems.AuthFailIsRefusal | internal/honeypot/mongodb.go:293-314 | the hand-assembled bytes are the encoding of {ok: 0, errmsg}, of the stated length |
| MongoTheorems.ReplyReadsBack | internal/honeypot/mongodb.go:281-337 | the reply, read by the same framing and walker, answers the request, has the stated length and is the refusal |
| MongoTheorems.HeaderReads | internal/honeypot/mongodb.go:23-37 | a message whose header states its length is read back, whatever follows |
| MongoTheorems.ConnectionServesAll | internal/honeypot/mongodb.go:20-82 | requests sent back to back are each served as their documents say |
| MongoTheorems.ConnectionRecords | internal/honeypot/mongodb.go:20-82 | on the bytes of any number of requests, the first ten authentication commands are recorded and every one is answered, in order |
| MongoHandler.SkipBsonValue | internal/honeypot/mongodb.go:200-269 | on any bytes, the branches compute the specification |
| MongoHandler.NextElement | internal/honeypot/mongodb.go:87-125 | on any bytes, one turn of the walk moves forward and stays within bounds |
| MongoHandler.ParseScramPayload | internal/honeypot/mongodb.go:150-194 | on any bytes, the walk terminates and computes the specification |
| MongoHandler.ParseMongoCommand | internal/honeypot/mongodb.go:87-147 | on any bytes, the walk terminates and computes the specification |
| MongoHandler.HandleMongoDB | internal/honeypot/mongodb.go:20-82 | the read loop terminates and computes the session |
| TdsWire.RecoversExactly | internal/honeypot/mssql.go:204-224 | the recovery succeeds exactly on what a client sends for a non-empty password of printable ASCII and tabs, and gives that password |
| TdsWire.KnownField | internal/honeypot/mssql.go:196-216 | the field that clients send for a known password |
| TdsWire.DeobfuscateTDSPassword | internal/honeypot/mssql.go:204-224 | the two loops compute the recovery |
| TdsWire.PacketReadsBack | internal/honeypot/mssql.go:76-112 | a packet is read back whole if and only if its length fits the header |
| Timeline.HourIsInterval | internal/api/query.go:398-399 | a time is put into an hour exactly when it lies in the hour's interval; before 1970 hours are named by their end, and the hour named 0 is two long |
| Timeline.BucketsCount | internal/api/query.go:398-441 | bucket i is the i-th hour and carries, by action, exactly the events between its start and the next |
| Timeline.TotalsCount | internal/api/query.go:398-441 | the buckets together count every event of the time they cover, once |
| Timeline.HoursExact | internal/api/query.go:429-441 | the hours covered are exactly those that start by now, as many as the cap allows |
| Timeline.CoversThroughNow | internal/api/query.go:429-441 | unless the cap of 1000 cuts it short, no event up to now is left out |
| Timeline.FirewallTimeline | internal/api/query.go:393-441 | the fill loop gives the contiguous hours from the first through the current one, capped |
| FwFilter.MaskTestIsRange | internal/fw/filter.go:117-130 | the shift-and-mask test holds exactly for the addresses of the aligned block, whatever the prefix length |
| FwFilter.IsInternalIPv4 | internal/fw/filter.go:117-130 | the scan is membership in the union of the blocks |
| FwFilter.ShouldDrop | internal/fw/filter.go:60-114 | an event is dropped exactly for a trusted source, or internal traffic as configured; an unknown address is never a reason |

## Left out

- RequestScheduler.Step: callbacks that call the scheduler while `pump` is inside a fetch that throws are not modelled; callbacks run from a promise chain may be followed by any event.
- SchedulerCallbacks.SettledIsAnsweredOnce: like `LatestRoundIsHeard` speaks of polite runs: both callbacks are given, fetches are aborted only through their controller, and no callback throws an AbortError; otherwise a task may rightly end with no callback.
- SchedulerDelivery.AbandonedFetchesAreAborted: takes error callbacks to return; one that throws in `timeoutTask` skips the abort (`app.js` 1536-1540), and one that throws in the catch block of `startTask` skips `finishTask` and leaks the slot (1550-1552).
- SchedulerProgress.WaitingEnds: like `EveryTaskStarts` takes the readings of the clock to pass every instant.
- RowDiff.AssignKeys: counts bases in a map, where the source uses a plain object; a base that names an inherited property would differ, and the bases of this program all contain a bar.
- StoreWriter.Writer.WriteBatch: takes ROLLBACK to work; the source ignores its error (`store_batch.go`), and a transaction left open would make every later BEGIN fail.
- ArchiveTheorems.AnyCrashHeals: takes DETACH to work, whose error `exportMonth` ignores; a copy left attached would make the next ATTACH fail until the process is started anew.
- StoreReturn.ShutdownCompletes: takes services to report finitely often while the drain goes on; with reports for ever the program's drain need not end either.
- StoreWriter.Writer.Shutdown: takes what others do between two polls as an argument: sends and reports, as many as there may be.
- IpRateLimiter.AtMostTwiceTheLimit: speaks of runs without a rebuild, because a rebuild gives the limit back (`IpRateLimiter.OneStrangerTooMany`); `IpRateLimiter.EachRebuildOneLimit` speaks of all runs.
- IpRateLimiter.ForgetsExactlyOnRebuild: speaks of a run up to its first rebuild, with a limit of at least one; later, buckets opened anew can end later than they would have, and leave an address less than it should have for a while.
- Timeline.BucketsCount: speaks of spans that start in 1970 or later, as the current time less at most thirty days does.
- RespWire.ReadCommand: takes upper-casing and word splitting of text that is not plain ASCII as a parameter; other connection errors count as its end.
- MongoTheorems.ReplyReadsBack: is stated for replies within the size the framing accepts; the reply sent has a fixed short text.
- The parsing of Retry-After, the reading of the clock between a response and its deadline being one step.
- Sorting, paging, column spans, styling and listeners of tables; the row reconciler keeps child lists, cell contents, classes and titles.
- SQLite, gzip, rename and fsync: a statement and a rename are atomic, a file is absent, under construction, torn or whole.
- The deletion of rows by retention is not part of the event history of `EventStore`, which ends at the commit; `Retention` treats it on its own.
- What producers do before a channel accepts their event: a producer blocked on a full channel simply has not sent yet.
- Calendar arithmetic, log texts, the times of day at which rounds run, and the warning about retention and archive spans.
- Wrap-around of the 64-bit call counter of the limiter and of row ids.
- Failures to write a reply, deadlines and connection limits of the honeypot.
- HTTP handlers, the WebSocket hub and upgrade, resource and heartbeat frames, netlink, log readers, the parsers of log lines and the other honeypot protocols: plumbing, or fixed layouts whose properties can be read off one body.
- `internal/out/out.go`, which repeats the two-phase drain of the store in a simpler form.
