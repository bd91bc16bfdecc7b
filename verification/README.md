# Cloud Tasks emulator: a verified model

A Dafny model of the in-memory Cloud Tasks emulator `ken109/cloud-tasks-emulator` (Go), and
proofs of what it promises: the life of a task under every interleaving of timers, deliveries and
API calls, the retry arithmetic, the routing of names, the REST path templates, page tokens and the
v2beta3 queue adapter. Check it with `dafny verify dfyconfig.toml`.

## How it is built

**One queue as a state machine.** `Lifecycle.dfy` turns each section that `core/queue.go` and
`core/engine.go` run under a queue lock into one atomic step. A pending timer or a running goroutine
is a continuation with a program counter (`Phase`); a `*taskState` is a handle, so two tasks that
reuse a name are different objects; the clock only moves forward; the result of a delivery is
arbitrary. `History.dfy` adds a log of what happened, and a `Run` is any sequence of enabled steps
from a newly created queue.

**Invariants of whole runs.** `Registry`, `Ownership`, `Semaphores` and `Reservations` are
invariants of the queue. Properties of single tasks are proved on a small automaton (`Life.dfy`);
`Projection.dfy` and `Lives.dfy` prove that every step of the queue is, for each of its tasks, one
action of that automaton, so `Tracking`, `Counters`, `Timing`, `Bounds` and `Rulings` need to look at
one task only. `Guarantees.dfy` states the results for runs; `Timers`, `Spacing`, `Expiry`,
`Capacities` and `Outcomes` say in the configuration's own fields and constants when timers go off,
how long names stay reserved, which limits apply and what a result changes. `Exhaustion.dfy` counts
the moves a failing task has left in any run; `Progress.dfy` and `Delivery.dfy` show what can still
come about from a reachable state when nobody calls the API.

**Objects.** `Runtime.dfy` is `queueState` as a class with the source's own control flow. Each call or
callback is proved to be one step of the state machine, its invariant says that the object is at the
end of a run, and so what is proved of runs is promised by every object (`Sweep.dfy` relates the
loops of `purge` and `stop` over the task map to the one-step form). `Service.dfy` is the engine as
a class that owns the queue objects.

**The engine.** `Engine.dfy` interleaves the engine's calls with the locked sections of all queues,
deleted ones included; `Routing.dfy` proves that names lead to the right queue and that every queue
object does a `Run`, so everything proved of runs holds for each queue of the engine. `Locks.dfy` is
the order in which locks and tokens are taken; `LockSteps.dfy` and `LockRuns.dfy` tie it to the steps
and to the order in which runs take them.

**Parsers and printers.** `Naming`, `Decimal`, `Base64Url`, `Pagination`, `Listing`, `Routes`,
`RouteLaws` and `Adapter` cover the parts that must undo each other; `ReadBack` carries the adapter's
round trip to runs of the engine. A round trip alone would allow two fields to be exchanged in both
directions, so `Templates`, `Merging`, `Validation` and `Meanings` state, field by field, what each
text, mask, name and message stands for. Strings are byte strings.

Durations and times are integer nanoseconds. 32-bit and 64-bit wrap-around and the float64 rounding
of the backoff are written out.

## Where the code differs from its description

- The repository's README says a failing task is dropped when `max_attempts` *or*
  `max_retry_duration` is reached (README.md:423-424). The code stops only when every configured
  limit is reached (core/queue.go:229-246); the model follows the code. `TriedPastMaxAttempts` is a
  run that breaks the documented rule, `EitherLimitIff` says exactly when the code keeps it, and
  `ResultsDecide` and `BothLimitsBind` say what it does instead.
- `backoff` is meant to level off at the maximum. In int64 it can return 0 instead:
  `CollapseWitness` gives a configuration, and `BackoffExactIff` says exactly when the delay is right.
  A minimum of 104 days or more may be rounded (`RoundingWitness`, `DoublingPhaseExactIff`).
- A path template that binds one field twice keeps only the last value: `RepeatedFieldLosesRequest`
  gives the case, and `MatchLosesNothingIff` says exactly which templates lose nothing.

## Model

| member | source | states |
|---|---|---|
| `Guarantees.NoLostOrRunawayTask` | core/queue.go:94-227 | in every state of every run a live push task has a pending continuation, no task has more than one plus the RunTask calls made on it, a live push task never run has exactly one, and a pull task has none |
| `Registry.RunRegistered` | core/queue.go:273-302 | in every state of every run a task is un-removed iff the map holds that very object under its name |
| `Guarantees.StaleCallbackInert` | core/queue.go:106-111 | in every run a late fire, snapshot, apply or expire of a removed task leaves every other task, its timers and its history alone, and every map entry, reservation and limit; a task recreated under the name stays the one in the map |
| `Guarantees.BoundedDelivery` | core/queue.go:188-246 | while the configuration allows m attempts, a live task has fewer than m results, no task more than m, deliveries are at most m plus RunTask calls, and a task dropped as exhausted had exactly m |
| `Exhaustion.FailingTaskCourse` | core/queue.go:188-246 | in every run that allows m attempts, a push task that nobody runs or removes and whose results all fail is in every state either live with exactly one pending continuation and fewer than m results, or dropped as exhausted after exactly m deliveries and m results |
| `Exhaustion.FailingTaskEnds` | core/queue.go:105-227 | over any stretch of any such run in which the queue runs, each move of the task's continuation uses up one of the moves left (six for each attempt left), no other step does, and the task is dropped exactly when none is left |
| `Exhaustion.MovesBalance` | core/queue.go:105-227 | with pauses too: the moves left go down by exactly the moves made, a poll of a closed gate counting back by one |
| `Delivery.FailingTaskExhausts` | core/queue.go:105-227 | from every state of every such run, in whatever phase the task is and for any failing outcome, the end is reached once the queue runs: exactly m deliveries and results, then the drop |
| `Guarantees.NeverEarlyAndSpaced` | core/queue.go:94-130 | without RunTask on a task, each delivery starts at or after its schedule time and no sooner after a failure than the backoff of that moment, across pauses and configuration swaps |
| `Spacing.RetriesSpaced` | core/queue.go:225-226 | that backoff is the one for the number of results in the task's history up to that failure |
| `Spacing.ResultLogged` | core/queue.go:188-211 | each applied attempt adds exactly one result to the history, with the retry configuration and time of that moment, the status, whether it was 2xx, and when it was sent |
| `Timers.ScheduleTimeIs` | core/engine.go:283-287 | without RunTask on it, a live task's schedule time is the one asked for, its create time if none was, and after each failure that moment plus the backoff for the number of results; name, kind and create time never change |
| `Timers.DispatchTimerDue` | core/queue.go:94-115 | in every run an armed dispatch timer of a live task never run by RunTask is due exactly at the later of its schedule time and its creation or last result, or exactly one second after the poll that found the queue paused or disabled |
| `Timers.FiresOnTime` | core/queue.go:94-103 | when due timers go off before the clock passes them and the queue runs throughout, every such timer goes off exactly at the later of the schedule time and the creation or last result |
| `Timers.RemovedTimersStopped` | core/queue.go:292-299 | in every run a removed task has no TTL timer waiting and, unless RunTask was called on it, no dispatch timer |
| `Timers.RunTaskTakesOver` | core/engine.go:379-385 | RunTask on a waiting task leaves exactly one thing pending, the attempt it begins, scheduled for now and able to start |
| `Guarantees.CountersEqualHistory` | core/queue.go:194-211 | dispatch, response and execution counts are the numbers of applied attempts, of those with a response and of those below 500, as 32-bit integers, and are ordered; the previous status is that of the last attempt |
| `Guarantees.RetryCountIsDeliveryNumber` | core/dispatch.go:208-221 | without RunTask the k-th delivery carries retry count k-1 |
| `Guarantees.ResultsDecide` | core/queue.go:213-246 | in every run the event after a result is the task's completion iff it was 2xx, its drop iff it failed and every limit configured then was reached by the results and the time since the first delivery in its history; with no event after it the task is live |
| `Guarantees.OnlyResultsEnd` | core/queue.go:213-226 | nothing but a recorded result completes a task or drops it as exhausted |
| `Guarantees.BothLimitsBind` | core/queue.go:229-246 | with both limits set throughout a run, a dropped task had at least m results and had been tried for at least the retry duration |
| `Guarantees.LiveOrRemovedOnce` | core/queue.go:273-302 | every task was created once and is live or was removed exactly once |
| `Guarantees.TasksConserved` | core/engine.go:464-466 | TasksCount is the number of live tasks, all ever created minus the removed ones |
| `Guarantees.NoLiveTaskOutlivesTTL` | core/queue.go:78-91 | when due TTL callbacks run before the clock passes them, no live task is older than its queue's task TTL, or than the engine's where the queue sets none |
| `Expiry.NeverExpiresEarly` | core/queue.go:273-288 | in every run an expired task had lived at least the queue's task TTL, or the engine's where the queue sets none |
| `Guarantees.PauseSafety` | core/queue.go:106-130 | over any stretch in which the queue is paused or disabled, every delivery comes from RunTask or from a continuation that was past the gate when the stretch began |
| `Delivery.ResumeDelivers` | core/queue.go:112-130 | from every state of every run, resuming the queue lets every live push task that is not being delivered be delivered, from whatever phase its continuation is in and with no further call |
| `Delivery.DeliverableIff` | core/queue.go:105-227 | in every reachable state of a running queue, a live push task never run by RunTask can be delivered anew without a call iff it is not being delivered or the policy would retry it if that delivery failed now |
| `Delivery.LastAttemptUnderWay` | core/queue.go:219-223 | a reachable state in which a live task cannot be delivered anew: its only attempt is under way |
| `Progress.AlwaysDeliverable` | core/queue.go:105-130 | from every reachable state of a running queue, every live push task that is not being delivered can be, through timer, gate, limiter and a semaphore that may be full |
| `Semaphores.TokensConserved` | core/queue.go:117-129 | for every semaphore ever built, tokens taken equal the timer-driven attempts that captured it and never exceed its capacity, across UpdateQueue swaps |
| `Semaphores.ReturnNeverBlocks` | core/queue.go:126-127 | a finished attempt can always give its token back to the semaphore it captured |
| `Semaphores.ConcurrencyBounded` | core/queue.go:63-76 | timer-driven deliveries under way are at most the capacities of the semaphores still held |
| `Capacities.CurrentLimits` | core/queue.go:63-76 | in every state of every run the newest limiter has the queue's maximum burst size and the newest semaphore its maximum concurrency, each at least 1 |
| `Capacities.EarlierLimits` | core/queue.go:63-76 | every older pair has the sizes of the rate limits of an earlier state |
| `Capacities.GateCapturesCurrent` | core/queue.go:117-121 | a task that passes the pause gate waits for the limiter and semaphore of the current rate limits |
| `Capacities.GenerationKept` | core/queue.go:117-129 | the pair a callback captured is the one it waits for, takes from and gives back to |
| `Capacities.HoldersWithinConfigured` | core/queue.go:63-76 | in a run whose configured concurrency stays c, no semaphore ever has more than c holders |
| `Capacities.ConfiguredConcurrency` | core/queue.go:63-76 | without UpdateQueue, timer-driven deliveries under way never exceed the configured concurrency |
| `Reservations.RunNeverBoth` | core/queue.go:292-324 | no name is ever both live and currently reserved |
| `Reservations.NameReservation` | core/engine.go:291-300 | a removed name is rejected by CreateTask until the queue's tombstone TTL, or the engine's where the queue sets none, is over, unless a hard-reset purge intervenes, whatever older cleanup timers do |
| `Expiry.ReservedExactly` | core/queue.go:305-324 | with no later release of the name it is reserved throughout that window and free from its end on |
| `Expiry.HardResetFrees` | core/queue.go:342-346 | after a hard-reset purge every name can be created at once |
| `Lives.StepProjects` | core/queue.go:93-364 | every step of the queue is, for each of its tasks, one allowed action of the single-task automaton |
| `Lives.BirthProjects` | core/engine.go:291-301 | a task that CreateTask adds begins the single-task automaton in its initial state |
| `Sweep.PurgeOneMore` | core/queue.go:330-340 | detaching and reserving one more task, in whatever order, extends the part of the purge that is done by exactly that task |
| `Sweep.DetachOneMore` | core/queue.go:354-362 | detaching one more task, in whatever order, extends the part of the stop that is done by exactly that task |
| `RetryPolicy.BackoffExactIff` | core/queue.go:249-271 | for 0 < minB < 2^53 and no negative cap or doublings, the int64 delay is min(maxB, minB*2^min(n-1,M) + max(0,n-1-M)*minB*2^M) if and only if it still doubles, fits, or its wrap-around is masked by the cap |
| `RetryPolicy.BackoffExact` | core/queue.go:249-271 | the delay is exact whenever minB*2^M*max(1,n-M) is below 2^63 |
| `RetryPolicy.BackoffMonotone` | core/queue.go:249-271 | in that range delays never shrink and lie between min(minB,maxB) and maxB |
| `RetryPolicy.DoublingPhaseExactIff` | core/queue.go:254-270 | while the delay doubles, for every positive minimum, it is exact if and only if the minimum is a float64 or the cap masks its rounding |
| `RetryPolicy.RoundingWitness` | core/queue.go:258 | a minimum of 2^53 + 1 ns waits one nanosecond too little |
| `RetryPolicy.LinearPhaseValue` | core/queue.go:260-270 | in that range, past the doublings, the delay is the wrapped product if that lands between 0 and the cap, else the cap |
| `RetryPolicy.OversizedStepCollapses` | core/queue.go:258-269 | a step beyond int64 makes the delay 0 at every second failure, where the policy says the maximum |
| `RetryPolicy.CollapseWitness` | core/queue.go:258-269 | forty doublings of 100ms: the forty-second attempt is retried at once |
| `RetryPolicy.DefaultConfigExact` | core/queue.go:383-395 | the default configuration is exact for all its hundred attempts |
| `RetryPolicy.EitherLimitIff` | core/queue.go:229-246 | the code agrees with "either limit stops retrying" unless both limits are set and exactly one is reached |
| `Delivery.TriedPastMaxAttempts` | core/queue.go:239-244 | a run with one attempt and ten seconds allowed in which the task is delivered twice |
| `Routing.RoutingAgrees` | core/engine.go:449-456 | in every engine state any interleaving reaches, each task key is a name of the queue that stores it, taskQueue leads from it to that queue, and no other queue holds it |
| `Routing.QueuesRun` | core/engine.go:112-302 | every queue object of every engine run, deleted ones included, is at the end of a run of the queue state machine |
| `Routing.RunRouted` | core/engine.go:259-302 | queues are filed under their own names, and a lookup CreateTask still holds is for the queue of that name |
| `Routing.DeletedQueueIsEmpty` | core/engine.go:220-231 | DeleteQueue leaves the name leading nowhere, the queue without tasks, every task of it removed, its reservations and every other queue as they were |
| `Locks.ProgramsDisciplined` | core/engine.go:112-390 | no call or callback waits for the engine lock, the limiter or a token while holding a queue lock, none holds two queue locks or delivers under a lock, and each gives back what it took |
| `Locks.NoWaitingCycle` | core/queue.go:106-153 | no set of threads, at whatever points of whatever calls, waits in a cycle |
| `Locks.NoDeadlock` | core/queue.go:106-153 | while a thread is unfinished some thread can take its next step |
| `Locks.MutualExclusion` | core/queue.go:36-48 | in every interleaving each lock has at most one owner and each semaphore at most its capacity |
| `LockSteps.FireIsSteps` | core/queue.go:106-153 | the lock program of fire is made of the lock operations of the steps its continuation makes, in their order |
| `LockSteps.CallsAreSteps` | core/engine.go:83-390 | the lock programs of the API calls that change something are made of those of the engine's and the queue's steps |
| `LockRuns.ProgramsOverRuns` | core/queue.go:106-153 | in every run, what a continuation has done to the locks and tokens, in the order the run took its steps, is a stretch of the lock program of one call, and once it is over the whole of a callback, a fire or an attempt |
| `LockSteps.TokensAgree` | core/queue.go:123-129 | in every phase, a fire holds a token in its lock program exactly when its continuation holds one in the queue |
| `Runtime.QueueState.TasksPending` | core/queue.go:94-227 | of every queue object: a live push task has a pending continuation, and no task more than one plus its RunTask calls |
| `Runtime.QueueState.TasksCounted` | core/queue.go:194-211 | of every queue object: the counters of a task are the counts of its history, which has one creation and at most one removal |
| `Runtime.QueueState.TokensHeld` | core/queue.go:117-129 | of every queue object: the tokens taken from each semaphore are those its holders have, within its capacity |
| `Runtime.QueueState.NamesApart` | core/queue.go:292-324 | of every queue object: a live task's name is not reserved |
| `Runtime.QueueState.constructor` | core/queue.go:50-59 | a new queue object has its defaults, no tasks and one limiter and semaphore, and begins a run |
| `Runtime.QueueState.RebuildLimits` | core/queue.go:63-76 | adds a limiter of the configured burst and a semaphore of the configured concurrency, each at least 1 and none taken, leaving captured ones alone |
| `Runtime.QueueState.Schedule` | core/queue.go:94-103 | arms the dispatch timer for the schedule time, or for now if that has passed, unless the task is removed or pull |
| `Runtime.QueueState.Fire` | core/queue.go:106-121 | drops a removed task, re-arms for one second later while paused or disabled, else captures the current limits |
| `Runtime.QueueState.SnapshotAttempt` | core/queue.go:166-184 | yields nothing for a removed task, else the task, its queue and the numbers the delivery carries |
| `Runtime.QueueState.ApplyAttempt` | core/queue.go:188-227 | records the result and completes, drops or reschedules the task; ignores a removed one |
| `Runtime.QueueState.ExpireTask` | core/queue.go:281-288 | removes the task unless it is removed already |
| `Runtime.QueueState.RemoveLocked` | core/queue.go:292-302 | marks the task removed, stops its timers, deletes its map entry and reserves its name |
| `Runtime.QueueState.CleanUp` | core/queue.go:311-317 | exactly the names that were reserved before a cleanup timer runs are reserved after it: an older timer never cuts a newer reservation short |
| `Runtime.QueueState.PurgeTasks` | core/queue.go:330-340 | the loop detaches and reserves every task of the map, in whatever order the map yields them |
| `Runtime.QueueState.StopTasks` | core/queue.go:354-362 | the loop detaches every task of the map, in whatever order the map yields them |
| `Runtime.QueueState.Purge` | core/queue.go:327-348 | one purge step of a run: no task is left, the purge time is now, and every purged name is reserved for the queue's tombstone TTL or, after a hard reset, no name is |
| `Runtime.QueueState.Stop` | core/queue.go:351-364 | one stop step of a run: every task is removed, no name reserved, the configuration unchanged |
| `Runtime.QueueState.CreateTask` | core/engine.go:291-301 | AlreadyExists for a live or reserved name, else the fresh task is the one under that name |
| `Runtime.QueueState.GetTask` | core/engine.go:309-315 | finds a task iff one of that name is not removed, else NotFound |
| `Runtime.QueueState.DeleteTask` | core/engine.go:350-357 | NotFound, or one delete step of a run after which the name is gone and reserved |
| `Runtime.QueueState.RunTask` | core/engine.go:365-383 | FailedPrecondition for pull, NotFound, or the timer is stopped and an attempt entered past the pause gate |
| `Runtime.QueueState.Update` | core/engine.go:198-217 | each masked part (all when the mask is empty) is the update's, each other the stored one, with defaults filled; the limits are swapped |
| `Runtime.QueueState.Snapshot` | core/engine.go:464-476 | the stored queue with the number of tasks that are not removed |
| `Service.TaskService.constructor` | core/engine.go:33-78 | a new engine has no queues; a task TTL of zero means 31 days, a tombstone TTL of zero 24 hours |
| `Validation.CreateQueueIff` | core/engine.go:112-132 | CreateQueue accepts exactly the names of queues with a legal id under the given location that are not taken; AlreadyExists is such a name that is taken, InvalidArgument anything else |
| `Validation.UpdateQueueIff` | core/engine.go:176-185 | UpdateQueue accepts exactly the names of queues with a legal id |
| `Validation.TaskQueueIff` | core/engine.go:449-456 | a queue's name followed by "/tasks/" and an id leads to that queue, or to NotFound if it is missing |
| `Validation.NoTaskName` | core/engine.go:449-456 | any other name is InvalidArgument |
| `Merging.DefaultsFilled` | core/queue.go:372-413 | each zero field gets its documented default, the burst size is derived from the rate, and nothing else changes |
| `Merging.MaskTakesEffect` | core/engine.go:203-214 | whatever the order and repetitions of a mask, exactly the named parts are replaced |
| `Merging.MergeIsMasked` | core/engine.go:198-217 | the whole merge: mask, empty mask and defaults, part by part |
| `Service.TaskService.CreateQueue` | core/engine.go:112-138 | the first failing validation decides the error and nothing changes; else the queue is added with defaults |
| `Service.TaskService.UpdateQueue` | core/engine.go:176-218 | InvalidArgument for a bad name; creation with defaults when missing; else each masked part is the update's and each other the stored one, defaults filled, on that queue only |
| `Service.TaskService.DeleteQueue` | core/engine.go:220-231 | NotFound, or the queue is stopped and taken out of the map |
| `Service.TaskService.PurgeQueue` | core/engine.go:233-242 | NotFound, or that queue and no other is purged |
| `Service.TaskService.SetQueueState` | core/engine.go:244-255 | NotFound, or that queue and no other changes state |
| `Service.TaskService.CreateTask` | core/engine.go:259-302 | the error of the first failing check, or the resolved name is added to the parent queue and no other |
| `Service.TaskService.GetTask` | core/engine.go:304-316 | the errors of the lookup, or the live task of that name |
| `Service.TaskService.DeleteTask` | core/engine.go:345-358 | the errors of the lookup, or the task is removed from the queue its name leads to |
| `Service.TaskService.RunTask` | core/engine.go:360-383 | the errors of the lookup and of the queue, or the attempt is entered |
| `Service.TaskService.ListTasks` | core/engine.go:318-343 | one page of the queue's live tasks in name order |
| `Service.TaskService.ListQueues` | core/engine.go:150-174 | one page of the location's queues in name order |
| `Listing.SortedNames` | core/engine.go:157-163 | the keys of a map, each once, in ascending order |
| `Listing.SortedUnique` | core/engine.go:328-332 | a listing does not depend on the iteration order of the map |
| `Listing.LessIff` | core/engine.go:157-163 | the order is byte-wise: a proper prefix first, else the first difference decides |
| `Listing.PageIs` | core/engine.go:575-600 | a page starts where its token points and is as long as asked for, or as the maximum when no size or too large a one is asked for; the next token points at its end, and there is none after the last page |
| `Pagination.TokenRoundTrip` | core/engine.go:577-598 | a page token decodes to the position it was made for and is never empty |
| `Pagination.PagesCoverList` | core/engine.go:575-600 | after any number of pages the client has read exactly a prefix of the list, at least one name per page |
| `Pagination.AllPagesRead` | core/engine.go:575-600 | the pages read until no token is handed out concatenate to the list |
| `Pagination.FollowingEnds` | core/engine.go:575-600 | following tokens always ends, after at most one page more than there are names |
| `Pagination.EveryKeyOnce` | core/engine.go:328-343 | reading all pages yields every key exactly once, in ascending order |
| `Base64Url.RoundTrip` | core/engine.go:578-598 | unpadded base64url (section 5 of RFC 4648) decodes what it encodes, for every byte string |
| `Base64Url.EncodingIs` | core/engine.go:598 | each group of four letters is, in the alphabet of section 5 of RFC 4648 and base 64, the number its three bytes are in base 256 |
| `Base64Url.EncodedLength` | core/engine.go:598 | the encoding is unpadded, the shortest that holds all bits |
| `Decimal.FormatParseRoundTrip` | core/engine.go:582-598 | strconv decimal parsing undoes formatting |
| `Decimal.PrintedIs` | core/engine.go:598 | a number prints as the decimal digits of its positional value, without leading zeros |
| `Decimal.ReadIff` | core/engine.go:582 | a text is read as a number iff it is an optional sign and at least one digit of that positional value, in int64 |
| `Naming.LocationRoundTrip` | core/naming.go:24-30 | a location name parses to given parts iff it is what they print to |
| `Naming.QueueRoundTrip` | core/naming.go:32-38 | a queue name parses to given parts iff it is what they print to |
| `Naming.TaskRoundTrip` | core/naming.go:40-46 | a task name parses to given parts iff it is what they print to |
| `Naming.NamesDecompose` | core/naming.go:48-70 | a task name is its queue, "/tasks/" and its id, a queue name its location, "/queues/" and its id |
| `Naming.ChildOf` | core/naming.go:54-58 | appending a task segment to a queue name gives a task name of that queue |
| `Naming.ResolvedIsChild` | core/naming.go:75-90 | every name resolveTaskName returns is a well-formed child of its parent with a legal id, and a caller's own name is unchanged |
| `Naming.ResolveIff` | core/naming.go:75-90 | a caller's name is accepted iff it is the parent's, "/tasks/" and a legal id; everything else is InvalidArgument, and no name gets the generated id |
| `Naming.TaskIDIff` | core/naming.go:18 | legal task ids are 1 to 500 letters, digits, underscores and hyphens |
| `Naming.QueueIDIff` | core/naming.go:21 | legal queue ids are 1 to 100 letters, digits and hyphens |
| `Naming.GeneratedApart` | core/queue.go:366-369 | ids generated one after the other differ, until clock and counter have moved on by 2^64 |
| `Routes.SplitTemplate` | rest/route.go:208-225 | one pass with a brace depth cuts the template at its outer slashes |
| `Routes.Parse` | rest/route.go:168-204 | the loops compile the template piece by piece, and refuse what the source refuses |
| `Routes.UnescapeInPlace` | rest/route.go:237-242 | rewrites each segment with its unescaped form where it has one |
| `Routes.SplitRequestPath` | rest/route.go:230-243 | the unescaped segments and the verb of a request path |
| `Routes.MatchRoute` | rest/route.go:246-267 | a request matches iff method, verb and every segment fit, and binds the captured spans |
| `RouteLaws.PiecesRejoin` | rest/route.go:208-225 | the pieces of a template rejoin with "/" to the template |
| `RouteLaws.AcceptedTemplate` | rest/route.go:168-204 | an accepted template has ordered, disjoint, non-empty, in-range spans that cover every wildcard exactly once |
| `Templates.ParseUndoesPrint` | rest/route.go:168-204 | the text of every well-formed template, printed from literals, variables with fields and patterns, and a verb, compiles to exactly those segments, spans, fields and verb, and is refused iff a pattern contains "**" |
| `Templates.RouteMatchesIff` | rest/route.go:246-260 | a route matches exactly the requests its text describes: its method, its verb, and segments that fit text for text and non-empty for each wildcard |
| `RouteLaws.ExpandMatchRoundTrip` | rest/route.go:168-267 | for every accepted template with distinct fields, fitting values and any percent-encoding of them, splitting and matching the expanded path gives back the values, the verb and the bindings |
| `RouteLaws.MatchLosesNothingIff` | rest/route.go:246-267 | two different slash-free requests never share their bindings iff every wildcard is captured under a field that no later variable repeats |
| `RouteLaws.DistinctFieldsLoseNothing` | rest/route.go:246-267 | distinct fields are enough for that |
| `RouteLaws.RepeatedFieldLosesRequest` | rest/route.go:168-266 | the compiler accepts "/{a}/{a}", and the route cannot tell two requests apart |
| `RouteLaws.EscapeAll` | rest/route.go:238-241 | every byte string has a percent-encoding (section 2.1 of RFC 3986) |
| `RouteLaws.HexValueIff` | rest/route.go:238 | the hexadecimal digits are 0 to 9 and a to f in either case, each with its value |
| `RouteLaws.UnescapeIff` | rest/route.go:238 | a segment unescapes to exactly what it spells, each "%" beginning a byte in two hexadecimal digits |
| `RouteLaws.RequestSegmentIs` | rest/route.go:237-242 | a request segment becomes what it spells, and stays as it is when it spells nothing |
| `Adapter.MethodRoundTrip` | emulator/conv.go:14-50 | converting a method name to its enum and back gives the name |
| `Meanings.MethodNames` | emulator/conv.go:14-31 | the name of each of the seven method numbers, POST for every other |
| `Meanings.MethodNumbers` | emulator/conv.go:33-50 | the number of each method name, that of POST for every other |
| `Meanings.TargetMeans` | emulator/v2beta3.go:242-274 | each part of an HTTP target reaches the override: method, scheme, host, port, path, query, enforcement, credentials kind by kind |
| `Meanings.HeadersMean` | emulator/v2beta3.go:242-274 | the value of a header is that of the last entry of its name |
| `Meanings.QueueMeans` | emulator/v2beta3.go:155-186 | each field of an API queue reaches the engine's queue, absent ones as zero, the burst size and purge time never |
| `Meanings.AnswerMeans` | emulator/v2beta3.go:188-223 | each field of a stored queue reaches GetQueue's answer, zero durations left out |
| `Adapter.HeadersToCore` | emulator/v2beta3.go:242-274 | the loop folds the header list into a map, a later entry winning |
| `Adapter.HeadersFromCore` | emulator/v2beta3.go:276-332 | ranging over the map lists each header once |
| `Adapter.HeadersRoundTrip` | emulator/v2beta3.go:242-332 | any enumeration of a header map folds back into it |
| `Adapter.OverrideRoundTrip` | emulator/v2beta3.go:242-332 | converting an HTTP override out and back in is the identity |
| `Adapter.DefaultsIdempotent` | core/queue.go:372-413 | defaulting twice is defaulting once, the burst size included |
| `Adapter.UpdatedConfigured` | core/engine.go:198-217 | an update through the API, whatever its mask, leaves a queue with its defaults and an override in API form |
| `ReadBack.AlwaysConfigured` | emulator/v2beta3.go:155-223 | in every state of every engine run over the API, every queue object, deleted ones included, has its defaults and an override in API form |
| `ReadBack.ReadBackUpdateIsIdentity` | core/engine.go:176-218 | in every state of every engine run over the API, feeding GetQueue's answer to UpdateQueue with an empty mask leaves that queue's resource, tasks, reservations and history and every other queue as they were, whatever order the headers are listed in |
| `Dispatch.RpcCode` | core/dispatch.go:32-57 | the rpc code of a delivery is OK exactly for a 2xx response |
| `Outcomes.ResponseCodes` | core/dispatch.go:259-284 | each canonical code and exactly the statuses that give it |
| `Outcomes.FailureCodes` | core/dispatch.go:32-49 | a request that cannot be built is INVALID_ARGUMENT, one without an answer UNAVAILABLE |
| `Outcomes.ResultRecorded` | core/queue.go:194-218 | in every run, recording a result changes counters, status, first and last dispatch time and the reason for the next attempt exactly as the outcome says |
| `Outcomes.ResultsWereSent` | core/queue.go:142-152 | in every run the dispatch time of a result lies between the start of a delivery of that task and the moment it was recorded |

## Left out

- HTTP sending, gRPC serving, flags and server start and stop: I/O. A delivery is an arbitrary outcome.
- OIDC tokens, signing and discovery (core/oidc.go): they rest on RSA, X.509 and JSON libraries.
- JSON decoding of REST requests (rest/decode.go): it rests on protobuf reflection.
- The rate of `rate.Limiter`: a continuation waits for an arbitrary time; only that a burst of at least 1 admits it is kept.
- Rewriting target URLs (`applyURIOverride`) and merging header spellings: they depend on net/url and on map order.
- Uniqueness of generated task ids: `idSeq` is bumped without the queue lock. An id is any decimal of a 64-bit sum.
- That nothing runs after DeleteQueue is not claimed: CreateTask lets go of the engine lock before it adds the task, which can land in a deleted queue. The properties of queues hold for deleted queues too.
- The v2 adapter, the update mask, IAM policies and the task conversions: thin copies.
- Service.TaskService.CreateTask: does not model the size, deadline and method limits of `validateCreateTask`, easy checks that precede the modelled part.
- The contents of attempt records and of the task's request: only the dispatch times, counters, status and reason are kept.
- Service.TaskService.RunTask: the first locked section only; the attempt it enters is a continuation of the state machine.
- Service.TaskService: a class of the API calls made one at a time; their interleavings are `Engine.dfy` and `Lifecycle.dfy`.
- Runtime.QueueState: tasks are handles into a sequence that the methods replace, not separate heap objects; the limiter, the token channel and the clock are steps of the state machine only.
- Delivery.FailingTaskExhausts: says that the end can be reached from everywhere; `Exhaustion.FailingTaskEnds` says of every run how far it is from it, and that the Go scheduler keeps moving every goroutine is not modelled.
- Guarantees.NoLiveTaskOutlivesTTL: only for runs in which the clock does not pass an unhandled TTL timer.
- Timers.FiresOnTime: only for runs in which the clock does not pass a due timer and the queue runs throughout; `Timers.DispatchTimerDue` covers every run.
- The clock is read once per locked section; CreateTask's earlier reading and the dispatch time are arguments bounded by it. A wall clock that goes backwards is not modelled.
- Conversion of an out-of-range float64 to int64 is the amd64 one (the minimum value); NaN and infinite rates are not modelled, rates are reals.
- Protobuf durations and timestamps are nanoseconds, not (seconds, nanos) pairs.
- A response with status 0 is read as no response, as the code does.
