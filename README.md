# thread-maestro in Dafny

thread-maestro is a thread-management simulator. Threads have a lifecycle
state (running, paused, stopped, waiting, completed) and a priority (low,
medium, high, critical). A priority scheduler gives each running thread a
CPU share in proportion to its priority weight (1, 2, 3 or 4) and picks the
next thread to run: the highest tier that has a running thread, and within
that tier the thread that has run least. The system has two engines:

- a web engine. A hook keeps the thread list, a CPU history of at most 60
  points and a simulation switch. It updates them once per second.
- a stand-alone engine. A class updates a vector of threads in place, one
  simulation step of one time quantum (1000 ms) at a time.

The UI renders durations as text. It draws a progress bar for each thread
card and decides which buttons a card enables. It also lays out a timeline
of bars, newest first.

The project is organised as follows:

- `text.dfy` (`Text`): decimal rendering of integers. The round trip is
  proved.
- `thread_types.dfy` (`ThreadTypes`): the shared records and the clamp.
- `seqs.dfy` (`Seqs`): the order-preserving filter that every list operation
  is built on.
- `scheduler.dfy` (`Scheduler`): priority weights, CPU share,
  next-thread selection and scheduler info.
- `thread_manager_hook.dfy` (`ThreadManagerHook`): the web engine. Each
  state updater is a pure function from the old list to the new one. The
  class `Engine` holds the hook's state and applies those functions.
- `cpp_thread_manager.dfy` (`CppThreadManager`): the stand-alone engine as
  imperative code over a `seq` field.
  - The share and statistics loops are proved against the web engine's
    definitions, applied to the same threads projected to the web record
    (`ToTs`): `CalculateCpuShare` and `GetSystemStats` compute the web
    engine's share and statistics, and `GetNextThread` picks a thread of
    the same tier and executionTime as the web scheduler.
  - The other loops are proved against this module's own functions
    (`RemoveId`, `SetStateOfId`, `SetPriorityOfId`, `MapPause`,
    `MapResume`, `MapStop`, `StepUpTo`). `BulkCommandsAgreeWithWeb`,
    `UpdateStateAgreesWithWeb`, `StopStateAgreesWithWeb` and
    `UpdatePriorityAgreesWithWeb` relate these to the web engine's updates
    where the two agree.
  - The places where the two engines differ are stated as lemmas.
- `thread_card.dfy` (`ThreadCard`) and `thread_timeline.dfy`
  (`ThreadTimeline`): the display rules.

Randomness and clocks are parameters. Each parameter is bounded by the
range its source draws from:

- CPU variance in [-5, 5). JavaScript's `(random() - 0.5) * 10` and the C++
  `uniform_real_distribution(-5, 5)` are both half-open.
- memory noise in [-2.5, 2.5).
- creation draws: name stem, burst seconds 0..20, CPU [5, 35) and memory
  [20, 120) in the web engine; burst 10000..30000 and memory [50, 200) in
  the stand-alone engine.
- `Date.now()` and the clock as a plain integer of milliseconds.

CPU, memory and percentages are exact reals.

In these places the model follows the code as written:

- the web engine has no transition guard, so any state may be set;
- web stop-all also stops completed threads;
- web delete also removes the direct children of the thread;
- pausing does not zero the CPU;
- the stand-alone step does not clamp `executionTime` at `burstTime`;
- the web engine's CPU-history point is computed from the threads as they
  were before the tick.

## Model

| member | source | states |
|---|---|---|
| Text.NatToStringRoundTrip | src/components/thread/ThreadCard.tsx:50-56 | reading back the decimal digits of a rendered number gives the number |
| Text.IntToStringInjective | public/thread_manager.cpp:200-202 | two integers render alike exactly when they are equal, so default names "Thread-<id>" differ when ids do |
| ThreadTypes.Clamp | src/hooks/useScheduler.ts:51 | the result lies in [lo, hi], equals x inside the range and saturates at either end |
| Scheduler.Weight | src/hooks/useScheduler.ts:4-9 | every priority weighs between 1 and 4 |
| Scheduler.WeightFollowsPriorityOrder | src/hooks/useScheduler.ts:60 | a priority earlier in the order critical, high, medium, low has a strictly larger weight |
| Scheduler.TotalWeightSnoc | src/hooks/useScheduler.ts:40-42 | the total weight of a list grows by a thread's weight exactly when an appended thread runs |
| Scheduler.CpuShare | src/hooks/useScheduler.ts:37-52 | the share lies in [0, 100]; it is 0 for a thread that does not run and 0 when nothing runs |
| Scheduler.BaseShareOfMember | src/hooks/useScheduler.ts:46-47 | a running member of the list makes the total weight positive, and its base share lies in (0, 100] |
| Scheduler.ShareWithinVarianceOfBase | src/hooks/useScheduler.ts:47-51 | a running thread's share is within 5 of its base share, and equals it when the variance is 0 |
| Scheduler.NoiseFreeSharesSumToHundred | src/hooks/useScheduler.ts:37-51 | with no variance the shares of the running threads add up to exactly 100 when anything runs, and to 0 otherwise |
| Scheduler.HigherPriorityNoLessShare | src/hooks/useScheduler.ts:46-47 | with no variance a heavier running thread gets at least the share of a lighter one, and strictly more when the weights differ |
| Scheduler.ThreeTierShares | src/hooks/useScheduler.ts:37-51 | running critical, medium and low threads get 400/7, 200/7 and 100/7, and a paused thread gets 0 |
| Scheduler.TotalWeight | src/hooks/useScheduler.ts:40-42 | each running thread adds between 1 and 4, so the total is 0 exactly when nothing runs |
| Scheduler.LeastExecuted | src/hooks/useScheduler.ts:66-68 | the reduce returns a member with the least executionTime, the first such in list order |
| Scheduler.NextThread | src/hooks/useScheduler.ts:55-73 | a chosen thread is a running member of the list |
| Scheduler.NextThreadNoneIff | src/hooks/useScheduler.ts:55-57 | no thread is chosen exactly when no thread runs |
| Scheduler.NextThreadIsHighestLeastExecuted | src/hooks/useScheduler.ts:55-73 | the chosen thread runs, has the largest weight among running threads, the least executionTime in its tier, and comes first among ties |
| Scheduler.GetSchedulerInfo | src/hooks/useScheduler.ts:75-83 | the info names the algorithm and a 1000 ms quantum; the current thread is the chosen thread's name, or none when nothing runs or the name is empty |
| ThreadManagerHook.GeneratedName | src/hooks/useThreadManager.ts:7-10 | the name is a stem, a dash and decimal digits that read back as the index |
| ThreadManagerHook.NewThread | src/hooks/useThreadManager.ts:24-43 | a new thread runs with no execution time; a non-empty custom name, a given priority and a non-zero custom burst are kept; without a custom name the name is the generated one for the drawn stem and the incremented counter; without a custom burst the burst is a whole number of seconds in 10..30; the burst is never 0 |
| ThreadManagerHook.DeleteWithChildren | src/hooks/useThreadManager.ts:45-47 | exactly the threads whose id is not the given one and whose parent is not the given one survive |
| ThreadManagerHook.DeleteKeepsOrder | src/hooks/useThreadManager.ts:46 | deletion distributes over concatenation, so survivors keep their order |
| ThreadManagerHook.DeleteUnknownAndIdempotent | src/hooks/useThreadManager.ts:46 | an id that names no thread and no parent changes nothing; deleting twice equals deleting once |
| ThreadManagerHook.DeleteSparesGrandchildren | src/hooks/useThreadManager.ts:46 | a direct child is removed but a grandchild is kept |
| ThreadManagerHook.SetState | src/hooks/useThreadManager.ts:49-53 | only the state changes, and only for threads with the id; there is no transition check |
| ThreadManagerHook.SetPriority | src/hooks/useThreadManager.ts:55-59 | only the priority changes, and only for threads with the id |
| ThreadManagerHook.SetStateLastWins | src/hooks/useThreadManager.ts:61-71 | of two state commands the last wins; pausing then resuming a running thread restores the list |
| ThreadManagerHook.PauseAll | src/hooks/useThreadManager.ts:73-77 | ids are kept, no thread is left running, and a thread is paused exactly when it was running or paused |
| ThreadManagerHook.ResumeAll | src/hooks/useThreadManager.ts:79-83 | ids are kept, no thread is left paused, and a thread runs exactly when it was running or paused |
| ThreadManagerHook.StopAll | src/hooks/useThreadManager.ts:85-87 | ids are kept and every thread, completed ones included, is stopped |
| ThreadManagerHook.BulkCommandsTouchOnlyState | src/hooks/useThreadManager.ts:73-87 | pause-all only pauses running threads, resume-all only resumes paused ones, stop-all stops every thread, completed ones included; no other field changes |
| ThreadManagerHook.BulkCommandLaws | src/hooks/useThreadManager.ts:73-87 | resume-all after pause-all is resume-all and the reverse; each is idempotent; stop-all absorbs both |
| ThreadManagerHook.TickThreads | src/hooks/useThreadManager.ts:98-128 | ids and burst times are kept, a thread that does not run is unchanged, and a running one is afterwards running or completed |
| ThreadManagerHook.TickAt | src/hooks/useThreadManager.ts:98-128 | a tick leaves a non-running thread as it is; a running one either completes with CPU 0 and executionTime clamped to burstTime, or advances 1000 ms with a share within 5 of its base share and memory moved by less than 2.5 within [0, 500] |
| ThreadManagerHook.TickKeepsExecutionWithinBurst | src/hooks/useThreadManager.ts:104-113 | if executionTime is within burstTime before a tick, it stays within it and never decreases |
| ThreadManagerHook.RunningCpuIsSumOverRunning | src/hooks/useThreadManager.ts:165 | the conditional reduce equals the sum of CPU over the running threads |
| ThreadManagerHook.RunningCpu | src/hooks/useThreadManager.ts:133-135 | the conditional sum is not negative when no CPU figure is, and is 0 when nothing runs |
| ThreadManagerHook.HistoryPoint | src/hooks/useThreadManager.ts:133-140 | the usage is the running CPU when that is at most 100 and exactly 100 above it, so it lies in [0, 100] for non-negative figures; the point also records the time and the number of running threads |
| ThreadManagerHook.PushHistory | src/hooks/useThreadManager.ts:142-143 | the history grows by the new point up to 60 entries, then drops its oldest entries to stay at 60 |
| ThreadManagerHook.PushHistoryFifo | src/hooks/useThreadManager.ts:142-143 | a full history drops exactly its oldest point |
| ThreadManagerHook.Stats | src/hooks/useThreadManager.ts:157-168 | each state count is the number of threads in that state (its multiplicity among the states of the list), and the five add up to the total; CPU is summed over running threads and memory over all threads |
| ThreadManagerHook.CountIsMultiplicity | src/hooks/useThreadManager.ts:160-164 | filtering by a state and taking the length counts that state's occurrences in the list |
| ThreadManagerHook.CountRunningIsRunningList | src/hooks/useThreadManager.ts:160 | the running count is the length of the scheduler's running list |
| ThreadManagerHook.BulkCommandStats | src/hooks/useThreadManager.ts:73-87 | after pause-all nothing runs and the former running threads count as paused; after resume-all nothing is paused; after stop-all every thread counts as stopped |
| ThreadManagerHook.TickStats | src/hooks/useThreadManager.ts:98-128 | a tick only moves threads from running to completed: the total, the paused, stopped and waiting counts and the running+completed sum are unchanged |
| ThreadManagerHook.Engine.constructor | src/hooks/useThreadManager.ts:18-21 | the engine starts with no threads, no history, the simulation on and the counter at 0 |
| ThreadManagerHook.Engine.CreateThread | src/hooks/useThreadManager.ts:24-43 | the counter goes up by one and the new thread is appended; nothing else changes |
| ThreadManagerHook.Engine.DeleteThread | src/hooks/useThreadManager.ts:45-47 | the list becomes the survivors of the deletion |
| ThreadManagerHook.Engine.UpdateThreadState | src/hooks/useThreadManager.ts:49-53 | the list becomes the state update |
| ThreadManagerHook.Engine.UpdateThreadPriority | src/hooks/useThreadManager.ts:55-59 | the list becomes the priority update |
| ThreadManagerHook.Engine.PauseThread | src/hooks/useThreadManager.ts:61-63 | the thread is set to paused |
| ThreadManagerHook.Engine.ResumeThread | src/hooks/useThreadManager.ts:65-67 | the thread is set to running |
| ThreadManagerHook.Engine.StopThread | src/hooks/useThreadManager.ts:69-71 | the thread is set to stopped |
| ThreadManagerHook.Engine.PauseAllThreads | src/hooks/useThreadManager.ts:73-77 | the list becomes pause-all of the old list |
| ThreadManagerHook.Engine.ResumeAllThreads | src/hooks/useThreadManager.ts:79-83 | the list becomes resume-all of the old list |
| ThreadManagerHook.Engine.StopAllThreads | src/hooks/useThreadManager.ts:85-87 | the list becomes stop-all of the old list |
| ThreadManagerHook.Engine.ToggleSimulation | src/hooks/useThreadManager.ts:89-91 | the simulation switch flips and nothing else changes |
| ThreadManagerHook.Engine.Tick | src/hooks/useThreadManager.ts:94-145 | when the simulation is on, the threads are ticked and a point computed from the pre-tick threads is pushed; when it is off nothing changes; CPU and memory stay in range and the history stays within 60 points of usage in [0, 100] |
| ThreadManagerHook.Engine.GetSystemStats | src/hooks/useThreadManager.ts:157-168 | the statistics of the current list |
| CppThreadManager.Project | public/thread_manager.cpp:46-68 | each stand-alone record corresponds to the web record with the same fields, with the id in decimal and parent -1 meaning none |
| CppThreadManager.CalculateCpuShare | public/thread_manager.cpp:91-113 | the loop's total weight gives exactly the web scheduler's share, in [0, 100], and 0 for a thread that does not run |
| CppThreadManager.RunningIndices | public/thread_manager.cpp:117-122 | the collected indices are exactly those of the running threads |
| CppThreadManager.FirstInOrder | public/thread_manager.cpp:127-134 | the picked index has no collected index before it under the comparator |
| CppThreadManager.GetNextThread | public/thread_manager.cpp:116-135 | none exactly when nothing runs; otherwise a running thread of the highest tier with the least executionTime in it, whose tier and executionTime match the web scheduler's choice |
| CppThreadManager.NewThreadInfo | public/thread_manager.cpp:58-67 | a new record runs with no CPU and no execution time; an empty name becomes "Thread-<id>"; a burst that is not positive is replaced by a draw in 10000..30000 |
| CppThreadManager.FindIndex | public/thread_manager.cpp:218-219 | the result is the first position with the id, or none exactly when no record has it |
| CppThreadManager.RemoveId | public/thread_manager.cpp:215-229 | an absent id leaves the vector as it is; otherwise the vector is one shorter and is the old one with the first record of the id taken out, the rest in order |
| CppThreadManager.RemoveIdRemovesExactlyOne | public/thread_manager.cpp:215-229 | with distinct ids, deletion removes only the record with the id, keeps its children, and changes nothing for an absent id |
| CppThreadManager.SetStateOfId | public/thread_manager.cpp:232-250 | ids and length are kept, every record but the first with the id is unchanged, and that one becomes its state update |
| CppThreadManager.WithState | public/thread_manager.cpp:238-242 | the record gets the state; its CPU becomes 0 for stopped or completed and is kept otherwise; every other field is kept |
| CppThreadManager.SetPriorityOfId | public/thread_manager.cpp:268-281 | ids and length are kept, every record but the first with the id is unchanged, and that one is the old record with only its priority replaced |
| CppThreadManager.MapPause | public/thread_manager.cpp:284-292 | ids are kept and no record is left running |
| CppThreadManager.MapResume | public/thread_manager.cpp:295-303 | ids are kept and no record is left paused |
| CppThreadManager.MapStop | public/thread_manager.cpp:306-315 | ids are kept, completed records stay completed, and every other record is stopped with CPU 0 |
| CppThreadManager.BulkCommandsAgreeWithWeb | public/thread_manager.cpp:284-315 | pause-all and resume-all equal the web commands; stop-all agrees with the web one on a thread exactly when it is not completed and has no CPU |
| CppThreadManager.CppBulkCommandLaws | public/thread_manager.cpp:284-315 | stop-all absorbs pause-all and resume-all; resume-all undoes pause-all; each command is idempotent |
| CppThreadManager.UpdateStateAgreesWithWeb | public/thread_manager.cpp:232-250 | with distinct ids, a state update that keeps the CPU equals the web engine's update of the decimal id |
| CppThreadManager.StopStateAgreesWithWeb | public/thread_manager.cpp:232-250 | with distinct ids, setting stopped or completed equals the web engine's update followed by zeroing that thread's CPU, and nothing else |
| CppThreadManager.UpdatePriorityAgreesWithWeb | public/thread_manager.cpp:268-281 | with distinct ids, the priority update equals the web engine's priority update of the decimal id |
| CppThreadManager.StepUpTo | public/thread_manager.cpp:321-336 | the vector after the loop has visited the first n positions; its length is kept (what each position becomes is stated by StepUpToFrame and SimulationStepAt) |
| CppThreadManager.StepPreservesIds | public/thread_manager.cpp:321-336 | the step never changes an id |
| CppThreadManager.StepKeepsIds | public/thread_manager.cpp:321-336 | ids that increase along the vector still do after the step |
| CppThreadManager.StepUpToFrame | public/thread_manager.cpp:321-336 | the step loop changes each position only on its own iteration |
| CppThreadManager.SimulationStepAt | public/thread_manager.cpp:318-337 | a non-running thread is untouched; a running one gains 1000 ms without a clamp, completes with CPU 0 exactly when it reaches its burst, and otherwise gets the share computed against the vector as updated so far |
| CppThreadManager.StepOvershootsBurst | public/thread_manager.cpp:327-332 | one quantum short of a 1500 ms burst, the stand-alone step stores 2000 ms while the web tick stores 1500 ms |
| CppThreadManager.EarlierCompletionRaisesLaterShare | public/thread_manager.cpp:321-336 | when the first of two medium threads completes, the second gets 100 in the same step, where the web tick gives it 50 |
| CppThreadManager.ThreadManager.constructor | public/thread_manager.cpp:150-152 | the manager starts empty with next id 1 |
| CppThreadManager.ThreadManager.CreateThread | public/thread_manager.cpp:196-212 | the returned id is the old next id, above every existing id; the new record is appended and the next id goes up by one |
| CppThreadManager.ThreadManager.DeleteThread | public/thread_manager.cpp:215-229 | returns whether a record had the id and erases the first such record |
| CppThreadManager.ThreadManager.UpdateThreadState | public/thread_manager.cpp:232-250 | returns whether a record had the id; the first such record gets the state, with CPU 0 when the state is stopped or completed and kept otherwise; no other field and no other record changes |
| CppThreadManager.ThreadManager.PauseThread | public/thread_manager.cpp:253-255 | the record gets the paused state |
| CppThreadManager.ThreadManager.ResumeThread | public/thread_manager.cpp:258-260 | the record gets the running state |
| CppThreadManager.ThreadManager.StopThread | public/thread_manager.cpp:263-265 | the first record with the id gets the stopped state and CPU 0; no other field and no other record changes |
| CppThreadManager.ThreadManager.UpdateThreadPriority | public/thread_manager.cpp:268-281 | returns whether a record had the id; the first such record is the old one with only its priority replaced, and no other record changes |
| CppThreadManager.ThreadManager.PauseAllThreads | public/thread_manager.cpp:284-292 | every running record becomes paused, in place |
| CppThreadManager.ThreadManager.ResumeAllThreads | public/thread_manager.cpp:295-303 | every paused record becomes running, in place |
| CppThreadManager.ThreadManager.StopAllThreads | public/thread_manager.cpp:306-315 | every record that is not completed becomes stopped with CPU 0, in place |
| CppThreadManager.ThreadManager.SimulationStep | public/thread_manager.cpp:318-337 | the vector becomes the result of visiting every position in order with the step for that position |
| CppThreadManager.ThreadManager.UpdatePosition | public/thread_manager.cpp:322-335 | the loop body changes the vector exactly as the step for that position, against the vector as it is at that point |
| CppThreadManager.ThreadManager.GetSystemStats | public/thread_manager.cpp:340-358 | the one-pass counts and sums equal the web engine's statistics of the same threads |
| CppThreadManager.Tally | public/thread_manager.cpp:346-355 | the loop's running and completed counts, running CPU and total memory equal the web engine's definitions for the same threads |
| ThreadCard.NestedDivision | src/components/thread/ThreadCard.tsx:45-48 | whole minutes of whole seconds are whole minutes of milliseconds, and likewise for hours |
| ThreadCard.FormatTime | src/components/thread/ThreadCard.tsx:45-57 | from one hour up the text is "<h>h <m>m"; from one minute up it is "<m>m <s>s"; below that it is "<s>s", each field being whole units of the milliseconds |
| ThreadCard.FormatTimeBelowOneSecond | src/components/thread/ThreadCard.tsx:56 | anything under a second renders as "0s" |
| ThreadCard.FormatTimeDropsSeconds | src/components/thread/ThreadCard.tsx:50-52 | from one hour up, two durations in the same minute render alike |
| ThreadCard.FormatTimeSecondsInjective | src/components/thread/ThreadCard.tsx:53-56 | below one minute two durations render alike exactly when they have the same whole seconds |
| ThreadCard.ProgressWidth | src/components/thread/ThreadCard.tsx:166 | the width is at most 100; with a positive burst it is 100 exactly when the thread has reached its burst, and the plain ratio below it |
| ThreadCard.TickedProgressIsExact | src/components/thread/ThreadCard.tsx:166 | for a thread within its burst the bar is the plain ratio and is full exactly when executionTime equals burstTime |
| ThreadCard.PrimaryActionOf | src/components/thread/ThreadCard.tsx:192-231 | completed shows a disabled badge, running a pause button, paused a resume button, stopped and waiting a disabled "Stopped" button |
| ThreadCard.StopDisabled | src/components/thread/ThreadCard.tsx:237 | a card whose stop button is disabled offers no pressable primary button either |
| ThreadCard.PrimaryActionToggles | src/components/thread/ThreadCard.tsx:199-220 | pressing the primary button always changes the state, and pause and resume alternate |
| ThreadCard.CardButtonsThroughEngine | src/components/thread/ThreadCard.tsx:233-238 | through the web update, an enabled primary button changes that thread's state, and an enabled stop button leaves it with stop disabled |
| ThreadCard.WaitingLooksStopped | src/components/thread/ThreadCard.tsx:221-237 | a waiting thread shows the disabled "Stopped" button yet can be stopped; a completed one offers no button |
| ThreadTimeline.FormatDuration | src/components/thread/ThreadTimeline.tsx:33-40 | from one minute up the text is "<m>m <s>s" with no hour roll-up; below that it is "<s>s" |
| ThreadTimeline.FormatDurationMatchesCard | src/components/thread/ThreadTimeline.tsx:33-40 | below one hour the timeline and the card render a duration alike; from one hour up they never do |
| ThreadTimeline.FormatDurationNoHourRollUp | src/components/thread/ThreadTimeline.tsx:36-37 | one hour renders as "60m 0s" |
| ThreadTimeline.Insert | src/components/thread/ThreadTimeline.tsx:44-46 | inserting adds exactly one row |
| ThreadTimeline.InsertKeepsOrder | src/components/thread/ThreadTimeline.tsx:44-46 | inserting into newest-first rows keeps them newest first |
| ThreadTimeline.SortNewestFirst | src/components/thread/ThreadTimeline.tsx:44-46 | the copy is a permutation of the rows, ordered by start time descending |
| ThreadTimeline.SortKeepsTies | src/components/thread/ThreadTimeline.tsx:44-46 | the sort is stable: rows with the same start time keep their relative order |
| ThreadTimeline.SortOfSortedIsIdentity | src/components/thread/ThreadTimeline.tsx:44-46 | rows already newest first are left as they are |
| ThreadTimeline.MinStart | src/components/thread/ThreadTimeline.tsx:51 | the result is the start time of some row and no row started earlier |
| ThreadTimeline.EarliestStart | src/components/thread/ThreadTimeline.tsx:50-52 | the left edge is the oldest start, or now when there are no rows |
| ThreadTimeline.MaxRange | src/components/thread/ThreadTimeline.tsx:53-54 | the range is at least one minute and at least the time since the oldest start, and equals one of the two |
| ThreadTimeline.BarWidth | src/components/thread/ThreadTimeline.tsx:56-61 | the width is the larger of 5 percent and the proportional width: at least both, and equal to one of them |
| ThreadTimeline.BarOffset | src/components/thread/ThreadTimeline.tsx:63-66 | the offset is non-negative exactly when the row started no earlier than the left edge, and 0 exactly when it started at it |
| ThreadTimeline.BarOffsetBounds | src/components/thread/ThreadTimeline.tsx:63-66 | every bar starts at or right of the left edge, the oldest row's exactly at it, and a row started by now at most at the right edge |
| ThreadTimeline.LiveBarEndsInside | src/components/thread/ThreadTimeline.tsx:56-66 | a row that has not completed has width at most 100, and if not widened to the minimum its bar ends inside the timeline |

## Left out

- Randomness (`Math.random`, `random_device`/`mt19937`), `Date.now()` and the system clock become bounded parameters. Generated ids (`thread-<time>-<random>`) are taken as given strings.
- React machinery (`useState`, `useCallback`, `useEffect`, `setInterval`) is not modelled. The effect that creates four threads on mount is a sequence of `Engine.CreateThread` calls and is not modelled separately.
- The stand-alone engine's mutex, the `atomic` switch, the console output, the display and export functions, the menu, and `startSimulation`/`stopSimulation`/`runSimulationLoop` are not modelled. Concurrency and I/O are outside the model.
- Floating-point rounding, `toFixed`, `toLocaleTimeString` and `burstTime / 1000.0` in messages are not modelled. Figures are exact reals.
- Integer widths: C++ `int` overflow (of `nextThreadId` or of `executionTime`) and JavaScript's 2^53 limit are not modelled. Integers are unbounded.
- ProgressWidth: requires a non-zero burst time. JavaScript would give Infinity or NaN for 0, but no engine creates a thread with burst 0 (`NewThread` and `NewThreadInfo` both guarantee it).
- CppThreadManager.GetNextThread: `std::sort` is not stable, so the model picks some thread that is first under the comparator. The contract fixes only its tier and executionTime, not which of several tied threads is returned.
- Priority and state label tables, colours and CSS classes of the UI are not modelled.
