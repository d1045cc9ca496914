# Doctor Claw: a verified model of the runtime kernel

This project models the parts of Doctor Claw that keep state over long runs and have to stay right
under any interleaving, any clock and any provider reply, and proves what they promise. The whole project
can be verified with `dafny verify dfyconfig.toml`. No proof uses automatic induction: every lemma says
`{:induction false}` and makes its own recursive calls.

| files | part of the program |
|---|---|
| `Jobs`, `JobProtocol`, `JobService`, `JobServiceInv`, `JobServiceRuns`, `JobCalls`, `JobPool`, `JobScale`, `JobProgress`, `JobStop` | the job ring, its two condition variables, the scaling worker pool and the gateway threads that wait for an answer: what every run keeps, what each call gets, exact thread accounting and growth, and progress up to the stop |
| `Cron`, `CronExpr`, `CronFile`, `CronRestart`, `CronSched`, `CronTable`, `CronLife`, `CronDelay`, `CronService`, `CronScheduler` | next-run arithmetic told from the fields, the task file and which tables survive it, the scheduler's operations and guarantees over whole runs with restarts and delays, what table and tasks are at any point, and the scheduler as it runs |
| `Requests`, `RateLimiter`, `RateLimiterExact`, `RateLimiterRoom`, `BucketLimiter` | the 256-entry table limiter, its exact verdicts, with and without room, and the hash-bucket limiter |
| `LoopGuard`, `GuardSharing`, `AgentHistory`, `AgentLoop`, `AgentTranscript`, `AgentGuard` | the circuit breaker, alone and shared by concurrent turns, history trimming, the tool-call loop and the attention loop under any verdicts, what they leave in the history, and the breaker behind the verdicts |
| `MuninnRank`, `Muninn` | scoring, sorting and selection of engrams; Hebbian links and counters over whole runs |
| `Audit`, `AuditRace`, `Monitor` | the hash-chained audit log, by one caller at a time and by threads; the event ring and the connection buckets |
| `WsFrame`, `Escape`, `Split` | WebSocket frames, percent-encoding, JSON strings, message splitting and text chunking |
| `Basics`, `RingIndex`, `CText` | options; index arithmetic shared by the rings; atoi, strtok, fgets and bounded copies |

How the model is built:

- Code that updates fields or buffers step by step is a class or a method with loops; its contract ties the
  new state to a specification function, and the theorems are lemmas about that function or invariants of
  the class. The blocking protocol is a step relation: a critical section is one step, a sleeping thread
  wakes by a signal or spuriously and then has to take the mutex again.
- A provider, a tool, a clock reading, a candidate list or a send result is a parameter and may be anything.
- Ghost fields hold the unbounded history (`log`, `logged`, `calls`) against which a bounded window is stated.

Assumed throughout: the clock does not go backwards; names and addresses fit their fixed buffers; C strings
hold no NUL; memory allocation succeeds; one operation reads the clock once. Each module but the job service, the
shared guard, the shared audit log and the delayed scheduler is about one caller at a time.

`jobcache_push` waits when the ring is full, although its header and a test speak of a return value of -1; the
model waits.

What turned out different from the documentation or from what one would expect, each with the exact condition:

- The guard is one static record that every turn resets, and worker threads run turns side by side. The tool-call loop
  is therefore proved against arbitrary verdicts: fifty replies and eight hundred tools bound every turn, whatever other
  turns do (`AgentLoop.Agent.Think`). The guard keeps a turn from looping if no other turn uses it between the turn's
  first and last check (`AgentGuard.UndisturbedTurnNeverLoops`); with another turn's start before each check, eight
  hundred equal calls in a row pass (`AgentGuard.RestartsDefeatGuard`), and another turn's calls alone suffice as well
  (`GuardSharing.CallsBreakTheBound`).
- A cron expression is read by its second field alone: it sets the period to an hour if it starts with a number up to 23
  and is no lone star, and every other field is ignored (`CronExpr.NextRunByFields`, `CronExpr.OnlyTheHourMatters`).
- No dispatch fails without leaving a text, so the callback's `error=` text never reaches a waiter
  (`JobServiceRuns.FailureHasText`); every answered waiter holds exactly what dispatch produced.
- A dispatch takes effect when the push returns, which may be long after the clock reading that decided it. By reading,
  a task is dispatched once per period; by effect, two dispatches share a period exactly when the earlier one was
  delayed into the period of the later one's reading and effect (`CronDelay.SharesPeriodIff`), and T seconds see at most
  T / interval + 3, a bound that is reached for every number of minutes (`CronDelay.EffectRate`, `CronDelay.DelaysBunch`).
- The audit log takes no lock. It stays a chain over every run in which no two calls overlap, and in a log that was
  never full nor cleared only then (`AuditRace.ChainIffNoOverlap`); two overlapping calls lose an entry and move the
  count past an unwritten slot, at the end past the table (`AuditRace.RaceLeavesGap`).
- A timed wait that consumes a signal and still reports a timeout, which POSIX permits, loses a wakeup. Over whole runs
  of the pool, whose workers all pop with a deadline, the damage is at most the signals so swallowed
  (`JobServiceRuns.MissedSignals`), and every waiter can still be answered (`JobProgress.WaiterCanBeAnswered`).
- The guard compares n - 5 names, not the six of its header: up to eleven calls it trips wherever the header says, from
  twelve on six alternating calls can pass at every length (`LoopGuard.HeaderRuleCovered`, `LoopGuard.HeaderRuleMissed`).
- A start whose scaler cannot be created reports failure and leaves alive exactly the workers it has created
  (`JobPool.FailedStartLeaves`).
- The table limiter differs from the map it stands for exactly when a request finds no room among 256 live addresses
  (`RateLimiterRoom.RoomIsExact`); 256 addresses with one request each switch it off for everybody else
  (`RateLimiterRoom.FloodSwitchesOff`). The bucket limiter holds an address to its bound beside another one exactly if
  the two hash to different buckets (`BucketLimiter.HeldIffApart`); a final 11 and a final 99 never tell two apart.
- A task table without line ends survives a restart exactly if no text field is empty or holds a bar and no id starts
  with `#` (`CronRestart.FileRoundTripIff`). A command with a shell pipe comes back cut at the pipe, and disabled unless
  what follows the pipe reads as the number 1 (`CronFile.PipeIsCut`).
- The 64-bit frame length is written low byte first and read high byte first (`WsFrame.RoundTrip`, `WsFrame.LongBuildRejected`).
- A soft-deleted engram is recalled exactly when it is among the first 256 text matches and ranks into the top
  (`Muninn.DeletedRecalledIff`), never by the fallback query (`Muninn.FallbackRecallsCurrent`).
- The audit payload runs its fields together, so the hash does not fix where action ends and target begins
  (`Audit.PayloadFixesFields`, `Audit.FieldsAreNotPinned`).
- Discord and Slack get the last word of a short text as a message of its own unless the text has no blank or ends in one
  (`Split.OneMessage`). The memory chunker drops the end of a text exactly when its breaks give back more than the plan
  has to spare or the rest does not end well (`Split.NothingLostIff`); a text of one chunk loses its last word unless it
  ends in a space or has none among its last twenty characters (`Split.ShortTextLosesLastWord`).
- Control characters other than line ends reach a JSON string unescaped (`Escape.ControlsLeft`).

## Model

| member | source | states |
|---|---|---|
| `Jobs.Ring.constructor` | src/jobcache/jobcache.c:19-36 | a new ring is empty and well formed |
| `Jobs.Ring.Create` | src/jobcache/jobcache.c:19-36 | no ring exactly for capacity 0 |
| `Jobs.Ring.Push` | src/jobcache/jobcache.c:47-61 | the contents grow at the end by the job as stored, and tail = (head + count) mod capacity |
| `Jobs.Ring.Pop` | src/jobcache/jobcache.c:63-94 | the oldest job is returned and removed, and tail = (head + count) mod capacity |
| `Jobs.Ring.Depth` | src/jobcache/jobcache.c:96-102 | the number of queued jobs |
| `RingIndex.ModIsWrap` | src/jobcache/jobcache.c:47-94 | for the indices that occur, `% capacity` is one conditional subtraction |
| `RingIndex.WindowAppend` | src/jobcache/jobcache.c:47-61 | writing the cell behind the last appends to the window of the ring |
| `RingIndex.WindowDrop` | src/jobcache/jobcache.c:63-94 | moving the head drops the oldest cell |
| `JobProtocol.PushKeepsNoLostPop` | src/jobcache/jobcache.c:47-61 | after a push, either no consumer sleeps unsignalled or the queue is no longer than the signalled consumers |
| `JobProtocol.PopKeepsNoLostPush` | src/jobcache/jobcache.c:63-94 | the mirror image for producers and free slots after a pop |
| `JobProtocol.StepKeepsInv` | src/jobcache/jobcache.c:47-94 | every step of every thread keeps order, conservation, ticket identity and both wakeup invariants |
| `JobProtocol.RunKeepsInv` | src/jobcache/jobcache.c:19-94 | the invariant holds in every state of every run, spurious wakeups and timeouts included |
| `JobProtocol.FifoOverRuns` | src/jobcache/jobcache.c:19-94 | at any time the jobs pushed are, in order, the jobs popped and then the queue, within capacity |
| `JobProtocol.NoStall` | src/jobcache/jobcache.c:47-94 | if all threads inside the cache sleep, the queue is empty and only consumers sleep, or it is full and only producers do |
| `JobProtocol.SleeperIsCovered` | src/jobcache/jobcache.c:63-94 | a consumer sleeps beside a nonempty queue only if a signalled one can take a job at once |
| `JobProtocol.ExpireWokenBreaks` | src/jobcache/jobcache.c:75-81 | one step: when a timeout that swallows a signal costs the wakeup guarantee |
| `JobProtocol.ExpireWokenLosesWakeup` | src/jobcache/jobcache.c:63-94 | a concrete run in which such a timeout leaves a job queued, a consumer asleep and nobody on the way |
| `JobProtocol.LooseRunKeeps` | src/jobcache/jobcache.c:47-94 | in every run with any number of such timeouts, order, conservation and the producers' guarantee hold, and a consumer sleeps beside at most as many jobs as signalled consumers plus signals swallowed so far |
| `JobProtocol.UntimedRunsAreSafe` | src/jobcache/jobcache.c:66-68 | a run without timed pops swallows nothing and has the full guarantee |
| `JobCalls.CallsAreServed` | src/jobcache/jobcache.c:47-94 | in every run, told from the calls: a push returns only with its own job in the queue, a pop with a ticket or empty-handed; only a poll or a timed pop ever comes back empty-handed, and only a timed one times out |
| `JobCalls.SectionDecides` | src/jobcache/jobcache.c:47-94 | a push sleeps iff the ring is full and else adds its job behind the queue; a pop takes the job at the front iff there is one and else comes back empty-handed iff it polls |
| `JobServiceInv.CallbackFindsOwner` | src/gateway/gateway.c:385-396 | the context a callback writes is alive and belongs to the thread that expects this very ticket |
| `JobServiceInv.SignalReachesOwner` | src/gateway/gateway.c:385-396 | the only sleeper on a context is its owner, so the callback's signal reaches it |
| `JobServiceRuns.RunKeeps` | src/jobcache/jobworker.c:66-199 | the invariants of pool, workers and gateway threads hold in every state of every run, timeouts that swallow a signal included |
| `JobServiceRuns.MissedSignals` | src/jobcache/jobworker.c:66-98 | over every run of the pool a worker sleeps beside at most as many jobs as signalled workers plus signals swallowed so far, and the producers' side is exact |
| `JobServiceRuns.AnswerIsOwn` | src/gateway/gateway.c:385-396 | a gateway thread past its wait loop holds, word for word, the text dispatch produced for the job it pushed itself |
| `JobServiceRuns.ReplyKeepsText` | src/gateway/gateway.c:385-396 | the callback keeps a text that fits, cuts a longer one, leaves nothing for an empty success, and for an empty failure writes `error=` and a number that reads back as the error |
| `JobServiceRuns.FailureHasText` | src/jobcache/jobworker.c:100-145 | dispatch never fails without a text |
| `JobServiceRuns.AnswerByKind` | src/jobcache/jobworker.c:100-145 | an answered ping holds pong, a webhook ok, an unknown kind its complaint, a cron job without command nothing, one with a command exit= and a number |
| `JobServiceRuns.SleepingWaiterIsServed` | src/gateway/gateway.c:558-562 | the job of a waiting gateway thread is queued or held by a worker |
| `JobServiceRuns.CallbacksFindLiveContexts` | src/gateway/gateway.c:385-396 | no callback writes through a context whose owner is gone |
| `JobServiceRuns.DispatchedOnce` | src/jobcache/jobworker.c:66-98 | no accepted job is dispatched twice |
| `JobServiceRuns.CalledBackOnce` | src/jobcache/jobworker.c:100-145 | no callback runs twice for one job |
| `JobServiceRuns.HolderPoppedIt` | src/jobcache/jobworker.c:66-98 | the worker that works on a job is the one whose own pop took it |
| `JobServiceRuns.StopWaitsForAll` | src/jobcache/jobworker.c:189-199 | stop returns only when every worker thread ever created has ended |
| `JobServiceRuns.WorkerCountBounded` | src/jobcache/jobworker.c:147-187 | the worker count never exceeds the maximum, and every live worker is on the list |
| `JobServiceRuns.StopConserves` | src/jobcache/jobworker.c:189-199 | after a stop, accepted jobs = answered jobs + queued jobs |
| `JobServiceRuns.StrandedExactlyWhenQueued` | src/gateway/gateway.c:558-562 | after a stop, the gateway threads left waiting are exactly those whose job is still queued |
| `JobPool.WorkerCountExact` | src/jobcache/jobworker.c:147-199 | between a start and the return of its stop, the worker count is the number of threads created since that start, within the maximum, and while the pool runs these are exactly the live workers |
| `JobPool.FailedStartLeaves` | src/jobcache/jobworker.c:170-187 | after a start whose scaler cannot be created the live workers are exactly those created, so one is left iff a creation succeeded |
| `JobPool.FailedStartHappens` | src/jobcache/jobworker.c:170-187 | both cases occur |
| `JobScale.GrowsOnlyUnderLoad` | src/jobcache/jobworker.c:147-168 | in every run the scaler adds one worker at a time, below the maximum, and only if its last measurement, with no scaler step since, found at least the threshold queued |
| `JobScale.StartCreatesMinimum` | src/jobcache/jobworker.c:170-187 | between a start and its stop there are at most the minimum of workers plus those the scaler added since |
| `JobScale.CanGrow` | src/jobcache/jobworker.c:147-168 | in every reachable state of a pool that is up, with the threshold reached and room below the maximum, the pool can grow by a worker, wherever its scaler is |
| `JobProgress.WaiterReads` | src/gateway/gateway.c:558-562 | a waiter whose ticket was answered can read its answer |
| `JobProgress.HolderAnswers` | src/jobcache/jobworker.c:66-98 | a waiter whose ticket a worker holds can be answered |
| `JobProgress.QueueIsServed` | src/jobcache/jobworker.c:66-98 | a waiter whose ticket is queued can be answered, through all jobs before it; a sleeping worker gets there by its deadline and the next loop test |
| `JobProgress.WaiterCanBeAnswered` | src/jobcache/jobworker.c:66-98 | in every state of every run with a running pool and a worker, swallowed signals included, every waiting thread has a continuation without spurious wakeups in which it holds its own answer |
| `JobStop.StopCanReturn` | src/jobcache/jobworker.c:189-199 | from every reachable state in which a stop waits there is a continuation without spurious wakeups in which it returns |
| `Cron.NextRunIsAhead` | src/cron/cron.c:150-183 | the next run is strictly ahead, in the following period, at most an hour away, on a period boundary |
| `Cron.CalculateNextRun` | src/cron/cron.c:150-183 | the token loop computes the next run that `CronExpr.NextRunByFields` tells from the fields |
| `CronExpr.TokensAreFields` | src/cron/cron.c:150-165 | whatever blanks stand before, between and behind them, the tokens are exactly the fields |
| `CronExpr.NextRunByFields` | src/cron/cron.c:150-183 | for any fields: with five or more the next run is the next hour boundary iff the second, cut to 31 characters, is no lone star and reads as 0 to 23, else the next minute boundary; with fewer it is a minute away |
| `CronExpr.OnlyTheHourMatters` | src/cron/cron.c:172-182 | two expressions of five or more fields with the same second field have the same next runs, whatever the others say |
| `CronExpr.HoursAre` | src/cron/cron.c:175-178 | a number names an hour iff it is at most 23, and a lone star does not |
| `CText.AtoiReads` | src/cron/cron.c:175-178 | a number is read behind white space and up to the first character that is no digit |
| `CronFile.SaveTasks` | src/cron/cron.c:67-102 | the file printed is the specified text |
| `CronFile.LineIs` | src/cron/cron.c:67-102 | a task's line is its eight fields in the order id, expression, command, flag, last run, next run, runs, failures, joined by bars |
| `CronFile.LoadTasks` | src/cron/cron.c:104-148 | the line loop computes the specified table |
| `CronFile.RefreshedIs` | src/cron/cron.c:104-148 | an overdue next run is moved strictly ahead on loading, any other is kept, and nothing else changes |
| `CronFile.LineRoundTripIff` | src/cron/cron.c:67-148 | a printed line parses back to its task, moved ahead if overdue, exactly when id, expression and command are nonempty and hold no bar |
| `CronFile.PipeIsCut` | src/cron/cron.c:114-143 | a command with a bar comes back cut at its first bar, under the same id and expression, and enabled iff the next text behind the bar reads as 1; with only bars behind it the flag is kept |
| `CronFile.FileRoundTrip` | src/cron/cron.c:67-148 | loading a saved file of tasks with clean fields that are no comments gives back every task in order, overdue ones moved ahead |
| `CronRestart.FileRecovers` | src/cron/cron.c:67-148 | of any table without line ends, a restart gives back in order what each line reads as, and nothing for an id that starts with # |
| `CronRestart.FileRoundTripIff` | src/cron/cron.c:67-148 | such a table comes back whole iff no text field is empty or holds a bar and no id starts with # |
| `CronRestart.LoadedAreReadable` | src/cron/cron.c:104-148 | whatever a file holds, loaded tasks have nonempty fields without bars, and a line end only at a command of a task without flag and history |
| `CronRestart.LineEndIsLost` | src/cron/cron.c:67-148 | no table survives that holds a line end in an id, an expression, or the command of a task that is enabled or has run |
| `CronSched.ApplyKeeps` | src/cron/cron.c:185-360 | every operation keeps the table, the file and the distance between past dispatches and the next run |
| `CronSched.RunKeepsInv` | src/cron/cron.c:44-360 | so does every run, restarts included |
| `CronSched.OncePerPeriod` | src/cron/cron.c:269-313 | by clock reading, no two dispatches of a task fall into the same minute or hour bucket, over any run with adds, removes, enables and restarts; explicit runs are not counted |
| `CronSched.DispatchRate` | src/cron/cron.c:269-313 | by clock reading, a task that is only ever added with one periodic expression is dispatched at most T / interval + 2 times in T seconds, over any run |
| `CronDelay.RunIsDelayed` | src/cron/cron.c:269-313 | whatever a push or an earlier command delays, a dispatch takes effect after its own reading and before the reading that decides the task's next one |
| `CronDelay.SharesPeriodIff` | src/cron/cron.c:269-313 | two dispatches of a task take effect in one period iff the earlier took effect in the period of the later one's reading and effect |
| `CronDelay.PromptOncePerPeriod` | src/cron/cron.c:269-313 | none do if the earlier takes effect within the period of its reading |
| `CronDelay.EffectRate` | src/cron/cron.c:269-313 | at most T / interval + 3 dispatches of a task take effect in T seconds, over every run and all delays |
| `CronDelay.DelaysBunch` | src/jobcache/jobcache.c:47-61 | for every m a run in which one delayed push makes m + 3 dispatches take effect in 60 m + 20 seconds, two of them in one minute |
| `CronDelay.EveryMinute` | src/cron/cron.c:150-183 | five stars are such an expression |
| `CronSched.RestartRestores` | src/cron/cron.c:44-148 | a restart after any run brings back every saved task with its history |
| `CronTable.TableIs` | src/cron/cron.c:44-360 | over every run, restarts included, table and file hold exactly the tasks added and not removed since, in the order of their addition, at most 64 |
| `CronLife.TasksAreTold` | src/cron/cron.c:44-360 | over every run, restarts included, each task has the texts it was last added with, the flag it was last given, and since then as runs the number of its runs that ended well, as failures the number of the others, and the time of the last |
| `CronLife.SavedOrSame` | src/cron/cron.c:185-360 | a refused call changes nothing, any other but a restart leaves the table on disk as it is in memory |
| `CronService.TickDispatchesDue` | src/cron/cron.c:269-313 | a tick dispatches exactly the due tasks |
| `CronScheduler.DueInOrder` | src/cron/cron.c:269-313 | a tick dispatches each enabled task whose time has come once, in table order, and enqueues its command |
| `CronService.TickClears` | src/cron/cron.c:269-313 | after a tick no task is due at that time |
| `CronService.DueWithinTheHour` | src/cron/cron.c:269-313 | after any run an enabled task is dispatched by every tick an hour or more after the last call |
| `CronService.EnablingArms` | src/cron/cron.c:315-332 | an enabled task is scheduled anew, strictly ahead and within the hour, also one that was disabled |
| `CronService.AddingArms` | src/cron/cron.c:185-216 | so is an added one |
| `CronService.ArmedRuns` | src/cron/cron.c:269-313 | such a task is dispatched by a tick iff the tick is not before its next run |
| `CronService.DisablingIsQuiet` | src/cron/cron.c:315-332 | disabling leaves no enabled task of that id, in memory or in the file |
| `CronService.RemovingIsQuiet` | src/cron/cron.c:218-236 | so does removing |
| `CronService.SilencedStaysSilent` | src/cron/cron.c:67-360 | from then on no tick dispatches it, over any further run and any restarts through the file, until it is added or enabled anew |
| `CronScheduler.Scheduler.Find` | src/cron/cron.c:218-236 | the search loop finds the first task of that id |
| `CronScheduler.Scheduler.Add` | src/cron/cron.c:185-216 | new table and file as specified; accepted iff there is room and the id is new |
| `CronScheduler.Scheduler.ShiftDown` | src/cron/cron.c:218-236 | the in-place shift removes exactly one task |
| `CronScheduler.Scheduler.Remove` | src/cron/cron.c:218-236 | new table and file as specified; accepted iff the id is known |
| `CronScheduler.Scheduler.Enable` | src/cron/cron.c:315-332 | new table and file as specified; accepted iff the id is known |
| `CronScheduler.Scheduler.RunNow` | src/cron/cron.c:334-360 | new table and file as specified; accepted iff the id is known |
| `CronScheduler.Scheduler.DispatchDue` | src/cron/cron.c:269-313 | exactly the due tasks are run or enqueued, in table order, and moved ahead |
| `CronScheduler.Scheduler.RunPending` | src/cron/cron.c:269-313 | table, file and enqueued commands as specified |
| `CronScheduler.Scheduler.Init` | src/cron/cron.c:44-56 | the table becomes what the file says |
| `RateLimiter.Limiter.Cleanup` | src/util/util.c:576-592 | in-place compaction keeps exactly the entries of the last two windows, in order |
| `RateLimiter.Limiter.Check` | src/util/util.c:532-574 | verdict and table as specified by the table on values, whose verdicts `RateLimiterExact.TableVerdict` tells from the request times |
| `RateLimiter.StepRefines` | src/util/util.c:532-592 | one request on the table agrees with the unbounded map, cleanup or not |
| `RateLimiter.TableRefinesMap` | src/util/util.c:532-592 | on every trace that never fills the table with live entries, the verdicts are those of the unbounded map |
| `RateLimiter.FirstVerdict` | src/util/util.c:532-574 | the first verdicts agree exactly when the limit is positive |
| `RateLimiter.FullTableAdmitsAll` | src/util/util.c:532-574 | a table full of other live addresses passes every request |
| `RateLimiter.SlidingBound` | src/util/util.c:545-558 | in any span of one window an address is admitted at most twice the limit |
| `RateLimiter.TableSlidingBound` | src/util/util.c:545-558 | the same for the table itself |
| `RateLimiterExact.MapVerdict` | src/util/util.c:545-558 | for every trace the map passes a request iff at most `limit` requests of its address lie from the last opening up to it, a window opening at the first request and at the first more than `window` after the last opening |
| `RateLimiterExact.TableVerdict` | src/util/util.c:532-574 | so does the table from empty, on every trace in which each request finds its address live or fewer than 256 others live |
| `RateLimiterExact.OpeningPasses` | src/util/util.c:546-549 | a request that opens a window passes |
| `RateLimiterRoom.FloodSwitchesOff` | src/util/util.c:532-574 | from an empty table, one request each of any 256 other addresses makes every further request of a new address pass |
| `RateLimiterRoom.ManyAddresses` | src/util/util.c:532-574 | there are 256 such addresses |
| `RateLimiterRoom.NoRoomDisagrees` | src/util/util.c:532-592 | at a request without room, `limit` more of the same address tell the table from the map |
| `RateLimiterRoom.RoomIsExact` | src/util/util.c:532-592 | after any trace with room throughout, an address has room iff no number of its requests tells the table from the map |
| `BucketLimiter.Monitor.Check` | src/security/security_monitor.c:189-210 | only the hashed bucket changes, as specified, and the verdict compares its count with the limit |
| `BucketLimiter.BetweenResets` | src/security/security_monitor.c:189-210 | between two resets of a bucket at most the limit passes |
| `BucketLimiter.SlidingBound` | src/security/security_monitor.c:189-210 | alone in its bucket an address passes at most twice the limit in any window-long span |
| `BucketLimiter.BucketSeesOnlyItsOwn` | src/security/security_monitor.c:66-73 | addresses of other buckets make no difference |
| `BucketLimiter.MonitorSlidingBound` | src/security/security_monitor.c:189-210 | the bound for a fresh monitor under any trace without colliders |
| `BucketLimiter.HashIsPolynomial` | src/security/security_monitor.c:66-73 | the bucket is the base-31 polynomial of the address modulo 256, without regard to the 32-bit wrap-around |
| `BucketLimiter.VerdictIsExact` | src/security/security_monitor.c:189-210 | without colliders a request passes iff it is among the first `limit` of its window, told from the times of the address alone |
| `BucketLimiter.PassesAgain` | src/security/security_monitor.c:189-210 | an address is served again as soon as its window is over |
| `BucketLimiter.AddressesCollide` | src/security/security_monitor.c:66-73 | addresses that differ in a final 11 and 99 always share a bucket |
| `BucketLimiter.CollidersNeverLimited` | src/security/security_monitor.c:189-210 | two addresses taking turns in one bucket always pass |
| `BucketLimiter.SharedBucket` | src/security/security_monitor.c:189-210 | two addresses of one bucket pass together as often as that bucket lets pass |
| `BucketLimiter.CollidersEvade` | src/security/security_monitor.c:189-210 | on a fresh monitor, any two addresses of one bucket that take turns pass every one of any number of requests within one second |
| `BucketLimiter.NeighboursEvade` | src/security/security_monitor.c:66-73 | so do any prefix ended by 11 and by 99 |
| `BucketLimiter.HeldIffApart` | src/security/security_monitor.c:66-210 | beside another address, an address is held to twice the limit per window in every trace of the two iff they hash to different buckets |
| `LoopGuard.Guard.Reset` | src/loop_guard/loop_guard.c:14-18 | a fresh guard with no history |
| `LoopGuard.Guard.IsPingPong` | src/loop_guard/loop_guard.c:20-32 | true exactly when the last two names differ and the last n - 5 alternate |
| `LoopGuard.Guard.SameToolRepeated` | src/loop_guard/loop_guard.c:34-41 | true exactly when the last five names are equal |
| `LoopGuard.Guard.Record` | src/loop_guard/loop_guard.c:43-51 | the shifted array holds the last sixteen names of the whole history |
| `LoopGuard.Guard.Check` | src/loop_guard/loop_guard.c:43-63 | trips exactly by the rule, with the reason that applies, and stays tripped and unchanged until reset |
| `LoopGuard.TripsIff` | src/loop_guard/loop_guard.c:20-63 | told from all calls since the reset, a call trips iff it is the fifth in a row under one name, or at least the sixth, differs from the one before, and the last min(n, 16) - 5 repeat with period two |
| `LoopGuard.ReasonIs` | src/loop_guard/loop_guard.c:43-63 | the reason names the repeated tool if the last two calls agree, else the last two in the order of their calls |
| `LoopGuard.NeverFiveInARow` | src/loop_guard/loop_guard.c:43-63 | calls let through never hold five equal in a row, however long the run |
| `LoopGuard.NeverElevenAlternating` | src/loop_guard/loop_guard.c:43-63 | nor eleven alternating in a row |
| `LoopGuard.HeaderRuleCovered` | include/loop_guard.h:13-15 | up to eleven calls the guard trips wherever the header says |
| `LoopGuard.HeaderRuleImplied` | include/loop_guard.h:13-15 | from eleven calls on a ping-pong trip implies the header's rule |
| `LoopGuard.EarlyTrip` | src/loop_guard/loop_guard.c:20-32 | at six and seven calls the guard trips iff the last two differ or the last five agree |
| `LoopGuard.LongRunsRepeat` | src/loop_guard/loop_guard.c:20-32 | a run of seven or more repeated its fifth call twice |
| `LoopGuard.HeaderRuleMissed` | include/loop_guard.h:13-15 | at every length from twelve on, a run that ends in six alternating calls and was let through |
| `LoopGuard.WaltzPasses` | src/loop_guard/loop_guard.c:43-63 | three calls of one tool and one of another, over and over, are let through without end |
| `GuardSharing.Play` | src/loop_guard/loop_guard.c:9-63 | the guard itself under any schedule of resets and checks by any turns is the specified record |
| `GuardSharing.SharedNeverLoops` | src/loop_guard/loop_guard.c:9-63 | under any schedule, the calls let through since the last reset satisfy the guard's rule at every point |
| `GuardSharing.SharedBounds` | src/loop_guard/loop_guard.c:9-63 | so they hold no five in a row and no eleven alternating |
| `GuardSharing.UndisturbedTurnNeverLoops` | src/agent/agent.c:711-768 | a turn keeps that bound whenever no other turn's event and no reset falls between its first and last call |
| `GuardSharing.ResetsBreakTheBound` | src/loop_guard/loop_guard.c:14-18 | with another turn's resets in between, a turn gets 4 k equal calls through in a row, for every k |
| `GuardSharing.CallsBreakTheBound` | src/loop_guard/loop_guard.c:43-63 | with another turn's calls in between and no reset, a turn gets all of its equal calls through, for every number |
| `GuardSharing.TheBoundIsBroken` | src/loop_guard/loop_guard.c:9-63 | in both ways five equal calls in a row are let through |
| `AgentHistory.CopySystems` | src/agent/agent.c:226-252 | the first copy loop keeps the system messages in order |
| `AgentHistory.CopyRecent` | src/agent/agent.c:254-260 | the second copy loop keeps the newest others, newest first |
| `AgentHistory.TrimHistory` | src/agent/agent.c:223-269 | trimming as specified |
| `AgentHistory.TrimmedKeeps` | src/agent/agent.c:223-269 | all system messages in order; at most fifty others; when cut, exactly the last twenty, newest first |
| `AgentHistory.TrimKeepsChronicle` | src/agent/agent.c:223-269 | against the log of all messages, the others stay a final stretch with a reversed front |
| `AgentHistory.KeptAreNewest` | src/agent/agent.c:223-269 | the messages kept are, as a multiset, the newest ever added |
| `AgentLoop.Agent.AddMessage` | src/providers/providers.c:337-348 | one message more, cut to the size of a message |
| `AgentLoop.Agent.RunCall` | src/agent/agent.c:759-785 | a call runs exactly if the guard's verdict on it is to pass, and leaves its tool message |
| `AgentLoop.Agent.RunCalls` | src/agent/agent.c:759-785 | the calls of a reply run in order up to the one that is refused |
| `AgentLoop.Agent.RunReply` | src/agent/agent.c:756-790 | a reply whose calls all ran leaves at most fifty non-system messages; otherwise the turn ends at the refused call |
| `AgentLoop.Agent.Iterate` | src/agent/agent.c:711-809 | for every provider, tool and verdicts the loop ends as `Turn` says, with the messages and the response that go with it |
| `AgentLoop.Agent.Think` | src/agent/agent.c:662-809 | the same for the whole turn: replies used, tools run, messages added, response; whatever the guard says, at most 50 replies and 800 tool runs |
| `AgentLoop.ExecutedIsPrefix` | src/agent/agent.c:711-809 | the tools run are the first ones the replies ask for |
| `AgentLoop.TurnIsDetermined` | src/agent/agent.c:711-809 | the replies and the guard's verdicts fix how many replies are used, which tools run and how the turn ends |
| `AgentLoop.TurnExists` | src/agent/agent.c:711-809 | for all replies and verdicts there is such a turn |
| `AgentTranscript.TurnReads` | src/agent/agent.c:715-809 | a turn stops at its first reply without content or without calls, at the first refused call, or after the fiftieth reply; how many tools it ran, told from the sizes of the replies |
| `AgentTranscript.RunsInOrder` | src/agent/agent.c:741-785 | call c of reply j is run as number c behind all calls, at most sixteen a reply, of the replies before |
| `AgentTranscript.SaysRightly` | src/agent/agent.c:762-809 | the response is the last reply's text, the guard's report or the fixed error text |
| `AgentTranscript.TurnLogIs` | src/agent/agent.c:662-809 | a turn's messages: the user's, one per tool run in order, and the assistant's iff it answered |
| `AgentLoop.ToolMessageIs` | src/agent/agent.c:771-784 | a tool's message starts with its name and holds as much of its result as fits 8191 characters |
| `AgentLoop.Agent.Attend` | src/agent/agent.c:918-933 | one round is one turn; another may follow iff the turn succeeded and its response does not contain [TASK_COMPLETE] |
| `AgentLoop.Agent.RunTask` | src/agent/agent.c:869-938 | ends within the round limit, or five if none is set, idle and out of focus; each round is a whole turn from where the last stopped; a round is the last before the limit iff it fails or its response is a + [TASK_COMPLETE] + b for some a and b; reports the last round's code and response; uses at most 50 replies and 800 tool runs per allowed round |
| `AgentLoop.ContainsIs` | src/agent/agent.c:860-863 | the marker test is substring search: true iff the response is a + marker + b for some a and b, iff the marker stands at some position |
| `AgentTranscript.TaskLeaves` | src/agent/agent.c:662-938 | by role, a task adds its opening once and the continuation message for each further round, the results of all tools it ran, numbered through over the rounds, and the answers of the rounds that ended with one |
| `AgentLoop.RoundBounds` | src/agent/agent.c:918-933 | n rounds use at most 50 n replies and 800 n tool runs |
| `AgentGuard.Consult` | src/agent/agent.c:759-768 | the guard itself, after whatever other turns did to it, gives the specified verdict on the turn's next call |
| `AgentGuard.PutToGuard` | src/agent/agent.c:711-768 | reset and then asked call by call, with other turns in between, the guard passes the specified calls up to the first it refuses; its reason is read after that |
| `AgentGuard.TurnIsGuarded` | src/agent/agent.c:711-809 | with the guard behind the verdicts, a turn runs exactly the calls that the guard lets through, up to a refusal |
| `AgentGuard.SomeVerdicts` | src/loop_guard/loop_guard.c:9-63 | any interference gives some verdicts, for any replies |
| `AgentGuard.UndisturbedTurnNeverLoops` | src/agent/agent.c:711-809 | if no other turn uses the guard between a turn's first and last check, the turn's tools hold no five in a row and no eleven alternating |
| `AgentGuard.TurnAlone` | src/agent/agent.c:711-809 | with the guard to itself, a turn is fixed by the replies: its calls pass by the guard's rule on their own names, and it stops at the first that trips it |
| `AgentGuard.RestartsDefeatGuard` | src/agent/agent.c:711 | if another turn starts before each check, a provider that insists gets 800 equal calls in a row run |
| `MuninnRank.SurpassingScores` | src/muninn/muninn.c:182-188 | more confidence, no fewer accesses and no older means a strictly higher score |
| `MuninnRank.ScoresAsUse` | src/muninn/muninn.c:182-188 | at equal age and confidence, scores are as one plus the access counts |
| `MuninnRank.MoreUseScores` | src/muninn/muninn.c:182-188 | at equal age and equal positive confidence, more accesses means a strictly higher score |
| `MuninnRank.ScoresAsDecay` | src/muninn/muninn.c:182-188 | at equal use and confidence, scores are as the decays of the ages |
| `MuninnRank.FresherScores` | src/muninn/muninn.c:182-188 | and a larger decay factor means a strictly higher score |
| `MuninnRank.AgeIs` | src/muninn/muninn.c:182-188 | the age is the time since the last access, 0 for an engram never accessed |
| `MuninnRank.InsertAt` | src/muninn/muninn.c:244-253 | one pass of the in-place sort is the specified insertion and touches nothing else |
| `MuninnRank.SortScores` | src/muninn/muninn.c:244-253 | the in-place sort is the specified sort |
| `MuninnRank.SortedRanked` | src/muninn/muninn.c:244-253 | its result is in rank order: by score, ties in candidate order |
| `MuninnRank.SortedHas` | src/muninn/muninn.c:244-253 | and holds exactly what was sorted |
| `MuninnRank.ScoresAre` | src/muninn/muninn.c:223-242 | exactly the candidates of the asked vault are scored |
| `MuninnRank.RecallIsFromVault` | src/muninn/muninn.c:223-270 | results come from the candidates and the asked vault, no more than asked for |
| `MuninnRank.RecallIsRanked` | src/muninn/muninn.c:244-270 | results are in rank order |
| `MuninnRank.RecallIsDistinct` | src/muninn/muninn.c:255-270 | results are distinct |
| `MuninnRank.RecallLeavesNoneBetter` | src/muninn/muninn.c:255-270 | an unreturned candidate ranks below every result, and then the results are full |
| `MuninnRank.RecallRespectsDominance` | src/muninn/muninn.c:182-270 | a candidate that surpasses a result is returned before it |
| `MuninnRank.HigherScoreFirst` | src/muninn/muninn.c:223-270 | a candidate with a strictly higher score than a result is returned before it |
| `MuninnRank.MoreUsedFirst` | src/muninn/muninn.c:182-270 | so is one used more often, all else equal |
| `MuninnRank.FresherFirst` | src/muninn/muninn.c:182-270 | and one that has decayed less, all else equal |
| `MuninnRank.RecalledIff` | src/muninn/muninn.c:223-270 | a candidate of the vault is returned iff fewer than top_n candidates rank above it |
| `MuninnRank.ListedAre` | src/muninn/muninn.c:210-221 | the fallback query lists exactly current engrams of the vault |
| `MuninnRank.FallbackIsRecent` | src/muninn/muninn.c:210-221 | with a listing by last access and access count, what the fallback leaves out is no more recent than any of its candidates |
| `Muninn.CollectScores` | src/muninn/muninn.c:223-242 | the scoring loop fills the array with the specified scores |
| `Muninn.TouchReturned` | src/muninn/muninn.c:273-284 | the update loop touches the returned rows as specified |
| `Muninn.LinkReturned` | src/muninn/muninn.c:286-302 | the nested loop strengthens the links as specified |
| `Muninn.TouchAllEffect` | src/muninn/muninn.c:273-284 | exactly the returned engrams gain one access and the new time |
| `Muninn.RowsEffect` | src/muninn/muninn.c:286-302 | exactly the ordered pairs of distinct results are strengthened, once each |
| `Muninn.Store.Activate` | src/muninn/muninn.c:190-305 | state and results of an activation as specified |
| `Muninn.StepKeepsInv` | src/muninn/muninn.c:132-358 | every operation keeps the relation between tables and history |
| `Muninn.RunKeepsInv` | src/muninn/muninn.c:132-358 | so does every run |
| `Muninn.StepOnRow` | src/muninn/muninn.c:190-358 | a step changes an engram only so: a contradiction lowers confidence by min(0.1, confidence), a reinforcement raises it to at most 1, a recall or access counts one and sets the time, a deletion sets the state |
| `Muninn.WriteAdds` | src/muninn/muninn.c:132-160 | a new engram has the next id, confidence 0.8 and no access |
| `Muninn.HebbianTable` | src/muninn/muninn.c:286-302 | a link weighs min(1, 0.02 k) for k joint activations and is absent for k = 0; symmetric, irreflexive, within one vault |
| `Muninn.AccessCounts` | src/muninn/muninn.c:273-320 | access count = times returned + accesses recorded; confidence stays in [0, 1] |
| `Muninn.ReinforcedStays` | src/muninn/muninn.c:322-333 | a signed reinforcement keeps confidence in [0, 1] iff it does not overdraw it |
| `Muninn.ContradictionUndone` | src/muninn/muninn.c:322-345 | a reinforcement by 0.1 undoes a contradiction iff confidence was at least 0.1, and conversely iff it was at most 0.9 |
| `Muninn.DeletionIsIgnored` | src/muninn/muninn.c:223-242 | with text matches, soft deletion does not change what is recalled |
| `Muninn.FallbackRecallsCurrent` | src/muninn/muninn.c:210-221 | without text matches only engrams in state 0 or 4 are recalled |
| `Muninn.FallbackRecallsTop` | src/muninn/muninn.c:210-270 | with at most 256 current engrams in the vault, the fallback recalls exactly those of them with fewer than top_n of them ranked above |
| `Muninn.DeletedRecalledIff` | src/muninn/muninn.c:197-270 | a deleted engram is recalled iff it is in the asked vault, among the first 256 text matches, and fewer than top_n of those rank above it |
| `Audit.ComputeChainHash` | src/security/security.c:14-26 | the two loops compute the specified hash in 64-bit arithmetic |
| `Audit.UpperHalfIsFnv` | src/security/security.c:14-26 | the upper half is the 32-bit FNV-1a hash of the text |
| `Audit.HashTextInjective` | src/security/security.c:191 | the sixteen hexadecimal digits determine the hash |
| `Audit.KnownHash` | src/security/security.c:14-26 | the hash of abcd is CE3479BD9CB3F4E2, whose upper half is the published FNV-1a value |
| `Audit.NewEntryIs` | src/security/security.c:173-191 | what is hashed for a new entry is link, action, target, time in decimal and verdict, the link being the last hash or 0 |
| `Audit.LoggedKeepsChain` | src/security/security.c:165-196 | a new entry keeps every link and every seal, also when the log slides |
| `Audit.AuditLog.Slide` | src/security/security.c:168-171 | the in-place shift drops the oldest entry of a full log |
| `Audit.AuditLog.Log` | src/security/security.c:165-196 | called by one thread at a time, the log is chained and is the last thousand of everything logged since the last clear |
| `Audit.AuditLog.Clear` | src/security/security.c:208-212 | an empty chain |
| `AuditRace.SingleKeepsChain` | src/security/security.c:165-212 | with calls as steps of threads, the log is a chain at every point of every run in which no call and no clear falls into another call |
| `AuditRace.CallLogs` | src/security/security.c:165-196 | the three steps of a call by itself log its entry as specified |
| `AuditRace.ChainIffNoOverlap` | src/security/security.c:165-196 | after up to a thousand calls without a clear, all over, the log is a chain iff no two of them overlapped |
| `AuditRace.RaceLeavesGap` | src/security/security.c:165-196 | two overlapping calls leave only the second one's entry and raise the count by two, past a slot neither wrote, also past the end |
| `AuditRace.RaceBreaksChain` | src/security/security.c:10-11 | from program start on, two overlapping first calls leave no chain |
| `Audit.PayloadFits` | src/security/security.c:187-190 | no payload is ever cut |
| `Audit.LastHashPinsLog` | src/security/security.c:181-191 | absent collisions, two logs of one length with the same last hash agree in payload and hash at every position |
| `Audit.PayloadFixesFields` | src/security/security.c:187-190 | payloads agree iff link, verdict and the concatenation of the fields do |
| `Audit.FieldsAreNotPinned` | src/security/security.c:187-190 | after any log, two different entries with the same hash |
| `Monitor.EventRing.Push` | src/runtime_monitor/runtime_monitor.c:47-61 | the ring holds the last 32 events, though the slot is chosen before the eviction |
| `Monitor.EventRing.GetRecent` | src/runtime_monitor/runtime_monitor.c:181-192 | the last min(n, 32, max) events, newest first |
| `Monitor.ConnectionMonitor.FindOldest` | src/runtime_monitor/runtime_monitor.c:142-147 | the first bucket seen longest ago |
| `Monitor.ConnectionMonitor.Connection` | src/runtime_monitor/runtime_monitor.c:111-153 | buckets and reported probes as specified |
| `Monitor.ProbeEvery25` | src/runtime_monitor/runtime_monitor.c:111-153 | an address that connects k times without a gap over a minute and is not evicted raises exactly floor(k / 25) probes, whatever others do |
| `Monitor.ProbesAreStreaks` | src/runtime_monitor/runtime_monitor.c:111-153 | the exact probes of an address that is not evicted, for any times: one for each twenty-five connections without a gap over a minute, counted anew after each probe and each gap |
| `Monitor.NewcomerTakes` | src/runtime_monitor/runtime_monitor.c:135-151 | a new address takes a free bucket, or at 64 that of the address seen longest ago, the first of several, and reports nothing |
| `Monitor.RoomMeansStays` | src/runtime_monitor/runtime_monitor.c:135-151 | nobody is evicted while fewer than 64 addresses are known |
| `WsFrame.BuildFrame` | src/gateway/gateway.c:817-838 | the buffer holds the specified frame |
| `WsFrame.ParseFrame` | src/gateway/gateway.c:769-815 | the parser computes the specified result |
| `WsFrame.MaskUndone` | src/gateway/gateway.c:804-810 | masking twice with one key gives the payload back |
| `WsFrame.XorByteBits` | src/gateway/gateway.c:804-810 | the mask works bit by bit |
| `WsFrame.ParsesStandard` | src/gateway/gateway.c:769-815 | every frame of section 5.2 of RFC 6455 below 2^63 bytes parses to its FIN, kind and unmasked payload, whatever follows it |
| `WsFrame.NoPrefixParses` | src/gateway/gateway.c:769-815 | no strict prefix of such a frame parses |
| `WsFrame.RoundTrip` | src/gateway/gateway.c:769-838 | parsing a built frame gives the message back iff it is below 65536 bytes or its length reads the same in both byte orders |
| `WsFrame.LongBuildParses` | src/gateway/gateway.c:817-838 | what the parser makes of a built frame with a 64-bit length |
| `WsFrame.LongBuildRejected` | src/gateway/gateway.c:817-838 | built frames from 65536 bytes up to 2^32 are rejected |
| `Escape.UrlEncode` | src/util/util.c:331-346 | the buffer holds the pieces of the characters taken, none split |
| `Escape.UrlDecode` | src/util/util.c:348-367 | the buffer holds the specified decoding |
| `Escape.UrlRoundTrip` | src/util/util.c:331-367 | decoding the encoding gives the prefix that was taken and fits |
| `Escape.UrlRoundTripWhole` | src/util/util.c:331-367 | it gives everything iff neither buffer runs out |
| `Escape.UrlPieceIs` | src/util/util.c:331-346 | a character stays as it is iff it is a letter, a digit or one of - _ . ~, and else becomes three starting with % |
| `Escape.DecodeOther` | src/util/util.c:348-367 | a plus decodes to a blank, a percent sign without two characters behind it and any other character to itself |
| `Escape.PairIs` | src/util/util.c:348-367 | what two characters behind a percent sign decode to, hexadecimal or not |
| `Escape.JsonEscape` | src/gateway/gateway.c:168-185 | the buffer holds the pieces of the characters taken, none split |
| `Escape.JsonParse` | src/util/util.c:134-159 | the buffer holds the specified text and the rest is where the parser stopped |
| `Escape.JsonRoundTrip` | src/util/util.c:134-159 | parsing the quoted escaped text gives the prefix that was taken and fits, and ends behind the quote |
| `Escape.JsonRoundTripWhole` | src/gateway/gateway.c:168-185 | it gives everything iff neither buffer runs out |
| `Escape.BodyEscape` | src/util/util.c:134-159 | n, r and t behind a backslash stand for controls, any other character for itself |
| `Escape.TakesAll` | src/gateway/gateway.c:168-185 | an encoder takes everything iff there is room before the last character |
| `Escape.ControlsLeft` | src/gateway/gateway.c:168-185 | the escaped text has a control character iff the source has one other than a line end |
| `Split.FindBreak` | src/channels/channels.c:179-181 | the backward search ends behind the last blank |
| `Split.Send` | src/channels/channels.c:173-214 | messages go out in order up to the first that is refused; all of the text iff none is |
| `Split.ChunksAreWhole` | src/channels/channels.c:231-275 | messages are nonempty, within the limit and together the text |
| `Split.BreaksAtBlanks` | src/channels/channels.c:173-184 | every message but the last ends in a blank or is a blank-free run of full length |
| `Split.ServiceLimits` | src/channels/channels.c:173-340 | no message is longer than 4096, 2000 or 3000 characters |
| `Split.OneMessage` | src/channels/channels.c:231-242 | when a text within the limit is sent as one message |
| `Split.FullMessage` | src/channels/channels.c:175-187 | when a message has exactly the length of the limit |
| `Split.ChunkText` | src/memory/memory.c:684-730 | the chunks tile a prefix of the text, within size and plan, as far as specified |
| `Split.NearBreakIsLastSpace` | src/memory/memory.c:710-718 | a chunk breaks behind the last space among its last twenty characters, if any |
| `Split.TilesArePrefix` | src/memory/memory.c:701-727 | the chunks put together are that prefix |
| `Split.ChunkingLosesLittle` | src/memory/memory.c:692-727 | at most 19 characters are lost per planned chunk |
| `Split.NothingLostIff` | src/memory/memory.c:692-727 | for every text, nothing is lost iff the breaks of the planned chunks but the last give back no more than the plan has to spare and the rest is taken whole |
| `Split.ShortTextLosesLastWord` | src/memory/memory.c:692-727 | a text of one chunk is kept whole iff it ends in a space or has none among its last twenty characters; otherwise all behind its last space is lost |
| `Split.PlanCoversIff` | src/memory/memory.c:692-727 | nothing is lost iff the plan has as many chunks as a chunker without a plan would cut |
| `Split.SpacelessLosesNothing` | src/memory/memory.c:692-727 | a text without spaces loses nothing |
| `Split.RagChunkText` | src/rag/rag.c:80-103 | at most ten chunks, chunk k starting k strides in, ending for every size |
| `Split.RagCovers` | src/rag/rag.c:80-103 | together they hold exactly the first min(length, c + 9 stride) characters, the stride being c - 50 for c > 50 and c otherwise |

## Left out

- Process, shell, device and file plumbing (tools, runtime, tunnel, peripherals, hardware, service, skills): foreign calls around little logic.
- HTTP clients and the wire format of providers and channels; what a provider replies is arbitrary.
- XML dispatch: the calls of a reply are given as the dispatcher reads them, and tool messages have the native form.
- SQLite, full-text search and embeddings: the visible SQL effects are map updates, and the two candidate queries are parameters.
- The JSON object and array parser, base64, the HMACs and the WebSocket handshake, for which no round trip or standard holds.
- Injection, path and URL filters, approvals, sandboxes, pairing: single-branch pattern lists.
- Command line, health, logging and cost reporting: they would only add easy members.
- Floating point: confidences, weights and scores are reals, and the exponential decay is any positive antitone function.
- GuardSharing.Play, AgentGuard.PutToGuard: two checks that overlap within one call; each reset and each check is one step.
- CronFile.LineRoundTripIff, CronRestart.FileRoundTripIff: line ends in a field; `CronRestart.LineEndIsLost` covers them but for the command of a disabled task that never ran.
- JobServiceRuns.AnswerByKind: what the agent and the shell produce is arbitrary, so the prefix by which a payload chooses between chat and task is not modelled.
- Destroying a ring or a pool while threads are inside it, and restarting a pool after a failed start.
- JobProtocol.RunKeepsInv, JobProtocol.NoStall, JobProtocol.SleeperIsCovered: take the timeout of a wait to leave an unsignalled waiter; `JobProtocol.LooseRunKeeps` and the job service are about the other reading as well.
- AuditRace.ChainIffNoOverlap: a log that has slid or was cleared may hold old entries where a race left a gap; only `AuditRace.SingleKeepsChain` covers it. Steps within the filling of a slot are not interleaved.
- Scaling down: the pool's idle-cycle setting is stored by the source and never used.
- AgentLoop.Agent.Think: memory lookup and runtime alerts that may be put before the user's message; the message is taken as composed. The texts of the three error replies are parameters.
- AgentLoop.Agent.RunTask: the text retrieved from the index before the first round, for the same reason.
- Machine bounds on counters that a run does not reach: access counts and task counters are unbounded, and the
  bucket limiter's bounds are for fewer than 2^32 requests.
- WsFrame.ParseFrame: the length test is done without 64-bit wrap-around, which matters for announced lengths within 14 of 2^64; writing the terminator behind a payload longer than the buffer is not modelled.
- Escape.UrlEncode: buffers under four bytes, where the source's limit wraps around.
- Monitor.ConnectionMonitor.Connection: two threads connecting at once; the source releases its lock while it reports a probe.
- Split.Send: the JSON wrapping of a message, the continuation mark, and the terminator that a message of exactly the limit writes behind its buffer; `Split.FullMessage` says when that is.
- Split.ChunkText, Split.RagChunkText: the fixed size of a chunk's buffer.
