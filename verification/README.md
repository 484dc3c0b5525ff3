# A verified model of the agent runtime

The repository is a Go agent runtime: sessions whose messages are answered by tasks on a lane queue, a scheduler,
a gateway to chat platforms, a registry of tool servers, approvals, and a binary that restarts itself without
closing its listener. This project models the parts of it that carry hard promises and proves those promises with
Dafny 4.11. `dafny verify dfyconfig.toml` checks everything.

| file | what it models |
|---|---|
| LaneQueue, LaneRuns, Lanes | the lane queue: goroutines, channels, the token pool and Close as a step system; what the actions of a run tell; the same actions on fields updated in place |
| Recovery | message transcripts, the crash-and-recover cycle, and the engine on top of the lane queue |
| Handoff, HandoffRuns | the three-process restart over an inherited listener, with its ready, drain and pid files; what the steps of a run tell |
| CronField, Calendar, Cron, Scheduler | cron fields with 64-bit counters, the Gregorian calendar, the search for the next run, the tick |
| CronSyntax, CronTexts | the grammar of cron expressions and what they are parsed to |
| DueTimes | when a job is due, and what is stored when it is made or edited |
| RateLimiter, Dedupe | token buckets on three levels, the idle sweep; a cache of keys with expiry times |
| EventHub | a bounded replay log with live fan-out to bounded channels |
| FirstOfEach, Registry, RegistrySave | filtering, merging and saving tool servers |
| McpFraming, McpSessions | reading and writing length-framed messages; streams that are cut and bare lines |
| Pieces, Stream, GatewaySplit, ContentAdapter | cutting long texts |
| SemVer, SemVerTexts | versions, constraints and the choice of a skill; what the texts of constraints accept |
| Approval, ApprovalRuns | the lifecycle of approval requests, and when a request is granted |
| Pbkdf2 | key derivation against section 5.2 of RFC 8018 |
| Text, Arithmetic, Sorting | the functions of Go's standard library that the rest calls, and shared facts |

Texts are sequences of bytes, one `char` each. Instants are integers, or reals where the code computes in floating
point. Clocks, random ids, the outcome of I/O and the interleaving of processes are parameters or steps.

## Where the code keeps less than it seems to promise

- A stepped range with a step near 2^63 wraps its counter and selects values below its start
  (`CronField.SelectsWhatItDenotes` gives the exact condition, `CronField.HugeStepSelectsTooMuch` an instance,
  `CronTexts.HugeStepField` its text).
- Recovery reads at most 10000 messages, the oldest ones: `Recovery.ListedPendingIsRight` says exactly when that finds
  the right messages, `Recovery.RunIsSoundExactly` and `Recovery.AllAnsweredExactly` what it means for runs. It misses
  an open message behind 5000 answered ones (`Recovery.RecoveryMissesLateMessages`) and has a message answered twice
  whose reply is message 10001 (`Recovery.RecoveryRepeatsLateReplies`).
- Recovery pairs replies with user messages by their number alone. After a task that failed it collects the right messages
  if and only if no later task of the session had replied (`Recovery.CollectsUnansweredExactly`); otherwise an answered
  message is answered again and the failed one forgotten (`Recovery.FailedTaskIsForgotten`).
- Recovery starts 300 ms after the process: next to tasks of messages that came in by then, and in a handoff next to the
  parent, which still answers. Messages that are being answered when it reads them are answered twice
  (`Recovery.OverlapAnswersOnceExactly`).
- From the moment the child of a handoff writes the pid file until it serves, and for good if it fails in between, the
  serving parent has no entry, so that a third process could start (`Handoff.EntryNamesServingExactly`,
  `Handoff.FailedHandoffLosesTheEntry`). If a stale drain file of the child's pid cannot be removed, both can come to
  drain (`Handoff.StaleFileDrainsBoth`).
- The scheduler remembers the last trigger in memory only: after a restart a due time can be enqueued again if and only if
  the job has no successor for it (`Scheduler.RepeatedExactly`).
- Editing a job changes its schedule but, if it has a stored next run, neither checks the new schedule nor recomputes that
  run: the job is due once more at the old time (`DueTimes.EditTakesEffectExactly`, `DueTimes.EditKeepsTheStoredRun`).
- An "every" job without a stored next run is due only at a tick that meets an instant of its phase to the nanosecond
  (`DueTimes.FirstDueOfEvery`); the API stores a next run with every job it makes.
- The search for a cron job's next run looks five years ahead. Where it finds nothing, a job without a stored next run
  can skip matching minutes (`Scheduler.NoneSkippedExactly`, `Scheduler.LeapMondayIsSkipped` for "0 0 29 2 1") and a
  job with one is enqueued for no later time (`Scheduler.StoredRunIsFollowedExactly`).
- Dropping idle buckets cannot be observed from an age of 60 seconds on, and can below
  (`RateLimiter.CleanupIsUnobservableFrom60`); below it the limits are not kept either (`RateLimiter.RatesHoldFrom60`).
- A call refused at one level has already taken a token from the levels before it (`RateLimiter.GrantedExactly`).
- Mark can bring a key's expiry forward, so that two accepted calls of Seen are closer than a TTL
  (`Dedupe.SeensAreApartExactly`, `Dedupe.MarkShortens`). It is the type's interface that allows this: of the two caches
  in the program one only gets Seen and the other only Exists and Mark (cli/gateway/reliability.go:64-87), so
  `Dedupe.UnmarkedSeensAreApart` holds of the first.
- A subscriber misses frames it asked for when more than 512 newer ones had been published (`EventHub.SubscribersMissNothing`).
- A ManagedBy of white space counts as none but is cleared by a merge (`Registry.FilterUndoesMerge`,
  `Registry.SpaceIsNotGivenBack`), and ids that are different texts but the same slug lose a server at the next save (`RegistrySave.SavingAgainLosesNothing`) or
  when the manual list is loaded from the stored merge (`RegistrySave.FallbackLosesNothing`).
- A message with an empty body is written but cannot be read back, and ends the session (`McpFraming.FrameIsReadBack`);
  a length of 2^64 and more is read modulo 2^64 (`McpFraming.AtoiMeaning`). A stream cut right behind a header looks like
  one that has ended (`McpSessions.CutSession`). The reader takes the length only from the
  first header line; a header that starts otherwise is read line by line as messages.
- A paragraph or line that is too long by itself is sent too long (`ContentAdapter.PacksWithinLimit`).
- A part of a constraint accepts a convex set of versions if and only if it excludes none with `!=`
  (`SemVer.PartIsConvexExactly`, `SemVer.ExclusionIsNotConvex`).
- A list of constraints that begins with a bare pre-release version is read as one exact version whose pre-release is the
  rest of the list (`SemVerTexts.ListMeaningExactly`), and pre-releases are compared as texts, so that 10 comes before 9
  (`SemVerTexts.NumericPreReleasesAreMisordered`), which section 11.4.1 of SemVer 2.0.0 puts the other way round.
- A search for a skill is sure to find a greatest candidate if and only if comparing version texts orders the candidates
  (`SemVer.GreatestIsFoundExactly`); texts that parse and texts that do not can be newer than each other in a circle, and
  then there is none to find (`SemVer.MixedVersionsCanCycle`).
- Request ids come from the clock: two requests in the same nanosecond share one, and a closed request is then
  pending again (`Approval.ReopenedOnlyByCollision`, `Approval.RejectedIsOpenAgain`). Rejecting also closes requests that were approved or had expired.
- The code does not check the standard's limit on derived keys: its key is the standard's if and only if the length is
  within it (`Pbkdf2.KeyIsDerived`); beyond it the blocks repeat (`Pbkdf2.BlocksRepeatBeyondTheLimit`).

## Model

| member | source | states |
|---|---|---|
| `LaneQueue.StepKeepsInv` | cli/queue/lanes.go:35-93 | every atomic action of Enqueue, runLane and Close keeps the invariant: tokens are the running tasks, lanes and live workers correspond one to one, a channel holds what was sent and not taken, an accepted envelope has a result exactly when it is nowhere in the queue |
| `LaneQueue.Safety` | cli/queue/lanes.go:25-93 | on every run: tokens held equal running tasks within the limit, one consumer and so at most one running task per lane, first come first served, at most one result per envelope and of the right kind, nothing accepted is lost |
| `LaneQueue.ResultsAreFinal` | cli/queue/lanes.go:53-75 | a result that has been delivered stays the only one whatever happens next |
| `LaneQueue.StartedAtMostOnce` | cli/queue/lanes.go:62-75 | in every run a task is started at most once, never if its envelope was not accepted, and once there is a result exactly once if and only if the result is that the task has run |
| `LaneQueue.InternalStepLowersMeasure` | cli/queue/lanes.go:53-80 | every action the queue takes by itself lowers a natural number |
| `LaneQueue.InternalRunsEnd` | cli/queue/lanes.go:53-80 | so the queue cannot work forever without new calls |
| `LaneQueue.QuiescentMeansResolved` | cli/queue/lanes.go:53-93 | when nothing can move any more every accepted envelope has its one result, no token is held, every lane is empty, and after Close no lane and no worker is left |
| `LaneQueue.Drain` | cli/queue/lanes.go:62-80 | from every state the queue can get there |
| `LaneRuns.RefusedFromCloseOn` | cli/queue/lanes.go:35-51 | after any run an envelope not offered before finds its lane if and only if Close has not been called, and is refused if and only if it has |
| `LaneRuns.RefusalIsFinal` | cli/queue/lanes.go:38-43 | a refusal comes after a Close, is the envelope's one result, and the envelope is in no lane |
| `LaneRuns.AcceptedAtItsLane` | cli/queue/lanes.go:45-51 | the lane of an accepted envelope is the one its Enqueue named |
| `LaneRuns.CloseIsFinal` | cli/queue/lanes.go:82-93 | after a Close no Enqueue finds a lane, and when the workers have stopped no lane, worker, waiting sender or token is left |
| `LaneRuns.LanesAreServedInOrder` | cli/queue/lanes.go:45-63 | what a lane's worker has taken and then what its channel holds are the envelopes sent to it, in the order of the sends, and no channel holds more than 128 |
| `LaneRuns.SendsWaitForRoom` | cli/queue/lanes.go:53-59 | a send is possible if and only if the channel holds fewer than 128 envelopes, and gives up if and only if its context was cancelled |
| `LaneRuns.ContextsCanBeCancelled` | cli/queue/lanes.go:56-57 | a context can be cancelled at any time |
| `LaneRuns.WorkersWaitForATask` | cli/queue/lanes.go:62-80 | a waiting worker can start its task if and only if fewer tasks run than the limit, and give up if and only if the context was cancelled; an idle one takes what its channel holds, and ends if and only if it is empty and Close was called |
| `Lanes.Lanes.constructor` | cli/queue/lanes.go:25-33 | a new queue; a limit that is not positive selects 16 |
| `Lanes.Lanes.EnqueueLocked` | cli/queue/lanes.go:35-51 | the critical section is the step Refuse or Lookup and keeps the invariant |
| `Lanes.Lanes.FindLane` | cli/queue/lanes.go:45-51 | an open queue uses the lane's channel or starts one with its goroutine |
| `Lanes.Lanes.EnqueueSelect` | cli/queue/lanes.go:53-59 | the select is the step Send or SendCancelled |
| `Lanes.Lanes.RunLaneReceive` | cli/queue/lanes.go:62-63 | the range takes the next envelope, or ends on a closed and empty channel and deregisters the lane |
| `Lanes.Lanes.RunLaneSelect` | cli/queue/lanes.go:64-69 | a token is acquired or the envelope is cancelled |
| `Lanes.Lanes.RunLaneGiveTokenBack` | cli/queue/lanes.go:71-72 | the token goes back when the task returns |
| `Lanes.Lanes.RunLaneReport` | cli/queue/lanes.go:73-74 | then the result is delivered |
| `Lanes.Lanes.CloseAll` | cli/queue/lanes.go:82-93 | Close is the step Close, and nothing when closed already |
| `Recovery.CollectPendingUserMessages` | cli/engine/service.go:936-949 | on any transcript the loop returns the last n user messages, n being the largest excess of user over assistant messages in any tail |
| `Recovery.PendingIsUnanswered` | cli/engine/service.go:936-949 | on an orderly transcript these are exactly the user messages without a recorded reply, in order |
| `Recovery.ListedPendingIsRight` | cli/engine/service.go:396-402 | reading the oldest 10000 messages finds the right ones if and only if the rest has as many replies as user messages and, if it has any user message, so has what is read |
| `Recovery.RecoveryMissesLateMessages` | cli/db/store.go:530-557 | after 5000 answered user messages an open one is not found |
| `Recovery.RecoveryRepeatsLateReplies` | cli/db/store.go:530-557 | a user message whose reply is message 10001 is lined up again |
| `Recovery.CollectsUnansweredExactly` | cli/engine/service.go:936-949 | when some tasks have failed, what recovery collects is what has no reply if and only if no message with a reply comes after one without |
| `Recovery.FailedTaskIsForgotten` | cli/engine/service.go:936-949 | two messages of which the second has its reply: the second is collected and the first is not |
| `Recovery.OverlapAnswersOnceExactly` | cli/main.go:361-371 | when recovery reads a session some of whose open messages are being answered, no message gets two replies if and only if none was, however the replies interleave |
| `Recovery.ActionKeepsInv` | cli/engine/service.go:245-449 | sending, storing, enqueueing, queue steps, replying, crashing and recovering keep the engine's invariant, whatever recovery reads: within one life of the process every message of a session is in line at most once and not after its reply |
| `Recovery.LineMoves` | cli/engine/service.go:245-449 | a user message joins its session's line at the end, the answered message leaves it at the head, and nothing else changes a line |
| `Recovery.RunIsSoundExactly` | cli/engine/service.go:245-449 | a run keeps every transcript in order and every line equal to the unanswered messages if and only if each of its recoveries reads enough of its transcript |
| `Recovery.AnsweredAtMostOnceInOrder` | cli/engine/service.go:245-449 | in every state of every run whose recoveries read enough, with any number of crashes: the n-th reply answers the n-th user message, none twice, and the line of a recovered session is exactly what is unanswered |
| `Recovery.UnpromptedGetsCloser` | cli/engine/service.go:388-449 | whatever the process does by itself lowers a natural number |
| `Recovery.UnpromptedRunsEnd` | cli/engine/service.go:388-449 | so it comes to rest after at most that many actions, however it goes on |
| `Recovery.RestIsThePlan` | cli/engine/service.go:388-449 | however the process comes to rest without new messages and crashes, the replies are those already there, then those in line or found by recovery, each once and in order |
| `Recovery.AllAnsweredExactly` | cli/engine/service.go:388-449 | from a sound state, rest means that every user message of a session has exactly one reply if and only if recovery had read the session before or reads enough of it |
| `Recovery.SettledMeansAllAnswered` | cli/engine/service.go:388-449 | in a sound state at rest every user message of every session has exactly one reply |
| `Recovery.DrainSessions` | cli/engine/service.go:388-449 | from every state of every run the process can come to rest by itself, with the planned replies, and from a sound state with every message answered exactly where recovery reads enough |
| `Recovery.RestTakesMessages` | cli/engine/service.go:245-300 | at rest every session takes a new message |
| `Handoff.RunDir.AcquireRuntimePID` | cli/main.go:535-544 | refuses exactly when another live process is named and no handoff is allowed, else the file names this process, or is what a failed write leaves of it |
| `Handoff.RunDir.ReleaseRuntimePID` | cli/main.go:546-560 | removes the file, if the removal succeeds, only if it names this process or is not a number |
| `Handoff.StepKeepsInv` | cli/runtime_control.go:200-234 | every step of parent, helper and child keeps the invariant |
| `Handoff.HandoffSafety` | cli/runtime_control.go:200-234 | over every interleaving: the parent is told to drain or stop only if some probe was answered by a 200 with the child's pid; a failure before that leaves it serving; some process that does not drain serves, unless the child died after its probe or is drained by a stale file of its pid that could not be removed; after the probe the pid file names the child |
| `Handoff.OtherAnswersChangeNothing` | cli/runtime_control.go:489-516 | a probe with another status or pid, or without an answer, leaves everything as it is |
| `Handoff.NotBeforeTheChildListens` | cli/runtime_control.go:200-234 | the helper probes only after the child has written the ready file in this run, or with an old one that could not be removed |
| `Handoff.EntryKeepsOthersOut` | cli/main.go:535-560 | an entry keeps every other runtime out exactly as long as its process runs, whoever else exits, except one it is handed over to; after its own release the next one gets in |
| `HandoffRuns.HandoffIsTold` | cli/runtime_control.go:200-234 | over every interleaving: the helper has failed exactly if one of its steps failed, the child is dead exactly if it ended, who drains or is stopped is told by the steps; the parent stops only on the signal, which follows the drain file; the pid file never names a child that has released its entry |
| `HandoffRuns.FilesAreTold` | cli/runtime_control.go:376-400 | the ready file and every drain file are there exactly as the writes and removals of the steps leave them |
| `HandoffRuns.ProcessesCanAct` | cli/main.go:601-625 | a drain file is seen and the signal received exactly as long as the parent has not been stopped |
| `HandoffRuns.HelperCanWait` | cli/runtime_control.go:200-234 | the helper sees the ready file whenever it is there, and a probe can be answered by whoever serves, or time out |
| `HandoffRuns.ParentReleasesItsOwn` | cli/main.go:546-560 | in whatever state, a parent that reads its own entry on its way out removes the file |
| `Handoff.ParentNeverRemovesTheEntry` | cli/main.go:546-560 | nothing the parent does on its way out changes the pid file |
| `Handoff.EntryNamesServingExactly` | cli/main.go:535-560 | in every state of every run the pid file names a serving process if and only if the child has not written it yet or serves |
| `Handoff.FailedHandoffLosesTheEntry` | cli/main.go:535-560 | a run after which the parent serves, the pid file is gone and a third process may start |
| `Handoff.HandoffCompletes` | cli/runtime_control.go:200-234 | from every state of every run without a failure, a timeout or a death, at most 19 such steps lead to the end: the parent gone and the child serving under its own pid entry |
| `Handoff.StoppedMeansHandedOver` | cli/runtime_control.go:200-234 | such a run that has nothing left to do but probes is at that end |
| `Handoff.StaleFileDrainsBoth` | cli/main.go:601-625 | with a stale drain file of the child's pid that cannot be removed, a run comes to a state in which both processes drain |
| `CronField.ParseField` | cli/scheduler/cronexpr.go:72-183 | the loops compute the specified list or reject the field |
| `CronField.AddSteps` | cli/scheduler/cronexpr.go:132-134 | the loop over a stepped range ends and adds what the range selects, with the counter's 64-bit wrap-around |
| `CronField.SelectsWhatItDenotes` | cli/scheduler/cronexpr.go:129-134 | a segment selects exactly what it denotes if and only if its step does not wrap the counter into the field |
| `CronField.FieldMeaning` | cli/scheduler/cronexpr.go:72-183 | an accepted field yields a strictly increasing, non-empty list within its bounds of exactly the selected values |
| `CronField.FieldIsTheUnion` | cli/scheduler/cronexpr.go:81-182 | the list is the union of what the segments denote |
| `CronSyntax.SegmentSyntax` | cli/scheduler/cronexpr.go:84-169 | a text is accepted as a segment if and only if a grammar, which does not follow the order of the parser's cases, reads it as that segment |
| `CronSyntax.SegmentOfShow` | cli/scheduler/cronexpr.go:84-169 | "*/n", "a-b/n", "a-b" and "v" are read as what they stand for |
| `CronSyntax.FieldOfShow` | cli/scheduler/cronexpr.go:72-183 | a written list of such segments yields, in increasing order, what they denote |
| `CronSyntax.FieldOfClean` | cli/scheduler/cronexpr.go:83-87 | white space around the segments of a field and blank segments do not matter, and a field of blank ones is rejected |
| `CronSyntax.EveryNth` | cli/scheduler/cronexpr.go:89-98 | "*/n" yields every n-th value from the least one on |
| `CronSyntax.ExpressionOfText` | cli/scheduler/cronexpr.go:18-50 | five written fields are read as minute, hour, day, month and weekday within their bounds, and a sixth in front changes nothing |
| `CronField.HugeStepSelectsTooMuch` | cli/scheduler/cronexpr.go:132-134 | the range 5-10 with the step 2^63 - 1 also selects 1 and 3 |
| `CronTexts.HugeStepField` | cli/scheduler/cronexpr.go:72-183 | as a field of minutes, 5-10/9223372036854775807 is read as 1, 3 and 5 |
| `CronTexts.LeapMondaysText` | cli/scheduler/cronexpr.go:18-50 | "0 0 29 2 1" is parsed to midnight of the 29th of February on Mondays |
| `CronField.ParsedIsValid` | cli/scheduler/cronexpr.go:18-50 | a parsed expression has five such lists, each within its own bounds |
| `Calendar.DayOfDate` | cli/scheduler/cronexpr.go:52-58 | the date of a day has that day's number |
| `Calendar.DateOfDay` | cli/scheduler/cronexpr.go:52-58 | and a date is the date of its own day: days and valid Gregorian dates correspond one to one |
| `Cron.NextRun` | cli/scheduler/cronexpr.go:60-70 | the loop over minutes computes the specified search |
| `Cron.NextMeaning` | cli/scheduler/cronexpr.go:52-70 | the earliest matching minute strictly after the given time, and the zero time exactly when no minute of the five-year window matches |
| `Cron.YearlyRunsAreFound` | cli/scheduler/cronexpr.go:60-70 | with every day of the week chosen and a day and month that exist in every year, a run is always found within 366 days |
| `Cron.MatchesRepeat` | cli/scheduler/cronexpr.go:52-58 | what matches once matches again 400 years later |
| `Cron.LeapMondayIsNotFound` | cli/scheduler/cronexpr.go:60-70 | from 29 February 2016 the search for the next 29th of February that is a Monday finds nothing, although 2044 and 2072 have one |
| `Scheduler.NextRunOf` | cli/scheduler/resolve.go:11-47 | the loops compute the specified next run, for every job for which they end |
| `Scheduler.RunAfter` | cli/scheduler/resolve.go:49-74 | the loops compute the specified successor, for every job for which they end |
| `Scheduler.CatchUp` | cli/scheduler/resolve.go:30-34 | adding the period until the bound is reached gives the first such instant, whenever the loop ends |
| `Scheduler.SchedulerState.RunTick` | cli/scheduler/scheduler.go:60-101 | a tick that ends treats every job by itself, whatever the order of the rows |
| `Scheduler.SchedulerState.TickJob` | cli/scheduler/scheduler.go:69-100 | one job's row, trigger and enqueued due times after the loop's body; the other jobs stay |
| `Scheduler.DueTimesOfAJob` | cli/scheduler/scheduler.go:60-101 | over any ticks, run results and restarts: due times do not decrease, and increase after one that has a successor; an "at" job fires at most once; an "every" job keeps its phase; a cron job skips no matching minute after a due time whose search finds one |
| `Scheduler.NoneIsRepeated` | cli/scheduler/scheduler.go:60-101 | without a restart due times strictly increase, so none is enqueued twice |
| `Scheduler.RepeatedExactly` | cli/scheduler/scheduler.go:82-100 | after a due time has been enqueued, some run with a restart enqueues it again if and only if the job has no successor for it |
| `Scheduler.NoneSkippedExactly` | cli/scheduler/scheduler.go:60-101 | after a matching minute a cron job without a stored next run skips no matching minute in any run if and only if the search from there finds one |
| `Scheduler.LeapMondayIsSkipped` | cli/scheduler/scheduler.go:60-101 | a run that enqueues 2016 and 2072 and skips 2044 |
| `Scheduler.StoredRunIsFollowedExactly` | cli/scheduler/resolve.go:63-72 | a cron job with a stored next run is enqueued for a later time, in some run, if and only if the search from there finds a minute |
| `Scheduler.NextDueOfEvery` | cli/scheduler/resolve.go:53-62 | the next due time of an "every" job is the least due + k * d after now |
| `DueTimes.FirstDueOfStored` | cli/scheduler/scheduler.go:69-83 | a job with a stored next run is first due for it, at the first tick not before it |
| `DueTimes.FirstDueOfAt` | cli/scheduler/resolve.go:18-19 | without one an "at" job is due for its time at the first tick not before it |
| `DueTimes.FirstDueOfEvery` | cli/scheduler/resolve.go:20-35 | an "every" job at a tick if and only if that is base + k * d for some k of 1 or more, the base being the last run or else the creation |
| `DueTimes.FirstDueOfCrontab` | cli/scheduler/resolve.go:36-46 | a cron job at a tick if and only if its minute matches, and then for the start of that minute |
| `DueTimes.DisabledIsNeverDue` | cli/scheduler/scheduler.go:60-101 | a disabled job never |
| `DueTimes.AtJobFiresOnce` | cli/scheduler/scheduler.go:60-101 | over any run an "at" job is enqueued for its time, once, if and only if some tick comes then or later |
| `DueTimes.NewAtJob` | cli/api/server.go:2258-2269 | a new "at" job is accepted if and only if its time is in the future, and fires once, when that has come |
| `DueTimes.NewEveryJob` | cli/api/server.go:2258-2269 | a new "every" job is first due one period after it was made |
| `DueTimes.NewCrontabJob` | cli/api/server.go:2258-2269 | a new cron job is first due for the minute it is made in, if that matches, else for the first matching minute |
| `DueTimes.EditKeepsTheStoredRun` | cli/api/server.go:2343-2356 | an edited job that has a stored next run keeps it whatever the new schedule says, and is first due for it |
| `DueTimes.EditTakesEffectExactly` | cli/api/server.go:2343-2356 | an edit is checked and recomputes the next run if and only if none is stored |
| `RateLimiter.TokenBucket.Allow` | cli/gateway/rate_limiter.go:26-43 | refills for the elapsed time up to the maximum, then takes a token if there is one |
| `RateLimiter.WindowBound` | cli/gateway/rate_limiter.go:26-43 | in any run, the calls within w seconds get at most maxTokens + w * refillRate grants |
| `RateLimiter.Limiter.AllowThreeLevel` | cli/gateway/rate_limiter.go:118-141 | platform, tenant and session are asked in that order until one refuses |
| `RateLimiter.Limiter.EnsureBucket` | cli/gateway/rate_limiter.go:143-154 | a missing bucket starts full, an existing one stays |
| `RateLimiter.Limiter.Allow` | cli/gateway/rate_limiter.go:93-116 | takes from the bucket of the key and changes no other; a key without one gets a bucket of 60 tokens and the call fails on the nil it dereferences |
| `RateLimiter.Limiter.Cleanup` | cli/gateway/rate_limiter.go:156-167 | drops exactly the buckets idle for longer than maxAge |
| `RateLimiter.LevelsAreApart` | cli/gateway/rate_limiter.go:118-141 | the levels of a call never share a bucket |
| `RateLimiter.ThreeLevelWindowBound` | cli/gateway/rate_limiter.go:118-167 | with sweeps at 60 seconds or more, for every key of every level, the calls granted within w seconds are at most the limit plus w seconds of refill |
| `RateLimiter.GrantedExactly` | cli/gateway/rate_limiter.go:118-141 | a call is granted if and only if the buckets of the platform, of the tenant on it and of the session, each if limited and named, have a token; each level asked up to the first without one pays a token |
| `RateLimiter.RatesHoldFrom60` | cli/gateway/rate_limiter.go:118-167 | that holds in all runs and for all limits if and only if the sweeps' age is at least 60 seconds |
| `RateLimiter.SweepingIsUnobservable` | cli/gateway/rate_limiter.go:118-167 | with sweeps at 60 seconds or more the limiter answers every run as without them |
| `RateLimiter.CleanupIsUnobservableFrom60` | cli/gateway/rate_limiter.go:118-167 | sweeping is unobservable for all runs and limits if and only if maxAge is at least 60 seconds |
| `Dedupe.DedupeCache.SeenKey` | cli/gateway/reliability.go:25-39 | Seen purges, looks and records |
| `Dedupe.DedupeCache.ExistsKey` | cli/gateway/reliability.go:41-51 | Exists purges and looks |
| `Dedupe.DedupeCache.MarkKey` | cli/gateway/reliability.go:53-62 | Mark purges and records |
| `Dedupe.DedupeCache.Purge` | cli/gateway/reliability.go:17-23 | deletes exactly the entries that the clock is past |
| `Dedupe.PurgingIsUnobservable` | cli/gateway/reliability.go:17-62 | on a clock that does not go back, every sequence of calls is answered as by a map that never purges |
| `Dedupe.AnswersAreTold` |  cli/gateway/reliability.go:17-62 | from an empty cache, Seen and Exists answer true if and only if the clock is before the expiry that the last Mark or accepted Seen of the key has set |
| `Dedupe.ExpiredAreDropped` |  cli/gateway/reliability.go:17-62 | a call with a key drops exactly the entries of other keys that had expired |
| `Dedupe.AcceptedSeensAreApart` | cli/gateway/reliability.go:25-39 | two accepted calls of Seen for a key are a TTL apart if no Mark between them moves the expiry forward |
| `Dedupe.UnmarkedSeensAreApart` | cli/gateway/reliability.go:64-87 | in any run without Mark, as the inbound cache is used, two accepted calls of Seen for a key are a TTL apart |
| `Dedupe.SeensAreApartExactly` | cli/gateway/reliability.go:25-62 | every later accepted Seen is a TTL away if and only if the calls in between leave the key's expiry no earlier than it was |
| `Dedupe.MarkShortens` | cli/gateway/reliability.go:53-62 | a run in which a key is accepted twice within its TTL |
| `EventHub.EventHub.SubscribeSince` | cli/engine/event_hub.go:43-65 | registers a new channel and returns the retained frames above afterSeq |
| `EventHub.EventHub.UnsubscribeFrom` | cli/engine/event_hub.go:67-81 | removes the channel and an empty bucket |
| `EventHub.EventHub.PublishLocked` | cli/engine/event_hub.go:83-109 | the critical section numbers the frame, appends it, cuts the log to 512 and copies the subscribers; a frame that cannot be encoded only uses up its number |
| `EventHub.StepKeepsInv` | cli/engine/event_hub.go:43-117 | every critical section, delivery and receive keeps the invariant |
| `EventHub.HistoryIsTheTail` | cli/engine/event_hub.go:83-102 | the log of a session is always the last min(n, 512) frames published for it, in increasing sequence |
| `EventHub.SubscribersMissNothing` | cli/engine/event_hub.go:43-65 | backlog and live offers are exactly the retained frames above afterSeq and every later one, each once and in order, without a gap if and only if at most 512 frames above afterSeq had been published |
| `EventHub.SubscribersReceive` | cli/engine/event_hub.go:111-116 | what a subscriber received and its channel holds are the offers the channel took, in their order; every offer was taken or dropped; if the channel always had room it has received or holds exactly the frames published since it subscribed |
| `EventHub.DroppedOnlyIfFull` | cli/engine/event_hub.go:111-116 | an offer is dropped if and only if the channel holds 128 frames, and otherwise becomes its last frame |
| `EventHub.RunReceives` | cli/engine/event_hub.go:43-65 | a subscriber has received as many frames as it has taken from its channel |
| `EventHub.NoneIsStuck` | cli/engine/event_hub.go:111-116 | an offer can always be made, and a buffered frame always received |
| `EventHub.AnyoneCanPublish` | cli/engine/event_hub.go:83-109 | a publication is always possible and goes to exactly the channels subscribed to its session |
| `EventHub.ClosedIsGone` | cli/engine/event_hub.go:67-81 | nothing is offered to a channel once it has been unsubscribed |
| `EventHub.RunLeavesNoneEmpty` | cli/engine/event_hub.go:67-81 | no session without subscribers keeps an entry |
| `Registry.FilterManual` | cli/mcpregistry/registry.go:111-129 | the loop keeps the first server of each trimmed id among those that are not managed |
| `FirstOfEach.KeepMembers` | cli/mcpregistry/registry.go:111-129 | what such a loop keeps are exactly the first items of their keys |
| `Registry.FirstFreeMeaning` | cli/mcpregistry/registry.go:92-101 | the unbounded suffix search ends within the number of taken ids plus one tries, at the least free suffix |
| `Registry.FindSuffix` | cli/mcpregistry/registry.go:92-101 | the loop without a bound of its own terminates and finds that suffix |
| `Registry.MergeWithSkillServers` | cli/mcpregistry/registry.go:62-109 | the result is a permutation of manual servers followed by autos, sorted by lower-cased trimmed id |
| `Registry.MergedIdsAreDistinct` | cli/mcpregistry/registry.go:67-108 | trimmed ids in the result are non-blank and pairwise distinct |
| `Registry.FirstsAreMerged` | cli/mcpregistry/registry.go:69-81 | the first server of each id entered by hand is in the merge, unmanaged and under its trimmed id |
| `Registry.EveryAutoIsAdded` | cli/mcpregistry/registry.go:82-102 | every auto with an id appears exactly once, in order before sorting, changed in its id alone and only when that is taken, and then to the first free number |
| `Registry.FilterUndoesMerge` | cli/mcpregistry/registry.go:62-129 | filtering the merge of filtered manual servers with managed autos gives them back up to order, unchanged if and only if every ManagedBy was empty |
| `Registry.SpaceIsNotGivenBack` | cli/mcpregistry/registry.go:62-129 | a server whose ManagedBy is one space passes the filter and does not come back unchanged |
| `RegistrySave.Slugify` | cli/mcpclient/manager.go:660-684 | the loop computes the slug |
| `RegistrySave.SlugIsSlug` | cli/mcpclient/manager.go:660-684 | a slug has lower-case letters and digits with single dashes between them |
| `RegistrySave.SlugMeaning` | cli/mcpclient/manager.go:660-684 | a slug is made of the maximal runs of letters and digits of the lower-case text, in order, joined by dashes |
| `RegistrySave.LettersAndDigits` | cli/mcpclient/manager.go:660-684 | the letters and digits of a slug are a to z and 0 to 9 |
| `RegistrySave.SlugOfSlug` | cli/mcpclient/manager.go:660-684 | and is its own slug |
| `RegistrySave.NormalizeServer` | cli/mcpclient/manager.go:625-641 | the field updates compute the normalised server |
| `RegistrySave.NormalizeTwice` | cli/mcpclient/manager.go:625-641 | normalising twice is normalising once |
| `RegistrySave.EncodeServers` | cli/mcpclient/manager.go:90-93 | the caller's elements are normalised in place |
| `RegistrySave.SaveManualAndSync` | cli/mcpregistry/registry.go:36-60 | stores the normalised filtered manual servers and a normalised merge of these with the autos |
| `RegistrySave.LoadManual` | cli/mcpregistry/registry.go:18-34 | the stored manual list if there is one, else what the filter keeps of the stored merge |
| `RegistrySave.LoadAfterSave` | cli/mcpregistry/registry.go:18-60 | after a save, loading gives the stored manual list back; from the stored merge alone it gives, up to order, the servers that the merge took over from it |
| `RegistrySave.FallbackLosesNothing` | cli/mcpregistry/registry.go:18-60 | and these are the stored manual list if and only if the slugs differ and no ManagedBy is white space |
| `RegistrySave.SavingAgainLosesNothing` | cli/mcpregistry/registry.go:36-60 | saving what was stored stores the same if and only if the slugs of the manual servers differ, and loses a server otherwise |
| `RegistrySave.SlugsCanCollide` | cli/mcpregistry/registry.go:36-60 | two servers that both pass the filter and share a slug |
| `McpFraming.StrconvAtoi` | cli/mcp_stdio.go:241-250 | the loop computes the specified number or rejects |
| `McpFraming.AtoiMeaning` | cli/mcp_stdio.go:241-250 | it accepts exactly the strings of digits and computes their value in 64-bit two's complement |
| `McpFraming.AtoiOfPrint` | cli/mcp_stdio.go:200-227 | a printed length is read back if and only if it fits in 64 bits |
| `McpFraming.Reader.ReadString` | cli/mcp_stdio.go:187-190 | the next line with its newline; an unfinished last line is used up |
| `McpFraming.Reader.ReadMCPPayload` | cli/mcp_stdio.go:186-220 | the result and the new position are those of the specified reading, including every error |
| `McpFraming.Reader.Serve` | cli/mcp_stdio.go:42-66 | the server's loop terminates and handles exactly the messages of its input up to the first error |
| `McpFraming.Writer.WriteMCPPayload` | cli/mcp_stdio.go:222-234 | appends one frame |
| `McpFraming.MessageIsRead` | cli/mcp_stdio.go:186-220 | a message whose header starts with its length, in any letter case, padded, with further header lines, is read as its body and the reader stands right behind it |
| `McpFraming.FrameIsReadBack` | cli/mcp_stdio.go:186-234 | a written frame is read back if and only if its body is not empty |
| `McpFraming.ReadingUndoesWriting` | cli/mcp_stdio.go:186-250 | any sequence of non-empty bodies that was written is read back as exactly those bodies, then the end |
| `McpSessions.CutSession` | cli/mcp_stdio.go:42-66 | a stream of frames that is cut anywhere: the bodies before the cut frame are handled, and the session ends as for the end of the input unless the cut lies behind the first byte of a body |
| `McpSessions.LineIsRead` | cli/mcp_stdio.go:191-219 | a blank line is passed over, and a line without the header is a message by itself, trimmed |
| `McpSessions.BadLengthIsInvalid` | cli/mcp_stdio.go:195-204 | a length that is no positive number of 64 bits ends the session |
| `Stream.StreamHandler.ChunkText` | cli/gateway/stream.go:112-151 | chunks concatenate to the text, none is over the limit, they are numbered, exactly the last is finished, the others fill at least half of the limit; one chunk if and only if the text fits |
| `Stream.ChunksTile` | cli/gateway/stream.go:126-150 | the same of the loop |
| `Stream.ChunksBreakWell` | cli/gateway/stream.go:131-137 | every chunk but the last ends behind the last newline within the limit if that is in the second half, and else at the limit |
| `GatewaySplit.SplitByMaxLen` | cli/gateway/gateway.go:1144-1165 | the loop terminates for every limit and computes the specified pieces |
| `GatewaySplit.CutAtMeaning` | cli/gateway/gateway.go:1154-1157 | a piece is cut at the last newline within the limit if that is in the second half, and else at the limit |
| `GatewaySplit.SplitTextIsGood` | cli/gateway/gateway.go:1144-1165 | for a positive limit pieces are non-empty, trimmed and within it; only white space is dropped, at the cuts; nothing is returned exactly for a blank text |
| `ContentAdapter.Pack` | cli/gateway/content_adapter.go:130-176 | the packing loop drops only separators; its fragments are joins of consecutive units, in order, and every unit that is not empty is in one; a fragment exceeds the limit only as a single unit, and no two neighbours would fit together |
| `ContentAdapter.UnitsAreWhole` | cli/gateway/content_adapter.go:130-176 | so every paragraph or line lies in one fragment, in one piece |
| `Pieces.PartsHaveNone` | cli/gateway/content_adapter.go:131 | no paragraph or line holds a separator |
| `ContentAdapter.SplitByParagraphs` | cli/gateway/content_adapter.go:130-152 | packs paragraphs; nil only if that leaves one piece |
| `ContentAdapter.SplitByLines` | cli/gateway/content_adapter.go:154-176 | packs lines; nil only if that leaves one piece |
| `ContentAdapter.PacksWithinLimit` | cli/gateway/content_adapter.go:130-176 | every fragment is within the limit if and only if every unit is |
| `ContentAdapter.SplitHard` | cli/gateway/content_adapter.go:178-188 | pieces concatenate to the text, all but the last exactly of the limit's length |
| `ContentAdapter.SplitBySections` | cli/gateway/content_adapter.go:92-128 | non-nil if and only if there are several headings, every section fits and the text does not; then the fragments tile the text, later ones start at headings, none is over the limit and no two neighbours fit together |
| `ContentAdapter.CanSplitMeaning` | cli/gateway/content_adapter.go:92-128 | that is: the text is over the limit, and wherever it goes on for more than the limit there is, within the limit, a heading other than the first |
| `ContentAdapter.HeadingTexts` | cli/gateway/content_adapter.go:93 | a line of hashes and then another character is a heading if and only if these are one to six and it is white space |
| `ContentAdapter.HeadingsBeginLines` | cli/gateway/content_adapter.go:93 | a heading begins a line with a hash |
| `ContentAdapter.Adapter.Fragment` | cli/gateway/content_adapter.go:44-70 | one fragment if and only if the trimmed text fits; else sections, paragraphs, lines or a hard cut in that order; fragments are numbered with their total |
| `SemVer.ParseSemVersion` | cli/skills/market.go:1225-1260 | the loop computes the specified parse or rejects |
| `SemVer.ParseOfShow` | cli/skills/market.go:1225-1260 | parsing undoes printing, for 64-bit natural numbers and a lower-case pre-release without `+` or white space at its end |
| `SemVerTexts.ShortVersions` | cli/skills/market.go:1225-1260 | missing numbers are 0 and a leading v is dropped |
| `SemVer.BuildIsIgnored` | cli/skills/market.go:1230-1232 | section 10 of SemVer 2.0.0: build metadata does not change what is parsed |
| `SemVer.CompareIsATotalOrder` | cli/skills/market.go:1262-1290 | comparison is antisymmetric, zero exactly on equal versions, and transitive |
| `SemVerTexts.CompareMeaning` | cli/skills/market.go:1262-1290 | the order is lexicographic in major, minor and patch, a release after its pre-releases, and two pre-releases as texts |
| `SemVerTexts.NumericPreReleasesAreMisordered` | cli/skills/market.go:1277-1279 | the pre-release 10 comes before the pre-release 9 |
| `SemVer.PreReleaseComesBefore` | cli/skills/market.go:1270-1277 | section 11.3: a pre-release comes before its release and after all that is before that |
| `SemVer.MatchesVersionConstraint` | cli/skills/market.go:1099-1121 | the loop over the parts decides the specified match |
| `SemVer.SplitConstraintParts` | cli/skills/market.go:1123-1133 | dropping blank parts changes no match |
| `SemVerTexts.PartMeaning` | cli/skills/market.go:1135-1202 | what >=, <=, !=, ==, =, >, <, ^, ~ and nothing in front of a printed version accept |
| `SemVerTexts.ListMeaningExactly` | cli/skills/market.go:1099-1133 | a comma-separated list of such parts accepts what every part accepts if and only if it does not begin with a bare pre-release followed by more |
| `SemVer.ConstraintsAreConvex` | cli/skills/market.go:1099-1202 | between two accepted versions a constraint without `!=` accepts every version, caret and tilde included |
| `SemVer.PartIsConvexExactly` | cli/skills/market.go:1135-1202 | a part accepts every version between two it accepts if and only if it does not exclude a version with `!=` |
| `SemVer.ExclusionIsNotConvex` | cli/skills/market.go:1165-1166 | with `!=` it accepts both sides of the target and not the target |
| `SemVer.FindSkillItem` | cli/skills/market.go:547-574 | something is found exactly when there is a candidate, it is the first of the candidates as the sort may leave them, and a greatest one if comparing version texts orders them |
| `SemVer.GreatestIsFoundExactly` | cli/skills/market.go:547-574 | a greatest candidate is sure to be found if and only if comparing version texts orders the candidates |
| `SemVer.UniformVersionsAreOrdered` | cli/skills/market.go:1209-1216 | it orders them if all of their versions parse, and if none does |
| `SemVer.MixedVersionsCanCycle` | cli/skills/market.go:547-574 | three candidates, "10.0.0", "9.0.0" and "1z", each older than another, so that none is greatest |
| `Approval.NormalizeStringList` | cli/approval/manager.go:451-466 | the loop keeps the first of each trimmed non-blank name |
| `Approval.ApprovalSatisfied` | cli/approval/manager.go:382-400 | the loop decides the strategy |
| `Approval.Manager.ExpireRequests` | cli/approval/manager.go:287-299 | exactly the pending requests past their time become expired |
| `Approval.Manager.Evaluate` | cli/approval/manager.go:129-176 | with an id it passes exactly when that request is approved, without one exactly when no rule hits; the messages tell the state; the new requests are stated whole |
| `Approval.Manager.Approve` | cli/approval/manager.go:192-220 | the stored requests afterwards, and which one is returned |
| `Approval.Manager.Reject` | cli/approval/manager.go:222-245 | the stored requests afterwards, and which one is returned |
| `Approval.RunKeepsOk` | cli/approval/manager.go:129-299 | over every run: nobody counts twice, an approved request satisfies its strategy and a pending one does not |
| `Approval.RequestsOnlyAdvance` | cli/approval/manager.go:129-299 | over every run without a new request under its id: rejected is final, expired never becomes approved, pending is never re-entered, the terms never change, approvals are only added and only while it is open |
| `Approval.ReopenedOnlyByCollision` | cli/approval/manager.go:158-171 | a closed request is pending again after an operation if and only if a new request took its id |
| `Approval.RejectedIsOpenAgain` | cli/approval/manager.go:158-171 | a rejected request is pending again after a second request in the same nanosecond |
| `Approval.ApprovedInTime` | cli/approval/manager.go:192-219 | a request becomes approved only by an approval before it expires |
| `Approval.GrantedMeansApproved` | cli/approval/manager.go:129-245 | when an id is granted, its strategy was met by different people each of whom approved that id in the run: all named approvers, two for "all" without names, else one |
| `ApprovalRuns.GrantedExactly` | cli/approval/manager.go:129-245 | a request that a rule opened is granted at the end of a run if and only if nobody rejects it and, before the first call after its expiry of at least 900 seconds, all named approvers approve it, or two people if "all" names none, or one person for any other strategy |
| `Pbkdf2.PBKDF2SHA256` | cli/crypto/pbkdf2.go:9-32 | computes the key of section 5.2 of RFC 8018 if and only if the length is within the standard's limit |
| `Pbkdf2.KeyIsDerived` | cli/crypto/pbkdf2.go:9-32 | the same of the specified key: longer ones would need a block whose number has no four octets |
| `Pbkdf2.XorInto` | cli/crypto/pbkdf2.go:24-26 | the inner loop XORs in place |
| `Pbkdf2.DeriveBlock` | cli/crypto/pbkdf2.go:15-27 | the loop computes U_1 xor ... xor U_c |
| `Pbkdf2.PutUint32IsInt` | cli/crypto/pbkdf2.go:17 | the block number is encoded as the standard's INT |
| `Pbkdf2.DerivedKeyIsUnique` | cli/crypto/pbkdf2.go:9-32 | the standard's definition fixes the key |
| `Pbkdf2.ShorterIsPrefix` | cli/crypto/pbkdf2.go:31 | the key for a shorter length is a prefix of the key for a longer one |
| `Pbkdf2.BlocksRepeatBeyondTheLimit` | cli/crypto/pbkdf2.go:17 | beyond the limit blocks repeat after 2^32 |

## Left out

- HTTP handlers, model providers, SQLite, the file system, signals and process spawning: only their success or failure appears, as parameters or steps.
- Concurrency of the lane queue, the engine, the handoff and the hub is modelled as atomic actions on values; `Lanes` and the class `EventHub` tie the fields updated in place to these steps, the engine's store and the handoff's files (except the pid file) have no class of their own.
- Enqueue between its unlock and its select while Close runs (a send on a closed channel panics): Close waits for such calls in the model. Tasks that wait on other tasks of the queue are left out with it.
- Recovery: in the engine sends on one session are serialised, a reply is always stored by the task that runs (runAssistant does not fail), the process is killed rather than closed, and recovery runs before any new message of a session; failed tasks and overlapping recovery are treated on transcripts only. Session status, events and audit entries change nothing modelled.
- ListMessages is taken to return the order of insertion; it sorts by the text of the time, from which trailing zeros of the fraction are cut, so that instants of which one text continues the other can change places.
- Handoff: the restart path without an inherited listener, several restarts at once and an empty health URL.
- Configure, which nothing in the program calls, and with it the configured sizes of buckets that Allow creates. Floating-point rounding of tokens is not modelled.
- RateLimiter.Limiter.AllowThreeLevel: buckets are values in the limiter's map, so aliasing of one bucket by two callers is not modelled; TokenBucket is the single bucket updated in place.
- NextRunOf: excludes "every" jobs with a period of zero or less whose first instant is already past, on which the code's loop does not end.
- RunAfter: excludes "every" jobs with a period of zero or less that are due, on which the code's loop does not end.
- CatchUp: excludes just these cases; a tick that meets such a job does not end, so `RunTick` and `TickJob` exclude it, and in runs it is the last thing that happens.
- The API for cron jobs: the fields that do not concern the schedule, and their checks.
- Scheduler: failing store writes, and edits between the listing of a tick and its work on the job.
- Cron expressions with names, and instants before year 1.
- Unsubscribe racing with an outstanding delivery: it closes the channel that is being sent to.
- Unicode white space and letter case: texts are bytes and only ASCII space and case are known; EqualFold is equality of lower-cased texts.
- Discovery of skill servers on disk, YAML and JSON: the autos are a parameter, encoded text is left out.
- MergeWithSkillServers: sort.Slice is replaced by an insertion sort with the same contract (any permutation in order).
- The merge that is stored second: its ids are slugs again and those of autos may coincide with others; what is followed over repeated saves and loads is the manual part.
- LoadManual: a setting that does not decode, which makes it fail, is left out, since only encoded settings are stored.
- The allocation of a message buffer for an announced length; a length that memory cannot hold is not modelled.
- SplitHard: excludes a limit of zero or less on a text that is not empty: at zero the loop does not end, below it the slice panics.
- Fragment: needs a positive limit, or a blank text, for the same reason; the program only sets positive ones. Adapt, which keeps only the first fragment, is left out.
- Configuration, edit counts and session records of the stream handler.
- ParseOfShow: other pre-release texts cannot be told apart after parsing or are not returned by it, so the round trip is stated for these.
- FindSkillItem: when comparing does not order the candidates any of them may be found, because sort.Slice promises only a permutation then.
- Rule matching of approvals is a parameter (it uses regular expressions); Load and Snapshot, and requests without an expiry time, which only Load can bring in, are left out.
- HMAC and SHA-256 are a parameter that returns 32 bytes; negative key lengths, on which the code panics, are left out.
- Gateway.Send and its fallbacks, the web front end, the terminal interface, sandboxing, keyrings and access control.
