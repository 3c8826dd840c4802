# Norax verification models

Dafny models of eight parts of Norax, and proofs about them over every input, every run and every
interleaving. `dafny verify dfyconfig.toml` checks the whole project.

| component | files |
|---|---|
| A2A task server (`norax/a2a/server.py`) | `A2AReply`, `A2AProtocol`, `A2AInvariants`, `A2ATheorems`, `A2ATurns`, `A2ALocks`, `A2AClose`, `A2AScenarios`, `A2AServer`, `A2APaging` |
| gateway proxy (`norax/gateway_proxy.py`) | `ContextTrim`, `SseFraming`, `SseRoundTrip`, `SseProjection`, `SseStates`, `SseAggregate`, `SseTheorems`, `SseCompletions`, `StreamRetry`, `StreamTheorems` |
| event hash-chain verifier (`norax/verify_event_chain.py`) | `EventChain`, `EventChainTheorems`, `EventGenerations` |
| cross-source element fusion (`tools/cv_fusion.py`) | `ElementMatching`, `ElementAreas`, `ElementFusion`, `ElementTheorems` |
| cron scheduler (`norax/adapter/cron_in.py`) | `CronSchedule`, `CronAdapter`, `CronTheorems` |
| atomic file helpers (`norax/atomic.py`) | `AppendFile`, `AppendTheorems`, `CreateOnce`, `CreateOnceTheorems` |
| overlap suppression (`tools/dmap.py`) | `OverlapCells`, `OverlapSuppression` |
| burn-in window (`scripts/burnin_monitor.py`) | `BurnIn` |

How the models are built:

- Code that changes state step by step is imperative: classes with the source's fields
  (`NoraxA2AServer`, `A2ATask`, `Payload`, `CVFusion`, `UnifiedElement`, `CronJob`, `Adapter`,
  `LogFile`) and loops with invariants. Each method is proved against a function of the old state,
  and the properties are lemmas about that function over whole runs.
- The task server is a transition system whose events are the code between two suspension points.
  `A2AServer` proves that the mutable objects take exactly those steps. The runtime turn is
  adversarial: it may send, return, raise, observe its cancellation or swallow it. Task, semaphore
  and lock behave as asyncio documents them: a worker with a pending cancellation acquires nothing,
  and releasing does not suspend.
- Concurrent appenders and creators are transition systems over file-system steps; writes may be
  short and may fail.
- The clock, random draws, upstream responses and operating-system results are arguments that may
  take any value the source allows. JSON, UTF-8, SHA-256, text similarity and role normalization
  are abstract functions. SHA-256 is assumed free of collisions only in the two tampering theorems,
  and only between the records at hand. Floating-point numbers are exact numbers.

## What the proofs found

- **Cancellation can be overwritten.** A terminal task status is final if every runtime turn
  re-raises cancellation. A turn that swallows it and then fails turns CANCELED into FAILED
  (`A2ATheorems.TerminalChangesExactly`; a run of six events in `A2AScenarios.SwallowedCancelRun`).
- **Closing can leave a task SUBMITTED.** A worker cancelled before its first step never runs its
  `try`, so its task is never marked. When `close` is called, exactly the live tasks whose worker
  has not run its first step will be left so, unless they are cancelled while it waits
  (`A2AClose.CloseLeavesExactly`; a run of four events in `A2AScenarios.UnstartedTaskSurvivesClose`).
- **A context lock can outlive its context.** The lock of a context is dropped when its last stored
  task is evicted, unless it is held at that moment. A task that is evicted inside its cancelled
  turn leaves it in the map for good, or until a new task of the context is evicted. That is the
  only way it happens (`A2ALocks.OrphanArises`, `OrphanSince`; a run of seven events in
  `A2AScenarios.LockOutlivesContext`).
- **The reply limit bounds chunks, not replies.** Separators come on top of `MAX_RESULT_CHARS`
  (`A2AReply.LimitIgnoresSeparators`, `ReplyCanExceedLimit`).
- **The fusion grid misses large overlaps.** The 3x3 lookup finds every pair with an overlap of at
  least 0.15 exactly when no side is over 131 pixels, and every pair with at least 0.5 exactly when
  none is over 289 (`ElementMatching.TextOverlapSeenIff`, `StrongOverlapSeenIff`). At 132 pixels
  merging itself goes wrong (`ElementTheorems.WideInputsStayApart`).
- **An interval that is not a whole number of microseconds drifts from its catch-up.** The
  constant-time form equals the loop it replaced exactly for whole microseconds. It lands after
  `now` for every delay exactly when the interval is not rounded down
  (`CronSchedule.NaiveIffWhole`, `AfterIffNotRoundedDown`).
- **The burn-in gate is stricter than coverage.** A sample just before the window can close the
  gate although every instant of the window has a sample within 180 seconds
  (`BurnIn.StaleSampleCloses`, `CoveredButRefused`); `ObservedIffCovered` says what the gate means.

## Model

| member | source | states |
|---|---|---|
| A2AReply.AcceptCoherent | norax/a2a/server.py:299-314 | one `send` keeps the reply coherent: a resolved future has a chunk, chunks are non-blank and stripped, and stay within the limit |
| A2AReply.SentCoherent | norax/a2a/server.py:299-314 | so does any sequence of sends to one turn |
| A2AReply.HarvestIsJoin | norax/a2a/server.py:788-796 | a settled reply harvests to its chunks joined by blank lines; the empty-reply error cannot happen |
| A2AReply.FirstTextDecides | norax/a2a/server.py:304-313 | a turn that returns completes its task exactly when the first non-blank text fits on its own, whatever is sent before or after |
| A2AReply.NothingSent | norax/a2a/server.py:789-790 | a turn that sends only blanks, or nothing, fails its task |
| A2ATurns.HarvestIffFirstFits | norax/a2a/server.py:788-798 | what a turn returns: the chunks joined if the first text that is not blank fits on its own, and nothing otherwise |
| A2ATurns.AllKept | norax/a2a/server.py:299-314 | as long as everything fits, the chunks are exactly the texts that are not blank, stripped, in order |
| A2AReply.LimitIgnoresSeparators | norax/a2a/server.py:307-311 | a reply of k chunks is within `MAX_RESULT_CHARS` exactly when the chunks leave 2(k-1) characters for separators |
| A2AReply.ReplyCanExceedLimit | norax/a2a/server.py:307-311 | two sends of 255,999 letters and one letter make a reply two characters over the limit |
| A2AInvariants.SlotGoesToLiveTask | norax/a2a/server.py:548-549 | the CANCELED test behind the slot never succeeds: a cancelled worker does not acquire one |
| A2ATheorems.StepKeeps | norax/a2a/server.py:415-565 | every enabled event keeps the invariant on locks, slots, registrations and statuses |
| A2ATheorems.RunKeeps | norax/a2a/server.py:415-565 | every state of every run satisfies it, whatever the interleaving and the runtime turns |
| A2ATheorems.OneTurnPerContext | norax/a2a/server.py:551-553 | at most one worker per context is inside a turn, and it holds the current lock of its context although locks are dropped and created again |
| A2ATheorems.LiveWaiterHasCurrentLock | norax/a2a/server.py:430-435 | no worker whose task is non-terminal waits on a lock that has been dropped from the map |
| A2ATheorems.WorkingBounded | norax/a2a/server.py:547-550 | at every suspension point at most `max_concurrent` tasks are WORKING |
| A2ATheorems.NeverDeadlocked | norax/a2a/server.py:547-555 | while a worker is unfinished, some worker can step or is in a turn |
| A2ATheorems.WorkersDrain | norax/a2a/server.py:539-565 | under every scheduler workers take at most four steps per task sent |
| A2ATheorems.NoRestart | norax/a2a/server.py:481-516 | while the server is open, a message naming a task is always refused; it never restarts or rewrites it |
| A2ATheorems.TerminalChangesExactly | norax/a2a/server.py:554-560 | a step changes a terminal status exactly when a turn swallows its cancellation and then raises |
| A2ATheorems.TerminalIsForever | norax/a2a/server.py:554-560 | with turns that re-raise cancellation a terminal status never changes, over any run |
| A2ATheorems.SwallowedCancelOverwrites | norax/a2a/server.py:558-560 | any cancelled worker in a turn of an open server: its task is CANCELED and a raising turn makes it FAILED |
| A2AScenarios.SwallowedCancelRun | norax/a2a/server.py:539-560 | a run of six events that does this |
| A2ATurns.ReplyIsWhatWasSent | norax/a2a/server.py:299-314 | over every run and whatever happens in between, the reply of a turn is what was sent to its task since the turn began, and nothing else |
| A2ATurns.TurnResult | norax/a2a/server.py:552-561 | over every run: status, result, error and update time a task has behind its turn, for each way the turn ends and for every sequence of texts sent to it |
| A2ATurns.ReturnedTurnAnswers | norax/a2a/server.py:553-555 | a turn that returns and was not cancelled completes its task with the joined chunks of what was sent in the turn if the first text that is not blank fits, and fails it with an empty result otherwise |
| A2ATurns.TaskChangesAreStamped | norax/a2a/server.py:237-257 | a step that changes a task sets its update time to the clock reading of the step and leaves its id, context and message |
| A2ATurns.TaskIsWhatWasAsked | norax/a2a/server.py:510-529 | in every state of every run each task has the id, context and message of the request that created it |
| A2ATheorems.OldestUnique | norax/a2a/server.py:425 | the task to evict is unique |
| A2ATheorems.StoreEvictsOldest | norax/a2a/server.py:415-428 | a full store evicts exactly the terminal task with the least update time, and the least id among those, or refuses and changes nothing exactly when no stored task is terminal |
| A2ATheorems.OnlyOldestLeaves | norax/a2a/server.py:415-428 | a stored task leaves the store in no other way, and only from a full store |
| A2ATheorems.EvictionIsMakeRoom | norax/a2a/server.py:415-428 | the eviction loop of a full store is one eviction |
| A2ALocks.OrphanArises | norax/a2a/server.py:430-435 | in any step, the lock entry of a context outlives its stored tasks only when its last one is evicted while the lock is held |
| A2ALocks.OrphanSince | norax/a2a/server.py:430-435 | over every run: an entry without a stored task has been one since such an eviction |
| A2AScenarios.LockOutlivesContext | norax/a2a/server.py:430-435 | a run of seven events behind which nobody holds the lock, no task of the context is stored, and the entry is still there |
| A2ATheorems.LiveTaskIsServed | norax/a2a/server.py:525-529 | while the server is open every non-terminal task is stored and registered with a running, uncancelled worker |
| A2ATheorems.RegisteredUnlessDone | norax/a2a/server.py:561-565 | the registry holds exactly the workers whose `finally` has not run, those dropped before their first step included |
| A2ATheorems.ClosedLeavesOnlyUnstarted | norax/a2a/server.py:809-826 | after `close` all workers have finished, and what is left non-terminal is SUBMITTED with a worker dropped before its first step |
| A2AClose.ClosingStep | norax/a2a/server.py:546-565 | while `close` waits, every step keeps which live tasks have a worker that never ran, except the cancellation of the task |
| A2AClose.CloseLeavesExactly | norax/a2a/server.py:809-826 | a task is non-terminal when `close` ends exactly if, when it was called, the task was live with a worker before its first step, and it was not cancelled while `close` waited |
| A2AClose.CloseEndsAllStarted | norax/a2a/server.py:809-826 | if no live task has a worker before its first step when `close` is called, every task ends terminal |
| A2AScenarios.UnstartedTaskSurvivesClose | norax/a2a/server.py:809-826 | a run of four events that leaves a task SUBMITTED |
| A2AServer.A2ATask.Touch | norax/a2a/server.py:237-239 | sets status and update time and nothing else |
| A2AServer.A2ATask.Complete | norax/a2a/server.py:241-251 | sets the result, clears the error, completes |
| A2AServer.A2ATask.Fail | norax/a2a/server.py:253-257 | clears the result, sets the error, fails |
| A2AServer.NoraxA2AServer.OldestTerminal | norax/a2a/server.py:417-425 | the scan finds the terminal task that is first by (updated_at, id), or that there is none |
| A2AServer.NoraxA2AServer.PruneContextLock | norax/a2a/server.py:430-435 | the objects take the protocol's pruning step |
| A2AServer.NoraxA2AServer.MakeSpace | norax/a2a/server.py:415-427 | the objects take the protocol's eviction step |
| A2AServer.NoraxA2AServer.SendNewMessage | norax/a2a/server.py:517-529 | the objects take the protocol's step for a message without a task id, or change nothing when the store refuses |
| A2AServer.NoraxA2AServer.SendToTask | norax/a2a/server.py:481-516 | the objects take the protocol's step for a message that names a task, with its four refusals in order |
| A2AServer.NoraxA2AServer.StartWorker | norax/a2a/server.py:546-547 | the first step of a worker, or its drop when it was cancelled before |
| A2AServer.NoraxA2AServer.AcquireSlot | norax/a2a/server.py:547-551 | taking a slot, touching the task and looking the lock up or creating it |
| A2AServer.NoraxA2AServer.AcquireLock | norax/a2a/server.py:552-553 | taking the context lock and opening the reply |
| A2AServer.NoraxA2AServer.AbandonWait | norax/a2a/server.py:556-565 | a cancellation that arrives during a wait |
| A2AServer.NoraxA2AServer.EndTurnOf | norax/a2a/server.py:552-565 | the objects take the protocol's step for the end of a turn in each outcome; what that leaves in the task is TurnResult |
| A2AServer.NoraxA2AServer.OutboundSend | norax/a2a/server.py:299-314 | a `send` reaches only the reply it names |
| A2AServer.NoraxA2AServer.CancelTask | norax/a2a/server.py:579-604 | the refusals of `cancel_task`, and the marked task and cancelled worker |
| A2AServer.NoraxA2AServer.BeginClose | norax/a2a/server.py:809-818 | `close` up to its wait |
| A2AServer.NoraxA2AServer.FinishClose | norax/a2a/server.py:819-826 | the rest of `close` |
| A2APaging.ResultSet | norax/a2a/server.py:626-630 | the result set holds every matching task exactly once, the most recently updated first and by id where two were updated at once |
| A2APaging.FollowFrom | norax/a2a/server.py:631-644 | from any valid token the pages are the tasks still to come, cut into pages |
| A2APaging.WalkVisitsAll | norax/a2a/server.py:608-644 | a client that calls `list_tasks` with each nextPageToken, over an unchanged store, comes to an end and has seen every matching task exactly once, in (-updated_at, id) order, for any page size |
| A2APaging.TotalIsMatching | norax/a2a/server.py:641 | totalSize of every page is the number of stored tasks that match |
| A2APaging.TokenRefused | norax/a2a/server.py:632-636 | a token is refused exactly when no matching task has that id |
| ContextTrim.EstimateChars | norax/gateway_proxy.py:254-266 | the loop computes the estimate, which EmptyCosts and EstimateGrows determine |
| ContextTrim.EmptyCosts | norax/gateway_proxy.py:257 | a message without text, parts and tool calls costs 32 |
| ContextTrim.EstimateGrows | norax/gateway_proxy.py:258-265 | every character added to the text of a message, to the text or content of one of its parts, or to its printed tool calls adds one to the estimate of the whole conversation |
| ContextTrim.SystemsAndRest | norax/gateway_proxy.py:281-282 | taking the system messages out loses no message and adds none |
| ContextTrim.Payload.TrimMessages | norax/gateway_proxy.py:269-320 | returns, raises and rewrites the messages as the specification says, and touches nothing else of the payload |
| ContextTrim.SplitUnits | norax/gateway_proxy.py:289-302 | the units are each tool request with the results right behind it, or single messages |
| ContextTrim.UnitsFlatten | norax/gateway_proxy.py:289-302 | the units are a partition of the conversation in order |
| ContextTrim.SelectNewest | norax/gateway_proxy.py:304-311 | the backward scan selects the suffix of units the specification names |
| ContextTrim.FirstKeptIsLongest | norax/gateway_proxy.py:304-311 | the suffixes that fit are exactly those from the first kept unit on |
| ContextTrim.TrimmedKeepsLongestSuffix | norax/gateway_proxy.py:281-320 | after trimming: all system messages in order, the notice, and the longest suffix of whole units that fits; at least one unit is dropped and the newest kept |
| ContextTrim.TrimmedFits | norax/gateway_proxy.py:269-320 | the trimmed payload fits, and a second call changes nothing and returns False |
| ContextTrim.OutcomesExactly | norax/gateway_proxy.py:278-320 | each of the four outcomes happens exactly under its own condition, and all but the trim leave the messages unchanged |
| ContextTrim.UnitSuffixPaired | norax/gateway_proxy.py:286-302 | cutting a well-paired conversation at a unit boundary orphans no tool result |
| ContextTrim.PairedRest | norax/gateway_proxy.py:281-282 | taking the system messages out separates no result from its call |
| ContextTrim.TrimKeepsPairing | norax/gateway_proxy.py:269-320 | if every tool result stood behind its assistant call before trimming, it still does |
| SseFraming.ParseStream | norax/gateway_proxy.py:337-357 | the loop over blocks computes the frames |
| SseFraming.ParseBlock | norax/gateway_proxy.py:341-355 | the loop over lines computes a block's event type and data lines |
| SseRoundTrip.EndingsIrrelevant | norax/gateway_proxy.py:337 | any text reads the same under uniform LF, CRLF or CR line endings |
| SseRoundTrip.RoundTrip | norax/gateway_proxy.py:337-357 | printing any list of frames and parsing it gives the list back, under any of the three line endings |
| SseRoundTrip.FieldForms | norax/gateway_proxy.py:346-350 | the space behind the colon of a field is optional, and so is the colon of a field without a value |
| SseRoundTrip.CommentsIgnored | norax/gateway_proxy.py:344-345 | a line that starts with a colon changes nothing |
| SseAggregate.AggregateItems | norax/gateway_proxy.py:358-483 | the mutable per-index states refine the projection: each choice is a function of its own deltas, output indices are increasing and exactly those seen, the first bad event decides the error; CompletesIff, FirstErrorIsRaised, Determined and CompletionRoundTrip say what that relation means |
| SseAggregate.AggregateStream | norax/gateway_proxy.py:323-483 | the same from raw bytes, behind framing and the end marker |
| SseAggregate.AddTools | norax/gateway_proxy.py:421-453 | the tool-call loop: arguments concatenate per tool index, id, type and name are last-writer, the first bad call is the error |
| SseStates.StatesOfAppend | norax/gateway_proxy.py:393-411 | a delta changes the state of its own index only |
| SseAggregate.ItemsStop | norax/gateway_proxy.py:358-393 | the first error ends the reading; nothing behind it matters |
| SseAggregate.SortKeys | norax/gateway_proxy.py:458-460 | the keys come out strictly increasing and complete |
| SseTheorems.SwapDisjoint | norax/gateway_proxy.py:387-457 | swapping neighbouring deltas of disjoint indices changes no choice |
| SseTheorems.SwapEvents | norax/gateway_proxy.py:387-457 | swapping neighbouring events that touch disjoint indices leaves every choice, and any later error, unchanged |
| SseTheorems.EndingsKeepItems | norax/gateway_proxy.py:337-357 | the line endings of the stream do not change what is aggregated |
| SseCompletions.CompletesIff | norax/gateway_proxy.py:358-456 | a stream becomes a completion exactly when every event is an object that reports no error, every choice, delta and tool call has fields of the right type, and some event holds a choice |
| SseCompletions.FirstErrorIsRaised | norax/gateway_proxy.py:361-390 | behind readable events, an event of type error or with an error field is raised with the message of the upstream, one that is no JSON, no object or has no list of choices with its own error, and nothing behind it matters |
| SseCompletions.Determined | norax/gateway_proxy.py:456-483 | the events determine the completion or the error: any two results of the aggregation are equal |
| SseCompletions.CompletionRoundTrip | norax/gateway_proxy.py:406-483 | any completion, sent as a single event, is aggregated to itself in every field |
| SseCompletions.AggregationSettles | norax/gateway_proxy.py:323-483 | whatever the stream was, aggregating its completion again changes nothing |
| SseCompletions.CutsDoNotMatter | norax/gateway_proxy.py:406-455 | a delta may be cut in two anywhere: a choice depends on the text of its deltas, not on how it is cut up |
| SseCompletions.ToolCutsDoNotMatter | norax/gateway_proxy.py:421-453 | so may the pieces of one tool call |
| SseCompletions.MetaIsLast | norax/gateway_proxy.py:378-385 | id, model, created and usage of the completion are those of the last event that has them |
| SseCompletions.MarkerSkipped | norax/gateway_proxy.py:359-360 | the end marker, also between spaces, is not decoded and ends nothing |
| StreamRetry.ReadBody | norax/gateway_proxy.py:178-186 | a body is refused exactly when it exceeds the limit |
| StreamRetry.Forward | norax/gateway_proxy.py:1035-1049 | one attempt delivers its non-empty chunks up to the first that exceeds the limit |
| StreamRetry.RunAttempt | norax/gateway_proxy.py:1007-1122 | one pass of the loop retries exactly the attempts RetryableIff names and otherwise answers with the frame TailTellsWhy explains |
| StreamRetry.Generate | norax/gateway_proxy.py:1001-1126 | the retry loop is the specification, of which RepeatedIff, ClientIsTold and OutputShape say what it means; the frame after the loop is unreachable |
| StreamRetry.Serve | norax/gateway_proxy.py:1006 | at most `MAX_RETRIES` + 1 requests |
| StreamTheorems.NoReplay | norax/gateway_proxy.py:1001-1126 | no request follows a delivered byte: an attempt that is followed by another was not reached, got a status of at least 500, or broke off, and delivered nothing |
| StreamTheorems.RetryableIff | norax/gateway_proxy.py:1022-1117 | an attempt may be repeated exactly when it was not reached for want of the network, answered with at least 500 or broke off in an error body within the limit, or streamed no byte and ended well or broke off |
| StreamTheorems.RepeatedIff | norax/gateway_proxy.py:1006-1117 | both directions over a whole run: attempt j is followed by another request exactly when a retry is left and every attempt up to it failed so and was paused behind without cancellation |
| StreamTheorems.ClientIsTold | norax/gateway_proxy.py:1031-1122 | behind what was delivered stands a frame of the kind that the last attempt explains (too large, timeout, proxy error, its status, no data), or none because that attempt delivered a whole stream or was cancelled |
| StreamTheorems.TailTellsWhy | norax/gateway_proxy.py:1031-1122 | the same of a single attempt |
| StreamTheorems.BytesInOrder | norax/gateway_proxy.py:1039-1052 | the bytes delivered are a beginning of the bytes that arrived, within the limit, and all of them when they fit |
| StreamTheorems.AcceptedIsLongest | norax/gateway_proxy.py:1042-1050 | the chunks taken are the longest beginning within the limit |
| StreamTheorems.OutputShape | norax/gateway_proxy.py:1001-1126 | the output is whole chunks of one attempt, in order and within `MAX_RESPONSE_BYTES`, and at most one error frame, separated exactly when bytes precede it |
| StreamTheorems.SilentOutput | norax/gateway_proxy.py:1051-1076 | unless cancelled, an output without an error frame is one whole stream with data |
| StreamTheorems.BodyIsPrefix | norax/gateway_proxy.py:1035-1049 | what an attempt delivers is a prefix of its non-empty chunks |
| EventChain.SkipLine | norax/verify_event_chain.py:102-104 | the nested reads end, exactly behind the over-long line |
| EventChain.CheckLine | norax/verify_event_chain.py:102-193 | the body of the read loop: what one physical line adds |
| EventChain.CheckRecord | norax/verify_event_chain.py:124-193 | the recovery rules of one record: which fields are followed, which error is noted first |
| EventChain.ReadLog | norax/verify_event_chain.py:93-193 | the bounded reader checks exactly the physical lines, numbered from one, up to the limit |
| EventChain.VerifySingleFile | norax/verify_event_chain.py:42-217 | the whole check, its early errors included |
| EventChainTheorems.LinesCover | norax/verify_event_chain.py:95-104 | the physical lines concatenate to the content, and each ends at its only newline |
| EventChainTheorems.LinesUnique | norax/verify_event_chain.py:95-104 | no other list of lines does |
| EventChainTheorems.ScanCounts | norax/verify_event_chain.py:59-61 | valid + corrupt == records always, every non-blank line is one record, and an error is reported exactly when one is corrupt |
| EventChainTheorems.TailIsHash | norax/verify_event_chain.py:64 | the tail hash is always a valid anchor |
| EventChainTheorems.LimitedIsPrefix | norax/verify_event_chain.py:100-101 | a limited check is the full check of a prefix of lines holding at most `limit` records |
| EventChainTheorems.ScanIffClean | norax/verify_event_chain.py:135-193 | nothing is counted corrupt exactly when every record is well formed, hashes to its stored hash and links to its predecessor or the anchor |
| EventChainTheorems.CleanTail | norax/verify_event_chain.py:136-139 | over a clean log the reported tail is the last hash and the root the first prev_hash |
| EventChainTheorems.OkIffClean | norax/verify_event_chain.py:205-217 | a file passes exactly when it can be read, holds a record, and is clean |
| EventChainTheorems.TailFixesHistory | norax/verify_event_chain.py:162-175 | of two verified logs with one tail hash the shorter is a suffix of the longer, unless the hash collides |
| EventChainTheorems.ForgeryIsLocated | norax/verify_event_chain.py:162-193 | changing the bodies of k records of a clean log gives exactly k corrupt records, and the first error names the first changed line |
| EventChainTheorems.LogLinesJoin | norax/verify_event_chain.py:95-104 | contents that end in a newline can be joined without changing a line |
| EventGenerations.RotationNames | norax/verify_event_chain.py:220-231 | every name made of a stamp and an optional suffix parses to its sort key |
| EventGenerations.OnlyRotationNames | norax/verify_event_chain.py:220-231 | no other name parses |
| EventGenerations.KeyOrder | norax/verify_event_chain.py:228-254 | sort keys, old and new, order as the times they denote |
| EventGenerations.KeyOrderIsTimeOrder | norax/verify_event_chain.py:254 | the files are visited in time order, each once |
| EventGenerations.ListingIrrelevant | norax/verify_event_chain.py:237-254 | unless two rotations share a time, the order of the directory listing does not matter |
| EventGenerations.CheckFiles | norax/verify_event_chain.py:297-311 | the loop hands each tail on as the next anchor and adds up totals |
| EventGenerations.VerifyAllGenerations | norax/verify_event_chain.py:234-353 | the whole directory check, its early errors included, is the function that GenerationsIffOneHistory and VerifiedReports are about |
| EventGenerations.ChainIsOneLog | norax/verify_event_chain.py:297-308 | all files pass exactly when each holds a record and their lines, joined in order, are one clean log |
| EventGenerations.ChainIsOneFile | norax/verify_event_chain.py:297-308 | when every file but the last ends its last line and the joined contents are not too large, all files pass exactly when each holds a record and the joined contents pass as one file |
| EventGenerations.ChainTail | norax/verify_event_chain.py:298-311 | the tail handed on behind n files is the last hash of their concatenation |
| EventGenerations.GenerationsIffOneHistory | norax/verify_event_chain.py:234-353 | a directory verifies exactly when its rotations are not too many and well named, every one of them and the current log hold a record, all their lines in time order, those of the current log last, are one clean history, and the anchor names the latest rotation and its last hash |
| EventGenerations.GenerationsInTimeOrder | norax/verify_event_chain.py:254-333 | the same for any listing of the rotations in time order, if no two share a time |
| EventGenerations.VerifiedReports | norax/verify_event_chain.py:297-341 | a verified directory reports the number of records of that history, none corrupt, its first prev_hash and its last hash |
| ElementMatching.CompatibleSymmetric | tools/cv_fusion.py:248-256 | role compatibility is symmetric |
| ElementMatching.MatchHasEvidence | tools/cv_fusion.py:585-591 | every match has positive evidence, so one is always chosen when there is one |
| ElementMatching.EvidenceIsBest | tools/cv_fusion.py:585-591 | the evidence is the better of the overlap and, for centres at most 50 px apart, the text similarity |
| ElementAreas.IouIsShare | tools/cv_fusion.py:190-207 | the overlap of two elements is the share of the pixels of either that lie in both |
| ElementMatching.CloseIsSeen | tools/cv_fusion.py:564-571 | centres at most 96 px apart on both axes are in adjacent cells |
| ElementMatching.NearExactIsSeen | tools/cv_fusion.py:564-587 | the lookup never misses a near-exact text match |
| ElementMatching.TextOverlapSeenIff | tools/cv_fusion.py:564-586 | every pair with an overlap of 0.15 and sides up to m is seen exactly when m <= 131 |
| ElementMatching.StrongOverlapSeenIff | tools/cv_fusion.py:564-585 | every pair with an overlap of 0.5 and sides up to m is seen exactly when m <= 289 |
| ElementMatching.SmallMatchIsSeen | tools/cv_fusion.py:564-589 | with no side over 131 px no match is missed |
| ElementFusion.Neighbours | tools/cv_fusion.py:563-571 | over an exact grid the nine lookups give exactly the bounded elements in adjacent cells |
| ElementFusion.GridAppend | tools/cv_fusion.py:610-612 | a new element keeps the grid exact: each bounded element in the cell of its centre and nowhere else |
| ElementFusion.BestMatch | tools/cv_fusion.py:573-593 | in any order of candidates the choice is a match of maximal evidence, or there is no match |
| ElementFusion.UnifiedElement.Merge | tools/cv_fusion.py:615-629 | the merged element's fields |
| ElementFusion.CVFusion.MergeElements | tools/cv_fusion.py:546-631 | the result is that of a run of allowed decisions over the sorted inputs, on distinct fresh objects numbered in order |
| ElementTheorems.SortedInputs | tools/cv_fusion.py:548-551 | sorting loses no input |
| ElementTheorems.TrustedFirst | tools/cv_fusion.py:548-555 | the most trusted sources come first, also behind the cap |
| ElementTheorems.SourceOrderKept | tools/cv_fusion.py:548-551 | the inputs of one source stay in their order |
| ElementTheorems.CreationsCounted | tools/cv_fusion.py:595-610 | one element per creation, at most 2000 |
| ElementTheorems.Provenance | tools/cv_fusion.py:595-629 | each element is the blend of exactly the inputs put into it |
| ElementTheorems.BlendKeepsFirst | tools/cv_fusion.py:615-629 | role and box come from the first input; value, state and app from the first that has one; all sources are kept |
| ElementTheorems.BlendName | tools/cv_fusion.py:616-619 | the name is that of the first input that has one or, if that has fewer than 5 characters, of the first text recognition behind it that offers more than 5 |
| ElementTheorems.BlendConfidence | tools/cv_fusion.py:606-627 | confidence grows by 0.15 a source up to one; one actionable input is enough |
| ElementTheorems.SourcesDistinct | tools/cv_fusion.py:580 | the sources of an element are pairwise distinct |
| ElementTheorems.GroupAgrees | tools/cv_fusion.py:573-591 | every input of an element has a role compatible with the first one, and overlaps it by at least 0.15 or has its centre at most 10 px away |
| ElementTheorems.InputsConserved | tools/cv_fusion.py:555-631 | every input taken, so not those beyond the cap of 5000, is one source of one element or was dropped |
| ElementTheorems.AllInputsAccounted | tools/cv_fusion.py:546-631 | over the whole list: sources, dropped inputs and inputs beyond the cap add up to all inputs |
| ElementTheorems.DroppedOnlyWhenFull | tools/cv_fusion.py:595-597 | inputs are dropped only when 2000 elements exist |
| ElementTheorems.GroupInOrder | tools/cv_fusion.py:548-555 | within an element the most trusted input comes first |
| ElementTheorems.GridIsFullScan | tools/cv_fusion.py:561-593 | with no side over 131 px every decision is one a full scan may take |
| ElementTheorems.WideInputsStayApart | tools/cv_fusion.py:561-593 | two inputs of one text with sides up to 132 px that stay apart although a full scan would merge them |
| ElementTheorems.NearExactNeverMissed | tools/cv_fusion.py:561-593 | whatever the sizes, an input with a near-exact text match is merged, with at least its evidence |
| CronSchedule.CalendarIsFirstDue | norax/adapter/cron_in.py:149-176 | daily, hourly and weekly schedules give the first due instant after now, at most one period ahead, and are refused exactly when malformed |
| CronSchedule.DueOnWallClock | norax/adapter/cron_in.py:149-173 | being due means the required weekday, hour and minute and no seconds |
| CronSchedule.DayNames | norax/adapter/cron_in.py:50-68 | the first three letters of a weekday name it, and nothing else does |
| CronSchedule.WholeStepIsNaive | norax/adapter/cron_in.py:133-147 | for whole microseconds the constant-time catch-up is the loop it replaced |
| CronSchedule.NaiveIffWhole | norax/adapter/cron_in.py:129-147 | it is that loop for every delay exactly for whole microseconds |
| CronSchedule.AfterIffNotRoundedDown | norax/adapter/cron_in.py:129-147 | it lands after now for every delay exactly when the interval is not rounded down |
| CronSchedule.RoundedDownFallsBehind | norax/adapter/cron_in.py:136-146 | for an interval rounded down, a delay behind which it stays in the past |
| CronSchedule.RoundedUpOvershoots | norax/adapter/cron_in.py:136-146 | for an interval rounded up, a delay behind which it skips a grid point |
| CronSchedule.CorrectionIsDead | norax/adapter/cron_in.py:144-146 | for whole microseconds the boundary correction never applies |
| CronSchedule.CatchUpStaysOnGrid | norax/adapter/cron_in.py:133-147 | any interval moves by whole intervals, at least one when due |
| CronAdapter.ValidIffComputes | norax/adapter/cron_in.py:124-179 | whether a schedule is refused depends on the schedule alone |
| CronAdapter.Adapter.ScheduleInitial | norax/adapter/cron_in.py:254-267 | all jobs are scheduled, or none when one schedule is invalid |
| CronAdapter.Adapter.Tick | norax/adapter/cron_in.py:333-346 | each due job fires once and is rescheduled from its nominal time; no other job changes; the queue and the count follow |
| CronTheorems.FiringAdvances | norax/adapter/cron_in.py:339-345 | firing moves the nominal time forward; not firing leaves the job alone |
| CronTheorems.FiresAfterDraw | norax/adapter/cron_in.py:269-276 | a rescheduled job fires from its nominal time plus the drawn delay on |
| CronTheorems.FiresInWindow | norax/adapter/cron_in.py:269-276 | a job never fires before its nominal time, and always at a tick behind it by its jitter |
| CronTheorems.NominalsIncrease | norax/adapter/cron_in.py:333-346 | over any clock readings and jitter, nominal times strictly increase with every firing |
| CronTheorems.NominalsOnGrid | norax/adapter/cron_in.py:333-346 | jitter causes no drift: nominal times stay on the grid, one grid point or more per firing |
| CronTheorems.IntervalJobFromStart | norax/adapter/cron_in.py:254-276 | the first nominal time is one interval behind the start, and all of them are start + n * interval |
| CronTheorems.CalendarJobReschedules | norax/adapter/cron_in.py:343 | a calendar job that fires is rescheduled to its first due instant after the clock reading |
| CronTheorems.IntervalJobReschedules | norax/adapter/cron_in.py:343 | an interval job of whole microseconds is rescheduled to the first grid point after the clock reading |
| CronTheorems.QueueBounded | norax/adapter/cron_in.py:370-373 | the queue keeps its order, never exceeds 256, and drops only what does not fit |
| CronTheorems.QueueFromFired | norax/adapter/cron_in.py:348-373 | a tick puts nothing into the queue but envelopes of jobs that fired in it |
| AppendFile.LogFile.AppendBounded | norax/atomic.py:198-252 | one call: each refusal with its exact condition and no effect, the exact size on success whatever the short writes, a strict prefix after a failed write |
| AppendTheorems.ExclusiveKept | norax/atomic.py:212-230 | every step keeps the path lock per process and the file lock exclusive |
| AppendTheorems.ContentKept | norax/atomic.py:231-242 | every step keeps the file the initial content, finished texts in lock order and the holder's part |
| AppendTheorems.RunKeeps | norax/atomic.py:187-252 | over every interleaving of appenders both hold, and the file never exceeds `max_bytes` |
| AppendTheorems.OnlyWritesChange | norax/atomic.py:237-241 | in one step, only a write by the holder of the file lock changes the file |
| AppendTheorems.RejectedAppendNothing | norax/atomic.py:206-235 | over every run, nothing in the file comes from a rejected caller |
| AppendTheorems.RejectedIff | norax/atomic.py:198-235 | over every run, a caller is rejected exactly when its arguments were refused, the file it opened was not regular, or its text did not fit behind the content it met under the file lock |
| AppendTheorems.RunOutcomes | norax/atomic.py:237-244 | a returned size is exact; a caller that returned wrote its whole text once, one whose write failed a strict prefix |
| AppendTheorems.FinishedIsLogged | norax/atomic.py:237-244 | every caller that returned or failed is in the lock order |
| AppendTheorems.NeverStuck | norax/atomic.py:212-252 | no deadlock between the two locks |
| AppendTheorems.RunsEnd | norax/atomic.py:236-241 | every run ends, however short the writes |
| CreateOnceTheorems.OnceKept | norax/atomic.py:152-184 | every step keeps the target the original one or the whole data of its one installer |
| CreateOnceTheorems.OneCreator | norax/atomic.py:138-184 | at most one caller returns True, and the target is its whole data; none does when the target existed |
| CreateOnceTheorems.ExactlyOneCreator | norax/atomic.py:138-184 | when all callers return without an error and the target was new, exactly one returns True |
| CreateOnceTheorems.TargetIsFinal | norax/atomic.py:165-168 | once there, the target is the same at every later point of the run |
| CreateOnceTheorems.CreatorsNeverStuck | norax/atomic.py:152-174 | no deadlock among creators |
| OverlapCells.IntersectionIsShared | tools/dmap.py:414-418 | the intersection of two boxes is the number of pixels that lie in both |
| OverlapCells.CountsAreAreas | tools/dmap.py:407-419 | areas and intersections are the numbers of pixels of the boxes and of what they share |
| OverlapSuppression.Overlaps | tools/dmap.py:412-421 | the inner loop finds whether any kept box overlaps too much, which CountsAreAreas states in pixels |
| OverlapSuppression.Suppress | tools/dmap.py:482-499 | the passes compute the greedy selection over the sorted boxes |
| OverlapSuppression.SuppressButtons | tools/dmap.py:406-424 | at the limit 0.35: only inputs are kept, no two of them share too many pixels, every other input is hidden by a kept one at least as large, and a second pass changes nothing |
| OverlapSuppression.SuppressStructure | tools/dmap.py:482-499 | the same at the limit 0.5 |
| OverlapSuppression.SortDescends | tools/dmap.py:407 | the order is by area, largest first, and loses nothing |
| OverlapSuppression.SortStable | tools/dmap.py:407 | boxes of one area keep their order |
| OverlapSuppression.KeptApart | tools/dmap.py:406-424 | any two kept boxes share at most the limit times the pixels of the smaller |
| OverlapSuppression.NothingLost | tools/dmap.py:406-424 | every dropped box shares more than the limit of its own pixels with a kept box that has at least as many |
| OverlapSuppression.OnlyInputs | tools/dmap.py:406-424 | nothing is added: the kept boxes are inputs, each no more often than in the input |
| OverlapSuppression.Idempotent | tools/dmap.py:406-424 | running the pass again changes nothing |
| BurnIn.Collect | scripts/burnin_monitor.py:91-104 | the loop accepts timestamps up to the first bad one |
| BurnIn.EvaluateStatus | scripts/burnin_monitor.py:86-137 | the three gates that concern time |
| BurnIn.TimestampsLead | scripts/burnin_monitor.py:93-104 | accepted timestamps are the leading samples, strictly increasing and within the campaign |
| BurnIn.FromIsSuffix | scripts/burnin_monitor.py:109 | the samples in reach of the window are the last ones |
| BurnIn.GapsIffTrailing | scripts/burnin_monitor.py:114-119 | the gap conditions hold exactly when every instant from the first sample to now has a sample in the 180 seconds before it |
| BurnIn.ObservedIffCovered | scripts/burnin_monitor.py:108-120 | the gate as continuous coverage, both directions |
| BurnIn.ObservedCovers | scripts/burnin_monitor.py:108-120 | a passed gate leaves no instant of the window without a sample within 180 seconds, and the campaign has lasted 72 hours less 180 seconds |
| BurnIn.StaleSampleCloses | scripts/burnin_monitor.py:108-120 | a stale sample just before the window keeps an open gate open exactly when the next is within 180 seconds of it |
| BurnIn.CoveredButRefused | scripts/burnin_monitor.py:108-120 | a covered window the gate refuses |

## Left out

- HTTP, JSON-RPC, FastAPI and httpx plumbing, headers and authentication: I/O and library behaviour.
- Message parsing and identifier validation of the task server: task ids are distinct numbers in the order of their strings, contexts and texts are given.
- `get_task`, `task_snapshot`, the legacy methods and the agent card: they only read.
- The runtime turn `_handle_turn`: an adversarial step that may send chunks, return, raise or observe cancellation.
- A caller that waits for its task (`returnImmediately` false): waiting changes no state.
- Fairness of the scheduler: NeverDeadlocked and WorkersDrain hold under every scheduler, but a turn that never ends keeps its slot.
- White space outside ASCII in `strip`: only the ASCII characters are stripped.
- JSON decoding in the aggregator: an event is given as the fields the code looks at, with a case for each malformed shape.
- The text of upstream error messages and their length limits: only the kind of the frame is kept.
- `_non_stream_response`: its retry loop has the rule of the streaming one without delivery.
- A client that disconnects while bytes are being delivered: the generator then simply stops.
- Anthropic conversion: it would only add branches.
- Failures in the middle of reading an event log, and the detail text of JSON errors.
- `EventGenerations.RotationStamp`: digits are ASCII digits, though the expression in the source also accepts other decimal digits.
- Reading and parsing the anchor file: it is absent, unparsable or a name and a hash.
- Collecting elements from the accessibility tree, the browser and OCR, and the visual hints: the inputs of the merge are given.
- The order in which a set of candidate indices is visited: ties between equal evidence are left open, and every theorem holds for each choice.
- Floating-point rounding of ratios, similarities and confidence.
- Parsing of `HH:MM`, weekday and number strings, time zones with daylight saving and dates out of range.
- The asynchronous loop, `events` and `stop` of the cron adapter.
- `atomic_write_text` and the bounded readers: a single rename, and reads.
- File modes, symbolic links, directory creation and a failing `fsync` behind a completed append.
- Contour detection and OCR before the suppression passes.
- `_percentile` and the gates of the burn-in monitor that are plain counts over samples.
