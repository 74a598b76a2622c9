# Mu-CLI: stream, transcript and control logic

This project models the self-contained core of the Mu-CLI agent harness in Dafny and
proves what it is meant to guarantee. Code that works by updating state is a method or a
class here, proved against a function; the laws are lemmas about that function.

- **Streams.** `ThinkSplitter`, `ThinkLoop`, `ThinkStream` and `OllamaReader` follow a
  body from arbitrary reads through newline-framed records and think delimiters to
  visible and thinking text; `OllamaResidue` is about the last record, `Utf8` and
  `OllamaBytes` about cuts inside a character. The reference is one left-to-right split
  of the whole text, `ThinkSegments` says what that is. `Drain` and `DrainLaws` rebuild
  a response from provider-neutral events, `DrainMeaning` reads it off them.
- **Transcripts.** `Anthropic` defines the conversion, `AnthropicConverter` computes it
  in place, `AnthropicProtocol` proves the tool-use protocol for every history,
  `AnthropicReading` reads the transcript off the history. `AnthropicPrefix`,
  `AnthropicReplay`, `AnthropicCache`, `AnthropicReplayPrefix` and `AnthropicMarks`
  prove what prompt caching relies on, without and with thinking replay. `OpenAI`,
  `OpenAILaws`, `OpenAIReading`, `OpenAIFailures` and `OpenAIRepairs` cover the id
  repair, `Replay` the projection that drops opaque replay data.
- **Control.** `Overflow` and `OverflowLaws` are the overflow recovery ladder,
  `OverflowTrace` says which step follows which, `Pressure` is the pressure nudge,
  `Retry` the retry loop with its wait budget.
- **Delegation.** `Delegation` holds the locked sections of the sub-agent registry,
  `DelegationRuns` the state machine of all threads, `SubagentRegistry` the object,
  which takes its steps. `DelegationReplies` relates a published record to the reply,
  `DelegationWorkers` follows the workers, `DelegationLimits` has two guarantees that
  hold only conditionally. `Lifecycle` keeps the progress counters of a sub-agent.
- **Fast forms.** `Visualization` (stack against preorder) and `VisualizationPaths` (the
  nodes by their paths), `Collation` (cached manifest), `LoopDetection` (bounded tail),
  `Pricing` (per request against bulk) and `TokenEstimator` (sliced counting).

Where a loop is proved against a function, the function is tied to the source a second
time: what the result says is stated on the input alone, part by part, event by event or
path by path, without naming the function.

JSON decoding, hashing, tokenizing, `str()` rendering and the provider call are function
parameters. Text is a sequence of characters, money and seconds are reals. An environment
that may answer differently each time is a function of how much has happened. Clocks and
random jitter are parameters.

Where the code departs from its own documentation, the model follows the code:

- The think carry is the longer partial of both delimiters (`providers/ollama.py:950-957`)
  while the splitter withholds only the one it looks for (`providers/ollama.py:170-198`).
  Chunk independence therefore fails in general; `ThinkStream.ChunkIndependenceIff` gives
  the exact condition on the cuts and `ThinkStream.ChunkDependenceExample` a failing input.
- `extract_visualization` pushes wrapper keys first and so visits them last, although the
  comment says they come first (`mu/artifact/history.py:82-101`).
- A final record without a newline is parsed only for an error or `done`; its content is
  not delivered, although the comment calls it a valid record
  (`providers/ollama.py:991-1019`). `OllamaResidue.NewlineMattersIff` says exactly when
  that shows, `OllamaResidue.LostContentExample` is the smallest case.
- Records may be split anywhere between reads, but each read is decoded on its own
  (`providers/ollama.py:912`). Only a cut inside a character matters
  (`Utf8.ReadsDecodeIff`), and such a cut does (`OllamaBytes.CutCharacterExample`).
- The second history mark is meant to be the position the previous request wrote
  (`providers/anthropic.py:709-711`); it is exactly if that request's history ended on the
  user side (`AnthropicMarks.SecondMarkIsPreviousFirstIff`).
- A signal callback is described as running under the lock; it is called after the lock is
  left (`mu/agent/lifecycle.py:124-154`).
- The prefix of an Anthropic request is stable only if no call is open
  (`AnthropicPrefix.PrefixStableIff`): the placeholder of an open call changes later. With
  replay it is stable only if no thinking is replayed besides
  (`AnthropicReplayPrefix.ReplayPrefixStableIff`).
- A shutdown is final, and a kill hits only its target, exactly under the conditions of
  `DelegationLimits.ShutdownIsFinalIff` and `DelegationLimits.KillsHitTargetsIff`. The
  reset of the cancel flag before a task is registered does not prevent it
  (`DelegationLimits.WindowKillHitsNextTask`).
- Two repaired OpenAI results can share an id (`OpenAIRepairs.SharingExample`). Which
  messages allow that is `OpenAIRepairs.RepairsStayDistinctIff`: an explicit id called in
  two of them is necessary but not sufficient (`OpenAIRepairs.TwiceCalledExample`).
- Per-request pricing is bounded by bulk pricing only when no effective long-tier rate is
  lower (`Pricing.NeverExceedsIff`).

## Model

| member | source | states |
|---|---|---|
| ThinkLoop.SplitThinkBlocks | providers/ollama.py:158-200 | The loop over one chunk delivers the leftmost-delimiter split of the chunk, less exactly the longest partial delimiter (of the state it ends in) at its end, and reports the state it ends in. |
| ThinkSplitter.PartialSuffixLen | providers/ollama.py:203-212 | The result is a proper prefix of the delimiter at the end of the text, and no longer one exists. |
| ThinkLoop.CutIsShown | providers/ollama.py:170-198 | Looking for a partial delimiter only behind the last complete one, as the loop does, finds the longest one at the end of the whole chunk. |
| ThinkSplitter.SplitCompose | providers/ollama.py:158-200 | The leftmost-delimiter split may be computed in two parts at any place that no delimiter of the state reached there lies across: the second part continues in that state. |
| ThinkSplitter.SplitExtends | providers/ollama.py:170-198 | A tail without `>` that covers what is withheld can be handed to the next chunk without changing the split of the whole. |
| ThinkStream.StateIsReference | providers/ollama.py:938-961 | After any chunks the loop's think state is that of the whole text, and its carry is the longer partial delimiter at the end of the whole text, although the loop only looks at the carry and the last chunk. |
| ThinkStream.EmittedLength | providers/ollama.py:938-961 | Text and thinking emitted, with the final flush, are as long as the split of the whole text plus the characters carried at some cut without having been withheld. |
| ThinkStream.CarryIsWithheldIff | providers/ollama.py:950-957 | The carry is what the splitter withheld if and only if the partial of the other delimiter is at most `<`; otherwise it is longer. |
| ThinkStream.ExtraIsZeroIff | providers/ollama.py:938-961 | Nothing is emitted twice if and only if every cut is clean in that sense. |
| ThinkStream.ExactWithoutExtra | providers/ollama.py:938-961 | Without repeated characters the stream delivers exactly the split of the whole text. |
| ThinkStream.ChunkIndependenceIff | providers/ollama.py:158-215 | For every chunking: the text, thinking and end state delivered equal the leftmost-delimiter split of the concatenation if and only if every cut is clean. |
| ThinkStream.UncleanCutWithholdsNothing | providers/ollama.py:950-957 | At an unclean cut nothing was withheld: the whole carry, more than one character, has been emitted and will be again. |
| ThinkStream.UncleanCutSpoils | providers/ollama.py:938-961 | One unclean cut makes the delivery differ from the split of the whole, whatever the next chunk is. |
| ThinkStream.ChunkDependenceExample | providers/ollama.py:950-957 | With the real delimiters the text `</x` cut after `</` is not delivered as it is when it comes in one chunk. |
| ThinkSegments.SplitIsSegments | providers/ollama.py:158-200 | The reference without the search: a text is a sequence of segments with the delimiters between them, in turn visible and thinking, none holding the delimiter that would end it; text and thinking are the segments of each kind put together. |
| OllamaReader.EmitContent | providers/ollama.py:938-961 | One record's content: the deltas yielded, the new carry and the new state are the reference step on the old carry and state. |
| OllamaReader.YieldPieces | providers/ollama.py:958-963 | Empty pieces are dropped, and the pieces yielded join to the same text in the right stream. |
| OllamaReader.FlushCarry | providers/ollama.py:1020-1025 | The remaining carry goes to the stream the think state names, at the end of what was delivered. |
| OllamaReader.LinesExtend | providers/ollama.py:909-911 | Records and remainder after a further read depend only on the records so far, the remainder and the read. |
| OllamaReader.ScanExtends | providers/ollama.py:909-990 | Processing the records of two reads is processing those of the first and then those of the remainder with the second. |
| OllamaReader.DrainBuffer | providers/ollama.py:911-990 | The inner loop processes complete records until one decides or none is left, keeping its view of the body exact. |
| OllamaReader.Stream | providers/ollama.py:903-1031 | Each read is decoded on its own and framed across reads: the text, the thinking and the outcome delivered are one function of the decoded reads put together, and so do not depend on where decoded text is cut. |
| ThinkSegments.DeliveredIsSplit | providers/ollama.py:938-1031 | If the contents are cut cleanly, text and thinking delivered are the split of all contents processed; on a failure they lack exactly the partial delimiter at its end. |
| Utf8.CutIff | providers/ollama.py:912 | Decoding with replacement in two parts gives the decoding of the whole if and only if the cut lies between two characters or maximal invalid sequences; for any bytes. |
| Utf8.ReadsDecodeIff | providers/ollama.py:912 | Decoding any reads one by one gives the body decoded as a whole if and only if every cut between reads lies there. |
| Utf8.DecodeEncode | providers/ollama.py:912 | Decoding inverts encoding, for every text. |
| Utf8.ValidBoundaryIff | providers/ollama.py:912 | In an encoded text those places are exactly the ends of its first i characters. |
| OllamaBytes.CutsDoNotMatter | providers/ollama.py:906-912 | As long as no cut falls inside a character, what the stream delivers and how it ends depend only on the body, however it is cut into reads. |
| OllamaBytes.CutCharacterExample | providers/ollama.py:906-912 | A line of one two-byte character is delivered differently when it is cut between its two bytes. |
| OllamaReader.Decided | providers/ollama.py:985-990 | After a deciding record, no later read changes what was processed or the outcome. |
| OllamaReader.EndsNormallyIff | providers/ollama.py:1064-1071 | The stream ends normally if and only if the first non-blank record that is malformed, an error or done (the unterminated last one counted) is a done record; it is reported as cut short exactly when there is no such record. |
| OllamaResidue.NewlineKeepsOutcomeIff | providers/ollama.py:991-1019 | A newline at the end of the body adds to what is processed exactly the content of the unterminated last record, if no record decided before it; and the outcome stays the same if and only if one did, or that record decides the same with and without the white space around it (it is stripped only without the newline). |
| OllamaResidue.NewlineMattersIff | providers/ollama.py:991-1025 | Adding the newline leaves text, thinking and outcome as they are if and only if the last record decides the same, and its content is empty or changes neither text nor thinking of the split of all contents and allows a clean cut after it. |
| OllamaResidue.PlainRecordIsMissing | providers/ollama.py:991-1019 | A non-empty content without `>` in the unterminated last record is always missing from what is delivered. |
| OllamaResidue.LostContentExample | providers/ollama.py:991-1019 | A body of one done record without a newline ends normally and delivers nothing; with the newline it delivers the content. |
| AnthropicConverter.ConvertMessages | providers/anthropic.py:463-594 | The in-place pass (out, counter, pending) returns the conversion of the history, which is its reading: the turns that group, side by side, everything the messages say. |
| AnthropicConverter.Conversion.Append | providers/anthropic.py:407-425 | Consecutive blocks of one side merge into one turn, tool results going in right after the tool results already there; empty block lists change nothing. |
| AnthropicConverter.Conversion.FlushPending | providers/anthropic.py:482-498 | Every open call gets an error result, in order, and none stays open. |
| AnthropicConverter.Conversion.ToolMessage | providers/anthropic.py:501-540 | Results answer the open calls oldest first; those beyond become user text after them. In a reachable state exactly these blocks are added, at the end. |
| AnthropicConverter.Conversion.AssistantMessage | providers/anthropic.py:545-579 | Calls are numbered on and opened; thinking before the first call leads the turn, later thinking precedes its call. In a reachable state exactly the texts, calls and thinking of the message are added, behind a placeholder for each call left open. |
| AnthropicConverter.Conversion.UserMessage | providers/anthropic.py:581-582 | Any other message closes the open round and adds to a user turn its non-blank texts and native blocks, each with its own value, in order. |
| AnthropicReading.ConversionIsReading | providers/anthropic.py:427-594 | For any history, with and without replay: the blocks of the transcript, with their sides, are read off the messages alone. Each non-blank text, native block, call and result stands there once, in order, with its own value; the rest is placeholders for unanswered calls, the thinking that is kept, and the opening. The turns group neighbours of one side. |
| AnthropicReading.StepIsRead | providers/anthropic.py:500-582 | One message adds exactly what it says, given the calls open before it, and leaves exactly the calls open that it should. |
| AnthropicReading.KeptIsRead | providers/anthropic.py:477-480 | A message keeps its thinking if and only if replay is on, it called a tool and no assistant message follows. |
| AnthropicProtocol.AppendIsPush | providers/anthropic.py:407-425 | Whenever a user turn that receives results holds results only, as in every reachable state, the insertion point is its end: appending never moves a block. |
| AnthropicProtocol.ResultsAnswerByPosition | providers/anthropic.py:504-537 | The k-th result answers the k-th open call with its own payload and media; answering stops only when calls or results run out. |
| AnthropicProtocol.StepKeepsInv | providers/anthropic.py:500-582 | Every message of any kind keeps the protocol invariant: settled turns, consecutive ids, and open calls equal to what the last round still owes. |
| AnthropicProtocol.EveryHistoryConverts | providers/anthropic.py:468-471 | Every history, however broken, converts to a valid transcript: roles alternate and start with user, each assistant turn's tool_use ids are in order exactly the tool_result ids of the next turn, results form a prefix of their turn, no other turn has results, ids are 1..N once each. |
| AnthropicPrefix.StepAppends | providers/anthropic.py:500-582 | A message only ever appends: all earlier blocks stay where and what they are. |
| AnthropicPrefix.OpenCallsIsPending | providers/anthropic.py:475-540 | The calls left open by a history can be counted from its messages alone: those of the last non-tool message less the results after it. |
| AnthropicPrefix.PrefixStable | providers/anthropic.py:7-13 | Without thinking replay and with no open round, the flattened transcript of a history is a prefix of that of every continuation. |
| AnthropicPrefix.OpenRoundIsNotStable | providers/anthropic.py:482-498 | With an open round it is not: the placeholder sent for an unanswered call is replaced when the answer arrives. |
| AnthropicPrefix.PrefixStableIff | providers/anthropic.py:7-13 | The transcript stays a prefix under every continuation if and only if no call of the history is open. |
| AnthropicReplay.ReplayOnlyAddsThinking | providers/anthropic.py:477-480 | Replaying thinking changes nothing but adding thinking blocks: with them removed the transcript is the one without replay. |
| AnthropicReplayPrefix.ReplayPrefixStableIff | providers/anthropic.py:463-480 | With thinking replay, which is the default: the transcript of a history stays a prefix under every continuation if and only if no call is open and the message that keeps its thinking carries none. |
| AnthropicReplayPrefix.KeptThinkingIsNotStable | providers/anthropic.py:477-480 | Thinking that is replayed now is gone after one more assistant message, so the transcript is then no prefix. |
| AnthropicReplayPrefix.ClosedPrefixStable | providers/anthropic.py:556-567 | A closed history keeps its prefix under replay as long as it replays no thinking or no assistant message follows. |
| AnthropicCache.MarkHistoryBreakpoints | providers/anthropic.py:702-738 | At most two marks, never on a thinking block: the last cacheable block before the volatile tail, and the last cacheable block of the nearest earlier user turn; a mark is missing only if no such block exists. |
| AnthropicCache.PreviousUserMark | providers/anthropic.py:726-736 | Only the nearest earlier user turn is looked at, and its last cacheable block is taken. |
| AnthropicCache.FirstMarkIff | providers/anthropic.py:714-724 | The first mark is the last block that is no thinking and, if the transcript ends on the user side, has at least the volatile blocks behind it. |
| AnthropicCache.BuildMarks | providers/anthropic.py:658-697 | A request carries at most four marks. The automatic mark is set exactly when the tail is cached and nothing is volatile; with a volatile tail the history marks are set, and one is missing only if no block qualifies. |
| AnthropicCache.PositionsAreFlat | providers/anthropic.py:714-716 | The j-th position names the j-th block of the flattened transcript. |
| AnthropicMarks.FirstMarkIsLast | providers/anthropic.py:714-725 | With or without replay, the first mark of a request made of a closed history and a tail is the last block of the history's last turn that can be marked. |
| AnthropicMarks.SecondMarkIsPreviousFirstIff | providers/anthropic.py:709-711 | One assistant and tool round after a request, the second mark of the next request is the position of the previous request's first mark if and only if that one's history ended on the user side; with or without replay. |
| AnthropicCache.TailAddsItsBlocks | providers/anthropic.py:719-720 | A closed history followed by a user message flattens to the history's blocks followed by exactly that message's blocks. |
| AnthropicReplayPrefix.MarkedPrefixReappearsIff | providers/anthropic.py:707-711 | With replay, for a closed history and a tail with as many blocks as announced: the prefix up to and including the first history mark is found unchanged in a later request if and only if no thinking was replayed or no assistant message has come since. |
| Replay.ReplayKeepIndices | providers/base.py:112-131 | The indices kept are exactly: none; the last assistant message if it called tools; or the assistant messages with no answered user turn opened after them. |
| Replay.ProjectReplay | providers/base.py:134-154 | The loop strips a signature exactly where the scope does not keep it or the part is a tool result, and changes nothing else. |
| Replay.ProjectionStripsExactly | providers/base.py:134-155 | A part keeps its signature if and only if its message is kept and it is no tool result; nothing else of any part changes. |
| Replay.TurnEndsIff | providers/base.py:121-131 | An answered user message ends the turn before it if and only if it carries something other than tool results. |
| Replay.ProjectionsCompose | providers/base.py:134-154 | Projecting twice, in any order, is projecting once to the narrower scope; in particular projection is idempotent. |
| Replay.DroppedStaysDropped | providers/base.py:112-131 | A message whose replay data is dropped from a request is never kept again by a longer history. |
| Replay.KeptUntilNextTurn | providers/base.py:122-131 | Under the current-turn scope a kept message stays kept exactly as long as no user turn opened after it has been answered. |
| Delegation.NewestIsTaken | mu/agent/registry.py:264-272 | A request for a specialist succeeds whenever an idle one with the profile exists, and takes none older than it. |
| SubagentRegistry.Registry.AcquireSpecialist | mu/agent/registry.py:264-272 | One step of the machine of all threads: the newest idle match becomes the caller's alone, with one delegation more, and no other worker changes; None only if no worker is idle with exactly this profile. |
| SubagentRegistry.Registry.RegisterSpecialist | mu/agent/registry.py:274-278 | One step of the machine: the new worker, last in the order, has the profile and one delegation, is the caller's alone, and no other worker changes. |
| SubagentRegistry.Registry.ReleaseSpecialist | mu/agent/registry.py:280-286 | One step of the machine: afterwards no task and no parent uses the worker, and it is idle, or failed after an error. |
| SubagentRegistry.Registry.AddTask | mu/agent/registry.py:361-375 | One step of the machine: the worker passes from the caller, who has reset its flag and reason before, to the task, which is its only holder; a flag written since the reset stays. |
| SubagentRegistry.Registry.WriteResult | mu/agent/registry.py:431-434 | One step of the machine: the result is stored while every reader still sees a running task. |
| SubagentRegistry.Registry.WriteStatus | mu/agent/registry.py:437-438 | One step of the machine: what becomes visible is terminal and complete, with summary, finish time, and error or kill reason exactly as the status says. |
| SubagentRegistry.Registry.Snapshot | mu/agent/registry.py:478-490 | Every reader sees an unknown task, a running one, or a complete final record, equal to what the task's thread concluded. |
| SubagentRegistry.Registry.StopWorkers | mu/agent/registry.py:551-553 | One step of the machine: no profile finds a specialist to acquire afterwards. |
| DelegationWorkers.ProfileIsFixed | mu/agent/registry.py:274-278 | A worker has for good the profile it was registered with. |
| DelegationWorkers.ErrorRetiresIff | mu/agent/registry.py:280-286 | The end of a task takes its worker out of use in every later run if and only if the task ended in an error; otherwise the worker can be had at once. |
| DelegationRuns.StepKeepsInv | mu/agent/registry.py:385-439 | Every locked section, call entry and return, and every single unlocked reset or write of a cancel flag or a kill reason keeps the invariant, in any interleaving. |
| DelegationRuns.ExclusiveLease | mu/agent/registry.py:391-439 | In every reachable state no two tasks are inside `send_message` of the same worker, and a worker in use is neither idle nor being handed out. |
| DelegationRuns.PublishedIsComplete | mu/agent/registry.py:431-438 | A record with a terminal status already holds the final summary, tokens, finish time, and error or kill reason exactly when its status says so. |
| DelegationRuns.RunKeepsComplete | mu/agent/registry.py:399-434 | In every run a thread that concluded has a non-empty summary, a finish time, an error exactly for error and a kill reason exactly for killed. |
| DelegationRuns.TerminalIsFinal | mu/agent/registry.py:437-439 | A record leaves running at most once: once terminal it never changes again, whatever happens. |
| DelegationReplies.RecordIsReply | mu/agent/registry.py:397-438 | In every run the record of a task that is no longer running reports the one return of its call: the reply's text, tokens and time, killed exactly if the reply said so or the worker's cancel flag was up, an error exactly if it raised or said so otherwise, with the error and the kill reason given. |
| DelegationReplies.FlagsAreWritten | mu/agent/registry.py:513-522 | In every run a worker's cancel flag is up exactly if it was written since it was last reset, and its reason is the last one written since. |
| DelegationLimits.KillsHitTargetsIff | mu/agent/registry.py:513-522 | In every run: no task that is still to look at its cancel flag finds one meant for another if and only if each flag is written at a moment when every task that could find it has been targeted, and no task is registered on a worker with a flag written after its reset. |
| DelegationLimits.WritesHitTargetsIff | mu/tools/agent/spawn.py:295-329 | In terms of writes alone: no flag ever stands where a task finds it or the next one will if and only if no flag is written between a reset and the registration or where a task that is no target could find it; and that is enough for kills to hit only their targets. |
| DelegationLimits.KillHitsItsTarget | mu/agent/registry.py:513-522 | So, when flags are written only then, a child that finds itself cancelled was the target of a kill. |
| DelegationLimits.TimelyKillsHitTargets | mu/agent/registry.py:517-520 | It is enough that each flag is written while its task still has the worker. |
| DelegationLimits.ExposedEndsKilled | mu/agent/registry.py:416-418 | A flag that is found does its harm: the task can end as killed without any further kill, although its call ends well. |
| DelegationLimits.WindowEndsKilled | mu/tools/agent/spawn.py:295-329 | So does a flag written between the reset and the registration: the next task on the worker can end as killed without ever being targeted. |
| DelegationLimits.LateKillHitsNextTask | mu/agent/registry.py:517-520 | Without that guard a kill can miss: a run in which a kill decided for task 1 is written late and ends task 2 as killed. |
| DelegationLimits.WindowKillHitsNextTask | mu/tools/agent/spawn.py:295-329 | A run in which the kill of task 1 is written between the reset and the registration of task 2, when no task could find it, and ends task 2 as killed. |
| DelegationLimits.ShutdownIsFinalIff | mu/agent/registry.py:538-553 | Stopping the workers is final for a worker (no continuation makes it anything but stopped) if and only if nobody uses it then. |
| DelegationLimits.StoppedRun | mu/agent/registry.py:538-553 | A stopped worker nobody uses stays stopped and unused through any run. |
| Drain.DrainStream | providers/base.py:426-551 | The accumulation loop returns the response that a fold over the events defines. |
| Drain.TakeCallEvent | providers/base.py:452-500 | One tool-call event touches its own call only, and lists the call if it is new. |
| Drain.AssembleCalls | providers/base.py:519-539 | Calls come out in list order; missing arguments are parsed from the joined text, and a non-dictionary is wrapped. |
| DrainLaws.InterleavingDoesNotMatter | providers/base.py:436-437 | With explicit ids two streams with the same events per call, first-appearance order, text and usage give the same response. |
| DrainLaws.CallsAreOwn | providers/base.py:452-500 | A call assembled from the whole stream is the one assembled from its own events alone. |
| DrainLaws.OrderIsFirstSeen | providers/base.py:454-461 | Calls are listed by first appearance. |
| DrainLaws.CallsComeOutOnce | providers/base.py:515-539 | The parts are the text, if any, and then each call exactly once in first-appearance order, assembled from its own events. |
| DrainMeaning.CallsMeanTheirEvents | providers/base.py:452-539 | For any events: the text, then each call once in order of first appearance, and each call is what its own events mean. Its arguments are those of the last completion with some, else none if it began with a completion, else the decoded join of the deltas; its name and signature are the last ones a completion brought, else the first. |
| DrainMeaning.ResolvedFolds | providers/base.py:452-489 | An event without an id counts as one with the id of the call that appeared last, for a delta, or with a newly counted id. |
| DrainMeaning.FinalArgsMean | providers/base.py:519-530 | Missing arguments are the stripped join of the deltas, decoded: none if it is blank, under `_raw` if it cannot be decoded and under `_value` if it is no dictionary. |
| DrainMeaning.TextAndUsageMean | providers/base.py:501-551 | The text is that of the deltas in order; each counter is the last one reported that is not zero, and an unreported total is input plus output. |
| DrainLaws.CutDoesNotMatter | providers/base.py:465-483 | An argument delta may be cut in two anywhere in any stream without changing the response. |
| DrainLaws.NormalisedRoundTrips | providers/base.py:371-424 | Draining the default stream of a normalised response returns it. |
| DrainLaws.DrainedIsNormalised | providers/base.py:540-551 | What draining a default stream returns is always normalised. |
| DrainLaws.RoundTripIff | providers/base.py:371-424 | Draining the default stream of a response returns that response if and only if it is normalised. |
| Overflow.Session.ClimbLadder | mu/agent/context_guard.py:1007-1042 | The inner loop applies rungs until one is worth a retry or the circuit breaker trips, and counts them in the session. |
| Overflow.Session.GenerateWithOverflowRecovery | mu/agent/context_guard.py:963-1042 | The nested loops return the result and leave the trace of the recursive definition, for every provider, rung effect and estimate. |
| OverflowLaws.ClimbBounds | mu/agent/context_guard.py:1007-1042 | Between two provider calls, rungs applied equal the growth of the session counter, which never passes the cap; no call is made. |
| OverflowLaws.GenerateBounds | mu/agent/context_guard.py:991-1042 | With the setting read anew at every overflow: at most 1 + max(0, largest cap - recoveries at entry) provider calls, rungs equal to the counter's growth, and the breaker trips only when a cap is reached. |
| OverflowLaws.GenerateInOrder | mu/agent/context_guard.py:398-421 | Rungs are applied in their fixed order, the last one repeating, and a call strips replay data exactly when two rungs or more came before it. |
| OverflowLaws.GenerateShrinks | mu/agent/context_guard.py:1033-1037 | If rungs never grow the estimate, every call after k measured retries sends at most 0.9^k of the original estimate. |
| OverflowLaws.LadderRun | mu/agent/context_guard.py:963-1042 | All of these for one invocation from any counter value. |
| OverflowLaws.TurnBounds | mu/agent/context_guard.py:400-406 | Over all invocations of a turn, however the setting changes on the way, at most as many rungs are applied as it ever allowed, and calls are at most invocations plus rungs. |
| OverflowTrace.RunIsProper | mu/agent/context_guard.py:991-1042 | Every event of a run is the one that must follow those before it, with its own request, name and stripping, as estimates, answers and settings say; and the run ends where it must. |
| OverflowTrace.RungIsRetriedIff | mu/agent/context_guard.py:1033-1042 | A rung is followed by a provider call if and only if it was unmeasurable, the fourth or later, or took away at least a tenth; otherwise by another rung if and only if the cap allows one, and at the cap the run breaks off. |
| OverflowTrace.ResultIsLastAnswer | mu/agent/context_guard.py:995-1015 | The result is the answer of the last call: its value, its error, or the circuit breaker if it was too long, which then stands at the cap in force. |
| Pressure.Session.MaybeNudge | mu/agent/context_guard.py:628-728 | One call moves the session fields and answers as the episode machine defines. |
| Pressure.RunIsSound | mu/agent/context_guard.py:658-728 | After any run the level is 0 to 3, an episode is open exactly when it is not 0, and the forced compaction is spent exactly at 3. |
| Pressure.ThirdLevelForces | mu/agent/context_guard.py:727-728 | In any run a nudge forces a compaction exactly at level 3. |
| Pressure.StateIsCount | mu/agent/context_guard.py:664-717 | Under a constant step the whole state is a function of the over-threshold observations since the last reset and of the highest anchor seen. |
| Pressure.NudgesAtCounts | mu/agent/context_guard.py:695-717 | With a step e > 0 the nudges of an episode come exactly at counts 1, e + 1 and 2e + 1, the last one forcing; with none only at 1. |
| Pressure.NudgesIff | mu/agent/context_guard.py:658-728 | In any run, however the step is reconfigured: the level is the number of nudges in the episode, and a nudge comes exactly at the first observation over the threshold and whenever the count asks for the next level. |
| Pressure.ForcedOnce | mu/agent/context_guard.py:697-701 | Between two resets a compaction is forced at most once, even if the step changes in between. |
| Visualization.ExtractVisualization | mu/artifact/history.py:58-106 | The stack loop returns the first descriptor among the first 1000 nodes of the depth-limited recursive preorder. |
| Visualization.PushChildren | mu/artifact/history.py:81-104 | After the pushes the nodes still to visit are the children's subtrees in preorder, then what was there before: other keys in insertion order, then wrapper keys in priority order. |
| Visualization.PushOthers | mu/artifact/history.py:99-101 | The second loop puts the other keys before everything pushed so far. |
| Visualization.FirstIsEarliest | mu/artifact/history.py:75-77 | None means no node is a descriptor; otherwise it is the earliest node that is one. |
| Visualization.Normalized | mu/artifact/history.py:44-55 | A descriptor keeps only allowed fields, and has an artifact id and a kind. |
| Visualization.DescriptorIff | mu/artifact/history.py:44-55 | A node is a descriptor if and only if it is a dictionary of that kind with a non-blank artifact id; the result has the stripped id and the allowed fields present, unchanged. |
| VisualizationPaths.VisitsArePaths | mu/artifact/history.py:66-104 | The nodes visited are those at the ends of all paths of at most eight steps, each once: parents first, list elements and other items in order, then wrapper keys by their rank. |
| VisualizationPaths.ExtractedIsFirstPath | mu/artifact/history.py:58-106 | The result is the descriptor at the earliest path that has one among the first thousand, and None only if none of these has one. |
| VisualizationPaths.FirstElementIsFound | mu/artifact/history.py:102-104 | A descriptor that is the first element of a list is found. |
| Visualization.OtherKeysWin | mu/artifact/history.py:82-101 | In any dictionary that is no descriptor itself, for any decoder: the result is the first descriptor below the other keys within the budget, and only if there is none the first below the wrapper keys within what is left of it, against the comment's intention. |
| Visualization.WrapperIsFoundIff | mu/artifact/history.py:70-101 | The search stops below a wrapper key if and only if no node below another key within the budget is a descriptor and one below a wrapper key is, within the rest of the budget. |
| OpenAI.Freshen | providers/openai.py:383-387 | The loop ends; its result is unused and extends the base id. |
| OpenAI.Converter.AssistantCall | providers/openai.py:381-400 | A call keeps its explicit id or gets a fresh one, which becomes used and open. |
| OpenAI.Converter.ToolResult | providers/openai.py:298-318 | A result without an id takes the only open call of its name, or fails with the number of candidates and changes nothing. |
| OpenAI.Converter.ConvertMessage | providers/openai.py:293-400 | One message of any role is its actions in order; a non-tool message closes the batch first. |
| OpenAI.ConvertMessages | providers/openai.py:278-400 | The in-place pass agrees with the fold over the history's actions, in the entries as well as in the failure. |
| OpenAILaws.IdsAreRepaired | providers/openai.py:287-308 | Generated ids differ from every explicit id of the history and belong to one call only; each repaired result took the unique unanswered call of its name in the batch just before it. |
| OpenAIRepairs.RepairsStayDistinctIff | providers/openai.py:381-389 | Over all ways to put tool messages between given messages: repaired results have distinct ids if and only if no explicit id can be repaired in two of the messages, that is, is called in both and has a name there that no call without an id has. |
| OpenAIRepairs.DistinctCallsSuffice | providers/openai.py:302-308 | If no explicit id is called in two messages, no two repaired results share an id. |
| OpenAIRepairs.SharingExample | providers/openai.py:302-308 | The history of two identical calls, each followed by a result without an id, converts with both results on the same id. |
| OpenAIRepairs.TwiceCalledExample | providers/openai.py:302-308 | An explicit id called in two messages is not enough for that: with a call without an id of the same name beside it, it is never repaired. |
| OpenAIRepairs.RepairIsRepairable | providers/openai.py:302-308 | A result is paired with an explicit call only in the turn that made it, and only if no call without an id of that turn has the call's name. |
| OpenAIRepairs.RepairedInTwoTurns | providers/openai.py:343-346 | Two results paired with the same explicit id belong to different turns. |
| OpenAILaws.EntriesFollowHistory | providers/openai.py:293-400 | Every entry records its own part: explicit ids are never replaced. |
| OpenAILaws.NothingIsLost | providers/openai.py:293-400 | Every call and result of the history is in the transcript exactly once, in order. |
| OpenAIReading.ConversionReads | providers/openai.py:293-400 | Read message by message: each call of an assistant message and each result of a tool message gives one entry, in order, with its own name, payload, batch and id, explicit or beginning with the place of its call; nothing else gives one. |
| OpenAIFailures.FailsIff | providers/openai.py:302-307 | Conversion fails if and only if, for some result without an id, the calls still unanswered in the batch before it, counted on the history with calls named by given id or place, do not include exactly one of its name. |
| Retry.GenerateWithRetry | mu/agent/retry.py:290-425 | The loop stops at the first call that succeeds, fails for good or exhausts the budget or the attempts, after at most max_attempts sleeps. |
| Retry.GoesOnIff | mu/agent/retry.py:380-397 | The loop goes on exactly after a transient failure with budget and attempts left. |
| Retry.SleepIsIff | mu/agent/retry.py:398-408 | Each sleep is the only one that meets the demands: the floor of 0.05, never past the budget, no less than the backoff (base times 2^n, capped, with jitter) and than Retry-After unless the budget ends first, and no more than the larger of them. |
| Retry.BudgetHolds | mu/agent/retry.py:400-411 | For any jitter and Retry-After values each sleep is at least 0.05 and their sum is at most the budget plus 0.05. |
| Retry.BudgetBoundsCalls | mu/agent/retry.py:388-411 | The budget alone bounds the number of sleeps, however many attempts are allowed. |
| Retry.BackoffSum | mu/agent/retry.py:400-402 | Without jitter, Retry-After and caps the time slept telescopes. |
| Retry.ExponentialBackoff | mu/agent/retry.py:400-402 | Then after n retries base * (2^n - 1) has been slept. |
| Lifecycle.Manager.RecordToolCall | mu/agent/lifecycle.py:108-154 | The state refines the whole call history; the callback fires exactly when a flag changes; after cancel or close, or when disabled, nothing changes. |
| Lifecycle.Manager.RecordOpen | mu/agent/lifecycle.py:124-154 | What follows the check, also when cancel or close has come in between: the call is counted and the state refines the longer history. |
| Lifecycle.Manager.Count | mu/agent/lifecycle.py:124-149 | The locked section moves the counters as the specification does and says whether a flag changed. |
| Lifecycle.Manager.CountRepeat | mu/agent/lifecycle.py:130-135 | Equal fingerprints count on, a different one starts at 1. |
| Lifecycle.Manager.CountStall | mu/agent/lifecycle.py:137-141 | A novel result resets the stall counter, any other counts on. |
| Lifecycle.Manager.CheckNovel | mu/agent/lifecycle.py:94-106 | A result is novel unless it is empty, an error or already seen; it is remembered while there is room. |
| Lifecycle.Manager.Cancel | mu/agent/lifecycle.py:175-180 | The first kill reason stays. |
| Lifecycle.Manager.Close | mu/agent/lifecycle.py:182-186 | Closing ends recording and keeps the counters' meaning. |
| Lifecycle.CountersAreSuffixes | mu/agent/lifecycle.py:124-146 | After any history the fields are functions of it: counts, tools, the two run lengths, the seen set and the flags. |
| Lifecycle.RepeatRunIsLongest | mu/agent/lifecycle.py:130-135 | The repeat counter is the length of the longest suffix with one fingerprint. |
| Lifecycle.StallRunIsLongest | mu/agent/lifecycle.py:137-141 | The stall counter is the length of the longest suffix without a novel result. |
| Lifecycle.FlagsIff | mu/agent/lifecycle.py:143-146 | The stuck and stall flags are set exactly while as many last calls as the threshold have one fingerprint, or brought nothing novel. |
| Lifecycle.StallEndsIff | mu/agent/lifecycle.py:94-141 | A call ends the stall run exactly if its result was fetched, is not empty, no error and not remembered; any other makes it longer by one. |
| Lifecycle.RememberedMeansProgress | mu/agent/lifecycle.py:94-106 | Only results that are no error and not empty are ever remembered. |
| Lifecycle.ToolsAreUsed | mu/agent/lifecycle.py:124-129 | The distinct tools are those of the calls. |
| Lifecycle.SeenIsBounded | mu/agent/lifecycle.py:103-105 | The seen set never exceeds 4096, and is everything seen while that fits. |
| Lifecycle.NovelIsFirst | mu/agent/lifecycle.py:94-106 | While there is room, a result is novel exactly when it is substantial and its fingerprint appears for the first time. |
| LoopDetection.IsRepeatedToolSequence | mu/agent/loop_detection.py:220-237 | For every threshold: from 1 on, true exactly when the last threshold entries exist, are non-empty and equal; below 1, when the slice the code then takes is non-empty and holds one non-empty entry only. |
| LoopDetection.IsPeriodicSequence | mu/agent/loop_detection.py:240-284 | True exactly when some period from 2 to max_period is accepted at the end of a history of at least four entries, for every max_period and min_repeats. |
| LoopDetection.AcceptsPeriod | mu/agent/loop_detection.py:268-283 | The loop body accepts a period exactly when the last period * min_repeats entries exist, are non-empty and have that period pointwise. |
| LoopDetection.PrecedingBlocksMatch | mu/agent/loop_detection.py:276-281 | The block comparison is equality of all blocks with the last one. |
| LoopDetection.BlocksArePeriod | mu/agent/loop_detection.py:275-281 | Equality of the blocks and the pointwise period are the same. |
| LoopDetection.AcceptsIff | mu/agent/loop_detection.py:271-283 | A periodic non-empty tail is a non-empty last block repeated. |
| LoopDetection.TruncationIsSafe | mu/agent/loop_detection.py:262-270 | Keeping only the last K >= max(4, max_period * min_repeats) entries never changes the answer. |
| LoopDetection.FourEqualAreReported | mu/agent/loop_detection.py:258-260 | With the default of two repeats any four equal non-empty trailing entries are reported, although period 1 is excluded. |
| Collation.CollationBuffer.Add | mu/agent/collation.py:86-101 | The entry is appended and a cached manifest stays the recomputed one. |
| Collation.CollationBuffer.ArtifactId | mu/agent/collation.py:114-119 | Cached or not, the id is that of the entry. |
| Collation.CollationBuffer.GetManifest | mu/agent/collation.py:121-124 | The manifest, cached or built, is the one recomputed from the entries: each row has the id, tool, arguments and result size of its entry. |
| Collation.CollationBuffer.LastManifestEntry | mu/agent/collation.py:126-138 | The last row has the id, tool, arguments and result size of the last entry; None for an empty buffer. |
| Collation.CollationBuffer.Partition | mu/agent/collation.py:145-152 | The loop separates wanted from kept entries in order, with the ids taken from the cache if there is one. |
| Collation.CollationBuffer.Keep | mu/agent/collation.py:153-155 | The cache is dropped whenever the entries change, and only then needed to be. |
| Collation.CollationBuffer.FlushSelected | mu/agent/collation.py:140-156 | Exactly the wanted entries are delivered, each under its id with its text, in order, and leave the buffer; no ids means all; conservation and the cache hold. |
| Collation.CollationBuffer.Discard | mu/agent/collation.py:158-171 | Exactly the entries with a given id leave the buffer, and their ids are returned; no ids means none. |
| Collation.CollationBuffer.FromDict | mu/agent/collation.py:69-84 | A reloaded buffer holds exactly the saved entries, with a cache that agrees with them. |
| Collation.SelectSplits | mu/agent/collation.py:145-152 | Taken and kept entries together are, as a multiset, the entries. |
| Collation.SelectIsExact | mu/agent/collation.py:147-152 | No kept entry was asked for, and every taken one was. |
| Collation.TakenAsAsked | mu/agent/collation.py:140-171 | A flush without ids takes everything; otherwise exactly the entries with one of the ids are taken. |
| Collation.SelectKeepsOrder | mu/agent/collation.py:143-152 | Kept entries keep their order, and so do taken ones. |
| Pricing.Clamp | utils/model_pricing.py:576-579 | Clamped counts are non-negative with cached at most input; each is the given count, 0 for a negative one, or the input where more is cached. |
| Pricing.RatesApply | utils/model_pricing.py:517-528 | Above the cutoff the long rates price a request, otherwise the base rates; a missing long rate is the base rate, a missing cached rate the input rate, and no rate is free. Cached tokens are not priced as input again. |
| Pricing.CostIsLinear | utils/model_pricing.py:510-540 | The components sum to the total, which at a fixed tier is linear in the clamped token counts. |
| Pricing.NoTierIsAdditive | utils/model_pricing.py:819-825 | Without a positive cutoff, pricing per request and in bulk agree for any list of requests. |
| Pricing.PerRequestNeverExceedsBulk | utils/model_pricing.py:817-825 | If the effective long-tier rates are not below the base rates, per-request pricing never exceeds bulk pricing. |
| Pricing.CheaperLongFails | utils/model_pricing.py:510-540 | If one effective long-tier rate is lower, there are requests that cost more one by one than in bulk. |
| Pricing.NeverExceedsIff | utils/model_pricing.py:817-825 | Per-request pricing never exceeds bulk pricing if and only if no long-tier rate is below the rate it replaces, or there is no tier. |
| Pricing.SessionShowsPerRequest | utils/model_pricing.py:826-849 | The displayed session cost is the per-request sum; without it the bulk price is shown, which is at least as much. |
| TokenEstimator.EncodedLen | utils/token_estimator.py:98-111 | The recursion with its loop returns the sum of the token counts of the pieces, and a tokenizer error on a piece is an error. |
| TokenEstimator.RunsLen | utils/token_estimator.py:99-105 | The loop over the runs adds the counts of the stretches between and of the slices inside. |
| TokenEstimator.SlicedLen | utils/token_estimator.py:91-95 | The sum over the slices of at most 1024 characters. |
| TokenEstimator.NextRunIsLeftmost | utils/token_estimator.py:87-88 | The run search finds the leftmost long run, and none only if there is none. |
| TokenEstimator.PiecesConcat | utils/token_estimator.py:98-111 | The pieces given to the tokenizer concatenate to the text. |
| TokenEstimator.PiecesAreSafe | utils/token_estimator.py:78-85 | Every piece is at most 1024 characters long or free of long runs. |
| TokenEstimator.SafeMeansNoLongRun | utils/token_estimator.py:78-88 | Free of long runs means: nowhere 1024 consecutive characters of one kind. |
| TokenEstimator.NeverUndercounts | utils/token_estimator.py:83-85 | For every tokenizer whose count is subadditive the result is at least the count of the whole text, and exact on text without long runs that the tokenizer accepts. |
| TokenEstimator.AdditiveIsExact | utils/token_estimator.py:91-111 | For a tokenizer whose counts add up the sum over the pieces is the count of what they join to, and it fails exactly if a piece fails. |

## Left out

- AnthropicCache.MarkHistoryBreakpoints: returns the marked positions; writing the cache control entry into those blocks, which the source does last, is not modelled.
- AnthropicReplayPrefix.MarkedPrefixReappearsIff: for a history without open calls and a tail with as many blocks as the hint announces; for an open history the placeholders change.
- OllamaReader.Stream: the structured `thinking` field, tool calls, usage counters and exceptions of the connection are left out.
- OllamaReader.EmitContent: content before and after other parts of a record is not distinguished, since those parts are left out.
- Drain.DrainStream: argument chunks are kept as their concatenation instead of a list.
- DelegationRuns.StepKeepsInv: the return of a call and the reading of the cancel flag and the reason behind it are one step, so that a task counts as inside its call until then; and a parent hands a worker over to one task only, as the spawning code does (`mu/tools/agent/spawn.py:236-340`).
- DelegationRuns.PublishedIsComplete: token values are whatever the child returned; the history length, tool count and wall-clock copy of the finish time, written in the same section, are not separate fields.
- DelegationLimits.KillHitsItsTarget: the guard is about the run and not enforced by the code; `DelegationLimits.LateKillHitsNextTask` and `DelegationLimits.WindowKillHitsNextTask` are runs without it.
- SubagentRegistry.Registry.AddTask: task and worker ids are given by the caller and new; collisions of truncated random ids are not modelled. The methods are called in the order of `_run_child`, which is what their preconditions say.
- SubagentRegistry.Registry.ReleaseSpecialist: a record without a worker id, which only a caller outside the spawning code could make, is not modelled.
- Overflow.Session.GenerateWithOverflowRecovery: the setting for the rungs may change at every overflow but has a largest value during a turn, without which the loop need not end; the provider, the rungs and the estimate are arbitrary, notices and logging are dropped, and the 10% test is on exact numbers.
- Pressure.Session.MaybeNudge: the projected fill is part of the observation, and the messages sent, the trace event and the compaction itself are left out.
- Visualization.ExtractVisualization: decoding a string into a value is a parameter, and list and tuple are one case.
- OpenAI.ConvertMessages: text, media and file content and the grouping of entries into messages are left out.
- Retry.GenerateWithRetry: the verdict on an error is an input; hooks, cancellation by a hook and reporting are left out.
- Lifecycle.Manager.RecordToolCall: the check and the locked section follow each other; that another thread cancels in between is `Lifecycle.Manager.RecordOpen` on its own. The watchdog thread and exceptions in the callback are left out.
- Collation.CollationBuffer.GetManifest: the source returns its cached list itself; a caller that changes it is not modelled.
- Pricing.NeverExceedsIff: exact money; the source adds floating point numbers.
- TokenEstimator.EncodedLen: the memo table and the conversion of non-strings are left out.
- Drain.AssembleCalls: a failing decoder is a `None`; which exceptions it raises is not modelled. Arguments that come with an event are dictionaries, as their type says.
- Error classification by marker strings, and the parsing of token counts from error texts.
- HTTP and SDK clients, sockets, subprocesses, files, archives and attachments.
- The durable mailbox, the artifact store and the tracker of the registry, and `wait`.
- Sessions, the summarizer, compaction itself, plan mode, approval, hooks and secret guards.
- The Gemini provider, the Responses API of OpenAI, model catalogues and configuration tables.
- The user interfaces, command line, prompts and the mobile app.
