# Luc Nhan agent core: Dafny model

This project models the parts of the agent that decide, count, route, undo and finalise, and proves
what they promise. Each module follows one component of the program:

- `ThinkTags`, `Routes`, `Segments`, `Titles`, `Detectors`, `GuardPolicy`, `LoopGuard`: the streaming loop
  guard. Think tags split across deltas, segmentation into a ring, bounded tails, nine detectors and one
  latched trigger. Buffer, segments, byte and ink counts and tails are functions of the whole text seen,
  whatever the deltas were. The header count is one of the text and its deltas, with the exact condition
  under which the deltas do not matter; the growth counters that throttle three detectors depend on them.
- `Bridge`: the background runner that merges deltas while the queue is full, over every pattern of
  queue fullness and consumption.
- `ToolAssembly`: tool calls assembled from stream chunks, with the strict finalisation.
- `Progress`, `Ladder`: repeated-call detection with bounded memory, and the ladder that blocks tools.
- `FanOut`: spawning and joining subagents with a clear, re-check and wait handshake, as a step machine
  over the dispatching thread and its children.
- `Database`, `Mutation`, `StructText`, `StructUndo`, `Undo`: the analysed database as maps, the contracts
  of the tools that change it, pre-state capture, reverse records and the undo stack.
- `EventLog`, `RunLifecycle`: the control server's event ring, its pollers, and the life of a run over
  all interleavings of prompts, brokers and shutdown.
- `Hexdump`: redaction of indicators in hexdump blocks.
- `Json`, `Batches`, `Verification`, `Review`: replies that are taken whole or not at all.
- `Compaction`: context compaction that keeps tool calls and results together.
- `Preview`: report previews with balanced code fences.
- `Text`, `Wrappers`: strings, lines and the two result types the other modules share.

Components that update state in place are classes with the program's fields; each method is proved
against a specification function, and the properties are proved about those functions. Protocols between
threads are step machines whose invariants hold over every run. Strings are sequences of characters;
integers are unbounded, as in the program.

Where the program falls short of what its names and documentation promise, the model keeps the program
and states the exact condition. The undo of comments, files, struct and enum members is an inverse
exactly under the guard `Mutation.Faithful`; the lemmas after it name the guards that fail in practice.
The ladder's bound of `block_at - 1` needs one call a turn; two lemmas show what a larger batch escapes, and
`Ladder.BatchBound` what still bounds it. A tool call that ends without a start escapes the safe prefix, and
`ToolAssembly.PrefixRuleIff` says that nothing else does; a call with the arguments `null` is announced done and
then discarded. The reply parsers raise instead of reporting an error
exactly as `Verification.TypeErrorIff` and `Review.OverflowErrorIff` say. The exit code forgets errors older than
the ring. `max_retained_segment_chars` is documented as bounding what is
retained, but the program keeps the maximum over the whole run, and so does the model.

`dafny verify dfyconfig.toml` checks the whole project.

## Model

| member | source | states |
|---|---|---|
| ThinkTags.PartialTagSuffix | lucnhan/agent/loop_guard.py:253-264 | the held fragment is the longest ending of the text that is a proper start of the tag, letter case aside |
| ThinkTags.DrainAppend | lucnhan/agent/loop_guard.py:736-765 | draining one piece and then the next is draining both at once: same text to each channel, same mode, same held fragment |
| ThinkTags.HeldIsLongestPartialTag | lucnhan/agent/loop_guard.py:736-765 | before the flush, the held text is exactly the longest ending, since the last tag, that could still become the tag being sought |
| ThinkTags.ScanIsDrainThenFlush | lucnhan/agent/loop_guard.py:727-765 | draining and then flushing the held fragment is a one-shot leftmost scan that alternates between the two tags |
| ThinkTags.SplitInvariance | lucnhan/agent/loop_guard.py:713-765 | for every text and every way of cutting it into deltas, feeding and flushing gives each channel what the one-shot scan gives |
| ThinkTags.PiecesOfRender | lucnhan/agent/loop_guard.py:736-774 | spans without tags, written with tags between them, are split back into exactly those spans |
| ThinkTags.RenderOfPieces | lucnhan/agent/loop_guard.py:736-774 | the spans found, written back with tags between them, are the text again up to the case of its tags: nothing but tags is removed |
| ThinkTags.PiecesAreClean | lucnhan/agent/loop_guard.py:736-774 | the spans found hold no tag of the kind that would end them: with the round trip above, splitting and writing are inverse on exactly such spans |
| ThinkTags.ScanIsChannels | lucnhan/agent/loop_guard.py:736-774 | the visible channel is the spans outside, the reasoning channel the spans inside, each in order |
| Segments.RawSegmentsStream | lucnhan/agent/loop_guard.py:828-875 | cutting a grown text into lines and 240-character pieces continues from the pieces and the residue of the shorter text |
| Segments.SegmentsStream | lucnhan/agent/loop_guard.py:828-875 | the same after normalisation and dropping of empty segments |
| Segments.PendingIsSuffix | lucnhan/agent/loop_guard.py:828-855 | what is left unsegmented is the end of the text, has no newline and fewer than 240 characters |
| Segments.SegmentsWithinCap | lucnhan/agent/loop_guard.py:857-875 | segments stay within 240 characters whenever normalisation does not lengthen text |
| Titles.TitledStream | lucnhan/agent/loop_guard.py:828-870 | the titled pieces of a text, told line by line from the text and its deltas, grow with a delta by what one flush of the held residue and that delta counts |
| Titles.CutsAgreeIffLinesAgree | lucnhan/agent/loop_guard.py:846-866 | all ways of cutting a text into deltas count the same titled pieces if and only if each finished line counts the same however many full 240-character pieces of it are looked at before the rest |
| Titles.ShortLinesAgree | lucnhan/agent/loop_guard.py:846-866 | without lines of 240 characters the count is the number of titled finished lines, whatever the deltas were |
| Titles.LongTitleDisagrees | lucnhan/agent/loop_guard.py:852-866 | a 480-character title whose halves look like titles too counts once or twice |
| Detectors.CountIsDisjoint | lucnhan/agent/loop_guard.py:1047-1065 | the occurrence count of the visible detector exhibits that many non-overlapping copies |
| Detectors.CountIsMaximal | lucnhan/agent/loop_guard.py:1047-1065 | and no larger set of non-overlapping copies exists |
| Detectors.ProgressStalled | lucnhan/agent/loop_guard.py:1089-1111 | the one-pass stall detector finds exactly the windows in which every segment but the first adds almost no new trigram and names no anchor |
| GuardPolicy.DecideIsTrue | lucnhan/agent/loop_guard.py:890-980 | a trigger chosen from the 128-segment ring and the 4096-character tails is true of the whole history |
| GuardPolicy.FiresExactlyWhenTrue | lucnhan/agent/loop_guard.py:890-1111 | an evaluation fires if and only if some trigger that is due is true of the whole history |
| GuardPolicy.VerbatimTailMeans | lucnhan/agent/loop_guard.py:1021-1035 | the verbatim trigger exhibits an earlier copy of the last 180 reasoning characters within the last 4096 |
| GuardPolicy.VisibleVerbatimTailMeans | lucnhan/agent/loop_guard.py:1047-1065 | the visible verbatim trigger exhibits the required number of disjoint copies of the last block |
| GuardPolicy.HeaderRunawayMeans | lucnhan/agent/loop_guard.py:909-913 | where the finished lines agree the header trigger is a statement about the text alone, and without long lines it says that at least 24 finished lines are titles |
| LoopGuard.StreamLoopGuard.IngestLine | lucnhan/agent/loop_guard.py:857-875 | a line adds its normalised pieces to the ring, the count, the longest length and the header count |
| LoopGuard.StreamLoopGuard.FlushBuffer | lucnhan/agent/loop_guard.py:828-855 | the buffer is replaced by its unsegmented end, and exactly the segments of the rest are added |
| LoopGuard.StreamLoopGuard.MaybeLatchTrigger | lucnhan/agent/loop_guard.py:890-980 | the trigger and the growth counters become those of the latching function on the retained view |
| LoopGuard.StreamLoopGuard.OnReasoningDelta | lucnhan/agent/loop_guard.py:657-687 | buffer, ring, counts and tails stay the functions of the whole reasoning text they stand for, the header count that of the text and its deltas, and the delta is appended to that text |
| LoopGuard.StreamLoopGuard.OnVisibleDelta | lucnhan/agent/loop_guard.py:689-711 | the same for the visible channel |
| LoopGuard.StreamLoopGuard.DrainThinkPending | lucnhan/agent/loop_guard.py:736-765 | the drain loop routes what the drain or the scan function says, and never changes a latched trigger |
| LoopGuard.StreamLoopGuard.OnTextDelta | lucnhan/agent/loop_guard.py:713-725 | a text delta is routed as the drain of the held text with the delta appended |
| LoopGuard.StreamLoopGuard.Flush | lucnhan/agent/loop_guard.py:727-734 | flushing routes the held text as the scan does and holds nothing afterwards |
| LoopGuard.StreamLoopGuard.OnToolCallStart | lucnhan/agent/loop_guard.py:776-787 | a started tool call latches nothing and is remembered |
| LoopGuard.StreamLoopGuard.FeedTurn | lucnhan/agent/loop.py:1529-1693 | the text, reasoning and tool-call signals of a turn, then the flush, leave the channels that the signals received so far define; the turn stops early only at a look that finds a trigger, and never goes on past a look with a ceiling exceeded and no tool call |
| Routes.TurnChannels | lucnhan/agent/loop.py:1529-1693 | over a whole turn the visible channel is what one scan of all its text makes visible, and the reasoning channel weaves the spans inside tags with the reasoning the provider sends itself, each in order |
| LoopGuard.StreamLoopGuard.Bounded | lucnhan/agent/loop_guard.py:617-655 | buffer, ring and tails stay within their limits, and the buffer is the end of the reasoning text |
| LoopGuard.StreamLoopGuard.BudgetIsNeverMissed | lucnhan/agent/loop_guard.py:890-913 | without a tool call, every state at or over either ceiling or the header threshold has a trigger |
| LoopGuard.StreamLoopGuard.TriggerWasTrue | lucnhan/agent/loop_guard.py:890-980 | a latched trigger was true of the history it was latched at, which is a prefix of the present one |
| LoopGuard.NewGuard | lucnhan/agent/loop_guard.py:545-557 | a guard is refused exactly for ceilings that are not positive, and starts without a trigger |
| LoopGuard.SameHistorySameState | lucnhan/agent/loop_guard.py:657-711 | two guards that saw the same channels hold the same segments, tails, bytes and ink counts, however the text was cut |
| LoopGuard.HeadersAgree | lucnhan/agent/loop_guard.py:852-870 | two guards that saw the same reasoning have the same header count, that of the text, where each of its finished lines counts the same however much of it was flushed early |
| Bridge.BackgroundAgentRunner.OnDelta | lucnhan/agent/loop.py:3713-3740 | a delta is delivered at once, merged with what is pending on its channel, or buffered; the accounting of every produced event is kept |
| Bridge.BackgroundAgentRunner.Handle | lucnhan/agent/loop.py:3712-3757 | after any event that is no delta nothing is pending, and nothing is discarded except at a recovery start |
| Bridge.BackgroundAgentRunner.Run | lucnhan/agent/loop.py:3628-3763 | over a whole run, produced events are exactly the accounted ones followed by the buffer pending at return; what the consumer and the queue hold is what was delivered, in order, then the sentinel if it fitted |
| Bridge.StreamIsConserved | lucnhan/agent/loop.py:3628-3763 | read piece by piece, what was produced is what was delivered, timed out or discarded, in production order |
| Bridge.NothingLostNothingReordered | lucnhan/agent/loop.py:3628-3763 | without timeouts and discards the delivered stream is the produced one up to merging |
| Bridge.EachEventOnce | lucnhan/agent/loop.py:3628-3763 | every accounted event belongs to exactly one delivery, timeout or discard |
| Bridge.MergeKeepsAtoms | lucnhan/agent/loop.py:3722-3727 | merging deltas of one channel keeps their text |
| ToolAssembly.AssembleStream | lucnhan/agent/loop.py:1555-1621 | the chunk loop and its finalisation compute the assembly function |
| ToolAssembly.OnlyOwnChunksMatter | lucnhan/agent/loop.py:1555-1621 | a call is determined by the chunks that carry its id |
| ToolAssembly.RunRefines | lucnhan/agent/loop.py:1555-1621 | for every stream, names, buffers, states and calls of the loop agree with the separate lives of all ids |
| ToolAssembly.SurvivorsAreTheGoodPrefix | lucnhan/agent/loop.py:1736-1754 | for every stream, the surviving calls are, once each, exactly those of the ids whose first end had well-formed arguments, `null` included, and that do not start at or after the first start without a good end; an end is good with arguments that are well formed and not `null` |
| ToolAssembly.SurvivorsOfSingleStarts | lucnhan/agent/loop.py:1736-1754 | where each id starts at most once, the survivors are the calls of the longest good start-order prefix and those of ids that never started but have a first end with well-formed arguments |
| ToolAssembly.PrefixRuleIff | lucnhan/agent/loop.py:1724-1754 | only calls of that prefix survive if and only if no id that never started has a first end with well-formed arguments, `null` included |
| ToolAssembly.EveryStartIsClosed | lucnhan/agent/loop.py:1736-1754 | in every stream each start is closed: by a done event inside that prefix, by a discarded event outside it |
| ToolAssembly.EventsTell | lucnhan/agent/loop.py:1584-1754 | in every stream an id is announced done exactly if its first end had well-formed arguments, and discarded exactly if it starts outside the good prefix |
| ToolAssembly.NullIsDoneAndDiscarded | lucnhan/agent/loop.py:1584-1754 | a started call whose arguments are `null` is announced done and then discarded, with every call that starts after it |
| ToolAssembly.NoDuplicateIds | lucnhan/agent/loop.py:1575-1580 | repeated end chunks never duplicate a call |
| ToolAssembly.EndWithoutStartSurvives | lucnhan/agent/loop.py:1574-1621 | the smallest stream that breaks the prefix rule: a single end chunk whose id never started |
| Progress.ProgressTracker.ObserveTurn | lucnhan/agent/progress.py:104-144 | the verdict is that of the judging function on the whole log, the queue stays its last 32 entries |
| Progress.ProgressTracker.RunMadeProgress | lucnhan/agent/progress.py:100-102 | a run made progress as soon as one call was observed or a mutation succeeded |
| Progress.NewTracker | lucnhan/agent/progress.py:63-69 | thresholds out of order are refused |
| Progress.RepeatMeans | lucnhan/agent/progress.py:121-133 | a call is a repeat exactly if an equal call lies within 12 turns, with identical result exactly if one of those had it |
| Progress.NoProgressMeans | lucnhan/agent/progress.py:116-144 | no progress is reported exactly if every call of the batch was made before |
| Progress.VerdictNamesWorst | lucnhan/agent/progress.py:113-144 | the verdict reports the first of the calls with the most occurrences |
| Progress.BoundedRefinesFull | lucnhan/agent/progress.py:29-32 | the 32-entry queue gives the verdict of the unbounded log whenever the window holds at most 32 calls before the newest |
| Progress.QueueRecallsAllIff | lucnhan/agent/progress.py:29-32 | the queue recalls, for every call, what the whole log does if and only if at most 32 logged calls are recent |
| Progress.QueueVerdictIff | lucnhan/agent/progress.py:104-144 | and the verdict on every next call is that of the whole log if and only if so |
| Progress.OneCallTooMany | lucnhan/agent/progress.py:29-32 | the smallest failing case: with a 33rd call in the window the first is forgotten and its repetition unnoticed |
| Ladder.ToolRunner.ExecuteSingleTool | lucnhan/agent/loop.py:2228-2242 | a blocked tool is refused before it runs; a successful mutation lifts every block |
| Ladder.ToolRunner.AfterToolBatch | lucnhan/agent/loop.py:3116-3142 | the worst call of the batch is blocked from one call before the threshold on, and tools are disabled at the stop threshold |
| Ladder.ToolRunner.TakeTurn | lucnhan/agent/modes/turn_helpers.py:459-465 | a whole turn computes the next ladder state |
| Ladder.RepeatBound | lucnhan/agent/loop.py:3131-3142 | with one call a turn and rising turns, between successful mutations no call runs more than block_at - 1 times in any 12 turns |
| Ladder.NothingBlockedEarly | lucnhan/agent/loop.py:3136-3140 | and nothing is blocked before that |
| Ladder.BatchGate | lucnhan/agent/loop.py:2234-2242 | within a batch, a call runs exactly if no other gate denies it and its tool was free at the start or freed by an earlier mutation of the batch |
| Ladder.WholeBatchRuns | lucnhan/agent/loop.py:3131-3140 | so a batch of identical calls runs whole, however large |
| Ladder.BatchBound | lucnhan/agent/loop.py:3116-3142 | batches of any size: between successful mutations, in any 12 turns whose calls fit the queue, a call reported as the worst of each batch holding it runs at most block_at - 2 times plus the most any one batch asks for it |
| Ladder.BlockedIff | lucnhan/agent/loop.py:3116-3142 | after any turns, a tool is blocked if and only if the verdict of some batch named it with at least block_at - 1 occurrences and no mutation has succeeded in a later batch |
| Ladder.NeverWorstAlwaysRuns | lucnhan/agent/loop.py:3116-3142 | a tool none of whose calls is ever the reported worst of its batch is never blocked: in any turns, exactly the requests for it run that no other gate denies |
| Ladder.SecondOfATieNeverBlocked | lucnhan/agent/loop.py:3136-3140 | an instance: of two reads asked for together in every turn the second is never blocked |
| FanOut.CapIsRespected | lucnhan/agent/loop.py:2734-2746 | in every run, pending and running children never exceed the cap, although their count is read one child at a time |
| FanOut.NoLostWakeUp | lucnhan/agent/loop.py:2741-2746 | in every run, a sleeper whose condition already holds finds the event set, or a child about to set it |
| FanOut.AlwaysSomeoneToMove | lucnhan/agent/loop.py:2796-2801 | in every run that has not returned, the thread or a child can move without a timeout |
| FanOut.AlwaysReturns | lucnhan/agent/loop.py:2796-2801 | every execution in which nobody stops moving returns, without a single timeout |
| FanOut.FilledOnce | lucnhan/agent/loop.py:3167-3206 | in every run, a result slot never changes once it is filled |
| FanOut.EveryCallGetsItsOwnResult | lucnhan/agent/loop.py:2809-2838 | when the batch returns, every call has its immediate answer or the outcome of the one child started for it |
| FanOut.RunsAreSafe | lucnhan/agent/subagent_manager.py:398-423 | cap, wake-up and result invariants hold in every state of every run, timeouts included |
| Database.ExecKeepsValid | lucnhan/ida/tools/annotations.py:41-143 | the tools keep names unique, members disjoint and enum members attached |
| Mutation.ReverseRecordsInvert | lucnhan/agent/mutation.py:74-885 | for every modelled mutation but a resize, running the recorded reverse call restores the database exactly if and only if the guard held before the mutation |
| Mutation.FirstCommentCannotBeUndone | lucnhan/agent/mutation.py:116-172 | a first comment is recorded as reversible, but its reverse always raises, because the tool refuses an empty comment |
| Mutation.OverwrittenFileComesBack | lucnhan/agent/mutation.py:290-364 | undo of an overwritten file writes the 4000-character excerpt that was read: files up to 4000 characters come back, files beyond 4014 never do |
| Mutation.ResizeIsNeverUndone | lucnhan/agent/mutation.py:774-793 | a resize is recorded as reversible, but its reverse is refused with a plain text |
| Mutation.AddedMemberStaysWithoutModule | lucnhan/agent/mutation.py:845-857 | without the enum module an added enum member stays, behind a plain text |
| Mutation.PaddedNameClearsComment | lucnhan/agent/mutation.py:752-767 | a struct name with surrounding space loses the pre-state, and the undo of a member comment then clears it |
| Mutation.UnnoticedRefusalIsHarmless | lucnhan/agent/loop.py:231-238 | a refused member edit that slips through the text heuristic is recorded, but undoing it then changes nothing |
| Mutation.AppendedFieldIsUndone | lucnhan/agent/mutation.py:686-698 | a member appended at the end is always removed without a trace |
| Mutation.OnlyTrimmedTextIsRecorded | lucnhan/agent/loop.py:3044-3066 | text the tools would trim never reaches the undo stack |
| StructText.ParseStructInfo | lucnhan/agent/mutation.py:367-454 | the line loop computes the parsed description |
| StructText.EntryReadsBack | lucnhan/agent/mutation.py:414-453 | the line of a plain member reads back as its name, type, offset, size and comment |
| StructText.DescriptionReadsBack | lucnhan/ida/tools/types_tools.py:321-364 | the whole description of a plain struct reads back as the struct |
| StructUndo.PlainMemberUndo | lucnhan/agent/mutation.py:705-767 | for a struct whose description reads back: member comments can always be undone, a retype exactly if the type text names the type, a removal exactly if moreover the member had no comment and its name is accepted |
| Undo.Session.DropRecord | lucnhan/agent/loop_commands.py:235-250 | exactly the last entry that is this record is removed |
| Undo.LateRecordsSurvive | lucnhan/agent/loop_commands.py:235-250 | records that arrive while the reverse runs survive, in order |
| Undo.Session.NoteMutation | lucnhan/agent/loop.py:2397-2419 | a mutation is pushed exactly if verified and reversible |
| Undo.Session.HandleUndo | lucnhan/agent/loop_commands.py:253-303 | the command computes the undo loop; an unreadable count or an empty stack changes nothing, a count below one tries nothing |
| Undo.EveryTryCounts | lucnhan/agent/loop_commands.py:271-303 | every try ends as announced success or as error |
| Undo.UndoSimulates | lucnhan/agent/loop_commands.py:274-303 | the database is the state at the depth of the stack, the stack a prefix, and the announced count exactly how much shorter it got |
| Undo.RunSimulates | lucnhan/agent/loop_commands.py:253-303 | the same over any run of recorded mutations and undo commands |
| Undo.FailedRecordStays | lucnhan/agent/loop_commands.py:284-289 | a reverse that keeps raising keeps its record on top and the stack as it is |
| Undo.AllSucceed | lucnhan/agent/loop_commands.py:274-291 | if no reverse raises, as many records as asked for are undone |
| Undo.FaithfulLeadsBack | lucnhan/agent/mutation.py:1006-1023 | records of guarded mutations satisfy what the simulation asks of them |
| Undo.AnnouncedCountIsTrueIff | lucnhan/agent/loop_commands.py:271-303 | the announced number of undone mutations is the number of reverses that took effect if and only if none that was tried was refused with a plain text |
| Undo.RefusalCountsAsUndone | lucnhan/agent/loop_commands.py:284-291 | one such try: the record is dropped and announced as undone though nothing moved |
| EventLog.RunState.DrainOne | lucnhan/control/server.py:194-218 | an event gets the next number, enters the ring and is taken note of |
| EventLog.RunState.Finalise | lucnhan/control/server.py:267-293 | the final drain is applied, exit code and final text derived, and the run finished |
| EventLog.RunState.Poll | lucnhan/control/server.py:874-880 | the reply holds exactly the ring events from the index on |
| EventLog.PollReceives | lucnhan/control/server.py:874-880 | a poll receives the log from the index on, less what left the ring |
| EventLog.FollowerSeesAllOnce | lucnhan/control/server.py:800-895 | a follower chaining indices from 0 has every event once, in order, if and only if at most 4096 events are appended between polls |
| EventLog.SuccessMeans | lucnhan/control/server.py:274-281 | exit code 0 means exactly that the last 4096 events hold no error and no cancellation |
| RunLifecycle.AtMostOneUnfinished | lucnhan/control/server.py:524-549 | over all interleavings at most one run is unfinished, and it is the current one |
| RunLifecycle.FinishedIsFrozen | lucnhan/control/server.py:222-299 | in every trace, a finished run never changes again and is reported at most once, exactly once in the end if it ever started |
| RunLifecycle.BrokerWritesItsOwnRun | lucnhan/control/server.py:194-257 | an event always goes to the unfinished run of the broker that drained it |
| RunLifecycle.FinishedRunIsItsLog | lucnhan/control/server.py:238-293 | a finished run is the outcome of exactly the events appended to it, however they were split between the drain loop and the final drain |
| RunLifecycle.ReplayTells | lucnhan/control/server.py:202-207 | the final text is that of the last finished text event, and the errors are those of the log in order |
| RunLifecycle.RingOfEveryRun | lucnhan/control/server.py:69-82 | at every moment the ring is the end of the events appended, consecutively numbered up to the next number |
| RunLifecycle.PollAnswers | lucnhan/control/server.py:800-895 | a poll of the current run answers from its log; a client whose run was replaced, before the request or while it waited, is told of success whatever happened |
| RunLifecycle.ClientSeesAllOnce | lucnhan/control/server.py:800-895 | in every trace, a client that polls for a run until told it is finished has every event the run will ever have, once and in order, if and only if it never fell more than 4096 events behind; the exit code and text it is told are final |
| Hexdump.RebuiltLineParses | lucnhan/core/sanitize.py:639-698 | a rebuilt line parses back to its address part, its bytes and the ASCII column |
| Hexdump.ScannerIsThePattern | lucnhan/core/sanitize.py:617-622 | the hand-written scanner accepts exactly the lines of the pattern: address, at least four byte pairs, anything |
| Hexdump.MarkPositions | lucnhan/core/sanitize.py:653-687 | a position is marked exactly if it was, or if some match covers it, matches being clipped to the block |
| Hexdump.SanitizeLines | lucnhan/core/sanitize.py:717-771 | the block loop computes the redaction function |
| Hexdump.OtherLinesKept | lucnhan/core/sanitize.py:721-726 | lines that are no dump lines are kept where they are |
| Hexdump.BlocksAreCleaned | lucnhan/core/sanitize.py:728-769 | every maximal block of dump lines is cleaned as a whole and on its own |
| Hexdump.CleanBlockReadsBack | lucnhan/core/sanitize.py:738-767 | a cleaned block reads as the same dump, line for line, with zeros at exactly the matched positions, also where a match crosses lines; unmatched blocks are verbatim |
| Hexdump.LinesOfSanitized | lucnhan/core/sanitize.py:717-771 | the pass keeps the number of lines of the text |
| Batches.RaisesIff | lucnhan/agent/hypothesis_verification.py:189-206 | a batch raises if and only if the first object to carry some expected id does |
| Verification.ParseVerifierResponse | lucnhan/agent/hypothesis_verification.py:154-233 | the entry loop computes the parsed reply |
| Verification.NoErrorIff | lucnhan/agent/hypothesis_verification.py:189-233 | no error is reported if and only if the entries are a permutation of the expected ids, each valid; then every id has a verdict |
| Verification.GoodVerdictMeans | lucnhan/agent/hypothesis_verification.py:204-218 | an entry is good exactly if it has one of the two verdicts, a claim that is not blank and at least one citation, all of them well formed |
| Verification.VerdictsAreOwn | lucnhan/agent/hypothesis_verification.py:203-224 | the verdict under an id is what the entry naming it says |
| Verification.VerifyHypotheses | lucnhan/agent/hypothesis_verification.py:258-323 | the loop passes exactly if an attempt within the limit is accepted and all before it call for another; then every id has its verdict; it raises exactly if the reply of the first deciding attempt makes the parser raise |
| Verification.TypeErrorIff | lucnhan/agent/hypothesis_verification.py:189-206 | the parser raises if and only if, in a readable reply, the first object to carry some expected id has a list or an object as its status |
| Verification.UnhashableStatusRaises | lucnhan/agent/hypothesis_verification.py:204-206 | one entry with such a status is enough |
| Review.ParseReviewResponse | lucnhan/agent/report_review.py:170-237 | the entry loop computes the parsed reply |
| Review.NoErrorIff | lucnhan/agent/report_review.py:193-237 | no error is reported if and only if the findings are a permutation of the expected ids, each valid |
| Review.GoodFindingMeans | lucnhan/agent/report_review.py:207-224 | a finding is good exactly if it says pass or fail, has evidence, a confidence from 0 to 1, and a corrected content when it fails |
| Review.AllPassMeans | lucnhan/agent/report_review.py:293-311 | an all-pass reply holds one valid entry per id, and each says pass |
| Review.CorrectFailed | lucnhan/agent/report_review.py:339-359 | exactly the first record of each failed id the corrector rewrote takes its correction |
| Review.ReviewMemories | lucnhan/agent/report_review.py:252-366 | the review ends as the first cycle that ends it says, on the records that the world made of those handed in, and fails if none does; what is returned as passed was, with exactly these contents, passed as a whole by one cycle; the records handed in are never touched |
| Review.OutcomeMeans | lucnhan/agent/report_review.py:282-359 | it passes if and only if the first cycle that ends it has its reviewer pass all the records it was shown, and raises if and only if a reply of that cycle makes the parser raise |
| Review.OverflowErrorIff | lucnhan/agent/report_review.py:193-219 | the parser raises if and only if, in a readable reply, the first object to carry some expected id says pass or fail, has evidence, and a whole number too large for a floating-point number as its confidence |
| Review.HugeConfidenceRaises | lucnhan/agent/report_review.py:216-219 | one such finding is enough |
| Compaction.ContextWindowManager.UpdateUsage | lucnhan/agent/context_window.py:33-45 | tracked usage never falls between resets |
| Compaction.PeakIsLargest | lucnhan/agent/context_window.py:33-51 | it is the largest usage reported since the last reset |
| Compaction.ContextWindowManager.ShouldCompact | lucnhan/agent/context_window.py:24-54 | compaction is due exactly from the threshold on |
| Compaction.CompactMessages | lucnhan/agent/context_window.py:56-114 | the loops compute the compacted list |
| Compaction.CompactedIsSmall | lucnhan/agent/context_window.py:64-114 | a compacted list has at most six messages and is shorter, first and recent messages are verbatim, compacting again changes nothing |
| Compaction.SummaryIgnoresReasoning | lucnhan/agent/context_window.py:82-110 | reasoning never enters the summary |
| Compaction.CompactionKeepsPairing | lucnhan/agent/context_window.py:67-77 | a paired conversation stays paired, both ways, if and only if its first message makes no calls |
| Preview.OpeningFences | lucnhan/agent/loop_commands.py:55-66 | the first pass ends with the opening fence that is unmatched, if one is |
| Preview.KeepLines | lucnhan/agent/loop_commands.py:67-93 | the second pass keeps the lines up to the first place to stop, and agrees on whether a block is open |
| Preview.KeptIsFirstStop | lucnhan/agent/loop_commands.py:81-93 | the lines kept end at the very first place to stop, or nowhere before the end |
| Preview.TruncateReportPreview | lucnhan/agent/loop_commands.py:30-102 | the two passes compute the preview |
| Preview.PreviewIsBalancedPrefix | lucnhan/agent/loop_commands.py:50-102 | a body over the cap becomes a right-trimmed prefix of it, within the cap, with an even number of fences, and the note |

## Left out

- The tag patterns and the case fold of the program differ on a few non-ASCII letters; one fold per character is used for both.
- Regular expressions and Unicode tables of the guard (normalisation, header lines, anchors, line splitting) are arbitrary functions.
- Metrics kept only for the guard's snapshot, and the table that selects a profile for a provider and model.
- The growth counters of the guard, which throttle three detectors, are functions of the deltas; when a throttled detector runs depends on the cut.
- The worst-case pauses, retries and reminders around the tool ladder: reminder texts and their budgets, the prompt after tools were disabled.
- Bridge.BackgroundAgentRunner.Run: does not flush the buffer still pending when the stream ends in deltas, because the program does not.
- Arguments of tool calls are decoded by an arbitrary function, which answers with a JSON value or refuses; a decoder that gives up on deep nesting is not modelled. SHA-256 signatures are the pair of name and arguments itself.
- The fan-out: cancellation, agents registered by other parts, several threads waiting on one event, and a thread that fails to start after its agent was registered.
- Undo.RunSimulates: covers recorded mutations only, none arriving while a reverse runs; a mutation that is not recorded moves the database under the stack.
- The undo of `set_type`, of function prototypes, of variable types and of `nop_microcode`: they rest on registries of the host and add no new idea.
- What the host accepts as names and types, where it places comments and how large a struct is are arbitrary functions of the model's `Host` record; a member whose type changes size must not overlap its neighbours.
- Database.Exec: struct descriptions are read through an arbitrary function there; `StructText` and `StructUndo` supply the printed text for plain structs. Enum descriptions stay arbitrary.
- StructUndo.AsShown: a struct description whose size line is negative, which no host prints, gives no pre-state.
- Undo.Session.NoteMutation: whether a mutation counts as verified is an input; the program reads that off the answer and the database, and the answer of a successful mutation may contain a failure phrase.
- Undo.UndoSimulates: speaks of reverses during which no other record arrives, because such a record moves the database under the stack; Undo.LateRecordsSurvive and Undo.EveryTryCounts cover the others.
- Result caching, tool timeouts as such and threads of the tool registry; a timeout is one way for a reverse call to raise.
- Ladder.SecondOfATieNeverBlocked: one pattern, two reads asked for in every turn; Ladder.NeverWorstAlwaysRuns and Ladder.BlockedIff speak of any turns.
- HTTP, authentication, how long a poll waits, and requests that answer questions or approvals on the control server.
- A prompt whose agent raises instead of returning an error leaves its run unfinished for good; that path is not modelled.
- The patterns that find indicators and the rules users add; the hexdump pass takes any list of matches.
- The texts of error messages in replies, and the per-id explanations of unresolved findings and hypotheses.
- Prompts, providers and the agents behind verification and review: an attempt is an arbitrary answer.
- Token estimation, and the floating-point rounding of the compaction threshold and of the 85 % mark of the preview, which are exact here.
- Messages keep their identifiers, times and other fields in one field that compaction never looks at.
