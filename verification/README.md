# Verification of Tile's runtime and tools

Tile is an agent harness. It runs prompts against a model provider, commits conversations to a
SQLite store, streams bounded command output, edits files, assembles provider streams and pages
through files. This project models the parts of it that carry protocols or index arithmetic, and
proves what they are for.

`dafny verify dfyconfig.toml` checks everything. The files fall into six groups:

| files | what they model |
|---|---|
| `wrappers`, `text` | Option, Result, facts about sequences; UTF-8 (RFC 3629 section 3) and line splitting |
| `truncation`, `accumulator`, `reading` | one-shot truncation, the rolling accumulator that refines it, paged reading on top of it |
| `edit_splicing`, `edit_ties`, `edit_matching`, `edit_line_endings`, `edit_engine`, `edit_fallback` | spans and the splice, spans with a common start, exact and fuzzy search, line endings and BOM, the edit tool, and which path decides a call |
| `stream_model`, `stream_laws`, `stream_assembler` | the stream assembler as a step function, its laws, and the heap objects that refine it |
| `conversation`, `run_events`, `agent_run`, `agent_laws`, `agent_grammar`, `agent_outcomes`, `agent_endings`, `stream_discipline`, `run_execution` | replayable histories and healing, one run as a machine that stops at every await, its live log, how it ends, assembled streams as that run hears them, the run owner with its subscribers |
| `store_model`, `store_laws`, `store`, `protocol_model`, `protocol_laws`, `protocol_steps`, `protocol_finalize`, `protocol_inputs`, `protocol_theorems` | store transactions, the store object with rollback, and the whole protocol: one store and any number of interleaved runs, aborts and forks |

Code that mutates state is a class or a method with loops, proved against a function of values:
`OutputAccumulator`, `StreamAssemblyState` with its `BlockObject`s, `RunHistory`, `SQLiteStore`,
`RunExecution` with its `Subscriber`s, and the loops for selecting lines, searching text, splicing
and checking spans. The laws are then lemmas about those functions.

A run's coroutine is cut at its awaits. `AgentRun.Step` says what happens between one await and the next,
so a failure or a cancellation at any await is one more input. A `ProtocolModel.Event` is one store
operation, one such stretch of one run, or one finalization; a theorem about `After(INITIAL, events)`
is about every interleaving of all of them. Backend failures, read failures, tool results, provider
streams and clock readings are parameters of the events, and the clock may go backwards.

## Where the code falls short of a law

Each of these is a property that is not true for all inputs. The lemma named gives the exact condition
or an input that shows it.

- A snapshot agrees with truncating the whole stream exactly when not (`LostLineStart`): the last line
  was cut and what is left of it fits. That takes a byte limit below 4
  (`OutputAccumulation.SnapshotAgrees`, `OutputAccumulation.TinyLimitExample`).
- The reported reason for truncation differs exactly under `ReasonMasked`: the stream's line total
  exceeds the line limit and hides that bytes did the cutting (`OutputAccumulation.ReasonAgrees`, `OutputAccumulation.MaskedReasonExample`).
- Healing an interrupted turn gives a replayable history exactly when no pending call repeats an answered
  id (`Conversation.HealedIsWellFormedIff`, `Conversation.RepeatedIdIsNotHealed`). A committed history is
  replayable exactly when that holds of every run in it (`ProtocolTheorems.CommittedHistoriesAreWellFormed`).
- With an overlapping copy before the whole-line one, exact and fuzzy search report different places and
  neither reports a duplicate (`EditEngine.OverlappingCopiesPartThePaths`); with a copy that begins inside a
  whole-line match, only fuzzy search reports one (`EditEngine.RepeatedLinesPartThePaths`). With nothing to
  normalize, fuzzy search finds what exact search found exactly when the exact match is the only place where
  the old text stands on whole lines (`EditEngine.BothPathsAgreeIffAligned`, for all edits of a call
  `EditEngine.AllEditsAgreeIffAligned`).
- A whitespace-only old text can match an empty line as an empty span. Beside another edit that starts
  there it passes the overlap check and the result is garbled: editing `"\nfoo"` with `"  "` to `"A"` and
  `"\nfoo"` to `"B"` gives `"Bo"` (`EditEngine.BlankOldTextGarbles`). For any number of spans that pass the
  check, splicing is simultaneous for all replacement texts exactly when their starts differ
  (`SpliceTies.SimultaneousIffDistinctStarts`), and so it is for the spans of a fuzzy edit
  (`EditEngine.FuzzyEditIsSimultaneous`).
- An edited file reloads as edited exactly when it had a BOM or the new content does not begin with one
  (`EditEngine.EditedFileReloads`).
- Reading page by page reconstructs a file exactly when no line exceeds the byte limit
  (`PagedReading.ReadingReconstructsFile`).
- A live log is in the documented grammar exactly when every provider stream is one start, updates and one
  terminal event (`AgentGrammar.LogIsGrammatical`). The assembler does not enforce that: what it emits is such
  a stream exactly when one `Created` comes ahead of all other events that always emit
  (`StreamDiscipline.AssembledIsOneMessage`).
- A cancelled run is stored as aborted exactly when closing its stream does not fail afterwards; if it does, the
  run is stored as an execution failure (`AgentEndings.EndingsAreExact`, `ProtocolTheorems.FinishedLogs`).
- A run faults exactly when the backend fails its finish, or it was ended before and reading the stored
  ending fails (`ProtocolTheorems.FinishCommitsSnapshotAndDelta`).

## Model

| member | source | states |
|---|---|---|
| `Utf8.DecodeEncode` | tile/tools/support/output_accumulator.py:93-96 | strict decoding undoes encoding, for any text |
| `Utf8.EncodeDecode` | tile/tools/support/output_accumulator.py:93-96 | bytes that decode are the encoding of what they decode to, so decoding accepts nothing else |
| `Utf8.EncodingIsShortest` | tile/tools/support/output_accumulator.py:72-80 | a character takes 1, 2, 3 or 4 bytes by the code point ranges of RFC 3629, section 3 |
| `Lines.JoinSplit` | tile/tools/support/truncation.py:56-85 | joining the lines of a text with newlines gives the text back |
| `Truncation.SelectOutputLines` | tile/tools/support/truncation.py:246-272 | the selection loop, from either edge, returns exactly the selected edge lines and the limit that stopped it |
| `Truncation.SelectedIsMaximal` | tile/tools/support/truncation.py:246-272 | a run of lines at the edge is within both limits if and only if it is no longer than the selected one |
| `Truncation.StoppedByTellsTheLimit` | tile/tools/support/truncation.py:246-272 | the reported limit is the one that one more line would break |
| `Truncation.RunningBytesAreJoinedBytes` | tile/tools/support/truncation.py:253-272 | the running byte count is the encoded length of the joined lines |
| `Truncation.TruncatedPathDropsALine` | tile/tools/support/truncation.py:56-85 | a text fits if and only if all its lines are selected, so the loop never runs out of lines on the truncated path |
| `Truncation.OversizedEdgeSelectsNothing` | tile/tools/support/truncation.py:179-217 | nothing is selected when the edge line is oversized, and only then (or with a line limit of 0) |
| `Truncation.TruncateText` | tile/tools/support/truncation.py:56-85 | the method with its early exits computes the truncation function |
| `Truncation.TruncateKeepsMaximalRun` | tile/tools/support/truncation.py:56-85 | whatever branch is taken, the content is the maximal run of complete edge lines within both limits, its size and the text's totals are reported, `truncated` tells whether a line was dropped, and flag and reason say what stood in the way of one more line |
| `Truncation.TruncateToByteLimit` | tile/tools/support/truncation.py:88-108 | the byte-limit loop returns the content of head truncation without a line limit |
| `OutputAccumulation.TailIncremental` | tile/tools/support/output_accumulator.py:72-91 | the retained tail after one more piece depends on the old tail and the piece alone, so chunking does not matter |
| `OutputAccumulation.TailIsLongest` | tile/tools/support/output_accumulator.py:147-160 | the tail starts at the first character boundary within the cap and is at most 3 bytes short of it |
| `OutputAccumulation.FlagIncremental` | tile/tools/support/output_accumulator.py:72-91 | the line-boundary flag of the whole text follows from the old flag and the last byte dropped |
| `OutputAccumulation.Utf8BoundaryAtOrAfter` | tile/tools/support/output_accumulator.py:155-160 | the scan finds the first non-continuation byte at or after a position |
| `OutputAccumulation.BoundaryIsTailStart` | tile/tools/support/output_accumulator.py:147-173 | that byte position is the character position where the retained tail starts, and the byte before it is a newline exactly when the character before is |
| `OutputAccumulation.OutputAccumulator.AppendDecodedText` | tile/tools/support/output_accumulator.py:72-91 | buffer, flag and totals stay the stated functions of everything decoded so far |
| `OutputAccumulation.OutputAccumulator.Finish` | tile/tools/support/output_accumulator.py:50-56 | the first finish appends the held text and later ones only report; the report is that of the whole text, totals included |
| `OutputAccumulation.OutputAccumulator.Snapshot` | tile/tools/support/output_accumulator.py:58-70 | the buffer always decodes, and the snapshot reports on it with the byte and line totals of the whole stream |
| `OutputAccumulation.ReportTellsTotals` | tile/tools/support/output_accumulator.py:105-115 | a report's totals are the stream's encoded bytes and its number of lines, none for an empty stream |
| `OutputAccumulation.SnapshotAgrees` | tile/tools/support/output_accumulator.py:58-115 | content, lines, bytes, edge flag and truncation are those of truncating the whole stream, if and only if its last line was not lost, which cannot happen with a byte limit of 4 or more |
| `OutputAccumulation.ReasonAgrees` | tile/tools/support/output_accumulator.py:117-144 | for any stream and limits, the reported reason is that of truncating the whole stream if and only if the line total does not mask it |
| `PagedReading.PageShowsLines` | tile/tools/read.py:103-146 | a page shows the maximal run of lines from its offset that fits, and names the limit that one more line breaks |
| `PagedReading.NextOffsetAdvances` | tile/tools/read.py:336-344 | an advertised offset is strictly greater and still inside the file |
| `PagedReading.OtherOffsets` | tile/tools/read.py:316-321 | no offset, or one below 1, reads from line 1; only an offset past the last line is an error, which gives the number of lines |
| `PagedReading.ReadingReconstructsFile` | tile/tools/read.py:103-146 | following the advertised offsets from line 1 shows exactly the file's lines, no gap and no repeat, if and only if no line exceeds the byte limit |
| `Splicing.ValidateNonOverlapping` | tile/tools/edit.py:418-429 | the loop reports the first adjacent overlap of the spans sorted by start |
| `Splicing.AdjacentCheckIsPairwise` | tile/tools/edit.py:418-429 | for nonempty spans, checking neighbours is checking all pairs |
| `Splicing.AdjacentCheckIsClear` | tile/tools/edit.py:418-429 | for any spans, empty ones included, checking neighbours accepts exactly the lists in which, of any two spans, the one that starts first ends before the other starts, and at one start the first listed is empty |
| `Splicing.SpliceTextSpans` | tile/tools/edit.py:432-438 | the loop applies the spans in reverse order of start, ties in order |
| `Splicing.SpliceIsSimultaneous` | tile/tools/edit.py:432-438 | with strictly increasing starts and no overlap the splice is simultaneous replacement on the original, every gap copied as it is |
| `Splicing.SpliceLength` | tile/tools/edit.py:418-438 | for all spans that pass the overlap check, ties included, the length changes by exactly the sum of the replacements' growth |
| `Splicing.SpliceIgnoresOrder` | tile/tools/edit.py:418-438 | the order in which edits are listed does not change the result |
| `SpliceTies.SimultaneousIffDistinctStarts` | tile/tools/edit.py:418-438 | for any spans that pass the overlap check, the splice is simultaneous replacement for all replacement texts if and only if no two of them start at one place |
| `Matching.FindTextStarts` | tile/tools/edit.py:354-362 | the search loop collects the non-overlapping starts |
| `Matching.UniqueStart` | tile/tools/edit.py:354-362 | one start is reported if and only if every occurrence begins inside the first one |
| `Matching.TerminatedLinesJoin` | tile/tools/edit.py:311-318 | the terminated lines concatenate to the text; none is empty, each but the last ends in a newline, and none has a newline before its last character |
| `Matching.LineStartOffsets` | tile/tools/edit.py:321-329 | the loop returns the start of every line |
| `Matching.WindowMatchIsAlignedOccurrence` | tile/tools/edit.py:365-398 | a window of lines matches at a line if and only if the old text stands there on whole lines |
| `Matching.WindowSpanIsOccurrence` | tile/tools/edit.py:332-351 | the span of a matching window is that occurrence, the unclaimed newline left outside |
| `EditEngine.MatchSpans` | tile/tools/edit.py:243-308 | either path's loop finds the spans edit by edit, stops at the first error, and checks overlaps last |
| `EditEngine.ApplyReplacements` | tile/tools/edit.py:201-240 | matching, splicing and the no-change check compose to the application function |
| `EditEngine.ExactEditIsSimultaneous` | tile/tools/edit.py:201-264 | a successful exact edit replaces each old text where it stood, all at once, pairwise disjoint, and nothing else |
| `EditEngine.FuzzyEditIsSimultaneous` | tile/tools/edit.py:213-308 | when the fuzzy spans pass the check, each covers exactly the text of the one window of lines whose normalized form matches; the length changes by what the spans exchange; they are replaced all at once if no two start at one place, and for all new texts only then |
| `EditEngine.FuzzyEditWithoutBlanks` | tile/tools/edit.py:213-308 | that is so, with pairwise disjoint spans, whenever no old text normalizes to an empty unterminated line |
| `EditEngine.FuzzyEqualsExact` | tile/tools/edit.py:201-308 | when every old text occurs once, on whole lines, and the normalizer leaves the texts alone, both paths give the same result, errors included |
| `EditEngine.BothPathsAgreeIffAligned` | tile/tools/edit.py:243-308 | with nothing to normalize and an old text that exact search finds, fuzzy search finds the same place if and only if it is the only one where the old text stands on whole lines |
| `EditEngine.AllEditsAgreeIffAligned` | tile/tools/edit.py:201-308 | for all edits of a call: when exact search finds every old text, fuzzy search finds the same spans if and only if each is the only such place, and then the results are the same |
| `EditEngine.OverlappingCopiesPartThePaths` | tile/tools/edit.py:243-308 | a text where the paths replace different places |
| `EditEngine.RepeatedLinesPartThePaths` | tile/tools/edit.py:243-308 | a text where the exact match stands on whole lines and fuzzy search reports a duplicate |
| `EditEngine.BlankOldTextGarbles` | tile/tools/edit.py:187-308 | a blank old text and an edit of the same line garble each other |
| `EditFallback.EmptyOldTextDecides` | tile/tools/edit.py:474-484 | the first empty old text is rejected before anything is searched |
| `EditFallback.FirstUnfoundDecides` | tile/tools/edit.py:187-198 | when the first old text not found once is nowhere in the content, the fuzzy path decides the call; when it is there more than once, the call fails for it as a duplicate with the number of matches, whatever the fuzzy path would find |
| `EditFallback.AllFoundDecides` | tile/tools/edit.py:187-264 | when every old text is found once, overlapping ranges are rejected with two edits that overlap; otherwise all are replaced at once; the fuzzy path has no say |
| `EditFallback.TextStartsAreSpaced` | tile/tools/edit.py:354-362 | the starts are occurrences that do not overlap, and every occurrence begins inside one of them |
| `EditFallback.FuzzySpanIs` | tile/tools/edit.py:267-308 | fuzzy search finds an old text if and only if its normalized lines match at one line of the normalized content; none is not found, several are a duplicate with their number |
| `EditFallback.FirstFailureDecides` | tile/tools/edit.py:243-308 | on either path the first edit whose search fails decides the call, with that error |
| `EditFallback.OverlapDecides` | tile/tools/edit.py:243-308 | on either path, with every search successful, the call fails for an overlap if and only if the spans are not clear of each other, naming the first two neighbours in order of start that overlap |
| `EditEngine.EditedFileReloads` | tile/tools/edit.py:175-198 | the written file loads as the edited content with its BOM and style, if and only if it had a BOM or the content does not begin with one |
| `LineEndings.DetectedIsFirst` | tile/tools/edit.py:495-504 | the detected style is that of the first line ending, CRLF if and only if a CR stands right before the first LF |
| `LineEndings.NormalizeInOnePass` | tile/tools/edit.py:507-510 | the two replacements amount to one pass in which a CRLF pair, or a CR by itself, becomes one LF and everything else stays |
| `LineEndings.RestoreIsExactForUniformFiles` | tile/tools/edit.py:495-518 | normalizing and restoring gives back exactly the files that are uniformly LF or uniformly CRLF |
| `LineEndings.NormalizeRestored` | tile/tools/edit.py:507-518 | normalizing undoes restoring, under either style |
| `StreamAssembling.StreamAssemblyState.HandleEvent` | tile/providers/openai/stream_assembler.py:77-113 | each event's method changes at most the block that was active, keeps the alias between the active block and the last list element, and refines the step function |
| `StreamAssembling.StreamAssemblyState.FinalizeReasoning` | tile/providers/openai/stream_assembler.py:149-167 | an empty summary keeps the accumulated deltas; no other block changes |
| `StreamAssembling.StreamAssemblyState.ClearActiveBlock` | tile/providers/openai/stream_assembler.py:348-352 | the alias is dropped and the list stays |
| `StreamAssembling.AssembleStream` | tile/providers/openai/stream_assembler.py:55-74 | the loop over the events emits exactly the assembled stream |
| `StreamModel.AssembledStreamIsConsumable` | tile/providers/openai/stream_assembler.py:77-113 | for any events, a strict independent consumer that rebuilds the blocks accepts every emitted event |
| `StreamLaws.AssembledStreamShape` | tile/providers/openai/stream_assembler.py:77-113 | starts carry 0, 1, 2, ...; deltas and ends carry the newest index with its kind; an index ends once with nothing after; a terminal event comes last and once |
| `StreamLaws.TerminalEventIs` | tile/providers/openai/stream_assembler.py:281-320 | the first terminal event decides how the stream ends: completed or incomplete with its reason, failed or incomplete by an error with its message or the standard one; the id is that of the last `Created` before |
| `StreamDiscipline.TerminalArguments` | tile/providers/openai/stream_assembler.py:217-278 | every tool call of a terminal event, finished or not, has the arguments it was added with, or those that replaced them last while it was written |
| `StreamDiscipline.HeardCalls` | tile/agent.py:303-310 | the calls a heard turn asks for are those of the assembled tool-call blocks, in order |
| `StreamDiscipline.AssembledPassesOn` | tile/providers/openai/stream_assembler.py:77-113 | the stream passes on, one for one and in order, the events up to the first terminal one, deltas and ends only while a block of their kind is written, each saying what the provider's event said |
| `StreamLaws.TerminalBlocksMatchEvents` | tile/providers/openai/stream_assembler.py:295-358 | a terminal event has one block for every start event; each is the block its end event carried, or else what its start and its deltas say, a tool call's id and name included |
| `StreamLaws.CanonicalStreamRoundTrip` | tile/providers/openai/stream_assembler.py:116-278 | assembling the canonical stream of a block list gives the list, for every split into deltas, if and only if deltas that stand in for an empty summary add up to it |
| `Conversation.CollectedCalls` | tile/agent.py:303-310 | every tool-call block of a turn gives one call, in its place; other blocks give none |
| `RunEvents.HistoryHoldsContributions` | tile/runtime/history.py:79-90 | a history holds exactly the completed turns, tool results and reminders of the log; failed and aborted turns leave nothing in it |
| `Conversation.HealedIsWellFormedIff` | tile/runtime/history.py:63-76 | healing makes an interrupted delta replayable if and only if no pending id was answered before, and then adds one error result per pending call and nothing else |
| `Conversation.DistinctIdsHeal` | tile/runtime/history.py:93-105 | distinct call ids are enough |
| `Conversation.HealedIsIdempotent` | tile/runtime/history.py:63-105 | after healing no call is unanswered, so healing again changes nothing |
| `Conversation.RepeatedIdIsNotHealed` | tile/runtime/history.py:93-105 | one id used twice in a turn leaves the second call unanswered |
| `RunEvents.RunHistory.Observe` | tile/runtime/history.py:48-56 | both histories get the event's replayable item; the working history stays committed plus delta |
| `RunEvents.RunHistory.Heal` | tile/runtime/history.py:63-76 | both histories get the missing results; nothing is unanswered afterwards |
| `AgentRun.FindResultOutcome` | tile/runtime/execution.py:156-168 | the loop returns what the first terminating complete or fail execution says, and nothing if and only if there is none |
| `AgentRun.FirstDecisionWins` | tile/runtime/execution.py:156-168 | the first terminating complete or fail execution decides: a completion gives its value, a failure is the agent's, with its reason |
| `AgentRun.NoDecisionNoOutcome` | tile/runtime/execution.py:156-168 | there is no outcome if and only if no complete or fail execution terminates |
| `AgentLaws.ProviderSeesCommittedAndDelta` | tile/agent.py:126-151 | at every provider call of every run, in every attempt, the agent's own list is the committed history plus the provisional delta, and that delta is replayable |
| `AgentLaws.StepKeepsConsistent` | tile/agent.py:154-300 | for every await and every way it can end, the agent's list and the run-local history differ by exactly the current turn, and the calls still pending are those not yet run |
| `AgentGrammar.LogIsGrammatical` | tile/agent.py:98-300 | wherever a run stops its log is a prefix in the nested run, attempt, turn, message and tool grammar, closed by one terminal event, with at most 9 attempts and follow-ups only between them, if and only if every provider stream among its inputs is one start, updates and one terminal event, as far as it came |
| `AgentGrammar.StepExtends` | tile/runtime/run_execution.py:145-150 | a log is only appended to, and no step of the execution emits a terminal event |
| `AgentOutcomes.LogDecidesOutcome` | tile/runtime/execution.py:76-113 | a plain run returns the text of its last completed turn; a typed run returns the value or the agent's failure that the first terminating complete or fail execution of the whole log gives, or the exhaustion failure after exactly 9 attempts; a run that fails on its turn stops right behind the failed message |
| `AgentOutcomes.AssistantTextGrows` | tile/runtime/execution.py:171-176 | text blocks are set apart by a blank line, other blocks leave no trace |
| `AgentEndings.EndingsAreExact` | tile/runtime/run_execution.py:178-186 | an ended run was cancelled if and only if a cancellation came before it was done and closing did not fail afterwards; failed on its turn if and only if its log breaks off behind a failed message and closing went well; returned if and only if its log ends with an attempt, and then nothing broke into it; once something did, it took at most one more input; a stream it opened was closed, unless a cancellation came during that; there were no more attempts than system prompts built |
| `AgentEndings.CancelEndsRun` | tile/runtime/run_execution.py:136-143 | a cancellation ends an unfinished run as cancelled, at once or as soon as its stream is closed |
| `AgentEndings.LogReportsInputs` | tile/agent.py:187-300 | messages, updates and tool executions in the log are exactly what streams and tools said, in order; a failed tool is an error and never ends the loop |
| `StreamDiscipline.AssembledIsOneMessage` | tile/agent.py:187-218 | what the agent hears of an assembled stream is one start, updates and one terminal event, as far as it came, if and only if one `Created` comes ahead of all other events that always emit; the terminal event is there if and only if the provider sent one |
| `StreamDiscipline.AssembledLogIsGrammatical` | tile/agent.py:154-218 | a run fed by assembled streams has a log in the grammar if and only if that holds of every provider response |
| `RunExecutions.RunExecution.Emit` | tile/runtime/run_execution.py:145-150 | the event is logged, its item observed, and every waiting subscriber woken for good |
| `RunExecutions.RunExecution.Resume` | tile/runtime/run_execution.py:96-107 | one uninterrupted stretch of a subscriber's loop, whatever others did to the shared flag |
| `RunExecutions.RunExecution.Finish` | tile/runtime/run_execution.py:163-194 | the delta is healed, then committed or the stored ending taken over; any other error is a fault |
| `RunExecutions.RunExecution.Finalize` | tile/runtime/run_execution.py:152-161 | result, terminal event and finalization happen in one step, and every subscriber is still in step |
| `RunExecutions.NoWakeupIsLost` | tile/runtime/run_execution.py:96-107 | under any schedule a subscriber has a prefix of the log; blocked without a wakeup it has all of an open log; returned, all of a closed one; a closed run never leaves it blocked |
| `RunExecutions.OpenRunBlocks` | tile/runtime/run_execution.py:96-107 | while the run is open each turn brings one more event, and a subscriber that has them all blocks until it is woken |
| `RunExecutions.ClosedRunDrains` | tile/runtime/run_execution.py:96-107 | once the run is closed, wherever the subscriber stands, blocked included, each turn brings one more event and the turn after the last returns |
| `StoreLaws.StoreIsAlwaysConsistent` | tile/store/sqlite.py:75-227 | from an empty database, over any operations, clocks and backend failures: at most one active run per session, terminal records and run identities for good, positions 0..n-1, histories only extended, items of ended runs only, times in order |
| `StoreLaws.SessionsAreIndependent` | tile/store/sqlite.py:209-227 | operations on other sessions, after a fork too, leave a session's history as it was |
| `StoreLaws.StartRunKeeps` | tile/store/sqlite.py:113-143 | a start is accepted if and only if the session exists, has no active run and the id is new; it returns the whole committed history; each error has its exact condition |
| `StoreLaws.FinishRunKeeps` | tile/store/sqlite.py:145-166 | a finish commits if and only if the run is still active; it appends exactly the delta at the next positions and ends the run now, or at its start if the clock went back; a lost finish changes nothing |
| `StoreLaws.AbortKeeps` | tile/store/sqlite.py:168-182 | an abort ends exactly the active run, if there is one, now or at its start if the clock went back, and changes no history |
| `StoreLaws.ForkKeeps` | tile/store/sqlite.py:209-227 | a fork is the source's rows under the new session and touches nothing else |
| `StoreModel.DenseIsOrdered` | tile/store/sqlite.py:386-400 | consecutive positions make ordering by position the insertion order |
| `Store.SQLiteStore.StartRun` | tile/store/sqlite.py:113-143 | the statements refine the transaction step; a failure rolls back |
| `Store.SQLiteStore.InsertRows` | tile/store/sqlite.py:340-361 | the batch is inserted if and only if no key is taken |
| `Store.SQLiteStore.FinishRun` | tile/store/sqlite.py:145-166 | run, rows and session are written, or everything is rolled back, as the transaction step says |
| `Store.SQLiteStore.AbortActiveRun` | tile/store/sqlite.py:168-182 | as the transaction step says |
| `Store.SQLiteStore.ForkSession` | tile/store/sqlite.py:209-227 | as the transaction step says, a failed copy rolled back |
| `ProtocolTheorems.StepKeepsSystem` | tile/runtime/run_execution.py:29-217 | every event of every run, abort or fork keeps the invariant that ties live runs, store and histories together |
| `ProtocolTheorems.ActiveRunKeepsItsSnapshot` | tile/store/sqlite.py:113-143 | while a run is active its session's committed history is the snapshot its start returned |
| `ProtocolTheorems.FinishCommitsSnapshotAndDelta` | tile/runtime/run_execution.py:163-176 | a finalization commits, if and only if the backend holds and the run was not ended before, and then leaves exactly snapshot plus healed delta, which is the run's working history; otherwise the store is as before; the run faults if and only if the backend fails, or the run was ended before and reading the stored ending fails |
| `ProtocolTheorems.ResultsAgreeForever` | tile/runtime/run_execution.py:152-207 | a result, the terminal event and, unless faulted, the stored outcome agree, now and after anything that follows; when a run faults is stated by `FinishCommitsSnapshotAndDelta` |
| `ProtocolTheorems.DeltaIsCommittedIffWon` | tile/store/sqlite.py:145-182 | a run has its whole delta in its session if and only if its own finish won; in any session, forks included, it has all of it once or nothing; an aborted run has nothing anywhere |
| `ProtocolTheorems.CommittedHistoriesAreWellFormed` | tile/runtime/history.py:63-105 | for interruption at any await, a committed history, forks included, is replayable if and only if no run in it left a call pending under an id it had answered, as its log tells |
| `ProtocolTheorems.FinalizationHealsIff` | tile/runtime/run_execution.py:163-176 | a finalization heals the delta, which becomes replayable if and only if no pending id was answered |
| `ProtocolTheorems.DistinctIdsKeepHistoriesWellFormed` | tile/runtime/history.py:63-105 | with distinct call ids within each run every committed history is replayable |
| `ProtocolTheorems.FinishedLogs` | tile/runtime/run_execution.py:178-207 | a finished run's log opens with the run start and closes with the only terminal event in it; a run whose finish won has stored that it was aborted if and only if its inputs cancelled it and closing went well, a turn failure if and only if its log breaks off, what the log decides if and only if an attempt ends it, and else an execution failure |

## Left out

- Provider transport, SDK event adaptation and the OpenAI provider object: the model starts at normalized events.
- The incremental UTF-8 decoder: the accumulator receives decoded pieces. Encoding, strict decoding and the continuation-byte test are modelled.
- SQL text, schema creation, JSON and timestamp codecs, connections: a transaction is one step that commits or leaves the tables unchanged. Tables are values with the schema's keys and checks. Listing sessions and runs, row ids and the model and provider columns are not modelled.
- NFKC, quote, dash and space maps and the right-strip of the fuzzy normalizer: it is a parameter. The lemmas name what they need of it.
- Files, subprocesses, paths, diffs, images and the other tools: input and output.
- Error wording, exception types and messages: errors are the cases the code distinguishes. An execution failure keeps only its origin.
- Prompt text, tool lookup, argument validation, working directories: a tool call ends in any result or error, with or without the terminate flag. Building the system prompt either works or raises.
- Process death, and a commit that succeeds but reports failure: the protocol assumes commit or unchanged.
- The agent and attempt loops are a state machine over awaits and not one method, because cancellation, aborts and other runs come in between.
- Deep copies, except in the assembler: elsewhere items are values, so aliasing between the working history, the delta and the emitted events is not captured.
- Run handles, `wait` and `abort`: waiting returns the stored result and aborting is the cancel input.
- Liveness of the scheduler: subscribers are shown never to block wrongly and to drain a closed run when given turns, not to be given turns.
