# Verified model of the agent runtime's algorithms

This project models, in Dafny, the algorithms and state machines at the core of the agent runtime and its ACP bridge, and
proves what they promise. Each module follows one part of the program:

- `PatchParser`, `PatchPrinter`, `PatchGrammar`: the line parser for patches between `*** Begin Patch` and
  `*** End Patch`. A printer is defined beside it, over scripts that write edits in any order, with or without the context
  line of a first chunk. Printing and parsing are inverse, the scripts print exactly the patches that are accepted, and
  errors point at their lines.
- `PatchUpdate`, `PatchLocation`, `PatchSplice`: the four-level fuzzy matcher, where it puts each chunk, and the
  back-to-front splicing of an update, related to one simultaneous substitution.
- `AcpAgent`, `AcpRuns`, `AcpAnswers`, `AcpLosses`, `AcpLoops`, `AcpForgotten`: the pending prompts of the gateway bridge. Every
  asynchronous method is cut at its awaits. The class holds the pieces; runs interleave them with events and replies in
  every order.
- `SnapshotDeltas`, `SessionStore`, `RelayMonitor`: streamed text snapshots, the session store with its run index, and the
  relay that reports on a spawned child.
- `InternalContext`, `LegacyContext`, `InternalEvents`: printing events into delimited blocks and stripping such blocks;
  `LegacyBlocks`, `StripLeftovers`, `LegacySeams`: what stripping takes out, what it leaves behind, and when.
- `SseReader`, `GoogleStream`: the incremental event-stream reader and the block builder behind it.
- `TranscriptRepair`, `RepairCondition`, `RepairOutcome`, `RepairTwice`, `Compaction`: re-pairing tool calls with results,
  which transcripts that changes and to what, what a second repair does, splitting, chunking and pruning a history.
- `ShellScan`, `ShellGrammar`, `ErrorSearch`, `ProcessOutput`, `Utf16`: the shell quote scanners, the search through an error graph, the
  bounded output buffers, and slicing without splitting characters.

Loops and objects of the program are methods and classes here, each proved against a specification function or a
predicate over its history; the lemmas are about those. Network calls are replies that may come in any order and with any
content. Clocks, random ids and generated ids are parameters; run ids are required to be new, as random ids are.

Where the program does less than one would expect, the model keeps the behaviour, a lemma shows an input, and another
states when it happens:

- A pure insertion on a file that ends in a blank line can overlap the chunk before it, and the inserted line is lost
  (`PatchSplice.InsertedLineIsLost`). An end-of-file chunk can fall onto lines that were replaced before it
  (`EofChunksAreSafeIff`). `ReplacementsAreApart` is the exact condition for each chunk list.
- An update drops a trailing blank line even when it replaces nothing there (`PatchSplice.BlankLineIsDropped`;
  `KeepingSurvivesIff`, `UntouchedFileSurvivesIff`).
- An unexpected line in a first chunk without a context marker is reported with the number of the next line
  (`PatchPrinter.UnmarkedLineIsReportedTooLow`; `ErrorsPointIntoThePatch`).
- A prompt sent while a disconnect deadline is being handled can lose its timer (`AcpLosses.SomePromptIsStranded`;
  `StrandedIff`, `AcpLoops.OnlyDeadlineLoopsStrand`). A prompt can be deleted by a call of another one, overwritten, or lose
  its final text to a client that rejects it, and then never gets an answer (`AcpLosses.SomePromptIsForgotten`,
  `AcpForgotten.SomePromptIsOverwritten`, `SomeFinalTextIsRejected`; `StepForgetsIff`, `ForgottenIffSomeStepForgets`).
- Cutting off a context block that has no end can leave a begin line (`StripLeftovers.SomeBeginIsLeft`; `KeptHasBeginIff`,
  `StrippedHasBeginIff`, `TidyTextKeepsNoBegin`). Stripping older blocks once can leave one
  (`LegacyContext.SomeLegacyBlockIsLeft`; `LegacySeams.LegacyBlockIsLeftIff`, `StrippedOfAllBlocks`).
- A displaced result of a failed turn, and a result repeated within one span, are put in order internally but the
  transcript comes back as it was (`TranscriptRepair.DisplacedResultOfFailedTurn`, `RepeatedResultInOneSpan`;
  `RepairCondition.RepairChangesIff`, `RepairedIsSoundIff`). A synthetic result takes over a blank or padded name of its call,
  which only a second repair corrects (`RepairTwice.BlankNameIsRepairedTwice`; `RepairedTwiceIff`). The report can list a
  synthetic result that the transcript does not take (`RepairOutcome.SyntheticResultIsNotTaken`; `RepairedIs`).

`dafny verify dfyconfig.toml` checks the whole project.

## Model

| member | source | states |
|---|---|---|
| PatchPrinter.PrintedPatchParses | src/agents/apply-patch.ts:376-607 | Main result. Parsing the printed form of any script of hunks (edits in any order, a first chunk with or without its context line, blank lines, white space around headers and around the patch, either line ending) returns exactly the hunks the script stands for, and the normalised patch text |
| PatchPrinter.PrintThenParse | src/agents/apply-patch.ts:376-607 | Round trip for hunks: whatever can be written on lines (paths on one line and not blank, chunks with at least one edit) is what its printed form parses to |
| PatchPrinter.ParseThenPrintThenParse | src/agents/apply-patch.ts:376-607 | For every text the parser accepts, printing the hunks it returns and parsing them again returns the same hunks |
| PatchPrinter.PatchInHeredocParses | src/agents/apply-patch.ts:400-434 | A patch wrapped in a shell here-document (three openers, any last line ending in EOF) parses like the patch itself |
| PatchPrinter.ErrorsPointIntoThePatch | src/agents/apply-patch.ts:436-607 | Every error of a hunk points at a line between the markers that explains it; only an unexpected first line of a chunk without a context marker is reported one line too low |
| PatchPrinter.UnmarkedLineIsReportedTooLow | src/agents/apply-patch.ts:559-604 | A concrete patch whose third line is not an edit: the error gives it number four |
| PatchPrinter.ChunksErrorPoints | src/agents/apply-patch.ts:480-498 | The same for a run of chunks, through skipped blank lines and consumed chunks |
| PatchPrinter.SplitOfJoin | src/agents/apply-patch.ts:382 | Splitting at `\r?\n` undoes joining with either line ending, on lines that are lines under that ending |
| PatchPrinter.ChunkReadsBack | src/agents/apply-patch.ts:522-607 | A printed chunk is read back with its context, old and new lines and end-of-file mark, the first edit included when there is no context line, and takes exactly its own lines |
| PatchPrinter.ChunksReadBack | src/agents/apply-patch.ts:480-498 | So is a run of chunks with blank lines before, between and after them, up to the next header |
| PatchPrinter.LaterChunkNeedsItsContextLine | src/agents/apply-patch.ts:534-545 | A later chunk that starts with an edit instead of a context line is the missing-context error for that line |
| PatchPrinter.HunkReadsBack | src/agents/apply-patch.ts:436-520 | So is every kind of hunk, and it takes exactly its own lines |
| PatchPrinter.HunksReadBack | src/agents/apply-patch.ts:384-397 | So is a list of hunks |
| PatchPrinter.BodyReadsBack | src/agents/apply-patch.ts:559-604 | Edits of all kinds, in any order, come back as the old and the new lines they stand for |
| PatchPrinter.ParsedHunkPrints | src/agents/apply-patch.ts:436-520 | Whatever hunk the parser returns has a path that is not blank and ends in no space, newline-free lines and non-empty chunks |
| PatchPrinter.PathAfterMarker | src/agents/apply-patch.ts:440-442 | What follows a marker on a trimmed line is never empty and does not end in a space |
| PatchGrammar.AcceptedIff | src/agents/apply-patch.ts:384-607 | Main result. The lines between the markers are accepted, with these hunks, exactly when some script prints these lines and stands for these hunks |
| PatchGrammar.TextIsAcceptedIff | src/agents/apply-patch.ts:376-434 | A text is accepted exactly when its trimmed lines, or those inside a here-document, are framed by the two markers and a script prints what is between them |
| PatchGrammar.StrictIsFramed | src/agents/apply-patch.ts:420-434 | The strict check passes exactly when the first and the last line trim to the two markers; otherwise it names the first of them that is wrong |
| PatchGrammar.ChunkMeans | src/agents/apply-patch.ts:522-607 | What an accepted chunk says, on its lines: a line of two at signs is taken for the context and nothing else is, the old lines are those not marked as added, the new ones those not marked as removed, each without its mark and in order |
| PatchGrammar.BodyMeans | src/agents/apply-patch.ts:559-604 | The same for the edits alone, which run up to the end-of-file mark or the first line that is no edit |
| PatchParser.ParsePatchText | src/agents/apply-patch.ts:376-398 | The loop over the body computes the parser specification: hunks in order, line numbers advanced by what each hunk took |
| PatchParser.ParseOneHunk | src/agents/apply-patch.ts:436-520 | One hunk: the specification of the three kinds of hunk and their errors |
| PatchParser.ParseUpdateFile | src/agents/apply-patch.ts:467-515 | The update loop: optional move, skipped blank lines, chunks until a line of three stars, and the empty-hunk error |
| PatchParser.ParseUpdateFileChunk | src/agents/apply-patch.ts:522-607 | One chunk: context marker, edit lines, end-of-file mark and the four errors |
| PatchParser.ReadAddedFile | src/agents/apply-patch.ts:441-457 | The contents of an added file are its leading plus lines, each ended by a newline |
| PatchParser.CheckPatchBoundariesLenient | src/agents/apply-patch.ts:400-434 | The lenient boundary check computes its specification: markers as they are, or inside a here-document |
| PatchParser.ConsumedAddsUp | src/agents/apply-patch.ts:388-396 | Each hunk takes at least one line and all hunks together take exactly the lines of the body |
| PatchUpdate.SeekFindsBestMatch | src/agents/apply-patch-update.ts:107-148 | A non-empty pattern is found exactly when it matches in range at the loosest level, and then leftmost at the strictest level that has any match |
| PatchUpdate.SeekSequence | src/agents/apply-patch-update.ts:107-148 | The four scans compute that search |
| PatchUpdate.ScanLevel | src/agents/apply-patch-update.ts:126-130 | One scan finds the leftmost match at its level |
| PatchUpdate.LinesMatch | src/agents/apply-patch-update.ts:150-162 | The comparison loop decides whether all lines match at the level |
| PatchUpdate.MatchesAtLooser | src/agents/apply-patch-update.ts:126-145 | What matches at one level matches at every looser level |
| PatchUpdate.LocateChunk | src/agents/apply-patch-update.ts:45-83 | One chunk: context first, then old lines from there, retried without a blank last line |
| PatchUpdate.ComputeReplacements | src/agents/apply-patch-update.ts:37-87 | The loop computes the located replacements of all chunks, sorted stably by start |
| PatchLocation.LocateIff | src/agents/apply-patch-update.ts:45-83 | Main result. A chunk is located at this replacement, with this next search position, exactly when its context is found at its best match from the search position, and its old lines, or those without a blank last one, at their best match from behind the context; an insertion goes to the end and moves the search behind the context |
| PatchLocation.LocateFailsIff | src/agents/apply-patch-update.ts:45-83 | Locating fails for the context exactly when it is nowhere behind the search position, and for the old lines exactly when they are nowhere behind the context |
| PatchLocation.LevelsMean | src/agents/apply-patch-update.ts:126-205 | What the four levels accept, on characters: equal lines; equal but for trailing white space; for surrounding white space; and alike up to typographic dashes, quotes and spaces |
| PatchLocation.SortedIsStable | src/agents/apply-patch-update.ts:86 | Sorting keeps every replacement, orders them by their starts and keeps the order of those that start together |
| PatchSplice.ApplyReplacements | src/agents/apply-patch-update.ts:89-105 | The nested splice loops compute splicing from the last replacement to the first |
| PatchSplice.RemoveOldLines | src/agents/apply-patch-update.ts:95-99 | Removing line by line cuts out the replaced stretch, as far as the file goes |
| PatchSplice.InsertNewLines | src/agents/apply-patch-update.ts:100-102 | Inserting line by line puts the new lines in at the start, or at the end of a shorter file |
| PatchSplice.SplicingIsSubstitution | src/agents/apply-patch-update.ts:89-105 | Main result. Splicing from back to front equals one simultaneous left-to-right substitution when the replacements are in bounds, ordered and disjoint |
| PatchSplice.InverseRestores | src/agents/apply-patch-update.ts:89-105 | Splicing in the inverse replacements restores the original lines |
| PatchSplice.ReplacementsAreApart | src/agents/apply-patch-update.ts:37-87 | Main result. For every file and every chunk list found in it: the computed replacements are in bounds, ordered and disjoint exactly when every chunk fits behind those before it: it starts no earlier than what they replace, and, when one of them inserts lines into a file that ends in a blank line, it covers that line only by itself and behind the insertion |
| PatchSplice.ChunksFitIff | src/agents/apply-patch-update.ts:37-87 | The same from any search position: all chunks fit exactly when no two located replacements collide and none collides with what came before |
| PatchSplice.SortApartOnlyIf | src/agents/apply-patch-update.ts:86 | Sorted replacements are disjoint only if no two of them collided in the order of the chunks |
| PatchSplice.UpdateIsSubstitution | src/agents/apply-patch-update.ts:14-35 | For exactly those chunk lists the update is one simultaneous substitution of disjoint replacements, and the inverse replacements undo it |
| PatchSplice.PinnedChunksAreSafeIff | src/agents/apply-patch-update.ts:62-86 | Exact condition per call: when every chunk replaces something, the replacements are in bounds, ordered and disjoint exactly when every end-of-file chunk has room behind the lines matched before it |
| PatchSplice.UnpinnedHaveRoom | src/agents/apply-patch-update.ts:62-86 | That holds of every located chunk list in which no chunk but the first is tied to the end of the file |
| PatchSplice.InsertionsAreSafeIff | src/agents/apply-patch-update.ts:54-60 | The files on which every chunk list without end-of-file chunks is safe are exactly those that do not end in a blank line (`ReplacementsAreApart` is the condition for one chunk list) |
| PatchSplice.EofChunksAreSafeIff | src/agents/apply-patch-update.ts:120-121 | Only the empty file has no chunk list that breaks this condition: on any other a second end-of-file chunk can fall onto the first |
| PatchSplice.InsertedLineIsLost | src/agents/apply-patch-update.ts:54-60 | A concrete overlap: a replacement and an insertion at a last blank line; the inserted line is lost |
| PatchSplice.ApplyUpdateHunk | src/agents/apply-patch-update.ts:14-35 | The update of a file text: lines without the final empty one, located replacements, splicing, one final newline |
| PatchSplice.UntouchedFileSurvivesIff | src/agents/apply-patch-update.ts:24-34 | Reading lines and writing them back is the identity exactly on the empty file and on files that end in one newline and not in a blank line |
| PatchSplice.KeepingSurvivesIff | src/agents/apply-patch-update.ts:14-35 | An update by one chunk that only keeps lines of the file succeeds, and leaves the text as it is exactly when the text ends in one newline and not in a blank line |
| PatchSplice.BlankLineIsDropped | src/agents/apply-patch-update.ts:24-34 | A concrete file from which keeping its first line drops the blank last one |
| AcpRuns.EveryRunKeepsInvariant | src/acp/translator.ts:456-481 | Main result. In every interleaving of disconnects, reconnects, timer, prompts, cancels, chat events and replies the invariant of pending prompts, contexts, timer and suspended calls holds |
| AcpRuns.StepKeepsInvariant | src/acp/translator.ts:1068-1200 | Every single step keeps it |
| AcpRuns.DisconnectedPromptsAreStamped | src/acp/translator.ts:456-481 | In every run: the active context is of the newest generation, every registered prompt carries it, no stamp is newer than the generation, and an armed timer is for the newest disconnect and has a prompt waiting |
| AcpRuns.DeadlineRejectsOnlyTheStranded | src/acp/translator.ts:1068-1200 | Main result. In every run a deadline of a generation rejects only a prompt that is still registered and still stamped with that generation, and one whose send was accepted only if no reconnect has ended that disconnect; the reason is that disconnect's |
| AcpRuns.DeadlineRejectsOnce | src/acp/translator.ts:1068-1080 | In every run a prompt is rejected at a deadline at most once |
| AcpRuns.LeftForGood | src/acp/translator.ts:1017-1036 | A prompt that was finished, cancelled, rejected or overwritten is never registered again, whatever step follows |
| AcpRuns.ClearStampKeeps | src/acp/translator.ts:1081-1100 | Dropping a stamp at a deadline never takes the active context from a registered prompt |
| AcpAnswers.FoundIff | src/acp/translator.ts:1038-1049 | What is found for a chat event is registered, has the session key, has the run id when the event names one, and no entry before it does; nothing is found exactly when no registered prompt does |
| AcpAnswers.OtherRunsAreLeftAlone | src/acp/translator.ts:917-964 | In every run, a chat event that names a run leaves every other prompt registered or not as it was, starts no call of it and answers nothing |
| AcpAnswers.ChatEndStarts | src/acp/translator.ts:917-964 | The end of a chat that is about registered prompts starts the call that answers the first of them: cancelled when it was aborted, with the token limit when it ended so, and else as an ended turn; without a session key or such a prompt it does nothing |
| AcpAnswers.AnswersIff | src/acp/translator.ts:694-964 | Exact condition per step: which reply to which suspended call gives which answer, and never more than one |
| AcpAnswers.AnswersHaveCauses | src/acp/translator.ts:694-1200 | Main result. In every run, every answer has its cause before it: a chat of that prompt that ended with that reason, the gateway's word that the run is over, a cancellation of the session while it held the prompt, a failed send, or a deadline |
| AcpAnswers.AcceptedIff | src/acp/translator.ts:727-755 | In every run a prompt counts as accepted exactly when the gateway accepted its send while it was registered |
| AcpAnswers.WordAnswersPrompt | src/acp/translator.ts:1137-1200 | When the gateway says that the run of a waiting prompt is over, the prompt leaves the map and its answer is on the way |
| AcpAnswers.ReconnectAsks | src/acp/translator.ts:456-464 | A reconnect starts a loop that faces every registered prompt |
| AcpLosses.StrandedIff | src/acp/translator.ts:1102-1135 | Connected or not, a step takes the last deadline from a registered prompt with a stamp exactly when it ends a reconciling loop that keeps nothing and clears a timer armed for a prompt outside its snapshot |
| AcpLosses.CoveredUnlessStranded | src/acp/translator.ts:1102-1135 | In every run without such a step every registered prompt with a stamp has a deadline |
| AcpLoops.OnlyDeadlineLoopsStrand | src/acp/translator.ts:1102-1135 | In every run such a step is the end of a deadline loop: the loop of a reconnect never takes a deadline away |
| AcpLoops.EveryRunIsInOrder | src/acp/translator.ts:456-464 | In every run the loop of a reconnect is of an ended generation and, unless it keeps the timer, still faces every prompt that waits for a deadline |
| AcpLosses.SomePromptIsStranded | src/acp/translator.ts:1113-1134 | A run that strands a prompt |
| AcpLosses.OtherPromptIsRemovedIff | src/acp/translator.ts:794-800 | A resumed call deletes a prompt that is not its own exactly when it is a cancellation, a shown final text or a failed send of a session that holds another prompt by now; reconciling never does |
| AcpLosses.ForgottenForever | src/acp/translator.ts:1017-1036 | A removed prompt that no suspended call will answer stays unanswered in every continuation |
| AcpLosses.SomePromptIsForgotten | src/acp/translator.ts:776-801 | A run that forgets a prompt: a second prompt while the first is being cancelled |
| AcpForgotten.StepForgetsIff | src/acp/translator.ts:694-964 | Exact condition per step: in every state that satisfies the invariant a step makes a prompt forgotten exactly when it overwrites the unsettled prompt with no call left, deletes it on behalf of another prompt when it has no call left, or ends the last call of an unregistered prompt without settling it (send accepted, question answered, or final text rejected by the client) |
| AcpForgotten.ForgottenIffSomeStepForgets | src/acp/translator.ts:694-801 | Main result. In every run a prompt is forgotten exactly when one of the steps of the run is such a step |
| AcpForgotten.SomePromptIsOverwritten | src/acp/translator.ts:712-724 | A run without any cancellation that forgets a prompt: a second prompt of the session after the first was sent |
| AcpForgotten.SomeFinalTextIsRejected | src/acp/translator.ts:936-950 | A run that forgets a prompt whose final text the client rejects after a second prompt of the session |
| AcpAgent.AcpGatewayAgent.HandleGatewayDisconnect | src/acp/translator.ts:466-481 | Disconnect: next generation, every pending prompt stamped in the loop, timer armed if any is pending |
| AcpAgent.AcpGatewayAgent.HandleGatewayReconnect | src/acp/translator.ts:456-464 | Reconnect: the context is cleared and its generation reconciled |
| AcpAgent.AcpGatewayAgent.DisconnectTimerFires | src/acp/translator.ts:1059-1066 | The timer firing: disarmed, then a deadline reconcile of the generation it was armed for |
| AcpAgent.AcpGatewayAgent.Prompt | src/acp/translator.ts:712-724 | Registering a prompt: stamped with the active context, timer armed if none is |
| AcpAgent.AcpGatewayAgent.SendThrew | src/acp/translator.ts:756-767 | A failed send: ignored when the gateway closed and the prompt is registered, otherwise the session entry is deleted and the prompt fails |
| AcpAgent.AcpGatewayAgent.FindPendingBySessionKey | src/acp/translator.ts:1038-1049 | The loop finds the first entry of the map that the event is about (`AcpAnswers.FoundIff` says which that is) |
| AcpAgent.AcpGatewayAgent.HandleChatEvent | src/acp/translator.ts:917-964 | A chat event that ends a prompt: the state and the stop reason it carries decide the reason the prompt gets, a final text is shown first when there is one, and an event without a session key is ignored |
| AcpAgent.AcpGatewayAgent.RejectPendingPrompt | src/acp/translator.ts:1068-1080 | A rejection takes effect only on the registered prompt itself |
| AcpAgent.AcpGatewayAgent.ReconcilePendingPrompts | src/acp/translator.ts:1102-1113 | Reconciling starts on a snapshot of all entries, or clears the timer when there is none |
| AcpAgent.AcpGatewayAgent.ContinueReconcile | src/acp/translator.ts:1113-1135 | The loop skips entries that are gone or differently stamped, and ends by clearing the timer unless one prompt was kept |
| AcpAgent.AcpGatewayAgent.ReconcileAnswered | src/acp/translator.ts:1137-1200 | What an answer, a failure or a pending status does before and at the deadline |
| AcpAgent.AcpGatewayAgent.ResumeCall | src/acp/translator.ts:727-964 | Every suspended call (an accepted or failed send, a cancellation after its abort, a final text that was shown or rejected, an answered question) goes on as the step function of the runs says, with the small methods it calls |
| SnapshotDeltas.ChainIsSentWhole | src/acp/translator.ts:976-1015 | For snapshots that are stages of one growing text, in any order and with repeats, the client has exactly the longest one, right-trimmed |
| SnapshotDeltas.ClientHasWholeText | src/acp/translator.ts:993-1014 | For a pending prompt, whatever half-handlers ran in between: when the texts that arrived are stages of one growing text, the chunks sent put together are the longest one without its trailing spaces |
| SnapshotDeltas.ClientHasWholeThought | src/acp/translator.ts:976-992 | The same for its thoughts |
| SnapshotDeltas.SentIsFirstReached | src/acp/translator.ts:976-1015 | For arbitrary snapshots the sent length is the longest trimmed length and each character is that of the first snapshot to reach it |
| SnapshotDeltas.TrimEndKeepsPrefix | src/acp/translator.ts:993-998 | Right-trimming keeps a continuation a continuation |
| SnapshotDeltas.OneMoreBlock | src/acp/translator.ts:976-998 | A text block adds a line to what is said and nothing to what is thought, a thinking block the other way round, any other block nothing to either |
| SnapshotDeltas.PendingText.HandleText | src/acp/translator.ts:993-1014 | In every interleaving of half-handlers the concatenated message chunks are what the snapshots so far call for |
| SnapshotDeltas.PendingText.HandleThought | src/acp/translator.ts:976-992 | The same for thoughts |
| SessionStore.InMemorySessionStore.RemoveSession | src/acp/session.ts:35-46 | Removing a session takes its run out of the index and aborts its controller |
| SessionStore.InMemorySessionStore.ReapIdleSessions | src/acp/session.ts:48-59 | Exactly the sessions go that have no run and no controller and were not touched for the whole time to live; the index stays faithful |
| SessionStore.InMemorySessionStore.EvictOldestIdleSession | src/acp/session.ts:61-78 | A least recently touched idle session goes, the earliest inserted among equals; none when all are busy |
| SessionStore.InMemorySessionStore.CreateSession | src/acp/session.ts:80-109 | Creating never exceeds the capacity, never removes a busy session, and is refused only when none can be evicted |
| SessionStore.InMemorySessionStore.GetSession | src/acp/session.ts:111-117 | A session found is touched |
| SessionStore.InMemorySessionStore.GetSessionByRunId | src/acp/session.ts:119-129 | With a faithful index a run id finds exactly the session on which it is active |
| SessionStore.InMemorySessionStore.SetActiveRun | src/acp/session.ts:131-140 | Setting a run keeps the index the inverse of the active runs exactly when the previous run was cancelled first and the id is free |
| SessionStore.InMemorySessionStore.ClearActiveRun | src/acp/session.ts:142-153 | Clearing keeps the index faithful |
| SessionStore.InMemorySessionStore.CancelActiveRun | src/acp/session.ts:155-168 | Cancelling aborts the controller and keeps the index faithful |
| SessionStore.InMemorySessionStore.StartPromptRun | src/acp/translator.ts:664-701 | The order of a prompt: found, cancelled if it has a controller, refused or given a new run. Every run keeps a controller, so an index that was the inverse of the active runs is one afterwards exactly when the new id is not empty and in use for no other session |
| SessionStore.CancelledIsSettable | src/acp/translator.ts:670-672 | Because every run has a controller, cancelling first leaves the session ready for every id not in use elsewhere |
| SessionStore.VictimIsLeastRecent | src/acp/session.ts:61-78 | The scan for a victim finds an idle session that no idle session was touched before, or all are busy |
| SessionStore.FullStoreEvictsOne | src/acp/session.ts:61-97 | A full store gives up exactly one session for a new one, which has no run and no controller, and none such was touched before it; it refuses only when every session has one, or for a session with the empty id |
| SessionStore.SettingKeepsIndex | src/acp/session.ts:131-140 | The exact condition under which setting a run keeps the index faithful |
| SessionStore.ClearingKeepsIndex | src/acp/session.ts:142-153 | Clearing a run keeps the index faithful |
| RelayMonitor.Relay.AssistantDelta | src/agents/acp-spawn-parent-stream.ts:306-345 | Visible output: a resume notice after a stall, the capped buffer, a flush when long or at a paragraph break, else an armed flush timer. Keeps: at most one terminal notice and nothing but start notices after it, stalls and resumes alternate, snippets of at most 220 units, buffered text has an armed timer |
| RelayMonitor.Relay.RunEnded | src/agents/acp-spawn-parent-stream.ts:353-385 | The end of a run: buffered text, then the outcome, then disposal. Keeps: at most one terminal notice and nothing but start notices after it, stalls and resumes alternate, snippets of at most 220 units, buffered text has an armed timer |
| RelayMonitor.Relay.LifetimeTimerFires | src/agents/acp-spawn-parent-stream.ts:290-299 | The lifetime timer emits the only terminal notice and disposes. Keeps: at most one terminal notice and nothing but start notices after it, stalls and resumes alternate, snippets of at most 220 units, buffered text has an armed timer |
| RelayMonitor.Relay.NoOutputPoll | src/agents/acp-spawn-parent-stream.ts:265-287 | A stall is reported once per silence. Keeps: at most one terminal notice and nothing but start notices after it, stalls and resumes alternate, snippets of at most 220 units, buffered text has an armed timer |
| RelayMonitor.Relay.FlushPending | src/agents/acp-spawn-parent-stream.ts:242-253 | Flushing empties the buffer into at most one progress notice. Keeps: at most one terminal notice and nothing but start notices after it, stalls and resumes alternate, snippets of at most 220 units, buffered text has an armed timer |
| RelayMonitor.Relay.FlushTimerFires | src/agents/acp-spawn-parent-stream.ts:255-263 | The flush timer flushes what is buffered. Keeps: at most one terminal notice and nothing but start notices after it, stalls and resumes alternate, snippets of at most 220 units, buffered text has an armed timer |
| RelayMonitor.Relay.Dispose | src/agents/acp-spawn-parent-stream.ts:387-397 | Disposal stops every timer and is idempotent. Keeps: at most one terminal notice and nothing but start notices after it, stalls and resumes alternate, snippets of at most 220 units, buffered text has an armed timer |
| RelayMonitor.CompactHasNoRuns | src/agents/acp-spawn-parent-stream.ts:18-20 | A reported snippet never has two spaces in a row, and none at either end |
| RelayMonitor.CompactIsWords | src/agents/acp-spawn-parent-stream.ts:18-20 | White space is compacted to exactly the words of the text, in order and one space apart |
| RelayMonitor.SnippetIsWords | src/agents/acp-spawn-parent-stream.ts:18-30 | A snippet is those words, cut to 220 units with an ellipsis as the last when they are longer |
| InternalContext.EscapedHasNoDelimiter | src/agents/internal-runtime-context.ts:19-23 | Neither delimiter occurs in an escaped text, whatever the text |
| InternalContext.ReplaceAddsNone | src/agents/internal-runtime-context.ts:19-23 | Replacing a token leaves no occurrence of it and adds none of another, even across seams |
| InternalContext.StripDelimitedBlock | src/agents/internal-runtime-context.ts:40-74 | The loop terminates, each pass strictly shortening the text, and computes the stripping specification |
| InternalContext.FindTheEnd | src/agents/internal-runtime-context.ts:48-66 | The inner loop finds the end that closes the nested block, or none |
| InternalContext.RemovedRegionIsBalanced | src/agents/internal-runtime-context.ts:40-74 | What a pass removes has as many end lines as begin lines and every shorter part from the same start has more begin lines; with no such end the block is open to the end of the text |
| InternalContext.CloseBalances | src/agents/internal-runtime-context.ts:48-66 | The same for the search from any depth |
| InternalContext.EmbeddedBlockIsStripped | src/agents/internal-runtime-context.ts:40-74 | An embedded block is taken out: the rest is stripped as if the trimmed surroundings were joined |
| InternalContext.SurroundingsAreKept | src/agents/internal-runtime-context.ts:65-72 | What surrounds a block that is taken out keeps all its visible characters in order, with a blank line between the text before and the text behind |
| StripLeftovers.StrippedHasBeginIff | src/agents/internal-runtime-context.ts:67-71 | A stripped text still has a begin line exactly when a block without an end was cut off behind a line that trimming turned into a begin line |
| StripLeftovers.TidyTextKeepsNoBegin | src/agents/internal-runtime-context.ts:40-74 | A text in which every line that is a begin line after trimming is one before is stripped of all begin lines |
| StripLeftovers.PassKeepsTidy | src/agents/internal-runtime-context.ts:67-71 | Taking a closed block out of such a text leaves such a text |
| StripLeftovers.KeptHasBeginIff | src/agents/internal-runtime-context.ts:67-69 | One pass keeps a begin line in front of an open block exactly when the trimmed front ends in one |
| StripLeftovers.SomeBeginIsLeft | src/agents/internal-runtime-context.ts:67-71 | A text whose stripped form still has a begin line |
| LegacyContext.StripLegacyInternalRuntimeContext | src/agents/internal-runtime-context.ts:115-155 | The loop terminates by text length and remaining search range and computes its specification |
| LegacyContext.FindLegacyBlockEnd | src/agents/internal-runtime-context.ts:128-147 | The end of a block of one or more events |
| LegacyContext.LegacyStripChangesIff | src/agents/internal-runtime-context.ts:115-155 | The text is changed, and then shortened, exactly when a header directly before an event occurs in it |
| LegacyContext.SomeLegacyBlockIsLeft | src/agents/internal-runtime-context.ts:150-153 | Stripping is not idempotent: a text whose stripped form starts with a block |
| LegacySeams.LegacyBlockIsLeftIff | src/agents/internal-runtime-context.ts:115-155 | Exact condition: stripping leaves an older block exactly when one of its removals joins a front that ends in a header without its last newlines to a rest that starts with an event marker |
| LegacySeams.SecondPassChangesIff | src/agents/internal-runtime-context.ts:115-155 | A second pass changes the stripped text exactly then |
| LegacySeams.StrippedOfAllBlocks | src/agents/internal-runtime-context.ts:115-155 | A text in which no header, with or without its last newlines, is followed by a block after nothing but white space is stripped of every block |
| LegacySeams.SearchLeavesBlockIff | src/agents/internal-runtime-context.ts:115-155 | The same for the search from any position: what lies in front of it stays |
| LegacyBlocks.OldBlockIsStripped | src/agents/internal-runtime-context.ts:76-155 | Main result. A header with any number of well-formed events is taken out of a text as a whole and with nothing else: the rest is stripped as if the trimmed surroundings were joined, and is just those when they hold no block |
| LegacyBlocks.OldFormatIsStripped | src/agents/internal-events.ts:39-90 | The same for events as they are formatted now, under the older header, whenever their fields leave the marks in place |
| LegacyBlocks.EventEndIs | src/agents/internal-runtime-context.ts:76-113 | The end of a well-formed event is found behind its action |
| LegacyContext.StripUndoesEmbedding | src/agents/internal-runtime-context.ts:157-167 | Main result. Stripping a text with an embedded block is stripping the trimmed, joined surroundings, and returns them when they have no internal context |
| LegacyContext.NothingToStrip | src/agents/internal-runtime-context.ts:169-177 | A text without internal context is returned as it is |
| InternalEvents.FormattedIsOneBlock | src/agents/internal-events.ts:67-90 | Any events format to a begin line, a body in which neither delimiter occurs, and an end line |
| InternalEvents.StripUndoesFormat | src/agents/internal-events.ts:67-90 | Main result. Stripping text that holds formatted events on their own lines gives the trimmed, joined surroundings |
| InternalEvents.FieldsStayOnTheirLines | src/agents/internal-events.ts:39-65 | However the fields are filled, an event starts with its nine descriptive lines: no field can begin a line of its own |
| InternalEvents.SanitizedIsClean | src/agents/internal-events.ts:27-37 | A sanitized field has no delimiter, although line breaks are replaced after escaping |
| InternalEvents.SingleLineIsOneLine | src/agents/internal-events.ts:27-32 | A single-line field has no newline |
| InternalEvents.EventIsClean | src/agents/internal-events.ts:39-65 | A formatted event has no delimiter, not even across its lines |
| InternalEvents.FormatTaskCompletionEvent | src/agents/internal-events.ts:39-65 | Pushing the lines one group at a time gives the specified text |
| SseReader.ChunkingIndependence | src/agents/google-transport-stream.ts:483-526 | However the decoded stream is cut, the same payloads come out and the same text without an event boundary is left |
| SseReader.ReaderMatchesLineReading | src/agents/google-transport-stream.ts:483-526 | Those payloads are the ones of a line-by-line reading of the stream (section 9.2.6 of the HTML Living Standard, data lines only) |
| SseReader.WrittenEventsAreRead | src/agents/google-transport-stream.ts:483-526 | Main result. Round trip: whatever events a server writes, with either line ending, white space around values and other fields among them, and however the stream is cut, exactly the data of each event is read, in order; the end mark and events without data say nothing |
| SseReader.FrameInTwo | src/agents/google-transport-stream.ts:483-526 | Framing in two goes is framing in one |
| SseReader.StepKeepsInStep | src/agents/google-transport-stream.ts:483-526 | Character by character the line machine holds what the reader has in its buffer |
| SseReader.Reader.Feed | src/agents/google-transport-stream.ts:483-526 | One read hands out every payload that is now complete and keeps the rest |
| GoogleStream.AcceptedStreamIsBracketed | src/agents/google-transport-stream.ts:613-727 | In an accepted stream starts are 0, 1, 2, ... one at a time, each ends once, and each block is the concatenation of its deltas |
| GoogleStream.EndsCarryTheirDeltas | src/agents/google-transport-stream.ts:550-576 | Every end event carries the concatenation of all deltas of its block |
| GoogleStream.ContentSaysWhatPartsSay | src/agents/google-transport-stream.ts:618-717 | Main result. For every list of parts the content says exactly what the parts say, in order: thoughts as thoughts, other text as text, calls with names and arguments; and no two neighbouring text blocks are of one kind |
| GoogleStream.EventsSayWhatBlocksSay | src/agents/google-transport-stream.ts:550-717 | In an accepted stream the deltas, by kind and in order, say exactly what the blocks say |
| GoogleStream.BuilderTellsItsContent | src/agents/google-transport-stream.ts:613-727 | At every moment a builder's events have told exactly what its content says |
| GoogleStream.CallKeepsItsId | src/agents/google-transport-stream.ts:677-715 | A call keeps the id it came with if that is not empty and no call before has it, and gets the generated one otherwise |
| GoogleStream.ToolIdsStayDistinct | src/agents/google-transport-stream.ts:682-690 | Tool-call ids stay distinct when generated ids are fresh |
| GoogleStream.Builder.HandlePart | src/agents/google-transport-stream.ts:618-717 | Every part keeps the events replaying to exactly the content, which is the reference content |
| GoogleStream.Builder.HandleText | src/agents/google-transport-stream.ts:620-676 | Text joins the last block of its kind or opens a new one |
| GoogleStream.Builder.HandleCall | src/agents/google-transport-stream.ts:677-715 | A call closes the open block and adds one complete tool-call block |
| GoogleStream.Builder.PushTextBlockEnd | src/agents/google-transport-stream.ts:550-576 | The end event closes the open block with its own content |
| GoogleStream.Builder.Finish | src/agents/google-transport-stream.ts:725-727 | At the end of a normal stream no block is open |
| Compaction.NormalizeParts | src/agents/compaction.ts:109-114 | At least two parts exactly when two or more are asked for and there are two messages; never more than messages |
| Compaction.SplitMessagesByTokenShare | src/agents/compaction.ts:116-155 | Chunks concatenate to the input, are non-empty, at most the parts, at least two for a positive total, greedy, and within the share except the last or a single message |
| Compaction.ChunkMessagesByMaxTokens | src/agents/compaction.ts:162-202 | Chunks concatenate to the input, each within the margin-reduced limit or a single message, each as long as it could be |
| Compaction.GreedyIsOptimal | src/agents/compaction.ts:162-202 | No other way of cutting the messages into pieces that fit needs fewer pieces |
| Compaction.PruneHistoryForContextShare | src/agents/compaction.ts:462-524 | Main result. Pruning terminates although repairs may lengthen the history; the result is within the budget or a single message for two parts or more; nothing but tool results is lost or reordered; all counters are exact |
| Compaction.DroppingProgresses | src/agents/compaction.ts:484-511 | Each cut with its repair makes progress |
| TranscriptRepair.RepairToolUseResultPairing | src/agents/session-transcript-repair.ts:355-530 | The nested loops compute the repair specification, tool names and both ways of treating results of failed turns included |
| TranscriptRepair.RepairPromises | src/agents/session-transcript-repair.ts:355-530 | Every other message survives in order; the transcript never starts with a result; changed transcripts have every result after its turn and none twice |
| RepairCondition.RepairChangesIff | src/agents/session-transcript-repair.ts:355-530 | Exact condition on the input: a transcript is changed exactly when a result lies outside the span of its turn or was given before, a kept result has a blank or padded tool name or lacks the name its call has, or a turn has an unanswered call, an answered call made twice, or results among other messages |
| RepairCondition.RepairedIsSoundIff | src/agents/session-transcript-repair.ts:355-530 | Main result. The repaired transcript has no result twice exactly when a repair was needed or no span holds two results of one call; every result is in its place exactly when a repair was needed or the results of failed turns come before the other messages of their spans |
| RepairCondition.TwiceOnlyInSpan | src/agents/session-transcript-repair.ts:443-454 | When no repair is needed a result is given twice exactly when that happens within one span |
| RepairCondition.InPlaceUnlessFailed | src/agents/session-transcript-repair.ts:466-488 | When no repair is needed every result is in place exactly when the spans of the failed turns are in order |
| RepairCondition.TurnChangesIff | src/agents/session-transcript-repair.ts:408-511 | The same for one turn: it changes the transcript exactly when its span holds a stray or misnamed result or the turn is bad |
| RepairOutcome.RepairedIs | src/agents/session-transcript-repair.ts:355-530 | Main result. For every transcript, position by position of the one before: a changed transcript holds the other messages in order and, behind each turn, for each of its ids not answered before, its first result in the span with a proper name, or a synthetic one; the report lists the synthetic results and counts orphans and duplicates exactly |
| RepairOutcome.NameIsProper | src/agents/session-transcript-repair.ts:168-191 | The name a result gets is its own, else that of its call, and is never blank or padded |
| RepairOutcome.NameIsOfLastCall | src/agents/session-transcript-repair.ts:408-425 | Of several calls with one id, the last one gives the name |
| RepairOutcome.SyntheticResultIsNotTaken | src/agents/session-transcript-repair.ts:497-511 | A concrete call made again and not answered: the report lists a synthetic result and a duplicate, and the transcript comes back as it was |
| RepairTwice.RepairedTwiceIff | src/agents/session-transcript-repair.ts:355-530 | Main result. For every transcript, repairing the repaired transcript returns it as it is exactly when no result in it is misnamed |
| RepairTwice.ProperNamesRepairOnce | src/agents/session-transcript-repair.ts:355-530 | When every call has no name or one that is neither blank nor padded, a second repair changes nothing |
| RepairTwice.SecondRepairRenames | src/agents/session-transcript-repair.ts:168-191 | A second repair gives each result the name that its turn gives it and changes nothing else |
| RepairTwice.BlankNameIsRepairedTwice | src/agents/session-transcript-repair.ts:135-152 | A concrete call with a blank name and no result: a second repair renames its synthetic result |
| RepairTwice.NameChangesIff | src/agents/session-transcript-repair.ts:168-191 | A result is renamed exactly when its name is blank or padded, or is missing while its call has one |
| TranscriptRepair.EveryCallIsAnswered | src/agents/session-transcript-repair.ts:481-511 | After the repair every call of a turn that did not fail has a result in the transcript |
| TranscriptRepair.DisplacedResultOfFailedTurn | src/agents/session-transcript-repair.ts:466-488 | A concrete failed turn whose displaced result is not reported and stays out of place, unless results of failed turns are dropped |
| TranscriptRepair.RepeatedResultInOneSpan | src/agents/session-transcript-repair.ts:443-454 | A repeated result within one span is not reported and stays |
| ShellScan.ExtractUnquotedShellText | src/agents/bash-tools.exec.ts:357-410 | A command is accepted exactly when no quote or backslash is left open; the text is what is outside quotes |
| ShellScan.SplitShellSegmentsOutsideQuotes | src/agents/bash-tools.exec.ts:533-621 | The scanner computes the non-blank pieces between live separators |
| ShellScan.ScannersAgree | src/agents/bash-tools.exec.ts:357-621 | A command is accepted exactly when every one of its segments is |
| ShellScan.SegmentsAreFinal | src/agents/bash-tools.exec.ts:533-621 | No segment has a live separator, and each splits to just itself |
| ShellScan.PiecesCover | src/agents/bash-tools.exec.ts:533-621 | Pieces and separators in order are the command: nothing is lost |
| ShellScan.UnquotedPieceByPiece | src/agents/bash-tools.exec.ts:357-410 | The unquoted text of a command is that of its pieces with the separators in between |
| ShellGrammar.AcceptedIff | src/agents/bash-tools.exec.ts:357-410 | Main result. A command is accepted exactly when it is made of bare characters, escaped ones, and closed quotes |
| ShellGrammar.TokensAreAccepted | src/agents/bash-tools.exec.ts:357-410 | What is extracted from such a command is what is outside its quotes |
| ShellGrammar.SegmentsHaveNoSeparator | src/agents/bash-tools.exec.ts:533-621 | No segment has a line break, semicolon, double ampersand or double bar, nor a bar where pipes are split, outside quotes and unescaped; and none is blank |
| ShellGrammar.SegmentsOnEachSide | src/agents/bash-tools.exec.ts:533-621 | Main result. At every such separator behind an accepted command, the segments are those of the two sides, one after the other |
| ShellGrammar.NoSeparatorOneSegment | src/agents/bash-tools.exec.ts:533-621 | Text without such a separator stays one segment |
| ErrorSearch.Search.Find | src/agents/failover-error.ts:71-92 | The recursion over one shared seen-set terminates on cyclic graphs and computes the search specification |
| ErrorSearch.SearchIsComplete | src/agents/failover-error.ts:71-92 | Nothing is returned exactly when no reachable candidate has a value; what is returned is the value of a reachable candidate |
| ErrorSearch.SharedSetIsOnlyAnOptimisation | src/agents/failover-error.ts:71-92 | The answer is the one of the search that tries every simple path, on every graph |
| ErrorSearch.FailedSearchExplores | src/agents/failover-error.ts:71-92 | A search that finds nothing has explored every object it newly saw |
| ProcessOutput.ProcessSession.AppendOutput | src/agents/bash-process-registry.ts:106-134 | Appending keeps the bounded session the exact view of the full log: pending output per stream, aggregate, tail, counters and the truncation mark |
| ProcessOutput.ProcessSession.DrainSession | src/agents/bash-process-registry.ts:136-144 | Draining returns the last units since the last drain and starts over |
| ProcessOutput.CapPendingBuffer | src/agents/bash-process-registry.ts:232-252 | Capping in place keeps exactly the last units |
| ProcessOutput.WindowIsLast | src/agents/bash-process-registry.ts:254-259 | What is kept is what stands last, as much as there is room for |
| ProcessOutput.WindowOfWindow | src/agents/bash-process-registry.ts:254-259 | Keeping a window of a window's continuation is keeping a window of the whole |
| ProcessOutput.AppendLoses | src/agents/bash-process-registry.ts:121-132 | An append loses something exactly when one of the windows overflows or something was lost before |
| Utf16.SliceUtf16Safe | src/utils.ts:88-115 | Slicing well-formed text gives well-formed text: the characters wholly between the bounds |
| Utf16.SliceIsWholeCharacters | src/utils.ts:100-114 | Rounding the bounds inwards gives exactly the characters wholly between them |
| Utf16.AtMostOneUnitLost | src/utils.ts:100-112 | At most one unit is lost at each end |
| Utf16.TruncateUtf16Safe | src/utils.ts:117-123 | Truncating at any finite limit, rounded down and not below zero, keeps a well-formed prefix of at most the limit, shortened by at most half a character |

## Left out

- Files, sandbox paths, process control, sockets, the gateway's own code and approval of commands: effects outside these algorithms.
- Whole-patch application to a file tree (`src/agents/apply-patch.ts:100-360`): path policy and file effects.
- Strings are sequences of Unicode scalar values, except in `Utf16`, `ProcessOutput` and `RelayMonitor`, which work on units; lengths of the texts in `SnapshotDeltas` count characters.
- Aliasing of pending-prompt objects: a prompt is named by its run id and its record lives in a map, as all references to one prompt share one record.
- AcpAgent.AcpGatewayAgent.HandleChatEvent: only the prompt's removal is modelled here; the text of a message, delta events among them, is `SnapshotDeltas`, tool-call updates are left out.
- The session store and the bridge are separate models; what `prompt` does to the store is `SessionStore.InMemorySessionStore.StartPromptRun`.
- Rate limits, session listing, modes, provenance texts and prompt assembly of the bridge: finite or foreign.
- Client promises may be settled more than once by the bridge; the model records every attempt and claims no exactly-once settling.
- SseReader.Reader.Feed: parsing the payloads as JSON, aborting, and text left in the buffer when the stream ends.
- GoogleStream.Builder.HandlePart: signatures, usage counts, stop reasons, and streams that end in an error.
- TranscriptRepair.RepairToolUseResultPairing: entries that are not messages are `Other`, which the program treats the same way; contents and timestamps of synthetic results are not modelled.
- Compaction.PruneHistoryForContextShare: token estimates are given per message; stripping of result details happens before they are taken.
- The adaptive chunk ratio and summarisation around `src/agents/compaction.ts:204-460`: thresholds and model calls.
- LegacyBlocks.OldBlockIsStripped: blocks whose events are cut short or hold the marks of an event inside their fields; there the program removes up to the first blank line or mark it finds.
- Registry of running and finished processes, exit marking and sweeping (`src/agents/bash-process-registry.ts:75-215`): plain map updates.
- Tool-location collection in `src/acp/event-mapper.ts`, the file-backed store in `src/state-store.ts`, and the failover classification around the error search: easy members, or dependent on code outside these files.
- Utf16.TruncateUtf16Safe: infinite limits and limits that are not numbers.
- SnapshotDeltas.ClientHasWholeText: the chunks are those handed to the client connection; an update that the client rejects counts as sent, as it does in the program.
- StripLeftovers.TidyTextKeepsNoBegin: one direction only, as a condition on the text; a text that is not tidy may still lose all begin lines inside blocks.
- LegacySeams.StrippedOfAllBlocks: one direction only, as a condition on the text; the exact condition is on the seams of its removals.
