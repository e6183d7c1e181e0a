# Craik operator client and release check: a verified model

This project models two parts of Craik that are state machines in earnest, and proves what they keep.

The first is the terminal client in `crates/craik-tui-rs`. Its `InteractiveApp` is driven by keys, by
Gateway events, and by a channel that two reader threads fill. It holds a byte-indexed prompt editor, a
queue of approvals with a two-press gate for risky ones, a queue of prompts that waits for a busy or
lost backend, a transcript whose entries are partly rewritten in place, run records that grow from
events and from replayed history, and scroll offsets counted from the end. The second is the call-graph
worklist in `scripts/check_release_readiness.py`, which decides whether every store writer has a
production caller.

Code that changes fields is a class here (`PromptEditor`, `GateKeeper`, `Sender`, `SessionClient`,
`Host`, `TranscriptView`, `RunBook`), and its methods are proved to compute a function of the old state. The
theorems are about those functions, over every run. `PromptEditor.Run`, `GateKeeper.HandleAll`,
`Host.PerformAll`, `TranscriptView.RecordAll` and `RunBook.HandleAll` connect a whole run of the class to the runs the
theorems speak about.

## Modules

| file | subject |
|---|---|
| `Utf8.dfy`, `Zippers.dfy`, `Editor.dfy` | UTF-8 (section 3 of RFC 3629), the meaning of the editing keys, the byte-cursor editor that refines it |
| `EditorLaws.dfy` | each key in terms of the text before and behind the cursor |
| `Approvals.dfy`, `ApprovalSafety.dfy`, `ApprovalWalk.dfy`, `ApprovalGate.dfy` | the approval queue and its gate, their safety, which approval is selected, the class |
| `Session.dfy`, `SessionSafety.dfy`, `SessionFlight.dfy`, `SessionRun.dfy` | readers, channel, client, prompt queue, reconnecting; when a request is in flight; the classes at work over whole sessions |
| `Grouping.dfy`, `GroupedRows.dfy`, `DetailList.dfy` | grouped tool entries that re-read their own text: the functions and the count, which rows read back, the list without the text |
| `GroupedRuns.dfy`, `GroupedContext.dfy`, `GroupedLimits.dfy` | what such a text says about the run of events behind it and about the newest, and where it does not |
| `Transcript.dfy`, `Visibility.dfy`, `Coalescing.dfy` | the transcript, what each event leaves to be seen, and coalescing over whole streams |
| `Runs.dfy`, `RunReplay.dfy`, `RunSelection.dfy`, `RunContents.dfy`, `RunLedger.dfy` | run records, replayed history, filter and selection, what each event records, the class |
| `Scroll.dfy`, `ContractText.dfy` | scroll arithmetic and jumps; the display text of structured run output |
| `Fuzzy.dfy`, `Palette.dfy` | the greedy matcher and the ranking of the slash palette |
| `DottedNames.dfy`, `Reachability.dfy`, `ReleaseCheck.dfy` | name resolution, the worklist, and the verdict of the release check |
| `Prelude.dfy`, `Whitespace.dfy`, `Numerals.dfy`, `Strings.dfy`, `Json.dfy` | `Option`, and the standard-library functions the code calls |

## Where the code differs from its own comments, or from what one expects

- The comments at `crates/craik-tui-rs/src/app.rs:198-206` and 1196-1200 say that navigating away makes
  the gate re-arm from scratch. The arrow keys (and Ctrl-J/K) do not clear the arm: away and back, the
  next `a` approves (`ApprovalSafety.ArrowsKeepTheArm`, `ArrowsStillApprove`). The safety theorem is stated for what does
  clear it. The arm never moves to another record.
- A text can overtake prompts that wait. It does when the client is connected and nothing is in flight
  although the queue is not empty, a state that a worker error leaves behind by clearing `in_flight`
  without draining; and a mode switch (Shift-Tab) does even with a request in flight.
  `SessionSafety.StepOrder` and `SessionOrder` say that these are exactly the steps that break the order of
  acceptance, whatever else happens, and `OvertakingIsReachable` is a run that gets there.
- Jumping to a transcript entry and reading the position back gives the entry below it. So the key for the
  next match reaches the next match if and only if that is not the entry right below and the lines from it on
  do not saturate the offset (`Scroll.NextJumpReaches`, `NextJumpWraps`). The key for the previous match
  reaches the match before if and only if it starts from the last entry (`PreviousJumpReaches`), and mostly
  stays where it is (`PreviousJumpStays`). The cause is `JumpReadsNextEntry`.
- Printing and re-reading a counted detail is the identity for texts that begin with no blank, except for
  a count of one on a text that ends in a blank or in a readable " (xN)", and a count of zero
  (`Grouping.ParseInvertsPrint`).
- The rows of a grouped tool entry read back if and only if each stands on one line and reads back by itself,
  and the event's name and detail list no row of their own (`GroupedRows.GroupedReads`, and over whole runs
  `GroupedRuns.RunReadsBack`). Events without a message, which the comment at
  `crates/craik-tui-rs/src/app.rs:1419-1421` expects from some adapters, put their whole summary of several
  lines into the row: two different commands then read back as two equal rows that name neither
  (`GroupedLimits.CommandsAreLost`). And since the body shows the newest detail in full above the rows, a
  second line of a command that begins with "- " reads as one row more, even when the rows themselves are fine
  (`GroupedLimits.DetailListsRow`).
- The count of such an entry is not the number of its events when the first event's command, or a later
  event's name, holds a line "Events: N" (`GroupedLimits.CommandCounts`, `NameFixesCount`;
  `GroupedRuns.BodyCountIsRight` has the exact condition).
- Replayed history is idempotent on run records except for `outputs`, which are appended again
  (`RunReplay.ReplayIsExact` says when nothing changes at all). After other steps it is so too, unless the
  history event itself names a run that has no prompt yet and a prompt was sent since: then the replay
  fills it in (`RunSelection.ReconnectReplayIsIdempotent`, `ReplayFillsPrompt`).
- Text shown for a run's output in front of a contract marker can look like a contract itself
  (`ContractText.RunOutputIsDisplayText`, `MarkerBeforeMarkerShows`).
- The score 500 for a match by summary text alone is never used, since a text that contains the query
  also has it as a subsequence (`Palette.SummaryMatchIsFuzzy`).

## Model

| member | source | states |
|---|---|---|
| `Utf8.BoundaryIffCut` | crates/craik-tui-rs/src/app.rs:1854-1864 | a byte index is one Rust accepts for slicing and inserting if and only if it is the encoded length of a prefix of the characters |
| `Utf8.EncodeInjective` | crates/craik-tui-rs/src/app.rs:1854-1873 | two texts with the same bytes are the same text, so the buffer determines what the editor shows |
| `Utf8.DecodeInside` | crates/craik-tui-rs/src/app.rs:1990-2010 | the leading octet of a character anywhere in a buffer gives its width, and its octets give back its code point |
| `Zippers.PositionUnique` | crates/craik-tui-rs/src/app.rs:2104-2114 | row and column determine the cursor |
| `Zippers.RowUnique` | crates/craik-tui-rs/src/app.rs:3847-3855 | a text has at most one row of each number |
| `Zippers.RowExists` | crates/craik-tui-rs/src/app.rs:2099-2114 | and every number up to that of the last row has one |
| `Zippers.UpMovesOneRow` | crates/craik-tui-rs/src/app.rs:2128-2139 | off the first row, Up goes to (row - 1, the smaller of the column and the length of that row) and keeps the text |
| `Zippers.UpOnFirstRow` | crates/craik-tui-rs/src/app.rs:2128-2132 | on the first row Up changes nothing |
| `Zippers.DownMovesOneRow` | crates/craik-tui-rs/src/app.rs:2141-2156 | off the last row, Down goes to (row + 1, the smaller of the column and the length of that row) and keeps the text |
| `Zippers.DownOnLastRow` | crates/craik-tui-rs/src/app.rs:2141-2150 | on the last row Down changes nothing |
| `Zippers.DownUndoesUp` | crates/craik-tui-rs/src/app.rs:2128-2156 | Down after Up returns to the cursor if and only if the row above is long enough for the column |
| `Zippers.HomeEndReachRowEnds` | crates/craik-tui-rs/src/app.rs:1955-1969 | Home and End reach the two ends of the cursor's row |
| `Zippers.KillsMatchMoves` | crates/craik-tui-rs/src/app.rs:1971-1988 | Ctrl-U and Ctrl-K remove exactly the text Home and End move over |
| `Zippers.EditsUndo` | crates/craik-tui-rs/src/app.rs:1854-1953 | inserting and erasing, and the two arrows, undo each other |
| `Zippers.KillWordRemovesLastWord` | crates/craik-tui-rs/src/app.rs:1990-2010 | Ctrl-W removes the last word before the cursor and the blanks behind it, for any way of finding them |
| `Zippers.LastWordExists` | crates/craik-tui-rs/src/app.rs:1990-2010 | such a word (perhaps empty, at the start) always exists |
| `Editor.CharCount` | crates/craik-tui-rs/src/app.rs:3847-3855 | the scan over bytes counts the characters between two positions |
| `Editor.ByteIndexForCharCol` | crates/craik-tui-rs/src/app.rs:3857-3863 | the scan ends at the byte offset of the column, or at the end of a shorter row |
| `Editor.CurrentLineStartAndCol` | crates/craik-tui-rs/src/app.rs:3847-3855 | byte offset of the row's start and column of the cursor, as the character view has them |
| `Editor.ScanBack` | crates/craik-tui-rs/src/app.rs:1990-2010 | the reverse scan over blanks, or over the characters of a word, stops at the byte offset where the character view says it does |
| `Editor.IndexOneRowUp` | crates/craik-tui-rs/src/app.rs:2128-2139 | the byte arithmetic of the Up key lands on the byte offset of the character view's Up |
| `Editor.IndexOneRowDown` | crates/craik-tui-rs/src/app.rs:2141-2156 | the same for Down |
| `Editor.PromptEditor.ReplaceRange` | crates/craik-tui-rs/src/app.rs:1915-1935 | a byte splice between two character positions replaces exactly those characters |
| `Editor.PromptEditor.InsertChar` | crates/craik-tui-rs/src/app.rs:1854-1858 | inserts one character at the cursor |
| `Editor.PromptEditor.PasteText` | crates/craik-tui-rs/src/app.rs:1866-1873 | inserts a text at the cursor, which ends behind it |
| `Editor.PromptEditor.EraseBackward` | crates/craik-tui-rs/src/app.rs:1915-1924 | removes the character before the cursor, if there is one |
| `Editor.PromptEditor.EraseForward` | crates/craik-tui-rs/src/app.rs:1926-1935 | removes the character after the cursor, if there is one |
| `Editor.PromptEditor.DeletePreviousWord` | crates/craik-tui-rs/src/app.rs:1990-2010 | is Ctrl-W of the character view |
| `Editor.PromptEditor.MoveCursorUpLine` | crates/craik-tui-rs/src/app.rs:2128-2139 | is Up of the character view |
| `Editor.PromptEditor.MoveCursorDownLine` | crates/craik-tui-rs/src/app.rs:2141-2156 | is Down of the character view |
| `Editor.PromptEditor.CursorIsBoundary` | crates/craik-tui-rs/src/app.rs:1854-1858 | in a valid editor the cursor is within the input and on a character boundary |
| `Editor.PromptEditor.Run` | crates/craik-tui-rs/src/app.rs:1854-2156 | for every sequence of keys: no slice panics, bytes and byte cursor are those of the character run, the cursor is on a boundary |
| `EditorLaws.PasteIsTyping` | crates/craik-tui-rs/src/app.rs:1854-1873 | pasting a text does what typing its characters one by one does, wherever the cursor stands |
| `EditorLaws.ErasingUndoesPaste` | crates/craik-tui-rs/src/app.rs:1866-1924 | after a paste, as many backspaces as it has characters leave everything as it was |
| `EditorLaws.ErasingPaste` | crates/craik-tui-rs/src/app.rs:1866-1924 | fewer of them leave the front of the pasted text |
| `EditorLaws.RowKeysStand` | crates/craik-tui-rs/src/app.rs:1955-1988 | Home, End, Ctrl-U and Ctrl-K: the text before and behind the cursor after each, by the ends of the row |
| `EditorLaws.UpKey` | crates/craik-tui-rs/src/app.rs:2128-2139 | Up keeps the text, stays on the first row, and otherwise goes to the same column of the row above or to its end |
| `EditorLaws.DownKey` | crates/craik-tui-rs/src/app.rs:2141-2156 | the same for Down and the row below |
| `EditorLaws.StandsOnce` | crates/craik-tui-rs/src/app.rs:1854-1953 | the texts before and behind the cursor determine the editor, so laws in these terms leave nothing open |
| `Approvals.FromEvent` | crates/craik-tui-rs/src/app.rs:2658-2690 | a requested approval never has an empty id, whatever the event holds |
| `ApprovalSafety.ReachableInv` | crates/craik-tui-rs/src/app.rs:1464-1536 | in every reachable state: ids non-empty and distinct, a selection exactly when something is pending and in range, an armed id only with the approvals overlay open |
| `ApprovalSafety.StepKeeps` | crates/craik-tui-rs/src/app.rs:950-1281 | one key or event keeps that invariant, changes the arm only as the effect table says, and only a request adds to the queue |
| `ApprovalSafety.OpenKeeps` | crates/craik-tui-rs/src/app.rs:914-934 | opening any overlay disarms and leaves queue and selection alone |
| `ApprovalSafety.HighRiskNeedsTwoPresses` | crates/craik-tui-rs/src/app.rs:1177-1227 | over every run, an approval of a high-risk record is sent if and only if `a` is pressed on it and an earlier press armed the same record, equal in every field, with no disarming step in between |
| `ApprovalSafety.ArmExplained` | crates/craik-tui-rs/src/app.rs:1196-1227 | a pending record is armed exactly when some earlier press armed it and nothing since disarmed; it stays pending all that time |
| `ApprovalSafety.ArmHasCause` | crates/craik-tui-rs/src/app.rs:1211-1219 | an armed id goes back to a step that armed it |
| `ApprovalSafety.ArmedStaysPending` | crates/craik-tui-rs/src/app.rs:1464-1536 | removals and requests never exchange an armed record for another one with its id |
| `ApprovalSafety.SentByPress` | crates/craik-tui-rs/src/app.rs:2373-2430 | a decision is sent if and only if `a` or `d` is pressed in the approvals overlay on that selected record, armed if it is high risk and approved |
| `ApprovalSafety.ArrowsKeepTheArm` | crates/craik-tui-rs/src/app.rs:2469-2491 | from an armed approval, Down then Up restores the whole gate, arm included |
| `ApprovalSafety.ArrowsStillApprove` | crates/craik-tui-rs/src/app.rs:1198-1200 | from a new client, the run request, request, `a`, Down, Up, `a` approves the high-risk record although the operator navigated away, for any two records |
| `ApprovalSafety.RowSelects` | crates/craik-tui-rs/src/app.rs:2493-2518 | without a filter, syncing makes the highlighted row the selected approval |
| `ApprovalGate.GateKeeper.PressApprove` | crates/craik-tui-rs/src/app.rs:1196-1219 | the first `a` on a high-risk approval arms and sends nothing; any other sends at most one decision and disarms |
| `ApprovalGate.GateKeeper.SyncOverlaySelection` | crates/craik-tui-rs/src/app.rs:2493-2518 | clamps the row and selects by the id in the row's title |
| `ApprovalGate.GateKeeper.HandleOverlayKey` | crates/craik-tui-rs/src/app.rs:1175-1280 | every overlay key does to the fields what the step function does to the value, and sends what it decides |
| `ApprovalGate.GateKeeper.RecordRequested` | crates/craik-tui-rs/src/app.rs:1464-1477 | a request is queued unless its id is, and opens the overlay disarmed |
| `ApprovalGate.GateKeeper.RecordResolved` | crates/craik-tui-rs/src/app.rs:1486-1501 | a resolved id leaves the queue and the selection is clamped |
| `ApprovalGate.GateKeeper.HandleAll` | crates/craik-tui-rs/src/app.rs:950-1281 | for a whole session of keys and events, fields and sent decisions are those of the run the theorems are about, and the invariant holds |
| `ApprovalWalk.NextGoesOn` | crates/craik-tui-rs/src/app.rs:2432-2447 | Ctrl-N, at the prompt and in the approvals overlay, selects the approval after the selected one, or the first after the last, and disarms |
| `ApprovalWalk.PreviousGoesBack` | crates/craik-tui-rs/src/app.rs:2449-2467 | Ctrl-P selects the one before, or the last before the first, and disarms |
| `ApprovalWalk.PreviousInvertsNext` | crates/craik-tui-rs/src/app.rs:2432-2467 | each undoes the other, but for the arm |
| `ApprovalWalk.NextVisitsEachOnce` | crates/craik-tui-rs/src/app.rs:2432-2447 | as many presses of Ctrl-N as there are approvals return to the selected one, and each is selected after exactly one number of presses |
| `ApprovalWalk.DownInFilter` | crates/craik-tui-rs/src/app.rs:2469-2518 | Down selects the next of the approvals that the filter leaves, or the first of them after the last |
| `ApprovalWalk.UpInFilter` | crates/craik-tui-rs/src/app.rs:2469-2518 | Up selects the one before, or the last of them before the first |
| `ApprovalWalk.HighlightedIsSelected` | crates/craik-tui-rs/src/app.rs:2493-2518 | with any filter the highlighted row selects the approval it shows |
| `ApprovalWalk.FilterSelectsFirst` | crates/craik-tui-rs/src/app.rs:2493-2518 | a new filter selects the first approval that matches it |
| `ApprovalWalk.RequestSelects` | crates/craik-tui-rs/src/app.rs:1464-1477 | a request is queued last and selected, unless its id is queued already; then queue and selection stay |
| `ApprovalWalk.ResolvedLeaves` | crates/craik-tui-rs/src/app.rs:1486-1501 | a resolved approval leaves the queue, the others keep their order, and the selected position stays unless it is past the end |
| `ApprovalWalk.RequestKeepsFields` | crates/craik-tui-rs/src/app.rs:2658-2690 | a request keeps its fields and a given id; a made-up id has only lower-case letters, digits and underscores |
| `ApprovalWalk.SeedIs` | crates/craik-tui-rs/src/app.rs:3255-3262 | a made-up id is made of tool, target and message, those there are |
| `ApprovalWalk.JoinedWord` | crates/craik-tui-rs/src/app.rs:3273-3278 | and of their words in turn, empty ones skipped, at most as many as asked for |
| `ApprovalWalk.MadeUpId` | crates/craik-tui-rs/src/app.rs:3255-3284 | made up of words, it is "approval_" and the first eight of them: the tool, the target, and those of the message |
| `ApprovalWalk.PressesDecide` | crates/craik-tui-rs/src/app.rs:2803-2817 | which risks and permission modes make the first press of `a` only arm; any other press of `a` approves, `d` denies at once |
| `ApprovalWalk.LettersMoveRow` | crates/craik-tui-rs/src/app.rs:1175-1280 | in an overlay Ctrl-J and Ctrl-K do what the arrows do |
| `ApprovalWalk.RunOutputCloses` | crates/craik-tui-rs/src/app.rs:941-948 | output of a run closes the approvals overlay exactly when nothing is pending or armed, and changes nothing else |
| `Session.StdoutMessages` | crates/craik-tui-rs/src/backend.rs:57-86 | the stdout thread's messages end with `Closed`, and no other message is `Closed` |
| `Session.Sender.ReadStdout` | crates/craik-tui-rs/src/backend.rs:57-86 | the reading loop sends exactly those messages in order |
| `Session.Sender.ReadStderr` | crates/craik-tui-rs/src/backend.rs:87-95 | the stderr loop sends one error for every line that is not blank |
| `Session.SessionClient.SubmitInput` | crates/craik-tui-rs/src/app.rs:351-397 | a submitted prompt is ignored, interrupts, waits in the queue, or is sent, as the client's state says |
| `Session.SessionClient.DrainWorker` | crates/craik-tui-rs/src/app.rs:449-489 | draining the channel is one step for each message, in order |
| `Session.SessionClient.RestartBackend` | crates/craik-tui-rs/src/app.rs:1827-1852 | reconnects without touching the prompt queue |
| `SessionFlight.HandOverMakesBusy` | crates/craik-tui-rs/src/app.rs:380-426 | every step that hands over a prompt leaves the client busy exactly when the backend took it |
| `SessionFlight.BusyUntil` | crates/craik-tui-rs/src/app.rs:380-489 | a busy client stays busy in a step if and only if the step is none of those that end a request: a terminal event after which nothing waiting is sent, an error, `Closed`, a restart whose commands are not taken, a failed send, a mode switch without a connection |
| `SessionFlight.TerminalEvents` | crates/craik-tui-rs/src/gateway_events.rs:135-148 | with nothing waiting, nine kinds of event end a request and no other event does |
| `SessionFlight.BusyThroughout` | crates/craik-tui-rs/src/app.rs:380-489 | the same over any run of steps |
| `SessionFlight.BusyHandsOverNothing` | crates/craik-tui-rs/src/app.rs:351-378 | while it is busy, the operator hands over nothing but a mode switch |
| `SessionFlight.OnlyFirstIsSent` | crates/craik-tui-rs/src/app.rs:351-426 | from a connected idle client with an empty queue, of any series of prompts and retries with successful sends exactly the first accepted text is handed over, and the rest are the queue in order |
| `SessionFlight.BusyQueuesAll` | crates/craik-tui-rs/src/app.rs:351-378 | from a busy client all of them are queued in order |
| `SessionFlight.RetryRepeatsLast` | crates/craik-tui-rs/src/app.rs:2319-2344 | a retry sends or queues the last submitted text |
| `SessionFlight.RestartConnects` | crates/craik-tui-rs/src/app.rs:1827-1852 | a successful restart connects and begins a request when its commands are taken; a failed one disconnects and changes nothing else |
| `SessionFlight.StdoutReadsOn` | crates/craik-tui-rs/src/backend.rs:57-86 | the stdout thread reports one text behind another as long as reading does not fail in the first |
| `SessionFlight.OneLineReported` | crates/craik-tui-rs/src/backend.rs:57-86 | what each kind of line is reported as; a read error ends the thread |
| `SessionFlight.StderrReadsOn` | crates/craik-tui-rs/src/backend.rs:87-95 | the stderr thread reports line by line |
| `SessionSafety.NoEventAfterClosed` | crates/craik-tui-rs/src/backend.rs:57-95 | in every interleaving: each channel is a merge of what its two threads sent so far, complete and in their order; after `Closed` only errors; the client processed of each session exactly the messages it took, in channel order, and the sessions one after the other |
| `SessionSafety.NothingOldIsProcessed` | crates/craik-tui-rs/src/app.rs:1827-1852 | from any moment on, whatever is processed belongs to the session the client is then in or to a later one; after a restart nothing of an old session is processed |
| `SessionSafety.ClosedGoesOffline` | crates/craik-tui-rs/src/app.rs:473-484 | handling `Closed` puts the client offline |
| `SessionSafety.OfflineUntilRestart` | crates/craik-tui-rs/src/app.rs:351-397 | from there until a restart succeeds, whatever the threads and the operator do: disconnected, no prompt handed over, and exactly the texts accepted meanwhile are appended to the queue |
| `SessionSafety.OfflineStep` | crates/craik-tui-rs/src/app.rs:449-489 | the single step of that argument |
| `SessionSafety.RunConserves` | crates/craik-tui-rs/src/app.rs:2292-2346 | in every reachable state, enqueued = dequeued followed by the queue; every accepted text was handed over once or is queued |
| `SessionSafety.TerminalsDrainTheQueue` | crates/craik-tui-rs/src/gateway_events.rs:135-148 | with no new input, messages with n terminal events hand over exactly the first n queued texts in order, whether or not the sends succeed |
| `SessionSafety.SessionOrder` | crates/craik-tui-rs/src/app.rs:351-426 | for every session from its start, with all messages, failures and reconnects: the texts are in the order of acceptance at every moment if and only if no step sends a text past a different one that waits |
| `SessionSafety.StepOrder` | crates/craik-tui-rs/src/app.rs:351-426 | one step keeps the order if and only if it is not a prompt or retry with nothing in flight, or a mode switch, of a connected client in whose queue a different text waits |
| `SessionSafety.RunOrder` | crates/craik-tui-rs/src/app.rs:2292-2346 | the same for the runs from any state that is in order |
| `SessionSafety.AcceptedEither` | crates/craik-tui-rs/src/app.rs:351-411 | an accepted text is sent at once or goes to the end of the queue, by what the client can see |
| `SessionSafety.OvertakingIsReachable` | crates/craik-tui-rs/src/app.rs:466-472 | a run of four steps that sends the second prompt before the first, through one line on stderr |
| `SessionRun.Host.Perform` | crates/craik-tui-rs/src/app.rs:449-489 | one message, key or restart, done by the client's methods, is the step of the model |
| `SessionRun.Host.PerformAll` | crates/craik-tui-rs/src/app.rs:449-489 | for a whole session, fields and history are those of the run the theorems are about |
| `SessionRun.Host.PerformFromStart` | crates/craik-tui-rs/src/app.rs:351-426 | and nothing accepted is lost or sent twice at its end |
| `Grouping.ParseInvertsPrint` | crates/craik-tui-rs/src/app.rs:3600-3618 | for every detail: re-reading it from its print gives it back if and only if its text begins with no blank and its count is above one, or is one and the text is trimmed and does not end in a readable count |
| `Grouping.CountIsLast` | crates/craik-tui-rs/src/app.rs:3600-3618 | a readable count at the end of a text is what the search for the last " (x" finds |
| `Numerals.ParseShow` | crates/craik-tui-rs/src/app.rs:3589-3618 | a printed count reads back as itself up to the largest `usize` |
| `Grouping.PushCountedDetail` | crates/craik-tui-rs/src/app.rs:3620-3638 | the loop increments the first row with the same text up to blanks, or appends and keeps the last four |
| `Grouping.GroupingCounts` | crates/craik-tui-rs/src/app.rs:3555-3592 | for any name, any body and any event, the regrouped body reads as one event more, up to saturation, unless the name holds a line that reads as a count: then as that |
| `GroupedRows.GroupedReads` | crates/craik-tui-rs/src/app.rs:3555-3598 | for any name, onto any body: the rows printed after one more event read back as the rows meant if and only if each of them stands on one line and reads back by itself, and the name and the newest detail list no row |
| `GroupedRows.GroupedReadsAs` | crates/craik-tui-rs/src/app.rs:3555-3598 | what is read in every case: what the name lists, what the newest detail lists, and what the rows read as |
| `GroupedRows.OneLineNamesNoRow` | crates/craik-tui-rs/src/app.rs:3555-3587 | a name and a detail without newlines list no row |
| `GroupedRows.BodyReadsIff` | crates/craik-tui-rs/src/app.rs:3594-3598 | below any lines, printed rows read back as their details if and only if all of them survive and the lines above list nothing |
| `GroupedRuns.BodyCountsEvents` | crates/craik-tui-rs/src/app.rs:3555-3592 | for every run of events: the body reads what the first event counts as, or the last one whose name brings a count, and one more for every event since, up to saturation |
| `GroupedRuns.BodyCountIsRight` | crates/craik-tui-rs/src/app.rs:3555-3592 | so it reads k if and only if that event had counted right (or both saturate) |
| `GroupedRuns.OneLineCountsRight` | crates/craik-tui-rs/src/app.rs:3018-3041 | which it did when the first event and the names hold no newline |
| `GroupedLimits.CommandCounts` | crates/craik-tui-rs/src/app.rs:3589-3592 | a first command with a line "Events: N" makes the entry count as N events |
| `GroupedLimits.NameFixesCount` | crates/craik-tui-rs/src/app.rs:3555-3592 | a tool name with a line "Events: N" makes every body it is written into read N |
| `GroupedRuns.RunReadsBack` | crates/craik-tui-rs/src/app.rs:3555-3598 | over every run of events: the rows of the body are the rows meant after each event if and only if at each event the rows meant survive being printed and its name and detail list none |
| `GroupedRuns.BodyShowsDetails` | crates/craik-tui-rs/src/app.rs:3594-3598 | so when every event's detail, as the code takes it from the event's text, is one trimmed line with no readable count, no name lists a row, and the first text lists none: parsing what the run left behind gives the list built event by event |
| `GroupedRuns.PlainMessageIsGroupable` | crates/craik-tui-rs/src/app.rs:3018-3041 | an event with no newline in any field lists no rows, and with a message meets that condition exactly when the message is such a line |
| `GroupedLimits.CommandsAreLost` | crates/craik-tui-rs/src/app.rs:1419-1446 | for two events with different commands and no message the rows meant are their two summaries, but the body reads back as two equal rows that name neither command |
| `GroupedLimits.DetailListsRow` | crates/craik-tui-rs/src/app.rs:3555-3598 | for a message and then a command of two lines that differs from it only in blanks: one row is meant and survives, but the body reads back one more, the second line of the command |
| `DetailList.RowsAreLastNew` | crates/craik-tui-rs/src/app.rs:3620-3638 | however many different messages come: the list built event by event holds the last four that were new when they came, oldest first, each with the number of times it came since |
| `DetailList.DetailsDescribeTheRun` | crates/craik-tui-rs/src/app.rs:3620-3638 | with at most four different messages that list is exactly those messages with their numbers of occurrences, and adds up to the number of events |
| `GroupedRuns.BodyReadsAs` | crates/craik-tui-rs/src/app.rs:3555-3638 | what the body of two or more events reads as: their number as `BodyCountsEvents` has it, for all events; under the condition of `BodyShowsDetails` also the rows, at most four, no two alike up to blanks, each with its number since it was new |
| `GroupedContext.ContextIsKept` | crates/craik-tui-rs/src/app.rs:3018-3041 | of an event without newlines the body keeps provider, family, model, response, command and target, those it has, each under its heading and in this order |
| `GroupedContext.BodyKeepsNewest` | crates/craik-tui-rs/src/app.rs:3555-3587 | a regrouped body holds each such line of the newest event, and its detail behind "Latest: " when that stands on one line |
| `GroupedContext.NewestHasRow` | crates/craik-tui-rs/src/app.rs:3620-3638 | a detail that is not blank has its row right after it came |
| `GroupedContext.FourRemain` | crates/craik-tui-rs/src/app.rs:3630-3638 | of more rows than four the last four stay |
| `GroupedContext.WithoutMessage` | crates/craik-tui-rs/src/app.rs:3555-3587 | an event on one line without a message is described by its summary, cut to 120 characters |
| `Strings.SplitJoined` | crates/craik-tui-rs/src/app.rs:3555-3587 | joining lines and splitting again loses only a carriage return before a newline |
| `Strings.SplitConcat` | crates/craik-tui-rs/src/app.rs:3589-3598 | a text is read line by line before and behind each of its newlines |
| `Transcript.TranscriptView.SupersedeAssistantText` | crates/craik-tui-rs/src/app.rs:1634-1660 | rewrites the tracked entry of the same run in place, or pushes and tracks a new one |
| `Transcript.TranscriptView.SupersedeProgressLine` | crates/craik-tui-rs/src/app.rs:1665-1683 | the same for progress, only while the entry is the last |
| `Transcript.TranscriptView.RecordToolUse` | crates/craik-tui-rs/src/app.rs:1415-1446 | groups into the last entry, drops a recent duplicate, or pushes |
| `Transcript.TranscriptView.RecordAll` | crates/craik-tui-rs/src/app.rs:1357-1632 | the fields after a whole stream are the transcript of that stream |
| `Visibility.ToolEventAdds` | crates/craik-tui-rs/src/app.rs:1412-1441 | a tool event that the last entry does not take adds exactly one entry with its kind, name and summary, unless one of the last six shows it already and it is not blank; then nothing changes |
| `Visibility.ToolEventIsShown` | crates/craik-tui-rs/src/app.rs:3517-3533 | so after it one of the last six entries has its kind, and up to blanks its name and summary |
| `Visibility.ToolEventJoins` | crates/craik-tui-rs/src/app.rs:3535-3553 | a tool event after an entry of the same tool rewrites the body of that entry and nothing else |
| `Visibility.OutputAdds` | crates/craik-tui-rs/src/app.rs:1566-1576 | output is added as one assistant entry, unless its text is not blank and one of the last six entries has it |
| `Visibility.AssistantIsShown` | crates/craik-tui-rs/src/app.rs:1634-1660 | assistant text that is not blank stands in an assistant entry right after |
| `Visibility.StreamShows` | crates/craik-tui-rs/src/app.rs:3505-3533 | over any stream: what a tool event or an output says is among the last six entries when it has come |
| `Coalescing.StepExtends` | crates/craik-tui-rs/src/app.rs:1357-1683 | a step drops no entry and changes no kind or title; a body changes only in the last or the tracked assistant entry; tracked indices stay valid with the right kind |
| `Coalescing.ReachableTracks` | crates/craik-tui-rs/src/app.rs:1634-1683 | both tracked indices are valid with the right kind in every reachable state |
| `Coalescing.RunExtends` | crates/craik-tui-rs/src/app.rs:1357-1683 | over any further stream entries keep place, kind and title |
| `Coalescing.AssistantIsGrouped` | crates/craik-tui-rs/src/app.rs:1551-1565 | for any stream, the entries made by `assistant_text` are the run-length grouping by run of its non-blank events, each showing the last text of its block |
| `Coalescing.BlockEndsSnoc` | crates/craik-tui-rs/src/app.rs:1634-1660 | the grouping, defined over the whole stream, grows as the in-place rewriting does |
| `Coalescing.ProgressIsGrouped` | crates/craik-tui-rs/src/app.rs:1403-1411 | for any stream, the progress entries are the blocks of shown updates of one run with nothing pushed between, each showing the last message |
| `Coalescing.ToolRunSharesEntry` | crates/craik-tui-rs/src/app.rs:3535-3553 | consecutive events of the last entry's tool all go into that entry |
| `Coalescing.ToolRunReads` | crates/craik-tui-rs/src/app.rs:3535-3587 | onto a fresh entry, events of one tool leave one body that reads back as `BodyReadsAs` says |
| `Runs.PushUnique` | crates/craik-tui-rs/src/app.rs:3240-3244 | extends the list, holds the value, keeps it free of repeats, and changes nothing when the value is there |
| `Runs.ApplyKeeps` | crates/craik-tui-rs/src/app.rs:1685-1776 | an event keeps run ids distinct and lists free of repeats; old records keep their place and their lists grow only at the end |
| `Runs.PushAllKeepsFirsts` | crates/craik-tui-rs/src/app.rs:3240-3244 | a list without repeats becomes the first occurrences of itself and what is pushed to it |
| `RunContents.ToolUsedRecords` | crates/craik-tui-rs/src/app.rs:1731-1742 | a `tool.used` event adds to its run the tool to the tools, the command to the commands, the target to the files, behind them the lists it carries, and nothing else |
| `RunContents.FileChangedRecords` | crates/craik-tui-rs/src/app.rs:1743-1748 | a `file.changed` event adds its target, and the files it carries, to the files |
| `RunContents.ApprovalRequestedRecords` | crates/craik-tui-rs/src/app.rs:1749-1754 | an `approval.requested` event adds its message to the approvals |
| `RunContents.ReceiptCreatedRecords` | crates/craik-tui-rs/src/app.rs:1758-1764 | a `receipt.created` event with an id adds the id to the receipts and its line to their details |
| `RunContents.WorkingRecords` | crates/craik-tui-rs/src/app.rs:1718-1724 | a `run.working` event adds its phase and its message to the provenance |
| `RunContents.LineRecords` | crates/craik-tui-rs/src/app.rs:3665-3761 | decisions, outputs and other events add one line of provenance and the lists they carry |
| `RunContents.StartAndEndRecord` | crates/craik-tui-rs/src/app.rs:1708-1730 | the first and the last event of a run add one line of provenance |
| `RunContents.OthersAddNothing` | crates/craik-tui-rs/src/app.rs:1685-1776 | all other events leave the lists as they are |
| `RunContents.StatusAndOutput` | crates/craik-tui-rs/src/app.rs:1708-1770 | an event makes a record for its run if there is none, sets the status it says, and appends its output |
| `RunContents.StatusIsListed` | crates/craik-tui-rs/src/app.rs:2866-2885 | a started run is listed as active, a completed one as active, failed or completed by its status |
| `RunContents.MissingFieldsFilled` | crates/craik-tui-rs/src/app.rs:1685-1700 | task, prompt, model and provider are filled in where they were missing, and stay otherwise |
| `RunContents.OtherRunsStay` | crates/craik-tui-rs/src/app.rs:1685-1776 | the records of other runs stay as they are |
| `RunContents.ReceiptRecords` | crates/craik-tui-rs/src/app.rs:3813-3845 | a replayed receipt with an id adds what it carries to the lists of its run, and nothing else; one without an id changes nothing |
| `RunContents.ReceiptFields` | crates/craik-tui-rs/src/app.rs:1778-1809 | it appends its outputs and its summary, and fills in status and task where they were missing |
| `RunContents.ReceiptLineSays` | crates/craik-tui-rs/src/app.rs:3783-3811 | the line of a receipt holds each field that the event has, under its name |
| `RunContents.ReplayedLineSays` | crates/craik-tui-rs/src/app.rs:3763-3781 | the same for a replayed receipt |
| `RunContents.EventFollowed` | crates/craik-tui-rs/src/app.rs:1685-1700 | an event selects its run when the newest is followed or none is selected; otherwise the selection stays |
| `RunContents.FilterKeepsSelection` | crates/craik-tui-rs/src/app.rs:2581-2614 | after a change of filter the selected run stays if it is visible; otherwise the last visible one is selected |
| `RunReplay.HistoryReplayIsIdempotent` | crates/craik-tui-rs/src/app.rs:1778-1825 | replaying a history on any records changes nothing but `outputs` the second time |
| `RunReplay.TwiceIsOnce` | crates/craik-tui-rs/src/app.rs:3813-3845 | the same for any two series of updates that never overwrite a status |
| `RunReplay.ReplayIsExact` | crates/craik-tui-rs/src/app.rs:1778-1809 | the second time changes nothing at all if and only if no receipt with an id carries an output or a summary |
| `RunReplay.ApplyAllAddsOutputs` | crates/craik-tui-rs/src/app.rs:3813-3845 | every update adds its outputs to the records, whatever they hold already |
| `RunSelection.ReachableInv` | crates/craik-tui-rs/src/app.rs:1685-1825 | in every reachable state run ids are distinct, all lists but `outputs` hold no string twice, and the selected index lies within the records |
| `RunSelection.ReachableLists` | crates/craik-tui-rs/src/app.rs:1685-1825 | in every reachable state each list of each run, but for outputs, holds exactly what events and replayed receipts pushed to it, in the order of first occurrences |
| `RunSelection.StepKeeps` | crates/craik-tui-rs/src/app.rs:2537-2614 | every key and event keeps that, and only lets records and lists grow |
| `RunSelection.NextVisitsEachOnce` | crates/craik-tui-rs/src/app.rs:2537-2554 | from a visible selected run, as many presses of next as there are visible runs return to it, and each visible run is selected after exactly one number of presses |
| `RunSelection.PreviousInvertsNext` | crates/craik-tui-rs/src/app.rs:2537-2579 | previous undoes next and next undoes previous |
| `RunSelection.ReconnectReplayIsIdempotent` | crates/craik-tui-rs/src/app.rs:1827-1842 | after a history event and any keys and events since, receiving it again leaves all records as they were but for outputs, if and only if it does not fill in the missing prompt of the run it names |
| `RunSelection.HistoryStaysAbsorbed` | crates/craik-tui-rs/src/app.rs:1778-1825 | whatever happens since, the records hold what a history event brought |
| `RunSelection.ReplayFillsPrompt` | crates/craik-tui-rs/src/app.rs:1685-1700 | a run where the replay does fill in a prompt: history that names a run, a prompt, the history again |
| `RunLedger.RunBook.RecordRunEvent` | crates/craik-tui-rs/src/app.rs:1685-1776 | the in-place update of one record, and following the newest run |
| `RunLedger.RunBook.RecordHistoryEvent` | crates/craik-tui-rs/src/app.rs:1778-1809 | applies the receipts one by one, then normalizes the selection |
| `RunLedger.RunBook.SelectNextRun` | crates/craik-tui-rs/src/app.rs:2537-2554 | is the next step of the walk over visible runs |
| `RunLedger.RunBook.SelectPreviousRun` | crates/craik-tui-rs/src/app.rs:2556-2579 | is the previous step |
| `RunLedger.RunBook.HandleAll` | crates/craik-tui-rs/src/app.rs:1685-1825 | fields after a whole run are the ledger of that run, and the invariant holds |
| `Scroll.LineCountAfterEntryIndex` | crates/craik-tui-rs/src/app.rs:3885-3894 | the lines of the entries behind an index, at most 65535 |
| `Scroll.LinesOfEntry` | crates/craik-tui-rs/src/app.rs:3908-3925 | the lines of an entry, by its kind: a title, the lines of its body or one, and a blank one behind users, assistants, approvals and failures |
| `Scroll.TranscriptEntryIndexForScroll` | crates/craik-tui-rs/src/app.rs:3896-3906 | the greatest index from which at least that many lines remain, or 0 |
| `Scroll.JumpReadsNextEntry` | crates/craik-tui-rs/src/app.rs:3885-3906 | jumping to entry i and reading back gives the smaller of i + 1 and the last index, if and only if the lines from i + 2 stay below saturation (or i + 2 is past the end) |
| `Scroll.JumpTo` | crates/craik-tui-rs/src/app.rs:2257-2290 | goes to the nearest matching entry beyond the position read back, or wraps around |
| `Scroll.ReadsBackBelow` | crates/craik-tui-rs/src/app.rs:3885-3906 | after a jump, a later entry lies above the position read back if and only if the lines behind it saturate the offset |
| `Scroll.PreviousJumpStays` | crates/craik-tui-rs/src/app.rs:2253-2290 | jumping back from a matching entry lands on it again: if it is not the last entry, if and only if no later match has 65535 lines or more behind it; if it is the last, if and only if nothing else matches |
| `Scroll.PreviousJumpReaches` | crates/craik-tui-rs/src/app.rs:2253-2290 | jumping back from a matching entry reaches the greatest match before it if and only if it is the last entry of the transcript |
| `Scroll.NextJumpReaches` | crates/craik-tui-rs/src/app.rs:2249-2290 | jumping on from a matching entry reaches the least match behind it if and only if that is not the entry right below, and there are fewer than 65535 lines from it on |
| `Scroll.NextJumpWraps` | crates/craik-tui-rs/src/app.rs:2257-2290 | with no match behind it, jumping on goes to the least match of all |
| `ContractText.ExtractIsFirst` | crates/craik-tui-rs/src/app.rs:3380-3433 | for every JSON tree the search gives the first displayable text of the tree read in the search's order |
| `ContractText.ExtractIsDisplayText` | crates/craik-tui-rs/src/app.rs:3380-3442 | what is found is trimmed, non-empty and not contract-like, and nothing is found if and only if no text looked at is displayable |
| `ContractText.KeysInOrder` | crates/craik-tui-rs/src/app.rs:3380-3433 | the order of an object, key by key: the three nested ones, the recorded outputs, the content, then the strings, a final answer before all others |
| `ContractText.PhraseHides` | crates/craik-tui-rs/src/app.rs:3346-3355 | a text with one of the four phrases of a contract in it, in any capitalization, is not displayed |
| `ContractText.MarkersInOrder` | crates/craik-tui-rs/src/app.rs:3444-3450 | the text is cut at the first "output contract" if there is one, else at the first of the next marker, and so on through four |
| `ContractText.ShownBeforePhrase` | crates/craik-tui-rs/src/app.rs:3444-3461 | of a text with "output contract" in it, the part before the first one is shown, trimmed, unless that begins JSON or a fence |
| `ContractText.MarkerIsBoundary` | crates/craik-tui-rs/src/app.rs:3444-3461 | an offset at which an ASCII marker is found in the lowercased copy is a character boundary of the original |
| `ContractText.ByteSearchIsSearch` | crates/craik-tui-rs/src/app.rs:3444-3455 | the first byte occurrence of an ASCII marker in the lowercased copy is the offset of its first occurrence among the characters, and the original sliced there holds the bytes of the characters before |
| `ContractText.MarkerInBytes` | crates/craik-tui-rs/src/app.rs:3444-3455 | the search for the markers in turn, in bytes, finds what the search in characters finds |
| `ContractText.LoweredBytes` | crates/craik-tui-rs/src/app.rs:3444-3455 | ASCII lowercasing keeps the length in bytes and maps byte by byte |
| `ContractText.RunOutputIsReadable` | crates/craik-tui-rs/src/app.rs:3327-3344 | text shown for a run's output is trimmed, non-empty, and starts no JSON and no fence; plain output is shown as it is |
| `ContractText.RunOutputIsDisplayText` | crates/craik-tui-rs/src/app.rs:3327-3461 | it is display text (not contract-like either) if and only if it is not what stands before a marker with another marker in it |
| `ContractText.FirstMarkerIsFirst` | crates/craik-tui-rs/src/app.rs:3444-3455 | before the marker that is found the text does not hold the marker looked for first |
| `ContractText.MarkerBeforeMarkerShows` | crates/craik-tui-rs/src/app.rs:3444-3461 | outputs where it is not: a word that mentions "schema" in quotes in front of a marker is shown |
| `Fuzzy.GreedyFinds` | crates/craik-tui-rs/src/input.rs:633-645 | the greedy match is an embedding of the query |
| `Fuzzy.GreedyEndsFirst` | crates/craik-tui-rs/src/input.rs:633-645 | no embedding of a prefix of the query ends before the greedy one |
| `Fuzzy.ScoreIsOptimal` | crates/craik-tui-rs/src/input.rs:633-645 | there is a score if and only if the query is a subsequence; it is the end offset in bytes less the query's bytes, minimal over all embeddings, and never negative |
| `Fuzzy.FuzzySubsequenceScore` | crates/craik-tui-rs/src/input.rs:633-645 | the loop over bytes computes that score |
| `Palette.RankAndTruncate` | crates/craik-tui-rs/src/input.rs:290-305 | sorting and taking five leaves strictly increasing keys, and every row left out has a larger key than all five |
| `Palette.SlashSuggestionRows` | crates/craik-tui-rs/src/input.rs:240-305 | the palette shows exactly the five best of the matching hints |
| `Palette.ShownAreFirst` | crates/craik-tui-rs/src/input.rs:240-305 | at most five rows are shown, each before those below it: names that begin with the query first, in the order of the catalogue, then the others by score; any matching hint not shown comes after five that are |
| `Palette.FuzzyTexts` | crates/craik-tui-rs/src/input.rs:262-273 | the name decides the score; only from three characters on the usage is tried, only from two on the summary |
| `Palette.MatchingRows` | crates/craik-tui-rs/src/input.rs:240-289 | one row for each matching hint, no other, with distinct places in the catalogue |
| `Palette.SummaryMatchIsFuzzy` | crates/craik-tui-rs/src/input.rs:262-281 | the match by contained summary text adds nothing, and the score 500 is never used |
| `DottedNames.DottedNameParts` | scripts/check_release_readiness.py:409-417 | a dotted name splits back into the identifiers of the expression |
| `DottedNames.SplitJoin` | scripts/check_release_readiness.py:392-406 | splitting at dots inverts joining dot-free parts |
| `DottedNames.ResolveAttributeCall` | scripts/check_release_readiness.py:392-406 | with dot-free aliases the search over all prefixes depends on the first identifier alone |
| `DottedNames.ImportAliases` | scripts/check_release_readiness.py:332-345 | every bound name has the value of its last binding, no other name is bound, and all are dot-free |
| `DottedNames.PlainImport` | scripts/check_release_readiness.py:332-338 | `import a.b` binds `a`, and a call through it resolves to what it reads as |
| `DottedNames.RenamedImport` | scripts/check_release_readiness.py:332-338 | `import a.b as c` binds `c` to `a.b`, and a call through `c` resolves there |
| `DottedNames.FromImport` | scripts/check_release_readiness.py:339-345 | `from m import x`, and `as y`, bind that name to `m.x`, and a call through it resolves there |
| `DottedNames.NotImported` | scripts/check_release_readiness.py:392-406 | any other call resolves to itself when it begins with `craik.`, and to the bare name otherwise |
| `Reachability.BuildIndex` | scripts/check_release_readiness.py:302-305 | under each bare name exactly its functions, each once |
| `Reachability.DefinitionTargets` | scripts/check_release_readiness.py:317-329 | the defined function itself, or the only one of that bare name, or none |
| `Reachability.ReachableCalls` | scripts/check_release_readiness.py:299-314 | terminates; the expanded functions are exactly the least closed set, each expanded once; the result is the union of their calls |
| `Reachability.LeastUnique` | scripts/check_release_readiness.py:299-314 | there is one such set, so the result does not depend on any order |
| `Reachability.LeastIsConnected` | scripts/check_release_readiness.py:299-314 | a function is in it if and only if a chain of calls leads there from an entry |
| `ReleaseCheck.CountNames` | scripts/check_release_readiness.py:177-179 | the count under each bare name is the number of writers that have it |
| `ReleaseCheck.SharingIsOne` | scripts/check_release_readiness.py:188-189 | a writer's name counts one if and only if no other writer has it |
| `ReleaseCheck.FileOfModule` | scripts/check_release_readiness.py:268-269 | the file that exemptions are listed by is that of the module of the writer: its parts below `src`, with `.py`; the bare name is the last part |
| `ReleaseCheck.WriterFailures` | scripts/check_release_readiness.py:178-192 | the writers reported are exactly those not named by the calls, by full name or by a bare name that is theirs alone, and not excepted by registry or file; each is reported once |
| `ReleaseCheck.ReleaseFailures` | scripts/check_release_readiness.py:161-194 | end to end: a writer is reported if and only if no chain of calls from an entry point ends at a function that calls it, and it is not excepted; a registry entry if and only if it names no function |
| `ReleaseCheck.CalledFromSomewhere` | scripts/check_release_readiness.py:272-314 | the calls collected name a writer if and only if such a chain exists |
| `ReleaseCheck.MoreEntriesFewerFailures` | scripts/check_release_readiness.py:161-194 | more entry points never add a failure |

## Left out

- Rendering, themes, styles, help and footer text, clipboard, export of a run to disk: output only.
- Starting, stopping and reaping the backend process, real pipes, the texts of diagnostics, and JSON decoding: a line of stdout is given as blank, valid, rejected or unreadable, and whether a send succeeds is a parameter.
- `GatewayAppState` is not part of this model; where it decides something (a known run id, the next permission mode) the result is a parameter.
- The texts an overlay item is filtered by: which approvals and how many items of the other overlays match a filter is a parameter of each step, free to change from step to step.
- Scroll offsets of the overlay, page keys, search match navigation, prompt history lists, transcript filters and expansion: independent fields with easy laws.
- The drill-down rows of the slash palette and the completion text: lists built from the catalogue. Recalling history and completing a command appear in the editor as replacing the whole text.
- Which fields of an approval event fill the record of the request: the record is an input, but for its id.
- Handlers that only push a transcript entry are one kind of update with the entry as parameter; the visibility tests of progress messages are its flag; the JSON value parsed out of a run's output is a parameter.
- Unicode `to_lowercase` is a parameter `lower`; ASCII lowercasing, white space and UTF-8 are modelled in full.
- Python's parsing and walking of files: definitions with the names they call, entry points, import nodes, writers, the registry and the exemptions are inputs. The dictionary of imports has dot-free keys because `DottedNames.ImportAliases` proves it.
- The command-line modules under `src/craik`, and the other `check_*` scripts: wrappers around runtime code that is not part of this model.
- Threads: a step sends or takes one message. That is the order the channel gives; memory effects below it are not modelled.
