# Evidence protocols of the benchmark harness

The repository compares coding agents with and without supervision, and keeps evidence that must hold under
concurrency, crashes and untrusted reports. These files model that evidence in Dafny and prove what it promises:

- the predeclared plan and the append-only result log (`ExperimentPlan`, `ResultLog`), and freezing a finished run
  under lock files (`FreezeProtocol`);
- grading one attempt at most once (`GradeCommit`);
- the Codex protocol journal and its inspector (`ProtocolJournal`, `RawLogInspector`, `InspectorGrammar`,
  `CodexConversation`, `JournalSealing`), and the worker session, its export and the controller's reading of it (`CliTurn`, `WorkerSession`,
  `WorkerExport`), both over `Base64`;
- prepared pairs of attempts, their reservation and limits (`PairedPreparation`);
- the two controller relays (`ModelRelay`, `ControlRelay`) and the worker's side of them (`RelayFrame`);
- translation of buffered responses into event streams (`EventStream`, `ResponsesStream`, `ChatStream`, `Json`);
- the workspace fingerprint (`WorkspaceManifest`, `WorkspaceAcceptance`, `PathCollisions`);
- the statistics of the report (`Wilson`, `McNemar`, `Percentile`);
- online monitors (`CompletionFence`, `CompletedGeneration`, `CursorTiming`, `CursorCapture`);
- replay fixtures of captured sessions (`CaptureFrames`, `CaptureReplay`).

Concurrent code is a state machine over its uninterrupted segments, with every interleaving, failure and crash a
schedule. A digest is a constructor applied to what it is taken of. Clocks and seconds are reals or integers.

Where the code does less than it says, the theorem gives the exact condition and a counterexample stands beside it:

- rows outside a live run may be labelled as aborts (`ResultLog.RowKeepsTerminalIff`);
- a finish that raises after its footer leaves a journal that can still be sealed, and is then refused
  (`JournalSealing.SealedPassesIff`);
- base64 with stray spare bits is accepted (`Base64.ReencodesIffCanonical`);
- a message without content is given some, and choices that share an index merge (`ResponsesStream.RebuildsIff`,
  `ChatStream.ChatRebuildsIff`);
- torn writes are not counted (`CursorCapture.FileIsCountedIff`);
- a captured edit after the insertion point outlives the reconciliation (`CaptureReplay.ReplayEndsReconciledIff`);
- a slash and a backslash print alike in a file's path: the manifest tells trees with files at given paths apart exactly
  when no two of those paths that can hold a file print alike (`PathCollisions.ToldApartIff`), with a pair of trees for
  any two that do (`AlikeCollide`); and a path prints like another exactly when it has two names or one that splits at a backslash
  (`AliasIff`).

`try_freeze` cannot succeed at this commit, since `boundary.execution_runtime_blockers` always reports a missing
backend; readiness is therefore a parameter of a freezer's step.

`Common`, `Sorting`, `Text` and `TextOrder` hold shared definitions. `dafny verify dfyconfig.toml` checks everything.

## Model

| member | source | states |
|---|---|---|
| ExperimentPlan.BuildPlan | benchmarks/runner.py:330-367 | Returns a plan exactly for the canonical eight tasks and four arms in order, and then the sorted, paired plan |
| ExperimentPlan.PairsAdjacent | benchmarks/runner.py:345-366 | Both arms of each task and harness stand next to each other, share a block and carry consecutive schedule indices, whatever the hash order |
| ExperimentPlan.PlanAscends | benchmarks/runner.py:340-349 | The seed alone decides the order, the task list does not: blocks ascend by digest, those of one digest by task and then with Codex first |
| ExperimentPlan.ArmsAscend | benchmarks/runner.py:350-357 | Inside a block the arm of smaller digest runs first, the baseline on a tie |
| ExperimentPlan.PlanEntriesDistinct | benchmarks/runner.py:345-367 | Every entry is a requested task under a presentation arm, and no pair of task and arm is scheduled twice |
| ExperimentPlan.PlanCovers | benchmarks/runner.py:374-382 | Every task is scheduled under every arm, so an entry can be looked up by task and arm |
| ExperimentPlan.CanonicalTasksDistinct | benchmarks/runner.py:73-86 | The eight canonical task ids differ, so the canonical plan has 32 entries |
| ResultLog.VerifyResultChain | benchmarks/runner.py:761-776 | The loop reports exactly the records whose link or fingerprint is wrong, and nothing for a valid chain only |
| ResultLog.HeadFixesHistory | benchmarks/runner.py:761-776 | Two valid logs with one head digest are the same log: no edit, deletion, insertion or reordering goes unnoticed |
| ResultLog.MiddleFixesPrefix | benchmarks/runner.py:489-491 | A digest met anywhere in a valid log fixes every record up to it |
| ResultLog.ResultFile.AppendImmutable | benchmarks/runner.py:859-1371 | Accepts exactly when every check passes, then appends the one linked record; a refusal changes nothing |
| ResultLog.ResultFile.PrefixRefusal | benchmarks/runner.py:1300-1345 | The presentation checks pass exactly for a live, unaborted, same-fingerprint proper prefix of the plan |
| ResultLog.ResultFile.AppendAbort | benchmarks/runner.py:1400-1492 | Accepts exactly for the next plan entry of a clean run, then appends one abort for it; a refusal changes nothing |
| ResultLog.RowAcceptedIff | benchmarks/runner.py:859-1371 | Exactly the rows that are accepted, said field by field of the row, the plan and the records before it |
| ResultLog.AbortAcceptedIff | benchmarks/runner.py:1400-1492 | Exactly the aborts that are accepted: of the next entry of a presentable log with a whole chain |
| ResultLog.CommittedLinks | benchmarks/runner.py:1346-1371 | An accepted record follows the log unchanged, linked to its last digest, with the digest of its own fields and link |
| ResultLog.PlanRunsToEnd | benchmarks/runner.py:1280-1371 | For every plan that repeats no pair: submitted in its order, every entry is accepted and the log follows the plan to its end |
| ResultLog.RunOrderly | benchmarks/runner.py:1280-1371 | Over every sequence of appends and aborts: the chain stays valid, live rows stay a prefix of their manifest's plan with its schedule indices wherever that plan repeats no pair, none follows an abort, and no pair repeats |
| ResultLog.CanonicalPlanDistinct | benchmarks/runner.py:345-367 | The plan of the canonical suite repeats no pair, under any seed |
| ResultLog.AbortKeepsTerminal | benchmarks/runner.py:1428-1492 | append_abort keeps the abort single, last and naming the next entry |
| ResultLog.RowKeepsTerminalIff | benchmarks/runner.py:887-895 | An accepted row keeps the abort terminal exactly when it is not labelled an abort, or stands where append_abort would have put one |
| ResultLog.RunTerminalAbort | benchmarks/runner.py:1375-1492 | If no caller labels a row an abort, every log has at most one abort, after live rows only, naming the next entry |
| ResultLog.LabelledRowsBreakTerminal | benchmarks/runner.py:859-895 | Two rows outside a live run labelled as aborts are both accepted: the unconditional claim is false of the code |
| FreezeProtocol.RunKeeps | benchmarks/four_arm.py:1571-1690 | The lock, phase and file invariant survives every interleaving of any number of writers and freezers, with crashes, lost releases and manifest edits |
| FreezeProtocol.FrozenForever | benchmarks/four_arm.py:1602-1681 | From a frozen state no schedule changes the freeze or any log, so the log's digest stays the frozen one |
| FreezeProtocol.FreezeSafety | benchmarks/four_arm.py:1602-1681 | From a fresh directory: once frozen, the frozen run's digest matches in every continuation, and a summary exists only for the run and rows the manifest froze |
| FreezeProtocol.FrozenAsRequested | benchmarks/four_arm.py:1582-1591 | From a fresh directory, over every schedule: a freezer asked for one run never works on another at any step, and a frozen manifest and a summary name a run some freezer was asked for or was free to choose; when every freezer asks for r, they name r |
| FreezeProtocol.FrozenRunPresentable | benchmarks/four_arm.py:1131-1568 | From a fresh directory: a frozen log is whole, in plan order, under one set of fingerprints, of completed live presentation rows and no abort |
| FreezeProtocol.NeverReadyNeverFrozen | benchmarks/four_arm.py:1571-1580 | While readiness is refused, as it is at this commit, no schedule freezes or publishes anything |
| FreezeProtocol.CanonicalRunCompletes | benchmarks/four_arm.py:1131-1568 | The canonical 32 rows, submitted in plan order, are all accepted and then leave no blocker |
| FreezeProtocol.StaleLockFailsClosed | benchmarks/runner.py:786-823 | A process that crashed while holding the manifest lock stops every later append, freeze and summary |
| FreezeProtocol.FrozenLogBalanced | benchmarks/four_arm.py:1602-1640 | The frozen log of the canonical suite holds every task under every arm exactly once |
| FreezeProtocol.FreezerAlone | benchmarks/four_arm.py:1602-1681 | An undisturbed freezer of a finished run freezes it, publishes its summary and returns both locks |
| FreezeProtocol.WriterAlone | benchmarks/runner.py:1280-1371 | An undisturbed writer appends exactly its record and returns both locks |
| FreezeProtocol.WriterEnds | benchmarks/runner.py:1280-1371 | An undisturbed writer ends and returns both locks whether or not its record is admitted and accepted, and appends exactly when it is |
| FreezeProtocol.WriterAbandons | benchmarks/runner.py:786-823 | A writer that raises anywhere ends in two more steps without touching a file, and returns its locks but for one whose release is what failed |
| FreezeProtocol.FreezerAbandons | benchmarks/four_arm.py:1608-1690 | The same of a freezer that raises anywhere |
| GradeCommit.RunKeeps | benchmarks/paired_grading.py:135-195 | The invariant over names, inodes, link counts and history survives every interleaving with an exception, before or after its effect, or a crash at any step, also inside recovery and in the flush of the close that follows it |
| GradeCommit.GradedOnce | benchmarks/paired_grading.py:135-210 | At most one evaluation starts per slot, and a reader accepts only its verdict, after both post-checks and both syncs |
| GradeCommit.HistoryTells | benchmarks/paired_grading.py:154-178 | The history that these results speak of is what was done: every evaluation that starts, with the verdict it returned if it did, each post-check when it passes, each flush that took effect |
| GradeCommit.SlotTakenIff | benchmarks/paired_grading.py:137-143 | The slot goes to a grader that finds no marker, no pending file and no grade; any other is refused and changes nothing of it |
| GradeCommit.SettledForever | benchmarks/paired_grading.py:135-147 | Once the slot's grader has returned, raised or crashed, nobody changes a file or evaluates again |
| GradeCommit.ReadCommittedIff | benchmarks/paired_grading.py:198-210 | Exactly what an undisturbed reader accepts: two singly linked files, an acceptable grade, and a marker of that very content |
| GradeCommit.OutcomeIsFinal | benchmarks/paired_grading.py:155-195 | A returned grade is readable for ever and a recovered one unreadable for ever |
| GradeCommit.HandlerCleans | benchmarks/paired_grading.py:179-193 | A step that raises from the pending file on is followed by a recovery that unlinks the pending file, and the marker once it was linked, and rewrites the grade as failed; only a link that raised after its effect leaves the marker |
| GradeCommit.RecoveredNames | benchmarks/paired_grading.py:155-193 | Over every run: when a recovery has finished, the marker is gone unless its link raised after its effect, and the pending file unless its open did |
| GradeCommit.UndisturbedGraderReturns | benchmarks/paired_grading.py:155-195 | An undisturbed grader of a fresh slot returns the verdict its evaluation gave |
| Base64.RoundTrip | benchmarks/codex_protocol_journal.py:113-134 | Strict decoding of an encoding gives the bytes back (section 4 of RFC 4648) |
| Base64.EncodesAsStandard | benchmarks/codex_protocol_journal.py:113-134 | Three bytes are a 24-bit number from the left, written as the four letters at its sextets' places in the alphabet of section 4 of RFC 4648; last groups of one or two bytes are filled with zero bits and padded |
| Base64.ReencodesIffCanonical | benchmarks/opencode_executor.py:66-68 | An accepted text is the encoding of its bytes exactly when the spare bits of its last group are zero |
| Base64.NotInjective | benchmarks/opencode_executor.py:66-68 | Two different texts are accepted for the same byte |
| ProtocolJournal.CodexProtocolJournal.constructor | benchmarks/codex_protocol_journal.py:23-73 | Opens the journal exactly when its path still names the new file and its header fits and is written whole; otherwise it is failed and closed |
| ProtocolJournal.CodexProtocolJournal.WriteAll | benchmarks/codex_protocol_journal.py:75-81 | Through arbitrary partial writes, succeeds exactly when they suffice and overwrites from the offset on; a failure leaves a proper prefix |
| ProtocolJournal.CodexProtocolJournal.WriteRecord | benchmarks/codex_protocol_journal.py:83-111 | Writes one bounded record or spoils the journal; counters and digest are those of the records, and of the file while the offset stands at its end |
| ProtocolJournal.CodexProtocolJournal.Observe | benchmarks/codex_protocol_journal.py:113-134 | Records one exact line exactly when the line, the flags, the bounds and the writes allow it, also after a footer; the journal moves as the value model says |
| ProtocolJournal.CodexProtocolJournal.Finish | benchmarks/codex_protocol_journal.py:136-220 | Returns exactly when identity, traffic and bounds are in order, the footer is written, what is then seen agrees, and the close does not raise; what it returns is every record so far, within all bounds and equal to what was read back. A call that raises after the footer leaves the journal unfailed and open |
| ProtocolJournal.CodexProtocolJournal.Abort | benchmarks/codex_protocol_journal.py:222-234 | Closes an open journal unless the close raises, and changes nothing else |
| JournalSealing.RunBounded | benchmarks/codex_protocol_journal.py:83-134 | After every sequence of calls the records written are within all bounds and hold exact lines only |
| JournalSealing.OpenFooterlessIff | benchmarks/codex_protocol_journal.py:136-220 | Over every sequence of calls that leaves the journal open and unfailed: it holds no footer exactly when no finish raised after writing one |
| RawLogInspector.InspectRawLog | benchmarks/four_arm.py:521-912 | The one-pass reading loop computes the inspection of the split lines, and its digest is the whole file |
| RawLogInspector.SplitEncoded | benchmarks/four_arm.py:581-600 | Reading lines back splits an encoded journal into exactly its records |
| RawLogInspector.OpenScanned | benchmarks/four_arm.py:581-740 | The header and lines of a journal pass the sequence, size, count, digest and base64 checks, so only the row's binding and the messages can fail |
| InspectorGrammar.ScanIff | benchmarks/four_arm.py:581-866 | Over any lines at all: the reading loop gets through exactly when they are a header, traffic and at the end at most a footer, each in its envelope, and the messages break no rule |
| InspectorGrammar.InspectIff | benchmarks/four_arm.py:521-912 | Exactly the files that are accepted, and with which blockers |
| InspectorGrammar.ExamineFault | benchmarks/four_arm.py:581-740 | A record that raises does so at the first check that fails, in the order of the loop |
| InspectorGrammar.BlockersIff | benchmarks/four_arm.py:867-912 | Each blocker is reported exactly for its own fault, and none twice |
| JournalSealing.BuriedFooterRefused | benchmarks/four_arm.py:656-657 | A file in which anything follows a footer is refused for every result row |
| JournalSealing.SealedInspected | benchmarks/four_arm.py:581-912 | Over every sequence of calls, what a finish seals is accepted exactly when no earlier finish raised after its footer, the row binds it and the messages can be read; the blockers are those of its traffic |
| CodexConversation.HearAllIff | benchmarks/four_arm.py:690-866 | The message loop gets through exactly the conversations with legible client lines and no repeated id, and its maps are what was said |
| CodexConversation.NoBlockersIff | benchmarks/four_arm.py:870-912 | No blocker remains exactly for a matched conversation with bound thread and turn receipts |
| JournalSealing.SealedPassesIff | benchmarks/four_arm.py:581-912 | Over every sequence of calls, what a finish seals passes with no blocker exactly when no earlier finish raised after its footer, the row binds it and the conversation is clean and matched |
| JournalSealing.RetriedFinishSealsRefused | benchmarks/codex_protocol_journal.py:162-220 | One line each way, a finish whose sync raises, and a second finish: it seals, and every result row is refused |
| ModelRelay.PinnedModelRelay.Begin | benchmarks/model_relay.py:192-219 | Reserves and starts, or refuses, without suspending; an invalid frame is told apart from every refusal |
| ModelRelay.ArrivalIff | benchmarks/model_relay.py:192-219 | Exactly when an arriving frame is reserved and when it starts its backend call: a new id, a call left, and both clock readings before the deadline |
| ModelRelay.PinnedModelRelay.Finish | benchmarks/model_relay.py:220-261 | Settles its own receipt alone; success is replied exactly over a completed receipt |
| ModelRelay.RunKeeps | benchmarks/model_relay.py:192-261 | Ids, receipts and starts agree after every interleaving of arrivals, completions, failures and cancellations |
| ModelRelay.StartsBounded | benchmarks/model_relay.py:199-219 | At most max_calls backend starts, and at most one for any request id |
| ModelRelay.RepliesHonest | benchmarks/model_relay.py:220-261 | A success has a completed receipt of a started call under its id, and an attached provider row is the dispatch's own |
| ModelRelay.SuccessTraced | benchmarks/model_relay.py:220-242 | Over every run, a dispatch is answered with a success exactly when some event ended its awaited call in time with a bounded result, and the answer is that result under the dispatch's own id |
| ModelRelay.LeavesReservedOnce | benchmarks/model_relay.py:226-261 | A receipt that left `reserved` never changes again |
| ModelRelay.SuccessIff | benchmarks/model_relay.py:220-261 | Exactly when an awaited call is a success, when it is cancelled, and when a provider row is attached |
| ControlRelay.OpenCodeControlRelay.Begin | benchmarks/opencode_control_relay.py:45-104 | Admits or refuses a review without suspending, with the time left as its budget |
| ControlRelay.ArrivalIff | benchmarks/opencode_control_relay.py:45-104 | Exactly when an arriving request is reserved and when it is in flight, and that it changes nothing otherwise |
| ControlRelay.OpenCodeControlRelay.Finish | benchmarks/opencode_control_relay.py:105-141 | Settles the review in flight, charges it and frees the latch |
| ControlRelay.RunKeeps | benchmarks/opencode_control_relay.py:68-141 | The account of ids, session, latch, clock and receipts survives every interleaving |
| ControlRelay.OneReviewAtATime | benchmarks/opencode_control_relay.py:84-141 | At most one review in flight, used seconds are the sum of charged seconds, and the budget in flight is exactly the time left |
| ControlRelay.OneSession | benchmarks/opencode_control_relay.py:73-83 | All admitted reviews name one vendor session under different ids |
| ControlRelay.OnlyLastOverruns | benchmarks/opencode_control_relay.py:77-104 | All reviews before the last were paid for within the time budget |
| ControlRelay.NothingAfterTimeout | benchmarks/opencode_control_relay.py:124-141 | After a timed-out review no later event changes the desk, so no review is admitted again |
| ControlRelay.SettlesIff | benchmarks/opencode_control_relay.py:94-141 | Exactly when a review completes, what it is charged, and that a timeout uses up the time |
| ControlRelay.AnswersIff | benchmarks/opencode_control_relay.py:105-141 | A review in flight is answered under its own id with the decision's action, with the decision's text for a repair and none for a NOOP; a decision out of time or unacceptable is refused |
| ControlRelay.AdviceTraced | benchmarks/opencode_control_relay.py:105-141 | Over every run: advice is given exactly when some event ended its review in time with an acceptable decision, and it is that decision's action and text under the review's id |
| ControlRelay.LeavesReservedOnce | benchmarks/opencode_control_relay.py:105-141 | A review receipt that left `reserved` never changes again |
| ControlRelay.SequentialNeverRefused | benchmarks/opencode_control_relay.py:68-83 | A worker that waits for each answer, within max_reviews, is only ever refused for the time left |
| CliTurn.JudgeTurn | benchmarks/opencode_cli.py:53-101 | The line loop computes the completed turn, or nothing |
| CliTurn.CompletedIff | benchmarks/opencode_cli.py:53-101 | A log is a natural stop exactly when every line is readable, all events share the expected session, each belongs to a started step, and the last stops the step started last; and what the turn then reports |
| CliTurn.LinesAre | benchmarks/opencode_cli.py:53-70 | A log's lines end with CR LF, LF or CR and nothing else, and an unended rest is a line |
| WorkerSession.RunSession | benchmarks/opencode_session.py:32-92 | The review and repair loop computes the session's outcome for every log, clock and review |
| WorkerSession.WorkerRunKeeps | benchmarks/opencode_session.py:50-92 | Every run asks for at most max_followups + 1 reviews, and a finished one has matching turns, actions, messages and limit flag |
| WorkerSession.OneVendorSession | benchmarks/opencode_session.py:64-68 | All turns of a session name one vendor session |
| WorkerSession.FinishedIff | benchmarks/opencode_session.py:32-92 | Exactly the finished runs: every turn was prompted with the task or the instruction of the review before it, every review but the last decided a repair in time, and the last a NOOP or a repair beyond the limit |
| WorkerSession.ReviewsNeverExhausted | benchmarks/paired_preparation.py:205-218 | A relay admitted with max_followups + 1 reviews turns no review of such a session away except for the time left |
| WorkerExport.Export | benchmarks/opencode_worker.py:141-156 | The bounded reads export every turn exactly when the logs together keep 64 MiB |
| WorkerExport.WorkerObservation | benchmarks/opencode_executor.py:27-80 | The checking loop computes the observation of a parsed envelope, or nothing |
| WorkerExport.CheckRowsIff | benchmarks/opencode_executor.py:58-78 | Rows are accepted exactly when each is the natural stop of its own bytes in the session so far and all keep 64 MiB |
| WorkerExport.PrintedSize | benchmarks/opencode_worker.py:152-159 | The size the bounds speak of is that of the printed envelope, character for character |
| WorkerExport.EnvelopeFits | benchmarks/opencode_executor.py:24-30 | Logs within 64 MiB make an envelope within 96 MiB, whatever characters it carries |
| WorkerExport.FinishedObserved | benchmarks/opencode_executor.py:27-80 | A finished session is observed, with the same turns, actions and messages, exactly when its logs keep the bound, which is exactly when it exports |
| PairedPreparation.PrepareSchedule | benchmarks/paired_preparation.py:63-79 | The nested loops build the schedule of sorted blocks and sorted conditions |
| PairedPreparation.EveryCellOnce | benchmarks/paired_preparation.py:66-79 | Every harness, task and condition is scheduled exactly once |
| PairedPreparation.ConditionsAdjacent | benchmarks/paired_preparation.py:70-79 | Both conditions of a harness and task run back to back, whatever the hash keys |
| PairedPreparation.ScheduleAscends | benchmarks/paired_preparation.py:63-79 | The keys alone decide the order: blocks ascend by key, ties keep harness and task order |
| PairedPreparation.ConditionsAscend | benchmarks/paired_preparation.py:70-79 | The condition of smaller key runs first, the baseline on a tie |
| PairedPreparation.ReservedOnce | benchmarks/paired_preparation.py:163-183 | However admissions interleave, fail and crash: no index is reserved twice, a refused creation met the same index, and a consumed slot stays consumed |
| PairedPreparation.AdmittedReviewsSuffice | benchmarks/paired_preparation.py:186-218 | Every admitted attempt configures a relay and a worker within what they accept, and the relay has a review for every one the worker can ask for |
| RelayFrame.Read | benchmarks/worker_model_proxy.py:51-58 | However the bytes are delivered, returns the next count of them and leaves the rest, or nothing when the stream ends first |
| RelayFrame.ReadFrame | benchmarks/worker_model_proxy.py:70-73 | Reads the payload at the head of the stream exactly when it is whole and of an allowed length |
| RelayFrame.FrameRoundTrip | benchmarks/worker_model_proxy.py:69-73 | A framed payload within the bound is read back whole whatever follows it; any other is refused |
| EventStream.Interpreted | benchmarks/worker_model_proxy.py:156-160 | A client reading by section 9.2 of the WHATWG HTML standard gets back exactly the frames written |
| EventStream.LinesAre | benchmarks/worker_model_proxy.py:156-160 | By section 9.2 of the WHATWG HTML standard, lines end with CR LF, LF or CR, and what follows the last end is no line yet |
| ResponsesStream.ResponsesSse | benchmarks/worker_model_proxy.py:125-160 | The nested loops write exactly the event list of the result, or raise |
| ResponsesStream.StreamedIff | benchmarks/worker_model_proxy.py:125-145 | Exactly the results that are streamed: completed, with a list of items that have ids, and messages of output texts and refusals only |
| ResponsesStream.PartEventsAre | benchmarks/worker_model_proxy.py:140-153 | A part is written as four events under the names of its kind: emptied, its text as one delta, its text again, and itself |
| ResponsesStream.RebuildsIff | benchmarks/worker_model_proxy.py:125-160 | Events are well nested and complete, and a client that believes only the deltas ends with the result exactly when every message lists its content |
| ResponsesStream.ContentInvented | benchmarks/worker_model_proxy.py:135-139 | In any accepted result, a message without content comes back with an empty list, so the client does not end with the result |
| ResponsesStream.ContentlessAccepted | benchmarks/worker_model_proxy.py:125-160 | Such a result is accepted whatever its ids and model, and what the client ends with instead |
| ResponsesStream.WireReads | benchmarks/worker_model_proxy.py:156-160 | Split into frames, the stream gives each event under its own name with contiguous sequence numbers |
| ChatStream.BufferedSse | benchmarks/worker_model_proxy.py:85-122 | The loop writes exactly the chunks of the result and the end marker, or raises |
| ChatStream.ChatRebuildsIff | benchmarks/worker_model_proxy.py:94-121 | A client that accumulates deltas rebuilds role, content, refusal, tool calls and finish reason of every choice exactly when no two choices share an index; usage always survives |
| ChatStream.SharedIndexMerges | benchmarks/worker_model_proxy.py:94-119 | Two answers under one index are accepted, and the client ends with one choice whose text is theirs one after the other |
| ChatStream.WireReads | benchmarks/worker_model_proxy.py:122 | Split into frames, the stream gives each chunk and then the end marker |
| WorkspaceManifest.WalkInto | benchmarks/boundary.py:102-151 | The walk over sorted names computes the entries and the running totals, or raises |
| WorkspaceManifest.Fingerprint | benchmarks/boundary.py:77-153 | The fingerprint is the digest of the sorted rows of the walk |
| WorkspaceManifest.ListingIrrelevant | benchmarks/boundary.py:102-153 | Acceptance and manifest are the same for every order in which directories are listed |
| WorkspaceManifest.SnapshotExact | benchmarks/boundary.py:102-151 | An accepted tree's entries are each kept path once, with exactly what is found there, in both modes |
| WorkspaceAcceptance.AcceptedIff | benchmarks/boundary.py:77-153 | Exactly the trees that are accepted, in both modes: whatever the walk gets to is sound, it meets at most 20000 names and 512 MiB of files, and no file after ten thousand rows |
| WorkspaceAcceptance.KeptIff | benchmarks/boundary.py:119-151 | What is kept at each path, read off the tree itself, in both modes |
| WorkspaceManifest.ManifestsEqualIff | benchmarks/boundary.py:152-153 | Two manifests are equal exactly when the printed rows are the same, each as often |
| WorkspaceManifest.AgreeingManifests | benchmarks/boundary.py:77-153 | Accepted trees that agree on everything kept have one manifest |
| PathCollisions.ApartManifestsIff | benchmarks/boundary.py:77-153 | While no file of one tree prints like a file kept elsewhere in the other, two accepted trees have one manifest exactly when they agree on everything kept |
| PathCollisions.PlainManifestsIff | benchmarks/boundary.py:77-153 | The same while no kept file has a backslash in its path |
| PathCollisions.OrdinaryAccepted | benchmarks/boundary.py:102-151 | A tree of ordinary files and directories with short, unmarked paths is accepted wherever its names and bytes fit the bounds, however it is listed |
| PathCollisions.AlikeCollide | benchmarks/boundary.py:102-153 | Any two different paths that print alike collide in both modes: one file at the one or at the other, among the directories of both, makes two different accepted trees with one manifest |
| PathCollisions.KeptStorable | benchmarks/boundary.py:124-141 | Where an accepted tree keeps a file, the path is short, unmarked and not ignored |
| PathCollisions.ToldApartIff | benchmarks/boundary.py:77-153 | For every set of file paths and in both modes: the manifest tells all accepted trees with files there apart exactly when no two of the paths that can hold a file print alike |
| PathCollisions.AliasIff | benchmarks/boundary.py:136 | A file's path prints like another path exactly when it has two names or more, or its one name splits at a backslash into two names |
| PathCollisions.PlainAliasIff | benchmarks/boundary.py:136 | It prints like another path without backslashes exactly when it has a backslash and its pieces between slashes and backslashes are names |
| PathCollisions.MovedFileUnnoticed | benchmarks/boundary.py:77-153 | Two accepted trees that differ only in which of two paths that print alike holds a file have one manifest, in both modes |
| Wilson.WilsonExact | benchmarks/report.py:32-43 | The end points factor the score quadratic, enclose the proportion and lie in the unit interval, so the clamps change nothing; and they enclose exactly the proportions the score test keeps |
| McNemar.ExactMcNemar | benchmarks/report.py:46-62 | Counts the discordant pairs both ways and sums the tail, or refuses lists of different length |
| McNemar.AloneCounts | benchmarks/report.py:46-52 | The two counts are the number of pairs that only the one list gets right |
| McNemar.RowSum | benchmarks/report.py:53-55 | All outcomes of n tosses together are 2^n |
| McNemar.BetweenReversed | benchmarks/report.py:53-55 | Counting failures instead of successes reverses any range of outcomes |
| McNemar.ExactTwoSided | benchmarks/report.py:46-62 | With different counts the value is the exact two-sided mass; the cap takes effect exactly on a tie; the arms may be exchanged |
| McNemar.MonotoneInSmaller | benchmarks/report.py:53-56 | For a fixed number of discordant pairs the value never falls as the smaller count grows, and stays in (0, 1] |
| Percentile.NearestRank | benchmarks/report.py:70-73 | The result is a value with at least probability * n values up to it and fewer below it |
| Percentile.OrderedInterval | benchmarks/report.py:70-92 | The result ignores the order of the values, and the interval's lower end never exceeds its upper end |
| CompletionFence.QuietCompletionFence.Observe | benchmarks/opencode_completion.py:403-421 | The incremental answer is the one the whole history gives |
| CompletionFence.QuietIff | benchmarks/opencode_completion.py:403-421 | Yes exactly when some observation began a stretch up to now that is settled, of one identity, never before its clock, and long enough |
| CompletedGeneration.CompletedIff | benchmarks/opencode_completion.py:298-350 | A pair is returned exactly for the newest user message and the newest assistant message that answers it, among well-formed messages with distinct ids |
| CompletedGeneration.CompletedExactly | benchmarks/opencode_completion.py:298-350 | The same for messages of any shape: all sound, ids distinct, enough user messages, and the two newest, the one replying to the other |
| CompletedGeneration.NewerUserReopens | benchmarks/opencode_completion.py:301-305 | A reply to an earlier message never completes a session whose newest user message is unanswered |
| CompletedGeneration.ReportOrderIrrelevant | benchmarks/opencode_completion.py:311-350 | The order in which messages are reported does not matter |
| CursorTiming.ArrivalOrderIrrelevant | benchmarks/cursor_capture.py:387-479 | The timing, and the reason for having none, do not depend on the order of arrival |
| CursorTiming.TimingIff | benchmarks/cursor_capture.py:387-479 | A span is derived exactly for coherent receipts of one identity, from the earliest prompt release, which binds the benchmark prompt, to the named stop with the greatest clock, within a day |
| CursorTiming.ReasonIff | benchmarks/cursor_capture.py:387-440 | Which check fails first, said of the receipts as a set: the reason given for having no span |
| CursorCapture.CursorCapture.constructor | benchmarks/cursor_capture.py:169-232 | Opens the journal with its header exactly when the binding is valid, the file is a new regular one and the header fits and is written; otherwise no capture begins and nothing is counted |
| CursorCapture.CursorCapture.Invalidate | benchmarks/cursor_capture.py:243-248 | Marks the capture once, unless it is finished |
| CursorCapture.CursorCapture.Append | benchmarks/cursor_capture.py:263-269 | Counts a record exactly when it is within the limit and lands whole |
| CursorCapture.CursorCapture.Record | benchmarks/cursor_capture.py:339-385 | Appends exactly the new valid receipts that fit, and keeps its index equal to the list |
| CursorCapture.RecordAddsIff | benchmarks/cursor_capture.py:339-385 | A receipt is added exactly when the capture is unfinished, the receipt valid and new, there is room before the reserve, and it is written whole |
| CursorCapture.RecordRefusals | benchmarks/cursor_capture.py:339-383 | The same receipt again and one bound to another capture never invalidate; every other refusal does, each with its reason |
| CursorCapture.CursorCapture.Finish | benchmarks/cursor_capture.py:531-594 | Derives the timing, writes the footer, verifies and closes; repeating it changes nothing |
| CursorCapture.FinishReportsIff | benchmarks/cursor_capture.py:487-594 | Exactly when finish reports a span and a hash |
| CursorCapture.FooterHasSize | benchmarks/cursor_capture.py:536-556 | The footer's size is that of the record as it is written out, byte for byte |
| CursorCapture.FooterAlwaysFits | benchmarks/cursor_capture.py:263-269 | After any calls the footer fits the space the records left for it, so only a failing write can stop it |
| CursorCapture.JournalBoundedIff | benchmarks/cursor_capture.py:250-269 | The counted journal never exceeds 64 MiB, and the file does so exactly when failing writes left more than the rest of it; anything left invalidates the capture, and a hash or a span is reported only without it |
| CursorCapture.FileIsCountedIff | benchmarks/cursor_capture.py:250-261 | Over every sequence of calls, the file is the counted bytes and what failing writes left, so it is the counted bytes exactly when no write that was reached left anything |
| CursorCapture.TornWritesEscape | benchmarks/cursor_capture.py:250-269 | Failing writes are not counted, so they can leave any number of bytes on disk |
| CursorCapture.InvalidatedForever | benchmarks/cursor_capture.py:243-248 | Once invalidated, a capture is never timed |
| CursorCapture.SpanMeans | benchmarks/cursor_capture.py:531-594 | A reported span was derived from the receipts the journal holds, by a capture never invalidated |
| CaptureFrames.DedupFrames | scripts/capture_replay.py:67-91 | The dictionary of latest positions keeps exactly the frames that are last of their key, in order |
| CaptureFrames.OneLastFrameEach | scripts/capture_replay.py:67-91 | Exactly one frame of each key survives, the last one delivered |
| CaptureFrames.DedupIdempotent | scripts/capture_replay.py:67-91 | Reducing twice changes nothing more |
| CaptureReplay.Export | scripts/capture_replay.py:119-276 | The loops record and reconcile the session, or raise at the first edit without text |
| CaptureReplay.FindInsertion | scripts/capture_replay.py:244-259 | The backward searches find the last green run before the last stop |
| CaptureReplay.InsertionIs | scripts/capture_replay.py:244-259 | The place is the last green run before the last stop, else that stop, else the end |
| CaptureReplay.Insert | scripts/capture_replay.py:260-276 | Shifting and inserting in place leaves the events and mutations of the reconciled fixture |
| CaptureReplay.FindsFirst | scripts/capture_replay.py:150-155 | The replaced text is the first occurrence, and a text not found leaves the file alone |
| CaptureReplay.RecordingReplays | scripts/capture_replay.py:158-189 | Replaying the recorded mutations from the seed ends with the recorded file state |
| CaptureReplay.MutationsPointAtEdits | scripts/capture_replay.py:184-189 | After reconciliation, mutations and edit events correspond one to one, each mutation under an edit of its own file |
| CaptureReplay.OriginalOrder | scripts/capture_replay.py:263-276 | Dropping the reconciling edits gives back the recorded events in order |
| CaptureReplay.ReplayEndsReconciledIff | services/bridge/src/pex_bridge/app.py:6957-6962 | Replaying the fixture ends with the reconciled state exactly when no drifted file has a captured edit at or after the insertion point |
| CaptureReplay.CapturedEditWins | scripts/capture_replay.py:244-276 | A captured edit after the insertion point: the replay ends with the edit, not with the recorded bytes |

## Left out

- Process launch, sandbox command lines, git, sockets, HTTP, the asyncio runtime: only steps, results and clocks appear.
- JSON and YAML text, UTF-8 decoding and real hashing: values are parsed, digests are structural, and an encoder is any
  lawful pair of functions. Lone surrogates, which no Dafny character is, are left out with them.
- Floating point: `Wilson`, `McNemar`, `Percentile`, `ControlRelay` and the clocks compute with exact reals.
- The long field checklists of `append_immutable`, `_run_blockers` and the journal records' constant fields: each is one
  boolean (`checklist`, `literals`).
- ResultLog.ResultFile.AppendAbort: takes the unlocked check and the locked part with no writer in between; interleavings
  of the two are in `FreezeProtocol`.
- FreezeProtocol.FreezeSafety: an append to the log is one step, so a torn append is not modelled; a summary is what
  `try_freeze` publishes, and the freeze's time, task count and benchmark digest are not fields of it; the search for
  the single coherent run is a choice of run supplied to the step.
- GradeCommit.GradedOnce: the checks before the slot is opened are one step, and a caller that raised may still leave a
  true grade, so no converse is claimed.
- ProtocolJournal.CodexProtocolJournal.Finish: the bytes read back are whatever the read returns, and a file's identity is
  one flag; an interrupt that is no `Exception` is not modelled.
- JournalSealing.SealedPassesIff: the inspector compares sets of turn receipts and their number; their distinctness
  is not claimed. The first journal schema is not modelled.
- ModelRelay.RepliesHonest: a correlation id is the number of its dispatch, standing for a fresh random id; the provider
  rows are arbitrary. `PinnedChatBackend` itself, the connection limit and closing of handlers are not modelled.
- ControlRelay.OneReviewAtATime: model calls through the same object touch none of this state and are not interleaved
  here.
- WorkerSession.RunSession: log contents, clock readings and reviews are arbitrary functions of their number; the worker's
  capture of a subprocess is one outcome.
- WorkerExport.FinishedObserved: the exported logs are those the turns were judged from, and the parser returns what the
  printer printed.
- ResponsesStream.ResponsesSse: events are records and their JSON layout is the codec's; a leading byte order mark cannot
  occur.
- PathCollisions.ToldApartIff: kept paths are made of names as a file system gives them: not empty, not `.`, and
  without a slash.
- WorkspaceManifest.Fingerprint: case folding, the ignored names, the private markers and the order of rows are
  parameters; all refusals are alike. A file that changes while it is read is not modelled.
- CompletedGeneration.CompletedIff: the session's status is one flag.
- CursorCapture.CursorCapture.constructor: that the workspace path is absolute and resolved is part of the flag for a usable
  path; validation of a receipt's binding, workspace and hash is one outcome, and an exception's text after a failed
  verification or close is not kept.
- CursorCapture.FooterAlwaysFits: the workspace path has at most 100,000 characters; the source sets no bound of its own,
  and longer paths are outside this result. The terminal id is absent or 32 hexadecimal digits, as `_timing` requires of
  one it uses.
- CaptureReplay.Export: which texts of prompts, replies and tool calls are kept is decided before the model; a readable
  file on disk is an entry of a map.
- PairedPreparation.ReservedOnce: the checks of the plan, the profile and the workspace before the exclusive creation are
  one step that passes or raises; seeding of workspaces is not modelled.
- The bootstrap's hash-based indices, the evaluator subprocess, reports, demo and user interface, `codex_worker.py` and
  `pex_attach.py`: no invariant of their own, or the same lineage argument with more input and output.
