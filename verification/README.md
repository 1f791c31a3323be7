# Devo: durable execution, archives and client protocols

This project models the parts of Devo whose correctness spans many steps, and proves what they
promise over all inputs and all histories. `dafny verify dfyconfig.toml` checks everything.

**Execution journal** (`DurableExecution`, `ReplayContents`, `ReplayLaws`, `JournalReader`, `ToolJournal`,
`TurnReplay`, `JsonScanner`, `RolloutText`, `ImitatedCheckpoint`, `OutputReferences`). A turn's acknowledged facts are records; replaying
them gives the state a restart recovers. `ApplyRecord` is the specification of one record and
`ExecutionReplay.Apply` the in-place algorithm, which validates a batch against a local table before
it mutates; `ReplayContents` states what a replay accepts and holds from the list of records alone. `FullRead` replays every line of a turn; `FastRead` skips the checkpoints in front of the
last line that looks like a full checkpoint. `RolloutText` is the reader on text lines, with its substring accelerator,
balance pre-scan, prefilter and tolerated torn tail; the typed JSON parser is a parameter, and
`Faithful` states what is expected of parser and writer for a complete line. `ToolJournal` adds the
writers: any number of journal objects on one file, each with its cached replay, deltas instead of
full checkpoints, no write when nothing changes, lines appended by others, and restarts. The central
result is `AcknowledgedFactsSurvive`: whatever the interleaving, as long as each object commits only
what its cache is current for, replaying the file succeeds and gives what replaying the acknowledged
records themselves gives, except possibly the checkpoint flag; and the skipping reader gives the same
unless a foreign line imitates a full checkpoint.

**Archives** (`Utf8`, `TarNumbers`, `TarHeader`, `TarArchive`, `ArchiveTree`, `ArchiveListing`). The ustar/pax writer,
byte by byte, against a reader that knows only the format of IEEE Std 1003.1-2017: blocks, octal
fields, checksum, extended headers, end marker. Directories are listed in an arbitrary order, and
the bytes do not depend on it. `ArchiveListing` says by path lookup what is recovered. File names are UTF-16 code units, encoded as UTF-8 bytes.

**Session transitions** (`SessionTransitions`, `TransitionOutcomes`). `newSession` and `switchSession` cut at their awaits,
any number of them suspended at once; every event is a reply or a failure of one pending request. `TransitionOutcomes` says from the events alone how
each transition ends.

**Client protocol** (`RequestCorrelation`, `RequestOutcomes`, `ReverseRequests`, `ReverseOutcomes`,
`StdioJsonRpc`). Requests and their
one-shot channels; server requests answered later; newline framing over arbitrary chunks.

**Configuration merge** (`ConfigMerge`) and **agent roster** (`AgentRoster`): layered tree merges
with one section replaced as a unit, and a worklist over a possibly cyclic graph.

Classes carry the source's mutable fields; each of their methods equates the new state with a
specification function, and the theorems are about those functions over all sequences of events.

## Where the code does not keep a promise

- `apply` is documented as atomic. A rejected delta checkpoint has already overwritten the counters
  (`ReplayLaws.RejectedLegCheckpointLeaks`); `ReplayLaws.RejectionKeepsStateUnlessLegCounters` is the
  exact condition. Callers in the repository discard the state after a rejection.
- Replaying an accepted record a second time has no effect, except for an artifact batch that names
  one id twice with growing sizes or a differing identity, path or owner (`ReplayLaws.ReapplyIsNoOp`,
  `ReplayLaws.RepeatedIdRejectedOnReplay`).
- Closing interrupted calls leaves a call open, or is rejected, when its result was committed but
  dropped from the items by a later checkpoint. `ReplayLaws.CloseInterrupted` and
  `ReplayLaws.ClosedAfterReports` are the exact conditions; `ReplayLaws.ClosingCanBeRejected` and
  `ReplayLaws.ClosingCanLeaveCallOpen` are accepted journals in which each happens.
- Skipping superseded checkpoints can reject a journal that the full replay accepts: a completion
  restated after a checkpoint changed the items (`JournalReader.RestatedCompletionBreaksFastRead`).
  `JournalReader.FastReadRefinesFullRead` is the exact condition, and no journal written through
  `ToolJournal` violates it.
- The scan accelerator never looks at the kind of a line. A tool call of the turn whose raw input holds
  `{"entry":{"type":"execution","record":{"type":"promptCheckpoint"}}}` is stored as an item line that
  passes for a full checkpoint, and every real checkpoint in front of it is skipped
  (`ImitatedCheckpoint.MimicHidesCheckpoint`, `ToolJournal.ImitationHidesAcknowledged`). Such a line is
  harmless before the last full checkpoint or when no checkpoint precedes it; otherwise the reader skips
  lines it needs (`JournalReader.SoundUnlessLateImitation` is the if-and-only-if). Which skips are
  invisible whatever the records hold is `JournalReader.SkippingIsSafeIff`, again exact.
- The accelerator is documented as optional, but reading only some lines is not: a delta that stays
  because of its formatting, while its base is skipped, makes the journal unreadable
  (`ImitatedCheckpoint.SpacedDeltaBreaksRead`). `RolloutText.ReadRefinesFullRead` is the exact condition
  for lines of any formatting.
- Two journal objects on one turn lose facts if both commit facts (`ToolJournal.TwoFactWritersDiverge`)
  and make the file unreadable if both decide the recovery (`ToolJournal.TwoRecoveryWritersBreakRead`).
  The server's second writer, the interrupt, commits only recovery decisions and is harmless
  (`ToolJournal.InterruptsLoseNothing`).
- Chunk boundaries show in the stdio client when a line makes its handler throw, such as the JSON text
  `null`: the complete lines behind it wait in the buffer for the next chunk
  (`StdioJsonRpc.NullLineHidesResponse`). `StdioJsonRpc.ChunkingIsInvisible` is the exact condition.
- An acknowledged checkpoint may not be vouched for on read-back: after a compaction snapshot by
  someone else the journal's cached replay makes the write look redundant
  (`ToolJournal.CheckpointLostAfterSnapshot`, exact condition in `ToolJournal.CheckpointVouchedAfterCommit`).

## Model

| member | source | states |
|---|---|---|
| DurableExecution.ExecutionReplay.Apply | crates/core/src/durable_execution.rs:133-232 | the in-place fold of one record leaves exactly the specified state, on acceptance and on rejection, and reports which of the two it was |
| DurableExecution.ExecutionReplay.ApplyArtifacts | crates/core/src/durable_execution.rs:135-151 | all references of a batch are checked against the state before the batch, then registered in order, the last one with an id winning |
| DurableExecution.AcceptedEntries | crates/core/src/durable_execution.rs:204-224 | validating a whole batch against the committed and the locally seen entries agrees with committing its entries one at a time |
| DurableExecution.ExecutionReplay.ReportInterrupted | crates/core/src/durable_execution.rs:235-249 | one error outcome per call item without an outcome, in order |
| ReplayContents.NextAccepted | crates/core/src/durable_execution.rs:133-232 | over every accepted run, which record is accepted next: consistent references, the same completion again, a newer revision or the same decision, a delta within range, entries of the right kind that disagree with nothing committed or earlier in their batch |
| ReplayContents.NextItems | crates/core/src/durable_execution.rs:133-232 | the items after the next record: a checkpoint replaces them, a delta keeps a prefix, the first completion replaces them, a batch appends, in order and once each, exactly those of its entries that are not committed under their key and not already among the items |
| ReplayContents.RunHolds | crates/core/src/durable_execution.rs:133-199 | after every accepted run the recovery is the state of the last decision, the counters are those of the last checkpoint, the stop reason is that of the first completion, and the checkpoint flag tells whether a checkpoint or completion was applied; without such a record the start's |
| ReplayContents.RunArtifacts | crates/core/src/durable_execution.rs:135-151 | after every accepted run the artifact known under an id is the last reference of the last batch that mentions it, or the start's |
| ReplayContents.ReportsInOrder | crates/core/src/durable_execution.rs:235-249 | the k-th report is an error outcome with the fixed message for the k-th call item that no output answers |
| ReplayLaws.RejectionKeepsStateUnlessLegCounters | crates/core/src/durable_execution.rs:132-199 | a rejected record leaves the state unchanged if and only if it is not an out-of-range delta with different counters, and such a delta leaves its counters and nothing else |
| ReplayLaws.RejectedLegCheckpointLeaks | crates/core/src/durable_execution.rs:184-199 | a concrete rejected record that changes the counters |
| ReplayLaws.ReapplyIsNoOp | crates/core/src/durable_execution.rs:133-232 | an accepted record is accepted again without effect if and only if it is not a self-contradicting artifact batch |
| ReplayLaws.DistinctIdsAreRepeatable | crates/core/src/durable_execution.rs:135-151 | artifact batches with pairwise distinct ids can always be repeated |
| ReplayLaws.RunGrows | crates/core/src/durable_execution.rs:133-232 | along every accepted run committed entries, recovery revisions, completion and artifacts only grow, and the committed table is exactly what the run stated |
| ReplayLaws.OneFactPerIdentity | crates/core/src/durable_execution.rs:207-231 | no accepted run holds two different calls or two different outcomes under one id, however far apart |
| ReplayLaws.KeysDeterminePrefixAndId | crates/core/src/durable_execution.rs:208-213 | call and result keys never coincide, and a key determines the id |
| ReplayLaws.ReportsExact | crates/core/src/durable_execution.rs:235-249 | a report exists for exactly the calls without an outcome |
| ReplayLaws.CloseInterrupted | crates/core/src/durable_execution.rs:201-249 | when committing the reports is accepted, and that it then keeps the old items in front and adds exactly one error outcome per open id without a committed result |
| ReplayLaws.ClosedAfterReports | crates/core/src/durable_execution.rs:201-249 | afterwards nothing is interrupted if and only if no open call had a committed result |
| ReplayLaws.ClosingCanBeRejected | crates/core/src/durable_execution.rs:201-249 | an accepted journal whose reports are rejected |
| ReplayLaws.ClosingCanLeaveCallOpen | crates/core/src/durable_execution.rs:201-249 | an accepted journal whose call stays open although its report is accepted |
| JournalReader.SkippingRefinesFullRead | crates/core/src/durable_execution.rs:276-291 | a reader that skips any selection of superseded checkpoints returns the full replay's state if and only if every line it keeps fits, and fails otherwise |
| JournalReader.HarmlessAgrees | crates/core/src/durable_execution.rs:276-291 | where the kinds of the lines are harmless, skipping checkpoints, superseded or not, is invisible |
| JournalReader.SkippingIsSafeIff | crates/core/src/durable_execution.rs:276-291 | skipping given checkpoints is invisible for all contents of the records if and only if the kinds of the lines are harmless |
| JournalReader.SoundUnlessLateImitation | crates/core/src/durable_execution.rs:256-291 | the reader skips only superseded checkpoints if and only if every line that passes for a full checkpoint and has a checkpoint before it has a real one after it |
| JournalReader.LateImitationIsUnsafe | crates/core/src/durable_execution.rs:276-291 | behind a checkpoint and with none after it, such a line makes some accepted journal read differently |
| JournalReader.ImitationHidesCheckpoint | crates/core/src/durable_execution.rs:276-291 | the smallest such journal |
| JournalReader.SkippedBaseBreaksRead | crates/core/src/durable_execution.rs:184-199 | a journal that a selective reader rejects and the full replay accepts |
| JournalReader.FastReadRefinesFullRead | crates/core/src/durable_execution.rs:276-291 | for every journal the full replay accepts and in which no imitation comes late, the skipping replay gives the identical state if and only if completions restated before the last full checkpoint match the checkpoint-free replay; otherwise it fails |
| JournalReader.FastReadOfSingleCompletion | crates/core/src/durable_execution.rs:343-415 | with at most one completion before the last full checkpoint and no late imitation both replays are equal, compaction snapshots of any owner included |
| JournalReader.RestatedCompletionBreaksFastRead | crates/core/src/durable_execution.rs:152-165 | a journal the full replay accepts and the skipping replay rejects |
| TurnReplay.FullReadIsReplay | crates/core/src/durable_execution.rs:348-415 | the full read of a journal succeeds exactly when the replay of the turn's records does, with the same state up to the checkpoint flag; lines of other turns and kinds neither matter nor fail |
| TurnReplay.FlagOfFullRead | crates/core/src/durable_execution.rs:385-389 | its checkpoint flag is set exactly when a checkpoint or the first completion is newer than every compaction snapshot |
| ToolJournal.DeltaActsLikeFull | crates/core/src/durable_execution.rs:39-45 | a delta acts like the full checkpoint if and only if the kept items are a common prefix |
| ToolJournal.DeltaRunReplaysAlike | crates/core/src/durable_execution.rs:178-199 | whichever checkpoints of a run are written as sound deltas, the run ends in the same state or the same rejection |
| ToolJournal.EncodingActsLikeFull | crates/server/src/runtime/turn_exec/journal.rs:92-111 | the writer's choice of encoding never changes what a record does |
| ToolJournal.RolloutToolJournal.Commit | crates/server/src/runtime/turn_exec/journal.rs:49-85 | one commit: load, encode, apply to a copy, skip the write when nothing changed, else append and cache |
| ToolJournal.ApplyIgnoresFlag | crates/core/src/durable_execution.rs:133-232 | the checkpoint flag decides neither acceptance nor any other part of the state |
| ToolJournal.AcknowledgedFactsSurvive | crates/server/src/runtime/turn_exec/journal.rs:43-85 | over every interleaving of loads, commits by any number of journal objects, foreign lines and restarts, in which each object's cache is current for what it commits, the file replays to what the acknowledged records replay to, up to the checkpoint flag, and so does the skipping read-back unless an imitation comes late |
| ToolJournal.ImitationHidesAcknowledged | crates/core/src/durable_execution.rs:323-341 | a history in which the skipping read-back misses an acknowledged checkpoint that the file holds |
| ToolJournal.UnovertakenIsPossible | crates/server/src/runtime/turn_exec/journal.rs:49-60 | caches stay current when no other object commits the same kind of record between an object's first use and its commit |
| ToolJournal.InterruptsLoseNothing | crates/server/src/runtime/turn_exec/recovery.rs:198-241 | a turn's journal together with journals that record recovery decisions one after the other loses nothing, also when a fact of the turn lands between a load and its append |
| ToolJournal.TwoFactWritersDiverge | crates/server/src/runtime/turn_exec/journal.rs:92-111 | two objects committing checkpoints: an acknowledged prompt is read back as another |
| ToolJournal.TwoRecoveryWritersBreakRead | crates/core/src/durable_execution.rs:166-175 | two objects deciding the recovery: both are acknowledged and the file no longer reads |
| ToolJournal.CheckpointVouchedAfterCommit | crates/server/src/runtime/turn_exec/journal.rs:59-65 | over every run, an acknowledged full checkpoint is vouched for on read-back if and only if the file already did or the cached replay did not already show it; the skipping read-back agrees unless an imitation comes late |
| ToolJournal.CheckpointLostAfterSnapshot | crates/server/src/runtime/turn_exec/journal.rs:62-65 | a history in which an acknowledged checkpoint is not vouched for |
| TurnReplay.AcknowledgedIffAdmissible | crates/server/src/runtime/turn_exec/journal.rs:49-85 | over every such run a commit is acknowledged exactly when the replay of the records acknowledged so far can take its record |
| JsonScanner.IsBalancedJsonLine | crates/core/src/durable_execution.rs:293-321 | the loop with its early exit computes the balance scan of the whole line |
| JsonScanner.DepthBound | crates/core/src/durable_execution.rs:293-321 | the depth stays between zero and the line length, so within 32 bits for lines shorter than 2^31, and an escape is only pending inside a string |
| JsonScanner.BalancedText | crates/core/src/durable_execution.rs:293-321 | the scanner accepts the compact text of every JSON value, with arbitrary escapes |
| JsonScanner.TornObjectIsUnbalanced | crates/core/src/durable_execution.rs:293-321 | the scanner rejects every non-empty proper prefix of every JSON object |
| RolloutText.WrittenVariantIsFound | crates/core/src/durable_execution.rs:252-274 | the accelerator reads the record variant off a line as the writer lays it out |
| RolloutText.LastPromptCheckpointLine | crates/core/src/durable_execution.rs:323-341 | the pre-scan finds the last line that declares a full checkpoint and is balanced |
| RolloutText.ReadExecutionReplay | crates/core/src/durable_execution.rs:348-415 | the loop over peekable lines computes the specified reader, error cases included |
| RolloutText.ReadStopsAtBadLine | crates/core/src/durable_execution.rs:376-413 | the first line that is read and does not parse: the reader fails there, with a torn line only if some later line is not blank, and otherwise returns the replay of the lines before it |
| RolloutText.TextSkipsAreSound | crates/core/src/durable_execution.rs:276-291 | on complete lines of any formatting, without a late imitation, the accelerator skips only superseded checkpoints |
| RolloutText.ReadRefinesFullRead | crates/core/src/durable_execution.rs:343-415 | on such lines the text reader returns the full replay of the typed lines if and only if every line it keeps fits, and reports a rejected record otherwise |
| RolloutText.HarmlessRead | crates/core/src/durable_execution.rs:343-415 | whatever the lines imitate, where their kinds are harmless the text reader returns the full replay |
| RolloutText.ReadIsFastRead | crates/core/src/durable_execution.rs:348-415 | when checkpoints are compact, accelerator, pre-scan and prefilter together compute exactly the skipping replay of the typed lines, imitations included |
| RolloutText.WrittenJournalIsHarmless | crates/core/src/durable_execution.rs:276-291 | a journal as it is written, completing once and without a late imitation, is harmless to skip |
| ImitatedCheckpoint.MimicDeclaresPrompt | crates/core/src/durable_execution.rs:256-274 | the item line of a tool call with a certain raw input is balanced and read as a full checkpoint of the turn |
| ImitatedCheckpoint.MimicHidesCheckpoint | crates/core/src/durable_execution.rs:323-341 | a checkpoint line followed by that item line: the full replay has the checkpoint, the reader returns an empty replay |
| ImitatedCheckpoint.SpacedDeltaBreaksRead | crates/core/src/durable_execution.rs:252-291 | a compact checkpoint, a delta formatted with spaces and a compact checkpoint: accepted in full, rejected by the reader |
| RolloutText.CrashCut | crates/core/src/durable_execution.rs:293-341 | cutting the last line anywhere reads back exactly as if it had never been started |
| RolloutText.ReadAfterCrash | crates/core/src/durable_execution.rs:343-415 | after any such cut the text reader returns the full replay of the complete lines, if the kinds of the lines are harmless |
| OutputReferences.ReadOutputReferences | crates/core/src/output_replay.rs:13-65 | the loop returns the artifact table of the artifact records of all owners and of none |
| OutputReferences.ReaderFoldsArtifacts | crates/core/src/output_replay.rs:13-65 | on parsed lines that is the fold of the artifact records alone, failing exactly when one of them is rejected |
| OutputReferences.InheritedReferencesAreRestored | crates/core/src/output_replay.rs:23-33 | references on a line without a turn id, as a fork inherits them, are restored |
| OutputReferences.ProjectionOfReplay | crates/core/src/durable_execution.rs:135-151 | however record kinds interleave, replaying the artifact records alone gives the artifact table of the full replay |
| OutputReferences.ReaderReturnsProjection | crates/core/src/output_replay.rs:13-65 | the artifact-only reader returns exactly that table whenever replaying all records is accepted |
| OutputReferences.TurnProjection | crates/core/src/durable_execution.rs:135-151 | the artifact table of a turn's full replay is the fold of that turn's artifact records |
| OutputReferences.RestoredCoversTurn | crates/core/src/output_replay.rs:11-12 | every artifact a turn's replay knows is restored by the session-wide reader, with the same identity, path and owner and no fewer bytes |
| Utf8.DecodeEncoded | scripts/runtime/packs.ts:35-39 | the UTF-8 encoding of a well-formed string determines it |
| Utf8.OrderIsLexicographic | scripts/runtime/packs.ts:56-60 | the sort order is lexicographic in UTF-16 code units |
| Utf8.SortForgetsOrder | scripts/runtime/packs.ts:56-60 | sorting forgets the order in which names were listed |
| TarNumbers.ReadOctalField | scripts/runtime/packs.ts:11-13 | an octal field reads back as its value if it leaves room for the terminator, and otherwise is not a number |
| TarNumbers.SettleLength | scripts/runtime/packs.ts:34-39 | the length loop ends on the record length after at most two corrections |
| TarNumbers.RecordLengthIsLeast | scripts/runtime/packs.ts:34-39 | that length equals the record's bytes plus its own digits, and is the least that does |
| TarHeader.WriteHeader | scripts/runtime/packs.ts:8-22 | writing at fixed offsets, summing the buffer and writing the sum yields the specified block |
| TarHeader.ReadWrittenHeader | scripts/runtime/packs.ts:8-22 | every header field survives, names of exactly 100 bytes included, and the checksum validates; a size beyond eleven octal digits makes the header unreadable |
| TarHeader.HeaderIsNotZero | scripts/runtime/packs.ts:8-22 | no header is mistaken for the end of the archive |
| TarHeader.HeaderIsStable | scripts/runtime/packs.ts:8-22 | owner, group and time read back as zero, the version is 00 and everything behind it is zero, whatever the entry |
| TarArchive.ReadWrittenRecord | scripts/runtime/packs.ts:34-40 | a pax record reads back as its key and value, whatever bytes the value holds |
| TarArchive.RecordStatesItsLength | scripts/runtime/packs.ts:36-39 | a pax record begins with its own byte length |
| TarArchive.ReadEmitted | scripts/runtime/packs.ts:27-62 | any list of entries is read back exactly: names, types, modes, links, contents |
| ArchiveTree.PaxFor | scripts/runtime/packs.ts:34-40 | one pass of the pax loop yields the record of a value over 100 bytes and nothing otherwise |
| ArchiveTree.Archiver.Write | scripts/runtime/packs.ts:33-54 | one entry emits its extended header, its header and its padded data, numbered by the shared serial |
| ArchiveTree.Archiver.Visit | scripts/runtime/packs.ts:27-58 | the recursive generator emits the sorted pre-order list and fails exactly on unsupported file types |
| ArchiveTree.WriteArchive | scripts/runtime/packs.ts:25-64 | computes the specified archive before compression, whatever order directories are listed in; what that archive lists is ArchiveListing.ArchiveShowsTree |
| ArchiveTree.ArchiveRoundTrip | scripts/runtime/packs.ts:25-64 | for every clean tree reading the archive recovers the entries written, one by one, and the archive is a whole number of blocks |
| ArchiveListing.ArchiveShowsTree | scripts/runtime/packs.ts:25-64 | the recovered list has an entry for every path that starts at a given path and leads through nested directories to a node, as often as the path is given, and no other; each has the joined path with slashes, the type, mode, link and data of its node; parents come before children and siblings sorted |
| ArchiveListing.ArchiveFails | scripts/runtime/packs.ts:25-64 | archiving fails exactly when a given path is missing or an unsupported file type lies at or below one |
| ArchiveTree.RecoveredNamesDecode | scripts/runtime/packs.ts:30-31 | recovered names and targets decode to the original strings |
| ArchiveTree.ArchiveForgetsPathOrder | scripts/runtime/packs.ts:59-62 | archives are reproducible: the order of the given paths does not matter |
| SessionTransitions.NativeAgentConnection.OnSessionReply | apps/tui/src/native-agent-connection.ts:3025-3057 | what a transition does with the session it was given, up to its next await |
| SessionTransitions.NativeAgentConnection.OnUnsubscribed | apps/tui/src/native-agent-connection.ts:925-935 | what it does once the previous subscription is gone, or its request failed |
| SessionTransitions.NativeAgentConnection.OnCreated | apps/tui/src/native-agent-connection.ts:940-977 | what it does with the created subscription: install it, or hand it back when stale |
| SessionTransitions.StaleNeverInstalls | apps/tui/src/native-agent-connection.ts:951-960 | only the newest transition ever installs a subscription |
| SessionTransitions.NoLeakOverRuns | apps/tui/src/native-agent-connection.ts:916-961 | over every interleaving each subscription obtained is the current one or has had an unsubscribe issued |
| SessionTransitions.QuiescentSubscription | apps/tui/src/native-agent-connection.ts:3022-3144 | with nothing suspended exactly the current subscription is live, and it was created for the current session |
| SessionTransitions.NewestTransitionWins | apps/tui/src/native-agent-connection.ts:3057-3064 | when the newest transition reports success, the connection holds what that transition created; TransitionOutcomes.OutcomesExact says when it does |
| TransitionOutcomes.OutcomesExact | apps/tui/src/native-agent-connection.ts:3022-3144 | over every interleaving a transition is done if and only if its refresh came while it was the newest (and then its reply named a session and no request of it failed), cancelled if and only if it was resumed after another began or its reply named no session, failed if and only if a request of it failed |
| TransitionOutcomes.SessionIs | apps/tui/src/native-agent-connection.ts:3025-3057 | over every run the session is the one that the last reply to a then newest transition named |
| TransitionOutcomes.NewestDone | apps/tui/src/native-agent-connection.ts:916-961 | when the newest transition is done, the session is the one its reply named and the subscription the one created for it |
| TransitionOutcomes.UndisturbedTransition | apps/tui/src/native-agent-connection.ts:3022-3144 | from every reachable state a transition that nothing disturbs can take each of its steps and ends done, in the replied session, with its own subscription, the previous one unsubscribed |
| SessionTransitions.ForeignSnapshotSplitsSession | apps/tui/src/native-agent-connection.ts:677-681 | a snapshot naming another session would separate subscription and session |
| RequestCorrelation.ServerClientCore.CompleteWait | crates/client/src/client_core.rs:306-330 | how a request settles once its wait is over, and what it cleans up |
| RequestCorrelation.ServerClientCore.DeliverPendingClientResponse | crates/client/src/client_core.rs:1163-1176 | a response goes to the waiter of its id, once, or nowhere |
| RequestCorrelation.ServerClientCore.FinishReader | crates/client/src/client_core.rs:1042-1055 | draining empties the table, counts it, and closes every waiting channel |
| RequestCorrelation.SettledOnce | crates/client/src/client_core.rs:285-337 | a settled request stays settled the same way over every continuation |
| RequestCorrelation.AnsweredWithOwnId | crates/client/src/client_core.rs:1031-1034 | over every history a request is answered only by a response carrying its own id |
| RequestCorrelation.PendingIsUnsettled | crates/client/src/client_core.rs:295-330 | the table holds every waiting request under its own id and never one that was answered or settled |
| RequestCorrelation.LateResponseReachesNobody | crates/client/src/client_core.rs:1163-1176 | a response to a request that no longer waits changes no request |
| RequestCorrelation.ReaderShutdownReleases | crates/client/src/client_core.rs:1042-1055 | stopping the reader releases every waiting request and no other |
| RequestOutcomes.SettlesExactly | crates/client/src/client_core.rs:285-337 | over every run a request settles as answered with a body if and only if the first event to end its wait was a response to its id with that body, as timed out if and only if it expired first, as closed if and only if the reader drained first, as unsent if and only if its send failed |
| RequestOutcomes.DecidedCanWake | crates/client/src/client_core.rs:306-330 | a request whose wait is over can always be resumed and then settles with that outcome |
| ReverseRequests.ReverseRequestClient.HandleClientRequest | crates/client/src/client_core.rs:1108-1160 | an inbound request is registered, rejected at once, or queued for an error reply |
| ReverseRequests.ReverseRequestClient.HandleApprovalRequest | crates/client/src/native_approval.rs:19-34 | registration under the approval's key, replacing an older request of that key |
| ReverseRequests.ReverseRequestClient.ApprovalRespond | crates/client/src/client_core.rs:734-740 | a response takes the registration out and answers its request, if there is one |
| ReverseRequests.ReverseRequestClient.RequestUserInputRespond | crates/client/src/client_core.rs:742-763 | the same for questions |
| ReverseRequests.ReverseRequestClient.DiscardApprovalRequest | crates/client/src/native_approval.rs:58-66 | completion elsewhere drops the registration |
| ReverseRequests.AnsweredAtMostOnce | crates/client/src/client_core.rs:1002-1160 | if ids are not reused no inbound request is answered twice, and a user's answer goes to the request that asked under that key |
| ReverseRequests.EveryRequestInOnePlace | crates/client/src/client_core.rs:1042-1160 | each inbound request is at any time exactly one of registered, queued, answered or dropped |
| ReverseOutcomes.ApprovalHeld | crates/client/src/native_approval.rs:19-66 | over every run a request is registered under an approval's key exactly when it asked under it and has since been neither replaced, answered, completed elsewhere nor cleared |
| ReverseOutcomes.InputHeld | crates/client/src/client_core.rs:742-763 | the same for questions |
| ReverseOutcomes.WrittenExactly | crates/client/src/client_core.rs:734-763 | what each event writes over every run: the user's answer to the request that holds the key, an error to a call with an unusable key or an unknown method, and nothing else or after the writer closed |
| ReverseOutcomes.AnswerIsWritten | crates/client/src/native_approval.rs:36-56 | while the writer is open, answering a request that still holds its key writes exactly the success response to that request |
| ReverseOutcomes.ErrorsExplained | crates/client/src/client_core.rs:1108-1160 | an error is queued or written only for a call with an unusable key or an unknown method |
| ReverseOutcomes.TasksExactly | crates/client/src/client_core.rs:1108-1160 | spawned error replies and discards are queued exactly as often as they were spawned and have not run |
| ReverseOutcomes.DroppedExactly | crates/client/src/client_core.rs:1042-1160 | over every run a request is dropped exactly if it was replaced under its key, discarded after completing elsewhere, cleared when the reader stopped, or answered after the writer closed |
| ReverseRequests.ReusedIdAnsweredTwice | crates/client/src/client_core.rs:1108-1160 | with a reused id the claim fails |
| StdioJsonRpc.StdioJsonRpc.PushChunk | apps/tui/src/stdio-jsonrpc.ts:30-38 | the loop over the buffer handles the complete lines up to the first that throws and keeps the rest; it throws exactly when a line does |
| StdioJsonRpc.StdioJsonRpc.HandleIncomingLine | apps/tui/src/stdio-jsonrpc.ts:40-98 | a response settles the pending request of its id and nothing else does; which lines throw, and with what left undone |
| StdioJsonRpc.ChunkingIsInvisible | apps/tui/src/stdio-jsonrpc.ts:30-98 | all cuts of a stream into chunks leave the same state if and only if no line throws that another complete line follows |
| StdioJsonRpc.NullLineHidesResponse | apps/tui/src/stdio-jsonrpc.ts:44-51 | a null line before a response: in one chunk the response is not handled, in two it settles its request |
| StdioJsonRpc.NothingLost | apps/tui/src/stdio-jsonrpc.ts:30-38 | whatever throws, the lines handed on and the buffer together are the stream, in order |
| StdioJsonRpc.StreamIsFramed | apps/tui/src/stdio-jsonrpc.ts:30-38 | the lines handed on are a prefix of the newline-terminated segments of the stream, and all of them with a newline-free remainder when no line throws early |
| StdioJsonRpc.SettledByFirstResponse | apps/tui/src/stdio-jsonrpc.ts:81-97 | without early throws, over every cut, a pending request settles with the first response carrying its id; one whose error cannot be reported is dropped and never settles |
| StdioJsonRpc.IdsAreNotReused | apps/tui/src/stdio-jsonrpc.ts:110-125 | over every sequence of requests and chunks the ids issued are increasing and below the next one, and only issued ids are pending or settled |
| StdioJsonRpc.SentWaits | apps/tui/src/stdio-jsonrpc.ts:110-125 | after any such sequence a new request gets an id never issued before and waits unsettled under it |
| ConfigMerge.MergeTomlValues | crates/config/src/app.rs:1023-1051 | the in-place table merge, entries in any order, computes the tree merge; the method stands for the merge by value and for the one by reference, which clones what it inserts and is otherwise the same code |
| ConfigMerge.MergeJsonValue | crates/core/src/provider_request.rs:47-60 | inserting null first and merging into it computes the same tree merge |
| ConfigMerge.MergeModelRequestBody | crates/core/src/provider_request.rs:13-26 | turn fields over defaults, either of them absent |
| ConfigMerge.MergeSetting | crates/config/src/app.rs:1023-1051 | for all shapes, a setting of the merge is the overlay's where the overlay decides the path and the base's elsewhere |
| ConfigMerge.MergeTables | crates/config/src/app.rs:1023-1051 | a path of the merge holds a table, an empty one included, exactly where the overlay deciding the path, or else the base, has one |
| ConfigMerge.SameEverywhere | crates/config/src/app.rs:1023-1051 | settings and tables together determine a value, so the two laws fix the merge |
| ConfigMerge.HighestDefiningWins | crates/config/src/app.rs:824-826 | where no layer disputes the shape, a setting is that of the highest layer defining it |
| ConfigMerge.MergeIdempotent | crates/config/src/app.rs:1001-1021 | merging a section into its own copy changes nothing |
| ConfigMerge.PermissionIsAUnit | crates/config/src/app.rs:1011-1021 | the permission section is replaced whole and everything beside it is merged |
| ConfigMerge.LoadLayers | crates/config/src/app.rs:823-945 | the loaded value: outside the permission section each setting is the command line's, else the project's, else the user's, else the default; the section is that of the first of them supplying one |
| ConfigMerge.LoadedConfig | crates/config/src/app.rs:1001-1021 | the loaded permission section is exactly that of the highest layer supplying one; the rest is the plain layered merge |
| ConfigMerge.LoadedSetting | crates/config/src/app.rs:823-945 | a loaded setting outside that section is that of the highest layer deciding its path |
| AgentRoster.Traverse | apps/tui/src/native-agents-view-bridge.ts:288-341 | the worklist ends on every graph and yields each reachable session exactly once and nothing else, in breadth-first order, each under the listing that named it first |
| AgentRoster.FetchAgentRosterSummaries | apps/tui/src/native-agents-view-bridge.ts:284-354 | the roster with its second pass: the same rows in the same order, and a row shows running children exactly when a child of it is listed as working |
| AgentRoster.FirstsExact | apps/tui/src/native-agents-view-bridge.ts:299-334 | the items whose sessions get rows are exactly those that name a session no earlier item names, in order |
| AgentRoster.ChildrenAreListed | apps/tui/src/native-agents-view-bridge.ts:318-351 | every child of a listed session is listed, so none is overlooked by the second pass |

## Left out

- RolloutText.ReadRefinesFullRead: assumes of each complete line what `Faithful` says (facts of the turn and snapshots are what the accelerator reads off them and pass the prefilter; what passes the prefilter parses), because JSON decoding itself is a parameter. Any other line may declare anything.
- RolloutText.ReadIsFastRead: is about journals whose checkpoints are compact; `ReadRefinesFullRead` and `HarmlessRead` cover the others.
- ImitatedCheckpoint.MimicHidesCheckpoint: the lines are reduced to the members that matter; the other members of an item carry ids, numbers and timestamps.
- RolloutText.CrashCut: assumes that the parser reports a proper prefix of a line as a truncated tail; text is characters, so cuts inside a multi-byte character are not modelled, nor is the stripping of a carriage return.
- JsonScanner.IsBalancedJsonLine: counts the depth in unbounded integers; `DepthBound` shows where this agrees with 32 bits.
- ToolJournal.RolloutToolJournal.Commit: appending a line either happens and is reported or does neither; an append that fails after reaching the disk is not modelled.
- ToolJournal.AcknowledgedFactsSurvive: the checkpoint flag is excepted, because it can be lost; the exact condition is `CheckpointVouchedAfterCommit`. Runs in which an object commits behind another's back, or loads a file in which an imitation hides a checkpoint, are excluded, because they lose facts: `TwoFactWritersDiverge`, `TwoRecoveryWritersBreakRead`, `ImitationHidesAcknowledged`.
- TarHeader.WriteHeader: a text over 100 bytes is cut between bytes, not between characters; no name or link that long is ever passed.
- ArchiveTree.ArchiveRoundTrip: requires NUL-free names, streams of the reported size, and sizes and extended headers below 8^11 bytes, which is what the format can carry.
- SessionTransitions.QuiescentSubscription: assumes that the server never reuses a subscription id and answers a subscription with snapshots of the session it was created for; `refreshSessionSnapshot` and `updateSessionMetadata`, which apply their replies without a generation check, are not part of the model.
- StdioJsonRpc.StdioJsonRpc.PushChunk: an exception is reported to the caller, who may go on with the next chunk; what the process does with it is not modelled. Notification and request handlers catch their own.
- RequestCorrelation.AnsweredWithOwnId: histories have fewer than 2^64 requests, after which the 64-bit counter would repeat ids.
- AgentRoster.FetchAgentRosterSummaries: requires a fixed server snapshot in which reading a session by id returns that session.
- Rows of the roster keep the id, the activity, the parent and the running-children flag; the other columns are copied field by field.
- The pagination of `session/list`, subscription cursors, replay and acknowledgement, streaming state, message lists and rendering.
- ReverseOutcomes.AnswerIsWritten: the decision and answers inside a reply come from the caller of that very response, converted variant by variant without looking at any state; the model keeps the id, the method and the key.
- Decoding of response bodies, error texts, notification forwarding and the writer's transport.
- Gzip, hashing, file and process work, and the assembly of the download index.
- Provider and catalog overlays, migrations, validation and the typed configuration that is decoded from the merged tree.
