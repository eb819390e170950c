# Concierge: verified models of its custody and recovery code

Dafny 4.11 models of the parts of Concierge whose mistakes lose work: the execution host that keeps
custody of an agent process, the move of the live ledger between filesystems, the drain gates and the
activation check of an update, the speech kernels, the owner's at-most-once client, and the closing of
a run's browsers. `dafny verify dfyconfig.toml` checks everything.

- **Execution host** (`Lines`, `Journal`, `HostState`, `HostReplay`, `HostCommands`, `HostSteps`,
  `HostCustody`, `HostFencing`, `HostReplies`, `HostRuns`, `HostPipes`, `ExecutionHost`, `HostTheorems`,
  `HostAnswers`, `HostAttach`, `HostActs`). The class
  `ExecutionHost` holds the program's variables and runs its code: partial writes inside `WriteHead`,
  publication inside `FlushJournal`, the replay loops, the commands. Each method is proved equal to a
  function of the state machine `HostState`, whose events are the synchronous segments between two
  awaits or callbacks, with an arbitrary amount of disk space at every write. `HostRuns` proves that
  every segment keeps one invariant; `HostTheorems` draws the promises from it, for every run.
- **Ledger relocation** (`Filesystem`, `Relocation`). Names, hard links and symbolic links, SQLite
  files with a main file, a write-ahead log and a writer lock, and any number of other processes that
  act between any two statements of the mover, which may itself crash at each of those points; what
  they do, and what fails, is an argument of the run.
- **Drain gates** (`DrainGate`, `GateCommands`, `CaptureDrain`). Every SQL statement is one act.
  `DrainGate` proves theorems about every interleaving of legal acts, `GateCommands` about every run of
  commands as atomic steps. `CaptureDrain` runs each command statement by statement, lets other
  processes act in between, and proves that it issues only legal acts, and that with nobody in between
  it is such an atomic step.
- **Host protocols** (`HostProtocols`). The activation check, and every chain of activations,
  successes and rollbacks, with hosts started and released at any point.
- **Speech** (`Parakeet`, `LiveSegments`), **client** (`Resend`), **browsers** (`ProcessTree`).

Two documented promises do not hold of the code as they are written. `docs/architecture/EXECUTION-HOST.md`
line 65 says that a repeated `submit` id returns the first receipt and never writes again. A submit
refused because frames wait for the disk is answered `written: false` and keeps no receipt, so its id
can be submitted again, written, and answered `written: true` (`HostAnswers.RefusedThenWritten` is such
a run from the launch on). The first answer stands in every later run exactly when no frame waited at the
first submit (`HostAnswers.FirstAnswerStandsExactly`), and the refused line can reach stdin exactly when
stdin is open (`HostAnswers.RefusedLineReachesStdinExactly`). The report `nothing was sent` of the client
speaks of its last attempt only, and is false for some resent requests (`Resend.NothingSentExactly`).

## Model

| member | source | states |
|---|---|---|
| `Lines.SplitJoins` | bot/scripts/execution-host.ts:123-127 | cutting at newlines loses and invents nothing, and no line holds a newline |
| `Lines.SplitUnique` | bot/scripts/execution-host.ts:125-126 | the cut is the only way to read a text as newline-free lines and a newline-free rest |
| `Lines.SplitResumes` | bot/scripts/execution-host.ts:123-136 | going on from the kept rest alone gives the cut of the whole text, wherever the text was divided |
| `Lines.ReadChunks` | bot/scripts/execution-host.ts:241-253 | reading any chunks gives the one-shot split of their concatenation |
| `Lines.IndexOfNewline` | bot/scripts/execution-host.ts:378 | the first newline, or none |
| `Lines.SocketChunk` | bot/scripts/execution-host.ts:374-385 | one chunk: destroyed exactly when the buffer passes the limit, otherwise all complete lines in order |
| `Lines.SocketParser` | bot/scripts/execution-host.ts:371-387 | a connection's commands are the one-shot split of its text while every buffered piece fits; it ends early exactly when one does not, with the lines of the chunks before it |
| `Journal.RecordKeeps` | bot/scripts/execution-host.ts:95-99 | recording a frame keeps the journal's representation |
| `Journal.FlushKeeps` | bot/scripts/execution-host.ts:72-93 | a flush cut off after any number of bytes keeps the representation, and publishes exactly the frames it made durable |
| `Journal.FlushWrites` | bot/scripts/execution-host.ts:72-93 | a flush adds exactly the next bytes owed, across frame boundaries, and empties the queue exactly when all of them fit |
| `Journal.ReadsPersisted` | bot/scripts/execution-host.ts:241-253 | at any moment the file reads back as exactly the persisted frames |
| `Journal.CrashReadsPrefix` | bot/scripts/execution-host.ts:241-253 | cut off at any byte, the file reads back as some first frames, none torn, skipped or invented |
| `ExecutionHost.ExecutionHost.Publish` | bot/scripts/execution-host.ts:87 | every listener gets the frame |
| `ExecutionHost.ExecutionHost.WriteHead` | bot/scripts/execution-host.ts:76-84 | pieces of any size end where one write of all the room would |
| `ExecutionHost.ExecutionHost.PersistFirst` | bot/scripts/execution-host.ts:74-87 | a frame leaves the queue and is published only when whole |
| `ExecutionHost.ExecutionHost.FlushJournal` | bot/scripts/execution-host.ts:72-93 | the nested loops, publishing as they go, equal one flush and one publication |
| `ExecutionHost.ExecutionHost.Append` | bot/scripts/execution-host.ts:95-99 | the next sequence number, queued and flushed |
| `ExecutionHost.ExecutionHost.OnData` | bot/scripts/execution-host.ts:123-128 | one frame for each complete line, the rest kept |
| `ExecutionHost.ExecutionHost.ParseLines` | bot/scripts/execution-host.ts:248-251 | blank and torn lines are skipped |
| `ExecutionHost.ExecutionHost.DurableFrames` | bot/scripts/execution-host.ts:241-253 | the frames of a fixed prefix of the file, whatever the chunk sizes |
| `ExecutionHost.ExecutionHost.GoLive` | bot/scripts/execution-host.ts:305-309 | the kept frames are delivered as part of the switch to live |
| `ExecutionHost.ExecutionHost.ReplayTurn` | bot/scripts/execution-host.ts:295-304 | one turn of the two replay passes, cut short once fenced or closed |
| `ExecutionHost.ExecutionHost.ReplayFails` | bot/scripts/execution-host.ts:305-309 | a read error ends the replay through the same switch |
| `ExecutionHost.ExecutionHost.constructor` | bot/scripts/execution-host.ts:102-198 | the program up to its first await |
| `ExecutionHost.ExecutionHost.Launch` | bot/scripts/execution-host.ts:102-198 | its three frames, the pending receipt, and whether the opening input may go |
| `ExecutionHost.ExecutionHost.Handle` | bot/scripts/execution-host.ts:262-406 | every entry of the event loop is one step of the state machine |
| `ExecutionHost.ExecutionHost.HandleAll` | bot/scripts/execution-host.ts:262-406 | every run of the program is a run of the state machine |
| `HostReplay.StepReplay` | bot/scripts/execution-host.ts:265-312 | every segment keeps what each connection has received, is owed and is kept back for |
| `HostSteps.NeutralEvent` | bot/scripts/execution-host.ts:72-399 | every event but a submit, a pipe callback and the opening's turn journals exactly the frames listed for it |
| `HostSteps.StepLines` | bot/scripts/execution-host.ts:185-200 | every segment keeps inputs, outcomes, pending writes, stdin and receipts matched |
| `HostRuns.StepHolds` | bot/scripts/execution-host.ts:72-399 | every segment keeps the whole invariant and undoes nothing |
| `HostRuns.StartHolds` | bot/scripts/execution-host.ts:102-198 | the invariant holds when the program first waits |
| `HostRuns.RunHolds` | bot/scripts/execution-host.ts:72-399 | and therefore after every sequence of events |
| `HostTheorems.ReachableExactly` | bot/scripts/execution-host.ts:72-399 | the reachable states of the theorems below are exactly the ends of runs |
| `HostTheorems.JournalAlwaysReadable` | bot/scripts/execution-host.ts:58-99 | after any run the file is frames 1..persisted whole and the torn start of the next; after a crash at any byte it reads as frames 1..p |
| `HostTheorems.PublishedOnlyDurable` | bot/scripts/execution-host.ts:63-87 | no connection was ever sent a frame that is not readable from the disk |
| `HostAttach.AttachReceives` | bot/scripts/execution-host.ts:265-312 | after an attach command the connection's frames are, in every later run, consecutive from exactly the one the command asked for (from the first if it asked for none; from the next durable one if it asked beyond that), without gap, duplicate or reorder |
| `HostAttach.AttachReceivesAll` | bot/scripts/execution-host.ts:290-312 | and all durable ones, once its replay has had twice as many turns as frames were durable, and two, if it was neither closed nor fenced |
| `HostAttach.FencedReceivesNothing` | bot/scripts/execution-host.ts:279-304 | a fenced or closed connection is sent no frame, live or replayed, until it attaches again |
| `HostAttach.AttachAnswers` | bot/scripts/execution-host.ts:266-289 | an attach tells the connection it fences and no other, answers its own, and changes only who is attached and the listeners |
| `HostAttach.AttachedExactly` | bot/scripts/execution-host.ts:266-288 | after any run a connection is attached if and only if it took the host and has neither closed nor been fenced since; so a fenced connection's close changes nothing for the newer one |
| `HostTheorems.ConnectionReceivesConsecutiveFrames` | bot/scripts/execution-host.ts:271-312 | in any reachable state, a sole attachment's stream starts at the frame it fixed and has no gap, duplicate or reorder, and everything durable once its replay is over |
| `HostTheorems.FirstFrameReceived` | bot/scripts/execution-host.ts:271-303 | its first frame is the one it fixed exactly when that was at most the next durable one |
| `HostTheorems.OutcomePrecedesReplayedInput` | bot/scripts/execution-host.ts:293-304 | a replayed input comes after its outcome, if that was durable at the attach |
| `HostTheorems.EachIdActsAtMostOnce` | bot/scripts/execution-host.ts:317-344 | one input, one outcome, one stdin line and one signal for an id, from any number of coordinators |
| `HostActs.OneFramePerId` | bot/scripts/execution-host.ts:316-366 | over all commands together, an id has at most one frame in the journal: an input, a close, a signal or a release |
| `HostActs.RepeatsAreAnswered` | bot/scripts/execution-host.ts:317-319 | a command repeated at any later time is answered with its id's receipt, the first or what it settled to, and does nothing else |
| `HostTheorems.StdinIsWriteAhead` | bot/scripts/execution-host.ts:322-334 | a line in stdin has its input frame in the journal file, and submitted lines are in journal order |
| `HostActs.StdinReadsBack` | bot/scripts/execution-host.ts:185-191 | what the provider reads, cut at newlines, is exactly the lines handed over |
| `HostActs.PipeDecides` | bot/scripts/execution-host.ts:334-343 | a write settles as written exactly when the pipe took it, and its coordinator is told |
| `HostTheorems.ReceiptsTellTheTruth` | bot/scripts/execution-host.ts:326-342 | written means stdin has the line; not recorded or stdin closed means it never will, even after the disk recovers |
| `HostTheorems.ReceiptsSettleOnce` | bot/scripts/execution-host.ts:317-343 | a kept receipt goes from pending to one final one, the same in every answer that sends a kept receipt; the refusal of line 324, which keeps none, is counted in `HostAnswers.FirstAnswerStandsExactly` |
| `HostTheorems.JournalAgreesWithReceipts` | bot/scripts/execution-host.ts:326-342 | the journal's outcome of an id is its receipt's, so never both written and write-failed |
| `HostAnswers.FirstAnswerStandsExactly` | bot/scripts/execution-host.ts:316-344 | counting that refusal as final: the first final answer to a new id's one-line submit is the answer in every later run, if and only if no frame waited for the disk at that submit |
| `HostAnswers.RefusedLineReachesStdinExactly` | bot/scripts/execution-host.ts:322-334 | a line answered as not written because frames waited can be written in some later run if and only if stdin is open |
| `HostAnswers.RefusedThenWritten` | bot/scripts/execution-host.ts:322-344 | the run from a launch on a full disk in which one id is answered as not written, then written, then answered as written |
| `HostActs.SubmitActsExactly` | bot/scripts/execution-host.ts:322-344 | with nothing waiting, a one-line submit is handed over if and only if the disk takes its whole frame, and is otherwise answered as not written, to its sender |
| `HostAnswers.OpeningFirst` | bot/scripts/execution-host.ts:198 | if the journal could be written at launch, the opening line is the first line in stdin, whatever happens after its turn |
| `HostActs.OpeningGoesOut` | bot/scripts/execution-host.ts:193-200 | whatever happened before, an opening input not yet handed over goes out at its next turn once nothing waits for the disk |
| `HostTheorems.UnattachedCommandsDoNothing` | bot/scripts/execution-host.ts:315 | a command from a connection that is not attached adds at most one answer, to that connection, and changes nothing else |
| `HostTheorems.CommandsComeInBlocks` | bot/scripts/execution-host.ts:266-270 | the frames of commands, submits, closes, signals and releases alike, fall into one contiguous block for each attachment, journaled while it was the newest |
| `HostTheorems.EveryCommandHasItsAuthor` | bot/scripts/execution-host.ts:315-366 | after any run exactly those frames belong to such a block, so every one of them was caused by an attached connection |
| `HostTheorems.OutputIgnoresChunks` | bot/scripts/execution-host.ts:121-139 | the journaled output depends only on the provider's text, and is its one-shot split |
| `HostActs.RunOutput` | bot/scripts/execution-host.ts:121-139 | the journaled output of a run is every complete line the provider wrote up to its exit, and at the exit the unfinished one; the first exit counts |
| `HostTheorems.ReleasedHostIsOnDisk` | bot/scripts/execution-host.ts:359-366 | after a release the exit and every line of output are readable from the disk |
| `HostActs.ReleaseActsExactly` | bot/scripts/execution-host.ts:359-366 | a release with a new id is granted if and only if the exit is recorded and nothing waits for the disk |
| `HostActs.SignalActsExactly` | bot/scripts/execution-host.ts:351-358 | a signal with a new id is sent if and only if no exit is recorded, and its receipt tells whether it was delivered |
| `HostActs.CloseActs` | bot/scripts/execution-host.ts:345-350 | a close with a new id is journaled, closes stdin, and is answered as done, to its sender |
| `HostPipes.SignalOver` | bot/scripts/execution-host.ts:351-358 | a signal is sent only before the recorded exit, and with its own frame in the journal |
| `HostPipes.OverStaysOver` | bot/scripts/execution-host.ts:133-136 | in every later run a recorded exit stays, nothing is signalled after it, and a closed stdin takes no line |
| `HostPipes.NothingAfterClose` | bot/scripts/execution-host.ts:345-350 | a close that acts is journaled, and no line ever follows it into stdin |
| `HostTheorems.RunProgram` | bot/scripts/execution-host.ts:72-399 | the program, run through any events, is in a reachable state, and its file reads as its persisted frames |
| `Filesystem.RunKeepsWhole` | bot/scripts/relocate-ledger.ts:32-82 | the others lose nothing while they can only commit to the path's file, or wait for the mover's lock |
| `Filesystem.RunKeepsFrozen` | bot/scripts/relocate-ledger.ts:45-46 | a file with an empty log, under the mover's lock, cannot change |
| `Filesystem.SafeIffClean` | bot/scripts/relocate-ledger.ts:66-77 | no commit can ever be lost exactly when nobody has another file than the path's open |
| `Filesystem.StrayCommit` | bot/scripts/relocate-ledger.ts:66-77 | the run that loses a commit through one forgotten holder |
| `Relocation.Mover.LockEmpty` | bot/scripts/relocate-ledger.ts:39-49 | after at most 21 tries the lock is held over an empty log, or the file is as it was |
| `Relocation.Mover.CopyOut` | bot/scripts/relocate-ledger.ts:51-62 | only a copy equal to the original, unopened by anyone, gets the destination's name |
| `Relocation.Mover.PublishLink` | bot/scripts/relocate-ledger.ts:142-147 | one rename swaps the path; a failure before it leaves the path as it was |
| `Relocation.Mover.PublishBack` | bot/scripts/relocate-ledger.ts:117 | one rename puts the copy where the link was |
| `Relocation.Mover.AwaitRelease` | bot/scripts/relocate-ledger.ts:66-77 | the wait ends after at most 61 rounds; unless the mover died, nobody else has the retired file open then, and it never changed |
| `Relocation.Mover.FencedCopyAndSwap` | bot/scripts/relocate-ledger.ts:32-82 | somebody else holding the file: left in place, the disk untouched, and left in place only then; nobody, and nothing going wrong: moved. However it ends every commit is at the path; refused or failed, the path is unchanged; moved, no commit can ever be lost, and crashed after the swap exactly if nobody kept the retired file; after the swap the original is kept, with every transaction committed before the run |
| `Relocation.Mover.SetAside` | bot/scripts/relocate-ledger.ts:130-135 | a leftover at this name is under its stale name afterwards, every other name as it was, and the name is free |
| `Relocation.Mover.Forward` | bot/scripts/relocate-ledger.ts:125-151 | the move, with the same conclusions: a link is left alone, a plain file nobody holds is moved if nothing goes wrong, and left in place only for a holder or for want of space |
| `Relocation.Mover.Back` | bot/scripts/relocate-ledger.ts:110-119 | the rollback, likewise: a plain file is left alone, want of space fails, a held target is left, and otherwise it moves back if nothing goes wrong |
| `Relocation.Mover.Updates` | bot/scripts/relocate-ledger.ts:110-151 | any chain of moves and rollbacks, going on after crashes too, keeps every commit at the path, those from before the chain first; it can go on, and no commit can be lost, exactly while nobody has a retired file open |
| `DrainGate.TokensKeepTheirOwner` | bot/scripts/capture-drain-status.ts:164-198 | a token never changes owner |
| `DrainGate.LiveGateNeedsItsToken` | bot/scripts/capture-drain-status.ts:49-54 | statement by statement, a living owner's gate goes only by a release given its token |
| `DrainGate.HeldGateEndsExactly` | bot/scripts/capture-drain-status.ts:98-142 | the four statements that end a held gate, and that all but release need its owner dead |
| `DrainGate.HeldGateStandsExactly` | bot/scripts/capture-drain-status.ts:49-54 | over any run of statements without recovery, adoption or its token's release, a held gate stands throughout if and only if no stale deletion meets it |
| `GateCommands.RunsAreAtomic` | bot/scripts/capture-drain-status.ts:98-201 | every run of atomic commands, deliveries and deaths is a legal run in which no stale deletion meets a held gate |
| `GateCommands.HeldTurn` | bot/scripts/capture-drain-status.ts:98-201 | one atomic command on a held gate: only recovery, its token's release or an adopting claim ends it, the first and last only once its owner is dead; otherwise every claim and check is refused |
| `GateCommands.HeldUntilEnded` | bot/scripts/capture-drain-status.ts:98-201 | in any such run whatever a held gate stands, and every claim and check is refused, until the first command of those three kinds |
| `GateCommands.HeldGateOutlivesItsOwner` | bot/scripts/capture-drain-status.ts:49-54 | so without them it stands, and refuses, through the whole run, whoever has died |
| `DrainGate.HeldGateCanBeLost` | bot/scripts/capture-drain-status.ts:49-54 | a run where one does: a stale clearing that read the gate live deletes it held |
| `DrainGate.LiveOwnerKeepsItsDelivery` | bot/scripts/capture-drain-status.ts:55-90 | a delivery leaves a living owner only by that owner's own statement |
| `DrainGate.NoEventLost` | bot/scripts/capture-drain-status.ts:78-87 | no event disappears, and a delivered one is never sent again |
| `DrainGate.AttemptsAlternate` | bot/src/capture-state.ts:334-361 | takings and endings of an event alternate, so it is never in two hands |
| `DrainGate.DeliverableExactly` | bot/src/capture-state.ts:295-361 | an event can still be delivered by some run if and only if it is neither parked nor marked as sending without a recorded owner |
| `DrainGate.DrainedWhileGated` | bot/src/capture-state.ts:348-356 | nothing is sent for as long as a gate stands over a drained queue |
| `CaptureDrain.Database.ClearStaleGate` | bot/scripts/capture-drain-status.ts:49-54 | issues at most one deletion, of a gate read live whose owner was seen dead; such a gate is gone afterwards |
| `CaptureDrain.Database.RecoverRow` | bot/scripts/capture-drain-status.ts:71-87 | resets one row only while it names the dead owner, and counts that exactly |
| `CaptureDrain.Database.RecoverDeadDeliveries` | bot/scripts/capture-drain-status.ts:55-90 | every delivery whose owner was dead at the start is out of its hands; the count is the number this command reset |
| `CaptureDrain.Database.ClearAndRecover` | bot/scripts/capture-drain-status.ts:49-90 | together: a stale gate is gone, no dead owner still has what it had, and under the lock nothing is being sent exactly if only the dead were sending |
| `CaptureDrain.Database.SendingCount` | bot/scripts/capture-drain-status.ts:91-96 | zero exactly when nothing is being sent |
| `CaptureDrain.Database.Check` | bot/scripts/capture-drain-status.ts:144-157 | exit 0 means drained at one point and ungated at the end; a gate stale at the start, and what dead owners held then, is gone at the end; run atomically and with no deaths meanwhile, it exits 0 if and only if only the dead were sending and no gate but a stale one stood |
| `CaptureDrain.Database.Claim` | bot/scripts/capture-drain-status.ts:168-201 | it claims whenever, at its start, only the dead were sending and the gate, if any, was a dead owner's and live, or held and adopted; and with no deaths meanwhile only then; always an atomic claim |
| `CaptureDrain.Database.Recover` | bot/scripts/capture-drain-status.ts:117-130 | ends exactly a gate whose owner it saw dead; run atomically, `GateCommands`' recovery |
| `CaptureDrain.Database.ReleaseToken` | bot/scripts/capture-drain-status.ts:98-115 | its token's gate is gone for good, a held one spared by a live release; exit 0 exactly if it was released, or spared |
| `CaptureDrain.Database.HoldToken` | bot/scripts/capture-drain-status.ts:132-142 | holds exactly its token's gate, owner unchanged; always atomic |
| `CaptureDrain.Database.ClaimUpdate` | bot/scripts/drain-status.ts:240-257 | the update gate: claimed exactly when none stood, otherwise untouched |
| `HostProtocols.ReadsExactlyValid` | bot/scripts/drain-status.ts:47-55 | exactly the valid contracts are read, each as itself |
| `HostProtocols.ReleasesAreValid` | bot/scripts/drain-status.ts:22-41 | a release's answer yields a valid contract or a refusal; unclear answers are refused |
| `HostProtocols.LackingExactly` | bot/scripts/drain-status.ts:147 | what is lacking is what is needed and not adoptable, each once |
| `HostProtocols.CompatibleExactly` | bot/scripts/drain-status.ts:145-153 | accepted exactly when both releases adopt all they may have to take back |
| `HostProtocols.EveryHostAdoptable` | bot/scripts/drain-status.ts:121-156 | over every chain of accepted activations the running release adopts every host |
| `HostProtocols.CheckIsExact` | bot/scripts/drain-status.ts:121-156 | an activation is accepted if and only if it can never orphan a host |
| `HostProtocols.OrphaningRun` | bot/scripts/drain-status.ts:121-156 | the run in which a refused activation would orphan one |
| `HostProtocols.GapFreeCandidatePasses` | bot/scripts/retry-architecture-lint.ts:55-63 | a gap-free candidate no older than the running release always passes its half |
| `HostProtocols.GapFreeRollbackPasses` | bot/scripts/drain-status.ts:150-153 | a gap-free rollback then passes exactly when it knows the candidate's protocol |
| `Parakeet.NextCut` | bot/native/parakeet-server.cpp:73-86 | the end if the rest fits, otherwise the centre of the first quietest of the 99 frames; all reads in range |
| `Parakeet.CutUnique` | bot/native/parakeet-server.cpp:73-86 | there is one such cut |
| `Parakeet.QuieterHasLess` | bot/native/parakeet-server.cpp:80-82 | a frame with no louder sample than another has no more energy, and less if some sample is quieter |
| `Parakeet.EnergyAdds` | bot/native/parakeet-server.cpp:80-82 | energy adds up over the parts of a frame, sample by sample squared |
| `Parakeet.CutsInSilence` | bot/native/parakeet-server.cpp:73-86 | where a candidate frame is silent the cut is the centre of the first such |
| `Parakeet.CutBounds` | bot/native/parakeet-server.cpp:34-36 | a piece is at most 45 seconds, and longer than 40 if it is not the last |
| `Parakeet.CuttingSteps` | bot/native/parakeet-server.cpp:136-143 | every piece keeps those bounds |
| `Parakeet.CuttingBounds` | bot/native/parakeet-server.cpp:136-143 | the number of pieces is bounded from both sides |
| `Parakeet.PiecesPartition` | bot/native/parakeet-server.cpp:136-143 | the pieces in order are the recording |
| `Parakeet.Transcribe` | bot/native/parakeet-server.cpp:133-143 | the chunk loop ends, covers the recording unless a piece fails, and joins the words of the pieces before |
| `Parakeet.AppendText` | bot/native/parakeet-server.cpp:88-95 | what lies between the first and the last non-blank, after one space |
| `Parakeet.AppendAll` | bot/native/parakeet-server.cpp:139-140 | repeated appending is joining the non-blank trimmed segments with single spaces |
| `Parakeet.JsonEscape` | bot/native/parakeet-server.cpp:43-59 | the escaping loop |
| `Parakeet.EscapeReadsBack` | bot/native/parakeet-server.cpp:43-59 | a JSON reader (section 7 of RFC 8259) gets the text back, whatever follows its closing quote |
| `Parakeet.EscapePrintable` | bot/native/parakeet-server.cpp:53-55 | no control character is printed raw |
| `Parakeet.EscapeInjective` | bot/native/parakeet-server.cpp:43-59 | different texts print differently |
| `Parakeet.ResponseIsOneLine` | bot/native/parakeet-server.cpp:147-149 | one answer is one line |
| `Parakeet.ResponseReadsBack` | bot/native/parakeet-server.cpp:147-149 | its identifier and its words read back from their places |
| `Parakeet.NumbersReadBack` | bot/native/parakeet-server.cpp:147-149 | and its three numbers, each behind its own name |
| `LiveSegments.HearingKeepsOrder` | bot/native/apple-speech-server.swift:155-159 | hearing a word keeps the order and the separation |
| `LiveSegments.HeardExactly` | bot/native/apple-speech-server.swift:155-159 | the new word is there once more, and every older one as often as before if and only if their stretches do not overlap, words of no length included |
| `LiveSegments.ShownExactly` | bot/native/apple-speech-server.swift:161-168 | the partial text is, in order, exactly the words lying for longer after the last final segment than before its end |
| `LiveSegments.InTimeShowsAll` | bot/native/apple-speech-server.swift:148-169 | words heard one after the other are all shown until a final segment comes |
| `LiveSegments.AlwaysInOrder` | bot/native/apple-speech-server.swift:148-169 | after any run the words are sorted and none overlaps another |
| `LiveSegments.PruningInvisible` | bot/native/apple-speech-server.swift:161-168 | with final segments in order, every partial text is what it would be without pruning |
| `LiveSegments.InvisibleExactlyInOrder` | bot/native/apple-speech-server.swift:161-168 | and exactly then |
| `LiveSegments.StepBackShows` | bot/native/apple-speech-server.swift:161-168 | the run that shows any step back |
| `LiveSegments.Segments.Heard` | bot/native/apple-speech-server.swift:155-159 | the filter, append and sort |
| `LiveSegments.Segments.Partial` | bot/native/apple-speech-server.swift:164-168 | the getter prunes, and returns the text of the unpruned words |
| `LiveSegments.Segments.Drain` | bot/native/apple-speech-server.swift:248-254 | what a cursor has not seen yet; none for a cursor past the end |
| `LiveSegments.Listen` | bot/native/apple-speech-server.swift:148-169 | a run of the object reads what a track that never prunes would |
| `LiveSegments.Follow` | bot/native/apple-speech-server.swift:248-254 | a client whose cursor counts what it received gets every segment once, in order |
| `LiveSegments.Slices` | bot/native/apple-speech-server.swift:115-131 | slices concatenate back to the buffer, all full but the last |
| `Resend.RecognisedAppliedOnce` | bot/scripts/router-request-client.ts:67-72 | on every route: while the owner recognises whatever the client takes to be safe, no failures make it apply a request twice |
| `Resend.UnidentifiedAppliedOnce` | bot/scripts/router-request-client.ts:67-101 | outside the identified routes a body without an identity is applied at most once, whatever the owner knows, and sent again only after attempts that never reached it |
| `Resend.EarlierAttempts` | bot/scripts/router-request-client.ts:85-112 | all attempts before the last were failures, and of an unsafe body failures to reach the owner |
| `Resend.TriedUntil` | bot/scripts/router-request-client.ts:85-112 | a request is tried until answered or out of budget and no shorter; only an unsafe one ends at the first attempt the owner may have taken |
| `Resend.ResentAfterLossExactly` | bot/scripts/router-request-client.ts:67-72 | a first attempt whose answer was lost is followed by another, time permitting, exactly for a read, the two route families, and the two routes with their identity |
| `Resend.UnsafeAppliedOnce` | bot/scripts/router-request-client.ts:9-16 | an unsafe body is applied at most once, and never when the client says nothing was sent |
| `Resend.AppliedOnceExactly` | bot/scripts/router-request-client.ts:66-101 | at most once under all failures, exactly when unsafe, known to the owner, or never resent |
| `Resend.NothingSentExactly` | bot/scripts/router-request-client.ts:104-108 | when the report that nothing was sent can be trusted |
| `Resend.Request` | bot/scripts/router-request-client.ts:78-112 | the loop ends at the policy's last attempt and reports on it |
| `ProcessTree.OneDistance` | bot/scripts/owed-reply-stop-hook.ts:70-76 | a process has one distance from the controller |
| `ProcessTree.DistanceBound` | bot/scripts/owed-reply-stop-hook.ts:72 | no distance exceeds the size of the snapshot, so the bound cuts nothing off |
| `ProcessTree.Distance` | bot/scripts/owed-reply-stop-hook.ts:68-76 | the walk ends on every map, circles included, and finds exactly the true distance |
| `ProcessTree.SortDeepestFirst` | bot/scripts/owed-reply-stop-hook.ts:79 | the sort by depth, nothing lost |
| `ProcessTree.DeeperThanAncestors` | bot/scripts/owed-reply-stop-hook.ts:78-79 | a process is deeper than its ancestors below the controller |
| `ProcessTree.SignalTree` | bot/scripts/owed-reply-stop-hook.ts:67-81 | the controller first, then exactly its descendants, once each, each before its own ancestors |

## Left out

- Execution host, frame contents: a frame's time, `meta` and error texts, and JSON and UTF-8 themselves; the encoding is any that puts a frame on one line and parses back.
- Execution host, timers and backpressure: retries, host signals, the runner's deadline and the seven-day abandonment are events that may come at any time; pausing and resuming the provider's pipes is not modelled.
- Execution host, disk: the file only grows by what a write accepts; loss of power before the disk's own flush is not modelled.
- Execution host, sockets: destroying a socket and its close event are one step, a reply to a closed connection is still listed among the replies, and a listener is kept in the list after its connection closed (it can no longer be delivered to).
- Execution host, repeated attaches: the delivery theorems speak of connections that attached once; a journal read error during a replay marks the attachment, and they exclude it.
- Execution host, opening input: its order against submits when the journal could not be written at launch (`HostAnswers.OpeningFirst` is about the other launches).
- `HostTheorems.ReceiptsSettleOnce`: leaves out the answer of a submit refused while frames wait, which keeps no receipt; with it the property is false, and `HostAnswers.FirstAnswerStandsExactly` says exactly when it holds.
- `HostTheorems.EachIdActsAtMostOnce`: counts inputs, lines and signals; closes and releases are counted in `HostActs.OneFramePerId`, and a runner's own fence in neither.
- Relocation: the two ledgers are independent and one is modelled; a SIGKILL takes effect before the next look; holders of the log or shared-memory file are those of the ledger; calls after the swapping rename succeed; retirement of day-old originals is left out.
- `Relocation.Mover.FencedCopyAndSwap`: other processes open the ledger by its path only, not by the names the move gives its copies.
- Drain gates: the time stamps, retry times and error texts of rows; a delivery's claim identity is its owner's; the drain inspection of turns and sign-ins.
- `GateCommands.HeldGateOutlivesItsOwner`: supposes that no other process's statement comes between a command's reading of the row and its deletion, because the property fails without it (`DrainGate.HeldGateCanBeLost`, and `DrainGate.HeldGateStandsExactly` for the exact condition); the source puts only `claim` in a transaction.
- Host protocols: the process started to ask another release is an exit code and an answer; a check on a machine without a rollback release has no rollback half, as in the source.
- Parakeet: floating-point rounding, infinities and not-a-number in energies; the model is any function from samples to texts.
- LiveSegments: rounding of halved times; the sort is taken to be stable.
- `Resend.Request`: the clock and the chosen delays are arbitrary; a failure classified as never having reached the owner did not reach it.
- ProcessTree: the reading of the process listing and of a controller's environment; a signal's effect.
