# Verified model of the evm-tools streaming core

evm-tools follows an EVM chain that can be rewritten under it and turns it into a stream of
records. This project models the stateful algorithms behind that promise in Dafny and proves what
they guarantee over whole runs, and where the code as written falls short of its own comments.

Each component is written twice where the program changes state in place. A specification function
says what one step does to a value of the state, and a class with the program's fields, loops and
branches is proved to do exactly that (`Stream`, `LogScan.Scanner`, `Tracer`, `LineReader`,
`Writer`, `Poller`, `Checkpoint`, and the loops of `Extraction`, `EventDecode` and `Signature`).
The theorems are about the specification functions, over every input and every run.

| part | files |
|---|---|
| the chain follower, its reorg handling and its cursor | `Chain`, `Follower`, `Convergence`, `Rewind`, `Seams`, `Window`, `Retraction`, `Checkpoint`, `Resume`, `StartHeight`, `Stream` |
| adaptive splitting of log queries | `LogScan` |
| internal transfers from two trace formats, and the choice of trace method | `Traces`, `TraceValues`, `TraceEquivalence`, `Extraction`, `TraceBackend`, `Tracer` |
| the record transport | `Fanout`, `Delivery`, `Lines`, `LineReader`, `SinkView` |
| the rotating file sink | `FileLog`, `FileLogProofs`, `Rotation`, `Writer` |
| change detection of balances | `ChangeDetection`, `Changes`, `Reload`, `Poller` |
| ABI decoding, event signatures, decimals, deduplication keys | `Words`, `AbiDecode`, `AbiRoundTrip`, `EventDecode`, `EventRoundTrip`, `Signature`, `SignatureTypes`, `Decimal`, `Joining`, `DedupKey`, `TreeKeys`, `TickKeys`, `MarkerKeys`, `Partitions` |

`Common` holds an option type and two string helpers. `dafny verify dfyconfig.toml` checks everything.

## What the environment may do

The node, the output, the disk and the network are parameters. One poll of the follower sees one
snapshot of the chain; `Follower.Poll` carries that snapshot and the outcome of every call the poll
might make. An uninterpreted `parent` function links the snapshots, so two chains that agree at a
height agree below it. A write to an output succeeds or fails as a script says. The fan-out writer
is a set of interleaved steps, one per critical section.

The main results, in the order of the table below:

- **Convergence.** For any run of polls, whatever reorgs, failures and unreadable headers it met, the
  exact condition is proved for a successful poll that ends just past the head to leave the node's
  current block as the last emission at every height. It names the few heights that decide. A run
  whose head headers were all read, whose rewinds did not fail and whose reorgs stayed within the
  tracked window always meets it.
- **Window.** Which heights a run tracks is characterised exactly, and with it how far back a fork is found.
- **Rewinds.** After a poll that failed past its rewind, the exact condition for the next success to
  converge, whatever the chain did in between, is proved both for resuming at the height the failed
  poll returned and for the run loop, which resumes elsewhere. While the chain only grows, resuming at
  the returned height loses nothing; a second reorg can lose a block either way, and a run shows it.
- **Retraction.** For any run of polls, the exact condition is proved for a consumer that applies
  blocks and retracts by markers to end with exactly the canonical blocks.
- **Trace formats.** Per transaction, the recursive walk of a call tree and the pruned scan of a flat
  list report the same transfers. Per block they agree under an exact condition. Either way a transfer
  moves exactly the amount its hexadecimal text says.
- **Transport.** Over every interleaving each consumer sees a contiguous stretch of the records, and
  a sink sees whole lines over any number of connections. Which writes succeed, which connections take
  a record and which are dropped is characterised exactly.
- **File sink.** No torn and no lost lines for any script of disk faults whose rollbacks succeed, and
  exactly when a file is rotated, when a failure is retried and when blocking on a full disk resumes.
- **Change chain.** Replaying the change records gives the committed baselines, amounts exactly and owners
  up to the case of letters, and a reading emits a change if and only if it differs by that measure.
- **Codecs.** ABI decoding inverts the encoding of the Solidity Contract ABI Specification (section
  "Formal Specification of the Encoding"); printing and parsing of signatures and decimals invert
  each other; which logs make the decoder panic, and which records share a deduplication key, are
  characterised by if-and-only-ifs.

## Where the code and its comments differ

The model follows the code.

- `internal/stream/stream.go:521-525` says the height returned with an error is where the next poll
  resumes, but `Run` (lines 388-421) drops it. After a rewind the tracker no longer knows the
  frontier, so the reorg is not seen again: `Rewind.RetryConvergesIff`, `Rewind.SkippedForever` and,
  concretely, `Rewind.LossExample`.
- The returned height is not safe either when the chain is rewritten again before the next poll: the
  chunks a failed poll completed are not tracked (lines 528-535), so their replacement goes unseen.
  `Rewind.ResumeConvergesIff` is the exact condition and `Rewind.SecondReorgExample` a run that breaks it.
- `internal/stream/internal.go:264-288` promises to prune descendants of a failed trace, but pools the
  failed paths of all transactions of a block: `TraceEquivalence.BackendsAgreeIff`,
  `TraceEquivalence.RevertedRootPrunesBlock`, `TraceEquivalence.PooledPruningExample`.
- `docs/design.md:253-262` counts `CALLCODE` among the calls that move value; `internal/stream/internal.go:382-395`
  and `docs/design.md:392` exclude it, as does the model.
- `internal/record/key.go:27-30` calls the key encoding unambiguous, but events and internal transfers
  carry no type in it: `DedupKey.SameKeyIff` and `DedupKey.CollisionExample`.
- `internal/stream/stream.go:543-546` says progress does not depend on the best-effort head header, but
  lines 531-535 track the head only if it was read. A reorg of an untracked height goes unseen:
  `Seams.EveryConvergesIff` and, with successful polls only, `Seams.UnreadableHeaderExample`.
- `docs/design.md:267-270` has sinks retract by marker, but `internal/stream/reorg.go:92-95` caps a
  marker at the head. Blocks processed above a shortened head are in no marker's range, also after the
  head climbs back and they are replaced: `Retraction.MarkerCoversIff`, `Retraction.ShortHeadExample`.
  Nor are blocks that a poll wrote before it failed. And a marker whose poll then fails retracts
  blocks that may never be written again: `Retraction.HoleExample`. `Retraction.ConsumerExactIff` says
  when all this matters.
- `internal/record/key.go:43-45` says a later reorg over the same range has a distinct key. A tip that
  flips back and forth repeats its marker: `MarkerKeys.MarkersShareKeyIff`, `MarkerKeys.FlipExample`.
- `internal/record/key.go:10-13` calls keys unique for each class. All changes of one contract at one
  block share a key, and so do those of two balances of one name: `TickKeys.ChangeKeysIff`.
- `internal/stream/stream.go:741` says a bad log must not stall the stream, and skips a log that does
  not decode. But an offset or a length that does not fit a signed 64-bit integer, or an array too long to
  allocate, makes decoding panic: `EventDecode.LogPanicsIff`, `EventDecode.PanicExample`.
- A tracker whose fork is pinned to height 0 never emits block 0 again. `Convergence.PollConvergesIff`
  covers this case; `Convergence.Convergence` excludes it by asking, of a poll that rewinds past the
  tracked window, that heights no reorg within the depth can reach are canonical.
- `internal/filesink/writer.go:139-147` says a rollback that fails is permanent, so that a retry cannot tear
  the line. But the error is wrapped, and `Classify` still finds a full disk in it and retries:
  `Rotation.TornRetry`.
- `internal/filesink/filesink.go:276-279` promises that blocking and retrying a full disk resumes. It
  does unless the write met the full disk while rotating, after it had closed the file:
  `FileLogProofs.FullDiskRecoversIff`, `FileLogProofs.FullDiskExample`.

## Model

| member | source | states |
|---|---|---|
| Seams.RunConvergesIff | internal/stream/stream.go:467-537 | from a fresh start and after any run of polls, a successful poll that ends just past the head leaves the node's block as the last emission at every height if and only if, below the stretch it emits, the top block and the block at each seam left by the run are canonical |
| Seams.StepConvergesIff | internal/stream/stream.go:467-537 | the same for one poll, from any state that keeps the invariant |
| Seams.RunKeeps | internal/stream/stream.go:346-451 | over any run, tracked hashes were emitted, and what was last emitted has no holes and follows parent links except at the seams |
| Seams.RestartKeeps | internal/stream/stream.go:860-892 | so it does after a restart at any processed height, which starts with an empty tracker |
| Seams.EveryConvergesIff | internal/stream/stream.go:467-537 | over any run in which no rewind fails, every successful poll that ends just past the head converges if and only if each successful poll finds the top of what was emitted canonical or rewinds, and pins a fork only over canonical blocks |
| Seams.UnreadableHeaderExample | internal/stream/stream.go:531-546 | three successful polls, the second without its head header: the run ends just past the head with a stale block 2 |
| Convergence.Convergence | internal/stream/stream.go:467-537 | from a fresh start and over any run of polls whose head headers were read, whose rewinds did not fail and whose reorgs past the tracked window left what lies below it canonical, a successful poll that ends just past the head leaves the node's current block as the last emission at every height from the start |
| Convergence.RunKeepsInv | internal/stream/stream.go:346-451 | over every such run, tracked hashes were emitted, the emitted heights have no holes and follow parent links, and the frontier is tracked |
| Convergence.SuccessConverges | internal/stream/stream.go:467-537 | one successful poll of that kind keeps that invariant, and converges whenever it ends just past the head |
| Convergence.ConvergesIff | internal/stream/stream.go:467-537 | from any state whose emissions follow parent links, tracked frontier or not, a poll that ends just past the head converges if and only if a pinned fork had only canonical blocks up to it or, without a rewind, the block at the top of what was emitted is canonical |
| Convergence.PollConvergesIff | internal/stream/reorg.go:141-186 | with a tracked frontier, for a reorg of any depth, only a fork pinned to the floor of the window can go wrong, and does if and only if something emitted up to the floor was stale |
| Convergence.FailureKeepsInv | internal/stream/stream.go:381-422 | a failed poll that wrote no marker keeps the invariant, whatever it emitted before failing |
| Convergence.AgreeDown | internal/stream/reorg.go:81-122 | agreement with the node at one emitted height vouches for every emitted height below it, which is why checking the frontier alone suffices |
| Convergence.CheckMeaning | internal/stream/reorg.go:81-186 | an orphan verdict means the checked height was tracked and its hash is stale, and the marker names the old and the new hash; a fork that was found is tracked and still canonical; a pinned fork means no tracked height in the window matches |
| Convergence.CheckIff | internal/stream/reorg.go:81-186 | the verdict of the frontier check in terms of what is tracked and what the node can show: canonical if the height is not tracked or still matches, failed if its hash or, before a fork is found, a tracked header within the depth cannot be read, and orphaned otherwise |
| Convergence.DepthZeroIsCanonical | internal/stream/reorg.go:81-84 | with a depth of zero no reorg is ever reported |
| Convergence.MarkerSound | internal/stream/reorg.go:120-186 | a marker that is not pinned names an emitted, still canonical fork, and every orphaned emission up to its end lies in its range, even with a sparse tracker |
| Convergence.RewindReemits | internal/stream/stream.go:503-537 | a successful poll that rewinds writes the marker and then every canonical block past the fork up to the head, once and in order |
| Convergence.UnwrittenMarkerChangesNothing | internal/stream/reorg.go:124-138 | if the fork cannot be resolved or the marker cannot be written, tracker, height and output stay as they were |
| Window.RunTracksIff | internal/stream/reorg.go:37-72 | after any run a height is tracked if and only if some poll recorded it as its head, or it was tracked before, and every later poll spared it: no rewind went below it and no recorded head lies more than the depth above it |
| Window.StepTracksIff | internal/stream/stream.go:503-536 | one poll tracks its head if it processed it and read its header, and besides exactly the tracked heights it spares, with the hashes the node reported |
| Window.RecordedWindow | internal/stream/reorg.go:42-49 | once a poll recorded its head, no tracked height lies above it or more than the depth below it |
| Window.RecentHeadFound | internal/stream/reorg.go:141-186 | a recorded head is found again as a fork: if no poll since rewound, processing went no more than the depth past it and the node still has it, a reorg above it gives a fork at it or higher that is not pinned |
| Follower.SearchForkMeaning | internal/stream/reorg.go:145-186 | going down through the window the walk stops at the first tracked height whose block was not replaced: that is the fork, or a failure if its header cannot be read; it is exhausted if and only if there is none |
| Follower.ExtendMeaning | internal/stream/stream.go:516-536 | processing emits a contiguous stretch, a failure resumes whole chunks further on, in the chunk of the first block not emitted, and the head is tracked only when it was reached |
| Follower.ViewBlocks | internal/stream/stream.go:516-530 | emitting a stretch of blocks replaces the last emission at exactly the heights of the stretch |
| Stream.ReorgTracker.RecordHash | internal/stream/reorg.go:37-50 | an empty hash is ignored; otherwise the height is tracked and exactly the heights below the window are dropped |
| Stream.ReorgTracker.Recorded | internal/stream/reorg.go:53-59 | answers exactly for tracked heights, with the tracked hash |
| Stream.ReorgTracker.ForgetAbove | internal/stream/reorg.go:63-72 | keeps exactly the heights up to the fork |
| Stream.Stream.ResolveFork | internal/stream/reorg.go:145-186 | the loop finds the fork of the specification, or fails where it fails |
| Stream.Stream.HandleReorgIfAny | internal/stream/reorg.go:81-139 | leaves state and output alone unless the frontier is orphaned and the marker goes out; then it rewinds to just past the fork |
| Stream.Stream.ProcessRange | internal/stream/stream.go:609-621 | emits the blocks of a chunk in order up to the first that fails, and succeeds exactly if none does |
| Stream.Stream.Extend | internal/stream/stream.go:516-536 | the chunk loop emits every height to the head, and a failure returns the start of the failing chunk |
| Stream.Stream.PollOnce | internal/stream/stream.go:467-537 | one poll of the program is one poll of the specification on which the theorems rest |
| Stream.Stream.Run | internal/stream/stream.go:368-450 | the run loop keeps the old height when a poll fails and saves the cursor when the frontier moved, as the process specification says |
| Rewind.ResumeConvergesIff | internal/stream/stream.go:521-525 | after a poll that fails past its rewind, and for any chain the next poll finds, success at the returned height converges if and only if a reorg that poll sees is not pinned over stale blocks, and otherwise the block just below the returned height is still the one the failed poll saw |
| Rewind.ResumeAfterGrowth | internal/stream/stream.go:521-525 | while the chain only grows, success at the returned height emits everything still owed and converges |
| Rewind.SecondReorgExample | internal/stream/stream.go:528-535 | a run in which the chain is rewritten again after the failed poll: resumed at the returned height, which the run loop also keeps, it ends just past the head with a stale block 2 |
| Rewind.RetryIsBlind | internal/stream/reorg.go:137-138 | a retry at the height from before the rewind finds nothing to check, because the rewind erased the frontier's hash |
| Rewind.RetryConvergesIff | internal/stream/stream.go:388-421 | for any chain the retry finds, the run loop's retry converges if and only if a reorg it sees is not pinned over stale blocks, and otherwise the last block emitted below the kept height and the last one the failed poll re-emitted below it are both canonical |
| Rewind.RetryAfterGrowth | internal/stream/stream.go:388-421 | while the chain only grows, that means the failing poll got past the end of the orphaned range |
| Rewind.SkippedForever | internal/stream/stream.go:388-421 | otherwise an orphaned block stays the last emission at its height for as long as the chain only grows |
| Rewind.LossExample | internal/stream/stream.go:388-421 | a run from a fresh start that ends just past the head with an orphaned block as the last emission at height 2 |
| Retraction.MarkerCoversIff | internal/stream/reorg.go:85-95 | a marker that is not pinned covers every orphaned emission below the resume height if and only if the chain still reaches the last processed height |
| Retraction.ConsumerExactIff | docs/design.md:267-270 | over any run whatever, a consumer that applies blocks and retracts marker ranges ends with exactly the canonical blocks if and only if every stray (written by a failed poll past its resume height, or left above a marker's range by a shortened head) is canonical, a stray stands in at each height that a failed rewind retracted and nothing rewrote, and every other last emission is canonical |
| Retraction.IntactConsumerExactIff | docs/design.md:267-270 | if no rewind fails, it does if and only if every last emission and every stray is canonical |
| Retraction.TameConsumerExactIff | docs/design.md:267-270 | if besides every head header was read, only the strays matter |
| Retraction.OrderlyConsumerExactIff | docs/design.md:1768-1777 | if no poll failed after writing anything and no marker went out while the chain was shorter than what was processed, it does if and only if every last emission is canonical |
| Retraction.OrderlyConsumerExact | docs/design.md:1768-1777 | it does if besides the head headers were read and reorgs past the tracked window left what lies below it canonical |
| Retraction.ShortHeadExample | docs/design.md:1772-1775 | a run whose chain shortens and climbs back ends just past the head, and the consumer still holds the orphaned block 3 |
| Retraction.HoleExample | internal/stream/stream.go:388-421 | a run whose rewind fails once: no stray is left, it ends just past the head, and the consumer retracted block 2 and holds none |
| Checkpoint.Store.Load | internal/checkpoint/checkpoint.go:51-64 | no file is a first run, a file that does not parse is an error, and otherwise the saved cursor comes back |
| Checkpoint.Store.Save | internal/checkpoint/checkpoint.go:69-103 | the file holds the new cursor if the save succeeds and exactly the old contents if any step fails |
| Resume.ResumeCoverage | internal/stream/stream.go:381-446 | across any polls, failures, crashes and restarts, everything from the first start up to the cursor was emitted, and the last saved height is the one after the cursor |
| Resume.CursorFollowsFrontier | internal/stream/stream.go:424-443 | once a cursor exists, a saved successful poll leaves it just below the resume height, also when a reorg moved that height down |
| Resume.RestartResumesGapFree | internal/stream/stream.go:860-892 | a restart at any point of any run resumes at the last saved height, and nothing below it was left out |
| Resume.LaunchCovers | internal/stream/stream.go:860-892 | a first launch starts with that guarantee, whatever cursor it finds |
| StartHeight.CursorContinues | internal/stream/stream.go:861-877 | with a readable cursor of this chain, or of none, the first successful poll emits the blocks from the one after the cursor to the head, once and in order |
| StartHeight.ConfiguredStarts | internal/stream/stream.go:861-892 | without one, or with an unreadable or a foreign one, it emits those from the configured block |
| StartHeight.LatestStarts | internal/stream/stream.go:879-886 | configured to start at the latest block, it emits those that did not exist yet |
| StartHeight.RestartContinues | internal/stream/stream.go:861-877 | after a crash it emits those after the cursor, whatever was emitted past it before |
| StartHeight.SavedCursor | internal/stream/stream.go:424-443 | a successful poll that moved the resume height leaves a cursor of this chain at the block below it, and any other successful poll leaves the cursor alone |
| LogScan.ScanRefinesOneQuery | internal/stream/stream.go:625-663 | a scan that succeeds by halving emits exactly what one unlimited query would, in order and once; a scan not served everywhere fails |
| LogScan.ScanWritesPrefix | internal/stream/stream.go:625-663 | however a scan ends, its output is a beginning of what one unlimited query would have emitted |
| LogScan.CapsOnlyAreServed | internal/stream/stream.go:639-653 | halving succeeds on any provider that answers single blocks and refuses only by range cap |
| LogScan.EmitMeaning | internal/stream/stream.go:698-783 | skipped logs are left out, a malformed log or a refused write ends the emission, and what was written is a beginning of the kept logs |
| LogScan.Scanner.ProcessLogs | internal/stream/stream.go:625-663 | the recursive method writes what the scan specification says, for any provider |
| LogScan.Scanner.EmitLogs | internal/stream/stream.go:657-661 | the loop over a reply writes logs until one is malformed or the output refuses one |
| TraceEquivalence.TxEquivalence | internal/stream/internal.go:236-288 | for one transaction, the flat list and the call tree give the same transfers, in the same order, with the same paths, up to the call label |
| TraceEquivalence.OneTxAgrees | internal/stream/internal.go:236-288 | and they fail to parse a value in the same cases |
| TraceEquivalence.ScanIsWalk | internal/stream/internal.go:236-350 | below a path none of whose ancestors failed, the scan of a flat list finds what the recursive walk finds |
| TraceEquivalence.ScanOfBlock | internal/stream/internal.go:267-288 | of each transaction's transfers a block scan keeps exactly those with no failed path of any transaction above them |
| TraceEquivalence.BackendsAgreeIff | internal/stream/internal.go:186-288 | the two block-level methods agree on a block if and only if no failed path lies above a reported transfer, or both fail on a bad value |
| TraceEquivalence.RevertedRootPrunesBlock | internal/stream/internal.go:267-279 | one reverted transaction makes the flat list report no transfer of the whole block |
| TraceEquivalence.PooledPruningExample | internal/stream/internal.go:267-279 | two transactions for which the call trees report a payment and the flat list reports nothing |
| TraceValues.ValueReads | internal/stream/internal.go:402-411 | the text of a number in hexadecimal, in either case, reads back as the number |
| TraceValues.ValueParsesIff | internal/stream/internal.go:402-411 | a value parses if and only if it is absent or, after its prefix and a sign, a nonempty run of hexadecimal digits |
| TraceValues.FrameMoves | internal/stream/internal.go:236-262 | a surviving call, create, create2, selfdestruct or suicide frame transfers exactly the amount of its text from its sender to its recipient, and nothing if that is zero |
| TraceValues.FrameMovesNothing | internal/stream/internal.go:382-395 | a frame of any other kind transfers nothing, whatever its value |
| TraceValues.NoValue | internal/rpc/trace.go:35-40 | a frame without a value, or with a zero, transfers nothing |
| TraceValues.CallTraceMoves | internal/stream/internal.go:292-328 | a flat call entry transfers exactly the amount of its text from its sender to its recipient |
| TraceValues.CreateTraceMoves | internal/stream/internal.go:292-328 | a flat create entry transfers it to the contract created, or to nobody if the entry does not name it |
| TraceValues.SuicideTraceMoves | internal/stream/internal.go:292-328 | a flat suicide entry transfers the balance to the refund address |
| TraceValues.TraceMovesNothing | internal/stream/internal.go:292-328 | entries of another kind, and calls of another type, transfer nothing, whatever their value |
| Extraction.WalkCallFrames | internal/stream/internal.go:236-262 | the recursion appends the transfers of every surviving frame depth first, or fails if a value does not parse |
| Extraction.HasErroredAncestor | internal/stream/internal.go:333-350 | answers yes exactly if some failed path is a strict prefix of the path |
| Extraction.ParseParityTraces | internal/stream/internal.go:267-288 | the two loops give the transfers of the traces that are not roots, did not fail and lie below no failed path, in order |
| Extraction.ParityToInternal | internal/stream/internal.go:292-329 | a trace yields at most one transfer, none if its value is not positive, and an error if the value does not parse |
| Extraction.BlockLevelTraces | internal/stream/internal.go:186-202 | gives the transfers of all transactions that were traced and did not revert |
| TraceBackend.OneBlockBounds | internal/stream/internal.go:90-120 | one block takes at most one round more than the allowed attempts, and at most one re-selection, for any script of outcomes |
| TraceBackend.RunDisabledMeansRejected | internal/stream/internal.go:67-180 | over a whole run, tracing ends disabled only after all three methods were rejected in one cascade on a block with transactions |
| TraceBackend.SelectDisablesIff | internal/stream/internal.go:140-180 | a selection disables tracing if and only if the block has transactions and none of the three methods is supported |
| TraceBackend.StaysDisabled | internal/stream/internal.go:67-70 | once disabled, no later block asks the node for anything |
| TraceBackend.ProbeMeaning | internal/stream/internal.go:140-185 | a probe asks the candidates in order, all but the last unsupported, caches the last if it served, and gives up only when none is left |
| TraceBackend.SelectMeaning | internal/stream/internal.go:140-185 | the candidates are block-level, flat and, on a block with transactions, per-transaction tracing |
| TraceBackend.RunEarned | internal/stream/internal.go:67-185 | over any blocks a cached method is one that has served |
| TraceBackend.CachedIsAsked | internal/stream/internal.go:123-138 | a cached method is the one that is asked, once, and its answer is the outcome |
| TraceBackend.TraceBlockEnds | internal/stream/internal.go:90-120 | a block that is not traced was given up after no fewer rounds than attempts allowed, or cancelled, and the last answer was not a served one |
| Tracer.Tracer.Select | internal/stream/internal.go:140-180 | the cascade caches the first method that serves and leaves the choice alone on a transient failure |
| Tracer.Tracer.TraceBlockInternal | internal/stream/internal.go:90-120 | the retry loop ends in the state and with the outcome of the specification whose rounds are bounded |
| Tracer.Tracer.EmitInternalTransfers | internal/stream/internal.go:67-75 | a disabled tracer stays as it is; otherwise the block is traced once |
| Fanout.ContiguousDelivery | internal/transport/socket.go:68-191 | over every interleaving, what one consumer fully accepted is a contiguous stretch of the records, starting with the first offered after it joined |
| Fanout.NoGapWhileOpen | internal/transport/socket.go:121-171 | a connection still open between two writes has received everything since it joined |
| Fanout.WriteOutcome | internal/transport/socket.go:115-171 | over every interleaving a Write that failed met a writer that was shut down and reached nobody, and with block-until-consumer one that succeeded reached at least one consumer |
| Fanout.NextKeeps | internal/transport/socket.go:67-191 | every step of every party (join, write, death, shutdown) keeps the delivery invariant |
| Fanout.LaterConnectionLater | internal/transport/socket.go:86-171 | a connection made after another took a record starts with a later record, so one connection after another neither repeats a record nor goes back |
| Delivery.TakesIff | internal/transport/socket.go:132-142 | over every interleaving a connection takes a record it is offered if and only if writing it succeeds and the connection is still open |
| Delivery.RoundKeepsTakers | internal/transport/socket.go:143-152 | a round keeps the open connections that took the record and drops those that were there before it and did not |
| Delivery.ClosedIff | internal/transport/socket.go:173-192 | the writer is closed if and only if it was shut down |
| Delivery.BestEffortSucceeds | internal/transport/socket.go:109-171 | without block-until-consumer a Write whose round starts before shutdown returns success, whatever happens to its consumers |
| Delivery.DroppedSucceeds | internal/transport/socket.go:109-171 | and with no consumer at all the record is dropped and the Write succeeds |
| Delivery.FailsIff | internal/transport/socket.go:109-130 | a Write that has no snapshot yet fails if and only if the writer was shut down |
| Delivery.WaitsIff | internal/transport/socket.go:109-130 | with block-until-consumer a Write waits if and only if nobody is connected and the writer is not shut down |
| Delivery.BlockedRetriesIff | internal/transport/socket.go:153-162 | and a round ends it with success if and only if somebody took the record, and starts over otherwise |
| LineReader.Reader.Read | internal/transport/socket.go:249-276 | what was returned so far is a beginning of the whole lines of all connections, and a read fails only once all of them were returned |
| LineReader.Reader.NextLine | internal/transport/socket.go:249-276 | dropping a partial tail and reconnecting loses no whole line |
| LineReader.Reader.Connect | internal/transport/socket.go:280-319 | redials until a connection is made, and owes the same lines before and after |
| Lines.CutEncoding | internal/transport/socket.go:225-229 | a stream cut anywhere still holds exactly the records whose newline it reached |
| SinkView.SinkSeesStretches | internal/transport/socket.go:49-54 | both ends together: a sink reads a concatenation of contiguous stretches of whole records, byte for byte |
| SinkView.ReaderSeesStretches | internal/transport/socket.go:249-331 | a reader over those connections, however it is read, has returned a beginning of those stretches |
| FileLogProofs.SinkMeaning | internal/filesink/filesink.go:144-251 | for any script of partial writes, full disks, failed fsyncs and failed rotations the file is whole lines, and the lines are the records in order, each at least once when the sink drained its input, and twice only after a failed fsync |
| FileLogProofs.RetryMeaning | internal/filesink/filesink.go:199-251 | a confirmed record is on disk once, plus once for every append whose fsync failed; without fsync it is there at most once |
| FileLogProofs.WriteKeeps | internal/filesink/writer.go:128-165 | one write appends its line once or not at all, and leaves it unconfirmed on disk only when fsync failed |
| FileLogProofs.ShortAppendKeeps | internal/filesink/writer.go:137-157 | a partial write that is rolled back leaves no trace and is never reported as success |
| FileLogProofs.WriteBounds | internal/filesink/writer.go:167-181 | a write that appends, confirmed or not, leaves the active file within its size limit or holding just that line, and no write takes a file out of bounds |
| FileLogProofs.SinkBounds | internal/filesink/writer.go:167-181 | so after any run the active file is within the limit or holds one line |
| FileLogProofs.FullDiskRecoversIff | internal/filesink/filesink.go:276-281 | a write that met a full disk succeeds at the next attempt without faults if and only if it did not meet it while rotating |
| FileLogProofs.NoRetryAfterRotation | internal/filesink/writer.go:187-210 | a write that met a full disk while rotating is never confirmed, whatever its retries meet: the next attempt ends the sink |
| FileLogProofs.FullDiskExample | internal/filesink/writer.go:187-210 | two one-letter records with a size limit of two: the disk is full for one reopening, and the sink stops for good |
| FileLogProofs.Retention | internal/filesink/writer.go:183-289 | from an empty directory, the retained segments followed by the active file are the end of everything appended, all of it without a limit; no segment is empty and there are no more than allowed |
| Rotation.RotatesIffDue | internal/filesink/writer.go:128-215 | without faults a nonempty file is set aside, with its contents, name stamp and time, and a new one opened for the line, if and only if it has reached its age or the line does not fit it; otherwise the line joins the file and neither segments nor age change |
| Rotation.OutcomeIsFirstError | internal/filesink/writer.go:128-215 | a write succeeds if and only if each of its steps does, and is worth a retry if and only if the first error is a full disk |
| Rotation.UnrolledAppend | internal/filesink/writer.go:135-157 | a short write that cannot be rolled back leaves its piece behind the old contents and reports the rollback's error |
| Rotation.TornRetry | internal/filesink/writer.go:137-157 | if that error is a full disk, the sink retries and the file is no longer whole lines |
| FileLog.RotatedName | internal/filesink/writer.go:215-229 | the name chosen for a segment is free, so no segment is overwritten |
| Writer.RotatingWriter.RotatedName | internal/filesink/writer.go:222-228 | the loop finds the first free name of its time stamp |
| Writer.RotatingWriter.RemoveOldest | internal/filesink/writer.go:273-288 | removing the least recent by modification time until the limit is met leaves exactly the last segments in rotation order |
| Writer.RotatingWriter.Rotate | internal/filesink/writer.go:187-210 | closes, renames, reopens and prunes, and stops where the first step fails |
| Writer.RotatingWriter.Write | internal/filesink/writer.go:128-165 | rotates first when due, keeps the invariant, and does what the specified write does under the same faults |
| Writer.RotatingWriter.AppendLine | internal/filesink/writer.go:135-164 | one append with its rollback and fsync, fault by fault |
| Writer.RotatingWriter.WriteWithRetry | internal/filesink/filesink.go:199-251 | retries while the failure is a full disk, and ends confirmed, cancelled or failed |
| Writer.RotatingWriter.Run | internal/filesink/filesink.go:144-191 | takes the next record only once the last was confirmed |
| Writer.RemoveFirst | internal/filesink/writer.go:276-288 | the segment with the least modification time is the one rotated out first, and removing it leaves the later ones in rotation order |
| ChangeDetection.ChangeChain | internal/balance/balance.go:541-587 | over any ticks and reloads with any failed reads and refused writes, every change starts from the last value a consumer knows, and replaying the records gives the committed baselines, by the comparison of the poller |
| ChangeDetection.ChangeIsExact | internal/balance/sample.go:30-42 | a change carries the committed and the new value; it is committed if both records went out and otherwise nothing is |
| ChangeDetection.ConsecutiveChanges | internal/balance/balance.go:767-826 | two consecutive changes of a target join up by the comparison of the poller |
| Changes.ReplayGivesBaselines | internal/balance/balance.go:767-826 | over any ticks and reloads, replaying the records gives a value for exactly the targets with a baseline: their amount exactly, their owner up to the case of letters |
| Changes.ChangesDiffer | internal/balance/balance.go:772-822 | every change starts from what the records before it say and differs from it, an owner in more than the case of letters |
| Changes.ChangesJoinUp | internal/balance/balance.go:767-826 | of two consecutive changes of a target the later starts where the earlier ended |
| Changes.ChangeIff | internal/balance/balance.go:541-587 | with every write accepted, a reading emits its sample and then a change if and only if the amounts differ or the owners do in more than case; either way it becomes the baseline |
| Changes.TickRecords | internal/balance/balance.go:541-587 | with every write accepted a tick emits exactly the samples of its readings in order, each followed by its change if it differs, and takes the readings as baselines |
| Changes.TickStops | internal/balance/balance.go:541-587 | a tick stops at the first write that is refused, and succeeds if and only if none is |
| Changes.TickIff | internal/balance/balance.go:541-587 | a tick in which a read failed changes nothing |
| Changes.FirstIsNoChange | internal/balance/balance.go:767-780 | the first observation of a target is never a change |
| Reload.RemovedKeysMeaning | internal/balance/reload.go:69-125 | a reload drops exactly the baselines of targets that were watched and no longer are, all three kinds for a contract |
| Reload.SurvivorsKeepBaselines | internal/balance/reload.go:69-125 | every other baseline survives with its value |
| Poller.Poller.PeekChanged | internal/balance/balance.go:772-783 | tells whether the amount differs, or the owner in more than the case of letters, and from what, without committing it; the first observation never counts |
| Poller.Poller.ApplyReading | internal/balance/balance.go:567-580 | commits only after the sample and the change went out |
| Poller.Poller.SelectError | internal/balance/balance.go:701-716 | reports an error exactly if a read failed, and a permanent one exactly if some read failed permanently |
| Poller.Poller.SampleAll | internal/balance/balance.go:541-587 | a tick with a failed read changes nothing; any other applies the readings in order and succeeds exactly if every write did |
| Poller.Poller.ApplyPendingReload | internal/balance/reload.go:37-63 | swaps in the staged targets and forgets exactly the removed ones, once |
| Poller.Poller.ResetRemoved | internal/balance/reload.go:69-125 | deletes the baselines of every name that is no longer configured |
| Poller.Poller.QueueReload | internal/balance/reload.go:16-30 | a target set staged before and not applied yet is superseded |
| Poller.Poller.Run | internal/balance/balance.go:379-398 | the interval loop over any ticks and staged target sets does exactly the ticks and reloads of the change chain, which therefore holds of its records |
| AbiRoundTrip.DecodeInvertsEncode | internal/stream/decode.go:93-213 | decoding the encoding of any list of supported values gives their renderings, in order |
| AbiRoundTrip.DynamicRoundTrip | internal/stream/decode.go:126-172 | bytes, strings and arrays decode to their rendering wherever in the data their encoding lies |
| AbiRoundTrip.WordRoundTrip | internal/stream/decode.go:175-202 | the word of an address, bool, unsigned, signed or fixed-bytes value decodes to its rendering, for every size |
| AbiRoundTrip.WordDecodesIff | internal/stream/decode.go:175-229 | a word decodes if and only if its type is address, bool, an integer type or bytes of a size from 1 to 32 |
| AbiRoundTrip.AnyBool | internal/stream/decode.go:183-187 | any word is a bool, false if and only if its last byte is zero |
| AbiRoundTrip.SignedValue | internal/stream/decode.go:205-213 | a two's-complement word reads back as the signed number, at every width |
| AbiRoundTrip.TextReads | internal/stream/decode.go:140-150 | a string parameter decodes to the very text it was encoded from |
| AbiRoundTrip.AtoiIntStr | internal/stream/decode.go:205-213 | a printed integer, negative ones included, reads back as the integer |
| EventRoundTrip.DecodeEmitted | internal/stream/decode.go:21-64 | decoding the log of an event with distinctly named inputs gives every input its value, or its hash if it is indexed and dynamic, and nothing else |
| EventRoundTrip.DecodeUnnamed | internal/stream/decode.go:66-74 | the arguments of an event whose parameters have no names are found as arg0, arg1 and so on |
| EventRoundTrip.EntriesNameInputs | internal/stream/decode.go:21-74 | whatever a log holds, if it decodes then exactly the inputs have entries |
| EventDecode.SortInputs | internal/stream/decode.go:30-52 | the loop decodes the indexed inputs from successive topics and sets the others aside in order |
| EventDecode.DecodeLog | internal/stream/decode.go:21-64 | fails if the data is not hex, a topic is missing or a value does not decode, and panics where decoding does; an input in the data replaces an indexed one of the same name |
| EventDecode.LogDecodesIff | internal/stream/decode.go:21-64 | a log decodes if and only if its data is hexadecimal, each indexed input has a topic of 32 bytes that decodes, and the other inputs decode from the data |
| EventDecode.LogPanicsIff | internal/stream/decode.go:93-172 | a log makes decoding panic if and only if its data is hexadecimal, its indexed inputs decode, and the first input in the data that does not decode has an offset or a length that overflows a signed 64-bit integer, or asks for more elements than can be allocated |
| EventDecode.PanicExample | internal/stream/decode.go:104-131 | one word of data, 2^63, makes an event with one bytes parameter panic |
| EventDecode.DecodeData | internal/stream/decode.go:93-122 | the loop over the head words gives the values of the tuple, or fails or panics at the first that does not decode |
| EventDecode.DecodeArrayElements | internal/stream/decode.go:150-168 | panics if the elements cannot be allocated; otherwise the loop gives one value per word, or fails if the data ends early |
| Words.HexRoundTrip | internal/stream/decode.go:235-241 | hexadecimal text with its prefix reads back as the bytes it prints |
| Words.HexToBytesIff | internal/stream/decode.go:235-241 | text reads as bytes if and only if what follows its prefix is an even number of hexadecimal digits |
| Signature.SplitMeaning | internal/stream/abi.go:130-155 | a list splits exactly if its parentheses balance; the parts re-join to it, and each is balanced without a top-level comma |
| Signature.SplitJoin | internal/stream/abi.go:130-155 | splitting a comma-joined list of such parts gives the parts back |
| Signature.SplitCanonicalList | internal/stream/abi.go:67-155 | splitting a canonical parameter list, nested tuples included, gives the component types |
| Signature.ParseCanonical | internal/stream/abi.go:102-126 | parsing a canonical signature reproduces it, with one positional input for each parameter |
| Signature.ParseNormalizes | internal/stream/abi.go:102-126 | whatever is parsed, the normalized signature parses to itself |
| SignatureTypes.SignatureIff | internal/stream/abi.go:67-97 | two events have one canonical signature if and only if they have one name and the same parameter types in order, nested tuples and array suffixes included |
| SignatureTypes.ParsedInputs | internal/stream/abi.go:102-126 | the inputs of a parsed canonical signature are its types in order, without names and not indexed |
| SignatureTypes.ParseFailsIff | internal/stream/abi.go:102-126 | a signature is refused if and only if it has no opening parenthesis, does not end in a closing one, or what lies between is neither blank nor balanced |
| Signature.TrimMeaning | internal/stream/abi.go:115-122 | trimming a type takes spaces off both ends, all of them and nothing else |
| Signature.SplitLoop | internal/stream/abi.go:130-155 | the loop over depth and start splits as specified, and fails exactly on unbalanced parentheses |
| Decimal.FormatUnitsExact | internal/stream/native.go:171-201 | the text has one dot, one to `decimals` fractional digits and no needless zero, and reading it back gives the amount |
| Decimal.FormatUnitsInjective | internal/balance/format.go:16-45 | for fixed decimals, different amounts print differently |
| DedupKey.SameKeyIff | internal/record/key.go:31-68 | two records share a key if and only if their documented identities agree, or one is an event and the other an internal transfer of the same transaction with the same rendered suffix |
| DedupKey.CollisionExample | internal/record/key.go:35-41 | log n of a transaction and its transfer at path [n] are different and share a key |
| DedupKey.SameIdentitySamePartition | internal/record/key.go:70-100 | records with one identity land on one partition |
| Partitions.SamePartitionIff | internal/record/key.go:70-100 | two records share a partition if and only if they are of one log, of the transfers of one transaction, of the markers of one chain or of one configured entry |
| DedupKey.TraceAddrInjective | internal/record/key.go:115-124 | a trace path is determined by its rendering |
| DedupKey.SuffixCollision | internal/record/key.go:104-124 | a log index and a trace path render alike only if the path is that one index, or both are absent |
| MarkerKeys.MarkersShareKeyIff | internal/record/key.go:42-49 | two markers of one run share a key if and only if they report the same tip and the same new hash, whatever each of them retracts |
| MarkerKeys.FlipExample | internal/stream/reorg.go:198-215 | a tip that is replaced, comes back and is replaced again: the first and third marker are one record, and a consumer that drops the repetition keeps the orphaned block |
| TreeKeys.TransfersOfOneTxDiffer | internal/stream/internal.go:236-262 | no two transfers inside one transaction share a key |
| TickKeys.SampleKeysIff | internal/record/key.go:50-54 | two samples of one balance tick share a key if and only if class, name and time stamp agree |
| TickKeys.ChangeKeysIff | internal/record/key.go:55-59 | two changes of one tick share a key if and only if class and name agree, whichever field or asset moved |
| TickKeys.SampleIsNoChange | internal/record/key.go:50-59 | a sample and a change of one tick never share a key |
| TickKeys.FieldsCollide | internal/record/key.go:55-59 | two fields of one contract, and a native and a token balance of one name, share the key of their changes |

## Left out

- RPC, TLS, HTTP, Kafka, AWS, Postgres, Redis and webhook clients, configuration, logging, metrics, health and the command line: they appear only as outcomes. Backoff delays and jitter are dropped, a cancelled sleep is one more outcome, and a broken pipe that ends a run is the end of its script.
- A poll reads one snapshot. A node that changes its mind between two calls of one poll, and the failure to fetch the head for `from_block = latest`, are not modelled.
- Stream.Stream.ProcessRange: emits block by block, while within a chunk the program writes all logs before all native and internal transfers. A block counts as emitted when all of its records are, so what a failed poll wrote of later blocks is not modelled, and a stray in the sense of `Retraction` is a whole block.
- Record contents, filters, the finalized flag and the detection of native transfers are not part of this model.
- Heights, sizes, offsets and counts are unbounded naturals.
- Fixed-size arrays and static tuples in event data, which the decoder does not lay out, and Unicode white space around a type name. Strings are sequences of byte values.
- EventDecode.LogPanicsIff: the most strings that can be allocated at once is a parameter, and data is shorter than 2^63 bytes less one word, as any slice is. That a panic ends the whole program is not part of the state machines of the stream: it is the end of their scripts.
- AbiRoundTrip.DecodeInvertsEncode: asks for data shorter than 2^63 bytes and for room for as many strings as the data has words.
- EventRoundTrip.DecodeEmitted: asks for distinct names, since of two inputs with one name only one keeps its entry; EventRoundTrip.EntriesNameInputs has no such condition.
- Keccak, JSON and gzip: the hash of an event signature and of an indexed dynamic value is opaque, and compression keeps contents.
- The fan-out writer is modelled on values, as interleaved steps. The order in which one round writes to its connections is arbitrary, and waiting for a consumer is a step that does not happen. Cancelling the reader's context is not modelled; a network that never answers again stands for it.
- FileLogProofs.SinkMeaning: assumes that rollbacks succeed, as the source does, and that segment times strictly increase, so that ties by name do not arise in pruning. Failures to remove a segment, files of others in the directory and an existing active file are left out, and names are pairs of a time stamp and a number.
- Resume.ResumeCoverage: restarts find a readable cursor. One that does not parse is ignored by the program, which then starts over from its configured block.
- Rewind.SkippedForever: is stated for chains that only grow after the loss. A later reorg below the skipped height would emit it again.
- The poller's parallel reads, timeouts and cadence, and the metric series that a reload resets. A reload compares names only, so a target whose address changed keeps its baseline.
- The retry loops of the other sinks, which repeat that of the file sink.
