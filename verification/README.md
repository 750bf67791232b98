# A verified model of the orpheusgraph store and graph

orpheusgraph keeps a directed multigraph in memory and on disk. A single writer
appends batches of operations to a write-ahead log, advances a two-slot COMMIT
marker, and from time to time folds everything into a new snapshot behind the
rename of a MANIFEST. Readers see an immutable base overlaid with a small mutable
delta, and search it with a beam traversal and a cheapest-path search.

The project models five layers and proves what each promises.

**The commit protocol.** `Disk` says what a power cut may leave of a file, as the
repository's own power-loss harness does: leading unsynced changes in full, the next
one torn. `Protocol` is the state machine whose steps are single durability actions; a
process may die and the power may fail between any two of them, and a failed sync may
have persisted its data all the same. `Safety` shows that every action keeps one
invariant, `Runs` draws the theorems about all runs, and `Store` is the imperative
code of the store, each operation proved to be a run of that machine, and to report an
I/O error exactly when the disk has failed it. `Recovery` is what opening reads out of
an image and exactly which images it opens. `Wal` and `CommitSlots` go down to the
bytes and show that the abstract images are the byte-level ones. `UnsettledReopen`
gives the exact limit of the theorems, and the guard under which a restarting process
need not know it.

**The delta overlay.** `DeltaModel` is the overlay as a value, with the merged graph
it stands for; `DeltaOverlay` is the mutable class with dead-flagged edges, side
indices and incremental counters, proved to agree with it after every operation.

**Snapshots.** `NameTable` is the open-addressing name index, `Csr` the validator and
the two readers, `CsrOrder` and `CsrWriter` the writer, `Builder`, `PageRank` and
`Compaction` the fold of base and overlay into a new snapshot. A fold keeps the graph,
but not for ever after: `Folding` says exactly which later operations reveal it.

**Both together.** `Live` is the code of apply, compact and reopening with the graph beside
the log: the overlay's own verdict decides. `GraphRuns` carries the graphs along whole runs
of the protocol, down to which graph each surviving version of a snapshot file holds.

**Search.** `Overlay` is the neighbour relation of a request, `PathSearch` and
`BeamSearch` are the two algorithms, `Filtered` shows that filtering while searching
is searching a filtered graph, and `FoldedSearch` that no search sees a fold.

Weights are exact reals. Hashes, checksums and the payload codec are parameters:
theorems about them hold for every hash, every checksum that rejects a torn slot, and,
log by log, every codec whose payloads decode to the records of that log and re-encode
to the same length; every log has one. Where the model and
the documentation of the repository disagree the model follows the code: recovery's
byte offsets need only the length of a re-encoded frame, not the byte identity its
comment speaks of (src/persist/mod.rs:616-618). And a compaction that fails after its
MANIFEST is in place, as when mapping the new snapshot fails (src/persist/mod.rs:1017-1026),
leaves the store running on the old base and overlay without poisoning it: what is then
recovered is the graph that was published if and only if the later batches leave no trace
of the fold, in the sense `Folding` makes exact.

`dafny verify dfyconfig.toml` checks the whole project.

## Model

| member | source | states |
|---|---|---|
| Runs.CrashAnywhereRecovers | src/persist/mod.rs:486-794 | After any run of applies, flushes, compactions, closes, failed syncs, crashes and reopenings, whatever a power cut leaves opens, with exactly batches 1..r in order, r at least every acknowledged seq and at most the last appended one |
| Runs.AckedBatchesSurvive | src/persist/mod.rs:797-816 | Whatever a caller has once seen as committed is never lost or altered by any continuation of the run |
| Runs.CommittedSeqIsAcked | src/persist/mod.rs:1079-1090 | committed_seq() of an open store is the acknowledged high-water of the other theorems, and the visible content is the history up to seq |
| Runs.SettledStoreOpens | src/persist/mod.rs:486-500 | A store that is down on a settled disk can always be opened |
| Runs.EpochAndSeqIdentify | src/persist/mod.rs:695-710 | No published pair (epoch, seq) ever names two different contents, at one time or at two, although seqs are issued again after a tail is cut |
| Runs.SurvivingRootHasItsSnapshot | src/persist/mod.rs:320-345 | In every reachable state each MANIFEST that may survive names a snapshot that survives with it, in full, holding exactly batches 1..snapshot_seq; neither kind of deletion removes it |
| Runs.CrashInsideRecovery | src/persist/mod.rs:583-750 | A power cut anywhere inside recovery leaves an image that recovers the same marker and the same batches |
| Runs.ReopenAfterRecovery | src/persist/mod.rs:712-794 | After a completed recovery an undisturbed reopen finds the same batches, no uncommitted frame, no torn frame and nothing to truncate |
| Runs.CleanCloseReopens | src/persist/mod.rs:1138-1169 | A cleanly closed store reopens with its whole timeline and truncates nothing, and everything published in its epoch is a prefix of it |
| Runs.MarkerNeverRegresses | src/persist/commit.rs:189-255 | In every reachable state a slot decodes whatever happens to the one being written, and the record chosen is never behind an acknowledged seq; in normal operation and while recovery stamps it, that record is the last acknowledged one or the one in flight |
| Runs.RunsKeepInv | src/persist/mod.rs:817-917 | The protocol invariant holds after every legal run |
| Runs.RunsSplit | tests/powerloss_harness.rs:173-218 | A power cut may come after any step: every prefix of a run is a run, and the rest continues from it |
| Safety.KeepsInv | src/persist/mod.rs:934-1056 | Every durability action, of the code, of the operating system or a crash, keeps the invariant |
| Safety.KeepsAppend | src/persist/mod.rs:841-847 | Appending a frame keeps every surviving image recoverable, torn frame included |
| Safety.KeepsMarkerWrite | src/persist/commit.rs:242-255 | Overwriting the idle slot, torn or not, keeps every surviving image recoverable to an acknowledged or in-flight marker |
| Safety.KeepsRenameRoot | src/persist/mod.rs:969-984 | Renaming the new MANIFEST into place keeps every surviving combination of directory, marker and log recoverable |
| Safety.KeepsTruncate | src/persist/wal.rs:269-288 | Emptying the log once the durable MANIFEST covers it loses nothing in any image |
| Safety.KeepsOpenMarkerWrite | src/persist/mod.rs:706-710 | Stamping the marker during recovery keeps every image recoverable, to the same marker |
| Recovery.ReplayFrames | src/persist/mod.rs:605-647 | The replay loop, stopping at the first gap, computes the fold it is specified by |
| Recovery.ReplayOfCoveringLog | src/persist/mod.rs:605-661 | A log that agrees with a history and covers it up to the marker replays without a gap to exactly the batches after the snapshot, once each and in order, committed frames first |
| Recovery.ReplayReachesAll | src/persist/mod.rs:649-661 | A replay that reaches a seq has met a frame for every seq on the way |
| Recovery.RecoverableOpens | src/persist/mod.rs:583-661 | A recoverable image is never reported Corrupt, and yields the history up to the marker |
| Recovery.OpensOnlyIfCovered | src/persist/mod.rs:583-661 | An image opens if and only if its marker is not behind its MANIFEST and its log holds every frame between snapshot and marker |
| UnsettledReopen.GuardedStampIsSafe | src/persist/mod.rs:589-693 | A restart without a power cut may stamp its marker, safe against a power cut right after, if the COMMIT record it read is not behind the MANIFEST it read, if it is cutting the log and so syncs the directory, or if log or directory has been synced |
| UnsettledReopen.ReopenIsSafeWhenBacked | src/persist/mod.rs:674-742 | In the remaining case it is safe if and only if every MANIFEST that may survive, with every log that may survive beside it, already reaches the stamped marker |
| UnsettledReopen.MidwayIsReached | src/persist/mod.rs:706-742 | A concrete legal run ends in a state where that fails: the restart reads a MANIFEST rename that is still volatile and ahead of the COMMIT record, and the cut makes recovery report lost committed data |
| Store.PersistentGraph.Create | src/persist/mod.rs:362-451 | A created store is ready: settled on disk, nothing visible, everything visible committed, and at the start of a run of the protocol |
| Live.LiveGraph.Apply | src/persist/mod.rs:817-917 | Each refusal exactly when it is due, in the order poison, unexpected seq, batch invalid on the graph as it is, record not encodable, and without a trace; on Ok the graph is the one before with the batch applied, up to ranks if that set off a compaction, under the next seq, and committed when syncing every batch; an I/O error poisons and leaves the graph; an I/O error means the disk failed; the overlay is folded away exactly if it has outgrown its threshold and the disk fails nothing |
| Live.LiveGraph.Compact | src/persist/mod.rs:921-1056 | Whether it goes through or fails at any step, the graph stays up to ranks; when it goes through, the overlay is empty over the graph the snapshot holds |
| Live.LiveGraph.Open | src/persist/mod.rs:603-647 | Replaying the committed batches unjudged over the snapshot's graph gives the overlay of those batches, with exact indices and counters |
| Live.LiveGraph.Create | src/persist/mod.rs:362-451 | A created store shows the graph it was given |
| Live.Fold | src/persist/mod.rs:943-955 | The graph a compaction goes on with is the one its snapshot holds, the same up to ranks as base and overlay |
| GraphRuns.CrashRecoversTheGraph | src/persist/mod.rs:583-794 | Over any run in which no compaction fails between its MANIFEST and the switch to its fold, whatever a power cut leaves is recovered as the very graph, up to ranks, that the recovered batches had made when they were applied |
| GraphRuns.PublishedGraphSurvives | src/persist/mod.rs:797-816 | In particular a graph published in the current epoch is the one recovered at its seq |
| GraphRuns.EpochAndSeqIdentifyGraphs | src/persist/mod.rs:695-710 | Over such runs every published pair (epoch, seq) has a graph and never two, folds and reopenings included |
| GraphRuns.KeepsGraphInv | src/persist/mod.rs:934-1056 | Each action keeps it that every MANIFEST that may survive names a snapshot from which replay makes, at each seq, the graph of the timeline |
| GraphRuns.FollowsIsLegal | tests/powerloss_harness.rs:173-218 | These runs are runs of the protocol |
| Store.PersistentGraph.Apply | src/persist/mod.rs:817-917 | What apply does on disk, for either verdict: on Ok the batch is visible under the next seq, and committed at once exactly if the policy has a sync due, otherwise only by a compaction; it fails for I/O only if the disk failed it, and then leaves the visible state alone; a delta that has outgrown its threshold is folded unless the disk fails, and without turning the Ok into an error |
| Store.PersistentGraph.Flush | src/persist/mod.rs:1116-1128 | Succeeds exactly if the writer is not poisoned and the disk fails nothing: then everything visible is committed and log and marker are settled; otherwise the writer is poisoned and committed_seq unchanged |
| Store.PersistentGraph.Compact | src/persist/mod.rs:921-927 | Changes where batches are kept, never what is visible; fails for I/O only if the disk failed it; on Ok a non-empty delta is folded under a new snapshot name and everything is committed, and an empty one leaves the disk untouched |
| Store.PersistentGraph.CompactLocked | src/persist/mod.rs:934-1056 | Whichever step fails, seq, epoch, visible content and published states stay, and the store is on a run of the protocol; on Ok the superseded snapshot is gone unless its deletion failed |
| Store.PersistentGraph.Close | src/persist/mod.rs:1138-1169 | Ok exactly if the writer was not poisoned and the disk failed nothing: then the disk is settled and the MANIFEST marked clean with the whole timeline; otherwise the MANIFEST, if it could be written, is not clean and goes up to the last durable seq |
| Store.PersistentGraph.Reopen | src/persist/mod.rs:486-794 | On a settled store recovery fails exactly if the disk fails it, never as Corrupt, and on Ok shows exactly the committed prefix, under a new epoch unless the shutdown was clean, reports the frames it dropped, and leaves no orphan but one whose deletion failed |
| Store.PersistentGraph.ReadImage | src/persist/mod.rs:518-661 | The reading part of open, with its tests in their order, computes the recovery function |
| Store.PersistentGraph.WriteFileAtomic | src/persist/manifest.rs:140-156 | On success the new file is durably in place; whichever step fails, log, marker, history and published states are untouched and the store is still on a run of the protocol |
| Store.PersistentGraph.WalAppend | src/persist/wal.rs:215-249 | Syncs always under EveryBatch, never under OnFlush, and under EveryN with every n-th append since the last sync; fails only if the disk does, and then poisons the writer |
| Store.EveryNthCommits | src/persist/wal.rs:215-249 | Under EveryN(n), from a sync on, the number of uncommitted batches after k batches is k mod n: every n-th batch commits all, and n - 1 at most are ever at risk |
| Store.AppliedKeepsCount | src/persist/wal.rs:234-246 | The same bound from any point on, whatever synced last |
| Store.AutoCompactThreshold | src/persist/mod.rs:269-275 | A tenth of the base nodes, rounded down, and never less than 1000 |
| Protocol.WritesAre | src/persist/mod.rs:695-742 | What each frame, marker and MANIFEST written by apply, compaction, close and recovery holds, field by field |
| Store.PersistentGraph.AdvanceCommit | src/persist/mod.rs:207-214 | The marker and durable_seq move together or the writer is poisoned |
| Store.PersistentGraph.SweepOrphans | src/persist/mod.rs:320-345 | The open-time sweep leaves the MANIFEST, the log, the marker and every published state alone, and but for failed deletions leaves no snapshot other than the live one |
| Store.TraceIsRun | src/persist/mod.rs:817-1169 | The actions recorded by the code form a legal run from a freshly created store, up to each of its states |
| Wal.EncodeFrame | src/persist/wal.rs:34-54 | Succeeds exactly when the payload fits a 32-bit length, and then yields length, checksum and payload, a frame of the record that the payload decodes to |
| Wal.FrameBytes | src/persist/wal.rs:43-53 | Byte by byte: little-endian length, little-endian checksum over those four bytes and the payload, payload |
| Bytes.LittleEndian | src/persist/wal.rs:50-51 | The byte at i of an encoded integer counts the 256-to-the-i's |
| Wal.EveryLogHasFrames | src/persist/wal.rs:34-54 | For any log whatever there is a codec that serves it, so the byte theorems below speak of every log |
| Wal.ScanWalBytes | src/persist/wal.rs:75-153 | The offset loop computes the recursive scan, on any bytes whatever |
| Wal.ScanOfCut | src/persist/wal.rs:75-153 | Cutting concatenated frames at any byte yields exactly the records of the frames wholly contained, valid_end at their boundary, and a torn tail exactly when bytes remain; no assumption on the checksum |
| Wal.ScanOfDamage | src/persist/wal.rs:95-148 | After whole frames, a header too short, a length too long or a wrong checksum ends the scan there as a torn tail, and an intact frame that does not decode is an error at its offset |
| Wal.WholeFramesExist | src/persist/wal.rs:72-153 | Every cut contains some number of whole frames, so the previous theorem always applies |
| Wal.CommittedEndIsOffset | src/persist/mod.rs:612-630 | The sum of re-encoded lengths is the disk offset just past the last committed frame |
| Wal.TruncateAtCommittedEnd | src/persist/mod.rs:674-693 | Cutting the file there leaves exactly the committed frames |
| Wal.CutsAreLogImages | tests/powerloss_harness.rs:173-218 | Every byte-level cut of unsynced appends scans to an image of the abstract log |
| Wal.LogImagesAreCuts | tests/powerloss_harness.rs:173-218 | Every image of the abstract log is such a cut |
| CommitSlots.EncodeSlot | src/persist/commit.rs:97-108 | The buffer filled field by field is the slot layout |
| CommitSlots.SlotLayout | src/persist/commit.rs:97-108 | Where each field of the 44 bytes stands, and that each is little-endian |
| CommitSlots.SlotRoundTrip | src/persist/commit.rs:113-138 | Decoding an encoded slot gives the record back |
| CommitSlots.OtherSlotUntouched | src/persist/commit.rs:242-255 | Writing one slot, in full or in part, leaves the other slot's bytes alone and the file openable, whatever length an earlier torn write left it |
| CommitSlots.TornWriteImages | src/persist/commit.rs:189-237 | Under a checksum that rejects the torn slot, every partial slot write decodes to an image of the abstract slots |
| CommitSlots.OneWriteKeepsMarker | src/persist/commit.rs:189-255 | After one slot write, torn anywhere, the file opens with the marker it had or the new one; a whole write counts |
| CommitSlots.PingPongSurvives | src/persist/commit.rs:189-255 | Over any number of slot writes, each torn anywhere or whole and each followed by a reopening, the file always opens, and its marker is at least every seq wholly written and at most the last attempted |
| CommitSlots.CreatedOpens | src/persist/commit.rs:158-181 | The one-slot file that creation leaves opens with its record |
| DeltaOverlay.GraphDelta.Apply | src/delta.rs:183-247 | Accepts a batch exactly when every AddEdge is valid in the state the earlier ops leave; then the overlay is that of all its ops; a rejected batch changes no field and the error names the first offending op and what is wrong with it |
| DeltaOverlay.GraphDelta.Validate | src/delta.rs:184-231 | The first pass over simulated presence finds the first offending op, or none exactly when the batch is accepted |
| DeltaOverlay.GraphDelta.Replay | src/delta.rs:258-269 | Replaying without validation gives the overlay of all ops and keeps indices and counters exact |
| DeltaOverlay.GraphDelta.UpsertNode | src/delta.rs:298-324 | The overlay is the upserted one; indices and all four counters stay exact |
| DeltaOverlay.GraphDelta.RemoveNode | src/delta.rs:326-360 | The overlay is the one without the node and its delta edges; indices and counters stay exact, self-loops counted once |
| DeltaOverlay.GraphDelta.AddEdge | src/delta.rs:362-388 | One more live edge with canonical tags; indices and counters stay exact |
| DeltaOverlay.GraphDelta.RemoveEdge | src/delta.rs:390-411 | Every matching delta edge is dead and the key is tombstoned; indices and counters stay exact |
| DeltaOverlay.GraphDelta.Kill | src/delta.rs:344-359 | Marking edges dead in place moves nothing, and the live counter never underflows even when a position is listed twice |
| DeltaOverlay.GraphDelta.MaskIncident | src/delta.rs:434-467 | The masked counter grows by exactly the open base edges at the node, a self-loop once |
| DeltaOverlay.GraphDelta.UnmaskIncident | src/delta.rs:471-502 | The masked counter falls by exactly those edges, without underflow |
| DeltaOverlay.GraphDelta.RecomputeCounts | src/delta.rs:534-574 | Inclusion and exclusion over the tombstones gives every counter from scratch, without scanning all base edges |
| DeltaOverlay.DeltaAccessor.NodeCount | src/delta.rs:595-598 | The number of names the merged graph resolves; nothing underflows |
| DeltaOverlay.DeltaAccessor.EdgeCount | src/delta.rs:600-603 | The number of merged edges, equal to the total of the outgoing lists and of the incoming lists over the live nodes |
| DeltaOverlay.DeltaAccessor.GetNode | src/delta.rs:605-615 | Resolves a name exactly when the merged graph has it, to the merged data |
| DeltaOverlay.DeltaAccessor.OutgoingNeighbors | src/delta.rs:617-671 | Over a base that lists its edges in any order, masking its list and appending the indexed delta edges is a full scan of the merged edges by source; in order, if the base scans in order |
| DeltaOverlay.DeltaAccessor.IncomingNeighbors | src/delta.rs:673-722 | Likewise by target, over the permuted incoming lists of a mapped snapshot too |
| DeltaModel.HistoryCounts | src/delta.rs:595-603 | After any history of accepted batches over a well-formed base, the merged graph is well formed and the counters give its node count, its edge count and both degree sums |
| DeltaModel.MergedWellFormed | src/delta.rs:594-723 | No merged edge ever dangles |
| DeltaModel.BatchKeepsOk | src/delta.rs:183-247 | Through an accepted batch every live delta edge keeps two present endpoints and shadows and tombstones stay disjoint |
| DeltaModel.AcceptedAlone | src/delta.rs:188-242 | An edge is accepted exactly between two nodes of the merged graph, unless its window closes before it opens; the other ops always |
| DeltaModel.RemoveNodeLaw | src/delta.rs:326-360 | Removing a node takes away it and exactly the edges at it |
| DeltaModel.RemoveEdgeLaw | src/delta.rs:390-411 | Removing an edge key takes away exactly the edges of that source, target and kind |
| DeltaModel.AddEdgeLaw | src/delta.rs:362-388 | Adding always adds one more parallel edge and nothing else |
| DeltaModel.UpsertNodeLaw | src/delta.rs:298-324 | Upserting changes no edge unless it clears a tombstone; then base edges may come back, at that node only, and killed delta edges stay dead; `Folding.UpsertRevives` says which |
| DeltaModel.TombstoneMasks | src/delta.rs:432-502 | Placing a node tombstone masks exactly the edges the two passes count, and clearing it gives exactly those back |
| DeltaModel.EmptyIffNoOps | src/delta.rs:168-174 | The overlay is empty exactly when no batch in it held an op, even if later ops took earlier ones back |
| DeltaIndex.GatherIsScan | src/delta.rs:651-670 | Reading through an index entry is scanning all live delta edges |
| DeltaIndex.KillIncidentAt | src/delta.rs:344-359 | The two index entries of a node list exactly the edges its removal kills |
| Graphs.DegreesSumToEdges | src/delta.rs:600-603 | In a well-formed graph both degree sums are the number of edges, parallel edges and self-loops included |
| Graphs.SearchViewReads | src/accessor.rs:51-57 | What a search reads of a well-formed graph through its nodes' lists is the full scan by source, for every name |
| Compaction.FoldSnapshot | src/persist/mod.rs:943-955 | Materialize, build, write: the snapshot passes validation and presents the same names, the same node data but for the rank, and the same edges with all fields; ranks follow the edges again |
| Compaction.Materialize | src/delta.rs:737-788 | Hands over each live node once and every live edge once, with all fields |
| Compaction.NothingSkipped | src/builder.rs:157-192 | On materialized input none of the builder's skip rules fires and no tag list changes |
| Compaction.BuiltIsSame | src/builder.rs:57-198 | A build without normalization of materialized input is the merged graph again |
| Compaction.SameReads | src/persist/mod.rs:939-946 | Equal graphs in that sense agree on the counts and on every node's outgoing and incoming edges as multisets |
| Folding.UpsertRevives | src/delta.rs:298-324 | Inserting a node adds to the merged edges exactly the base edges that its tombstone alone was masking |
| Folding.LinesAgree | src/delta.rs:298-411 | Two ways to hold one graph as base and overlay agree after each of any further operations if and only if every insertion revives the same edges on both |
| Folding.FoldCommutes | src/persist/mod.rs:939-1046 | Folding commutes with a history of later operations, step by step, if and only if no insertion in it brings back, by clearing the last tombstone on it, an edge that was in the overlay at the fold or one the fold dropped; operations are accepted alike in any case |
| Folding.FoldCommutesWithoutRevival | src/delta.rs:305-308 | In particular if no insertion clears a tombstone |
| Folding.FoldAgreesAtEnd | src/delta.rs:298-411 | After any later operations folded and unfolded line show the same graph if and only if every base edge the fold dropped is still masked and every overlay edge it took in that has died since is masked by a tombstone set since, whether or not the lines agreed in between |
| Folding.RecoveredGraphAgrees | src/persist/mod.rs:993-1026 | After a compaction that failed past its MANIFEST, the graph recovered from the folded snapshot and the later batches is the one that was published if and only if those batches leave no such trace |
| Folding.SameAcceptance | src/delta.rs:183-231 | Whether a batch is accepted never depends on folds, even where edges have drifted apart |
| Folding.FoldDoesNotCommute | src/delta.rs:305-308 | The shortest history where it shows: removing and re-inserting a node brings folded edges back and leaves overlay edges dead |
| FoldedSearch.FoldKeepsPaths | src/traversal.rs:156-231 | Over merged view and folded snapshot, whose lists differ in order and whose nodes differ in rank, the same ends are reachable by the same cheapest routes |
| FoldedSearch.FoldKeepsBeams | src/traversal.rs:20-113 | And beam search returns the same results in the same order |
| Builder.BuildGraph | src/builder.rs:64-198 | One node per distinct input name, name-sorted, with kind, metadata, weight and penalty of that name's last input, scaled and clamped if asked; the surviving edges one after the other, as put in but for sorted tags; PageRank weights, by which a node that some edge enters outranks every node that none enters |
| Builder.DivisorIs | src/builder.rs:109-124 | The divisor is the largest weight if that exceeds EPSILON, and 1 otherwise |
| Builder.NodeKeeps | src/builder.rs:126-146 | What a node keeps of its input, field by field: the weight times the divisor gives the input's back, the heaviest weighs exactly 1, the penalty is cut to [0,1] |
| Builder.BuiltAreSurvivors | src/builder.rs:151-191 | An edge survives if both ends are known and its window does not close before it opens; it keeps every field, its tags sorted and listed once |
| Builder.LastInputIs | src/builder.rs:72-86 | The last input of a name is one that no later input of that name follows |
| Builder.Dedup | src/builder.rs:72-86 | One entry per name, holding that name's last input |
| Builder.NormalizedWeights | src/builder.rs:102-146 | With normalization every stored weight and penalty lies in [0,1] |
| PageRank.ComputePageRank | src/builder.rs:203-270 | The loops over sources and edges compute the iterated redistribution and its normalization; a node that some edge enters outranks every node that none enters |
| PageRank.StepWrittenOut | src/builder.rs:229-254 | The next score of a node is teleport, an equal part of the dangling mass, and over the edges into it the damped score of each source divided by the number of edges that leave the source |
| PageRank.EnteredScoresMore | src/builder.rs:240-254 | No node scores less than one without incoming edges, and one entered from a node of positive score scores more |
| PageRank.WeightsFollowEdges | src/builder.rs:203-270 | So do the stored weights, after any number of iterations |
| PageRank.NormalizedScales | src/builder.rs:259-270 | One factor scales all scores |
| PageRank.OneEdge | src/builder.rs:203-257 | For two nodes and one edge, an iteration moves the scores from 0.5 and 0.5 to 0.2875 and 0.7125 |
| PageRank.StepConserves | src/builder.rs:229-257 | One iteration conserves the total mass 1, dangling mass included, parallel edges counted in both out-degree and distribution |
| PageRank.ScoresConserved | src/builder.rs:203-257 | After any number of iterations the mass is 1 and no score is below (1 - damping)/n |
| PageRank.WeightsInUnit | src/builder.rs:259-270 | The stored weights lie in (0,1], the largest being exactly 1 for fewer than 1/EPSILON nodes |
| NameTable.CapacityIsCanonical | src/persist/snapshot.rs:151-160 | The capacity is a power of two above n with a load below 0.7 |
| NameTable.CapacityIsLeast | src/persist/snapshot.rs:147-160 | No smaller power of two from 2 on keeps the load below 0.7 |
| NameTable.BuildNameBuckets | src/persist/snapshot.rs:164-176 | Insertion ends for any names, clustered or not, and gives a bijective table of canonical size in which every entry is reachable, the one table hash and names determine; on the way to an entry lie only entries of smaller index |
| NameTable.FreeSlot | src/persist/snapshot.rs:169-173 | Probing ends at an empty slot with no empty slot before it |
| NameTable.MaskIsRemainder | src/persist/snapshot.rs:165-170 | Masking with m - 1 is the remainder by m when m is a power of two, so slots are reached cyclically |
| NameTable.IdxOf | src/persist/snapshot.rs:749-769 | The bounded, masked probe loop computes the lookup, on a table of any size and content |
| NameTable.FoundIffClear | src/persist/snapshot.rs:501-536 | A node is found by its own name if and only if no empty slot lies on the cyclic path from its hash |
| NameTable.PathBySums | src/persist/snapshot.rs:516-536 | Two subtractions of prefix sums decide that, wrapped paths included |
| NameTable.ValidateNames | src/persist/snapshot.rs:404-537 | The name checks accept exactly the sorted names with a table of canonical size that is a bijection and finds every node by its name |
| NameTable.AcceptedTableServes | src/persist/snapshot.rs:739-769 | In an accepted table a lookup finds a name's node if there is one and nothing otherwise |
| NameTable.BuiltTableIsOk | src/persist/snapshot.rs:164-176 | Every table that is built passes those checks |
| Csr.ValidateCsr | src/persist/snapshot.rs:398-689 | Accepts exactly the well-formed snapshots: good name table, endpoints in range, offsets that partition and group the edges, a mirror that is a grouped permutation |
| Csr.OutgoingNeighbors | src/persist/snapshot.rs:798-827 | On a validated snapshot the O(degree) reader returns, in order, the full scan by source; on other bytes it reads nothing out of bounds |
| Csr.IncomingNeighbors | src/persist/snapshot.rs:829-860 | On a validated snapshot, a permutation of the full scan by target, and in its very order if the mirror lists edges into one node by position, as the writer does |
| Csr.ScanReadsGraph | src/serialization.rs:185-243 | The full scans are the outgoing and incoming lists of the graph the snapshot stands for |
| Graphs.IncomingEntries | src/serialization.rs:215-243 | The incoming list holds each edge into the node with its source and all its fields |
| Csr.SliceIsGroup | src/persist/snapshot.rs:586-608 | The slice between two offsets is exactly the edges with that key |
| CsrWriter.ToRkyvV2 | src/persist/snapshot.rs:206-304 | What is written passes validation and stands for the graph it was written from: same nodes, same edges with all fields; every part of it is the one the graph determines; edges are listed in the order of their fields |
| CsrWriter.OffsetsFor | src/persist/snapshot.rs:261-268 | Counting and prefix-summing in place gives, for each i, the number of keys below i |
| CsrWriter.MirrorGroups | src/persist/snapshot.rs:270-285 | Sorting positions by target gives a permutation that the counted offsets group |
| CsrWriter.MirrorIsStable | src/persist/snapshot.rs:270-285 | The mirror lists the edges into one node by their positions |
| CsrWriter.WriterIsCanonical | src/persist/snapshot.rs:197-206 | One logical graph has one snapshot, offsets, mirror and name table included: insertion order never shows |
| CsrOrder.EdgeLeIsTotal | src/persist/snapshot.rs:238-259 | The eight sort keys form a total order on whole edges, source first |
| CsrOrder.FieldByField | src/persist/snapshot.rs:250-259 | The order of edges spelled out: smaller source first, then smaller target, kind, field name, weight, validity and tags, absent values first |
| Strings.LtIsLexicographic | src/persist/snapshot.rs:211 | Names and tags compare as in a dictionary: the first difference decides, and a proper prefix comes first |
| Overlay.BuildIndex | src/overlay.rs:37-46 | The index answers every lookup as a scan of the request would, last node of a name winning |
| Overlay.NeighborsIndexed | src/overlay.rs:81-152 | The indexed expansion returns exactly the visible graph and overlay edges of the node |
| Overlay.NeighborsAre | src/overlay.rs:81-152 | Field by field, what expanding a name yields: of the graph's edges, unless cut off, and of the request's own, those visible: from valid_from on, until just before valid_to, public or shared with a principal |
| Overlay.BoostsDecide | src/overlay.rs:112-129 | A boost of zero or less counts as no boost; a positive one shows all edges of a node, however many |
| Overlay.ResolveIs | src/overlay.rs:186-191 | A name stands for the graph's own node, else for the last overlay node of that name, else for none |
| Graphs.ExpansionIs | src/overlay.rs:92-152 | The same for a graph and its edges |
| Overlay.NeighborsPrefiltered | src/overlay.rs:81-91 | Filtering by visibility at query time equals removing the invisible edges and stripping the rest beforehand |
| Filtered.FilteredRoutes | src/traversal.rs:156-231 | Path search under a temporal and ACL context runs in step with the search on the prefiltered graph: with the same heap it returns the very same route, or none |
| Filtered.FilteredPaths | src/traversal.rs:156-231 | With any heaps, the same ends are reachable and the same routes are cheapest, at the same cost |
| Filtered.FilteredBeams | src/traversal.rs:20-113 | So has beam search |
| PathSearch.FindPath | src/traversal.rs:156-231 | Terminates; None exactly when the end cannot be reached; otherwise a route of real neighbour edges from start to end that no path undercuts, and the one that the heap's way of breaking ties singles out; each step is spelled out field by field, and the inverse scores of the nodes entered sum up to no more than along any other path |
| PathSearch.CostIsInverse | src/traversal.rs:197-205 | Stepping onto a node of score w costs 1/w, and 1000 once w is below 0.001 |
| PathSearch.CostOfUnknown | src/traversal.rs:201-205 | Stepping onto a name that stands for no node costs 1000 |
| PathSearch.ScoresExist | src/traversal.rs:197-203 | Every name has a score that counts, so that the sums of inverse scores exist for every path |
| PathSearch.RaisingKeepsRoute | src/traversal.rs:146-155 | Higher-scored nodes are closer: raising the score of a node on a cheapest route keeps that route cheapest, even against paths that pass the node repeatedly |
| PathSearch.FindsOne | src/traversal.rs:124-144 | Graph, request and heap determine the route returned, although entries compare by cost alone |
| PathSearch.ReconstructPath | src/traversal.rs:233-260 | The parent map, overwritten as it was during the search, spells out a route of exactly the recorded distance |
| PathSearch.PoppedStale | src/traversal.rs:188-192 | Dropping a stale heap entry keeps the search invariant |
| PathSearch.SettleKeeps | src/traversal.rs:183-194 | The least entry that is not stale is exact, and expanding it keeps the invariant |
| PathSearch.ImproveKeeps | src/traversal.rs:196-227 | Overwriting a node's distance and parent with a shorter way keeps it |
| BeamSearch.BeamTraverse | src/traversal.rs:20-113 | At most k * depth distinct nodes, never the start, each with the score of the node its name stands for, by weight descending and name ascending, level by level the k best |
| BeamSearch.LevelKeepsTheBest | src/traversal.rs:87-92 | A candidate left out of a level has a smaller weight than every one kept, or the same and a later name, and is left out only when the level is full |
| BeamSearch.BeamIsUnique | src/traversal.rs:42-104 | Graph and request determine the beam: ties never make it ambiguous |
| BeamSearch.WideBeamIsBall | src/traversal.rs:20-113 | With k at least the number of nodes the result is exactly the resolvable nodes at distance 1..depth |
| Strings.NormalizeCanonical | src/types.rs:62-73 | Canonical tag lists depend only on the set of tags, so normalizing again changes nothing |
| Strings.Normalize | src/types.rs:70-73 | Tag by tag, computes the canonical list |

## Left out

- Reopening while a rename is still volatile is not a step of `Protocol`; `UnsettledReopen` says exactly when such a reopening is safe and shows a run in which it is not.
- A crash inside the creation of a store before its MANIFEST exists; runs start from a created store.
- Store.PersistentGraph.Apply: takes the verdicts on the batch as parameters; `Live.LiveGraph.Apply` computes the overlay's. Whether a record can be encoded stays a parameter there, `Wal.EncodeFrame` says when.
- GraphRuns.CrashRecoversTheGraph: the graph in memory is counted as switched to the fold together with the pointer to its snapshot; where a compaction fails in between, `Folding.RecoveredGraphAgrees` says exactly when the recovered graph is the published one.
- Compaction.FoldSnapshot: equates graphs with edges as multisets and ignores the PageRank of nodes, which the fold recomputes.
- PathSearch.FindPath: takes push and pop of the heap as parameters, for any heap that keeps its entries and pops a least one; how the library's binary heap sifts is not modelled.
- FoldedSearch.FoldKeepsPaths: for requests that ask for no rank, that is, without a fan-out cutoff or without its rank bypass; with both, the ranks a fold recomputes may change what is expanded. Likewise for beams.
- BeamSearch.BeamTraverse: `levels` records the nodes of each level for the statement; the code does not keep them.
- Filtered.FilteredPaths: for requests without a fan-out cutoff, the case the repository's own property is stated for; likewise `FilteredRoutes` and `FilteredBeams`.
- Sorting is by insertion where the library sorts; stability and speed are not modelled, and neither is the byte layout of the archive.
- CommitSlots.TornWriteImages: assumes a checksum that rejects the torn slot; CRC-32 itself is not modelled, nor are FNV-1a, postcard and rkyv.
- 32-bit floats: rounding, NaN, infinities and their total order; weights are exact reals and sanitizing only drops negative values.
- 64-bit widths of seq numbers, generations and lengths of files; the 32-bit node index and frame length are modelled, the 32-bit edge positions are not.
- Insertion order of shadowed nodes in the overlay: materialization takes their names in an arbitrary order, and the builder sorts them.
- compute_score is an arbitrary real-valued function of node and request; explain_score is left out.
- contextual_subgraph and multi_beam_intersection, which promise less than the two searches modelled.
- Reader concurrency, the directory lock, memory mapping, prefaulting, and deletion deferred on Windows.
- Format and version gates, the MANIFEST checksum, and the Python bindings.
- Rebuilding an owned graph from snapshot bytes; the model reads the snapshot itself.
