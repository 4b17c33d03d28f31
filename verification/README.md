# RekhaDB engine model

A Dafny model of RekhaDB's single-node engine and of the small cores around it, with proofs of what
its state means over whole runs.

Every write goes to a log. A live record map, a brute-force buffer, an ANN index and a metadata
index are derived from that log; checkpoints prune it and reopening replays the rest. The model
keeps the complete operation history as a ghost value and relates every derived piece of state to a
fold of it.

| modules | what they model |
|---|---|
| `Core`, `Numbers`, `Filter` | records, operations, metadata values, the conversion of integers to binary64, the filter oracle |
| `Postings`, `PostingsStore` | the inverted metadata index, as a specification and as an object updated in place |
| `History`, `Collection`, `Reopen` | the fold of a history, the in-memory state, loading and tail replay |
| `WalLog`, `Batches`, `Runs` | the log as records, write batches, the files on disk, steps and runs |
| `Guarantees`, `Crash`, `Reads` | the whole-run theorems, a crash inside a checkpoint, vector reads |
| `Nearest`, `Query` | the k-nearest specification and the query paths |
| `Counterexamples` | concrete runs at which a plausible property fails |
| `CollectionStore` | the collection object, method by method, proved against the specification above |
| `Bytes`, `WalFormat`, `WalFile` | the log's byte format, scan and recovery, the log file object |
| `FilterJson` | parsing and printing filters |
| `Follower` | shipping the log to a follower |
| `Labels` | the label maps around the vector graph |
| `Distances` | the distance kernels |
| `Segments` | the vector segment file |
| `RaftTypes`, `RaftStores`, `Cluster` | the two log stores, the cluster state machine and its snapshots |

`dafny verify dfyconfig.toml` checks the whole project.

## Where the code does less than its text says

Each is stated as an exact condition, for all inputs, with a reachable input at which the property
fails.

- Postings compare integers after conversion to binary64, the oracle compares them exactly; they
  agree on one equality test if and only if the two values do not collide
  (`Postings.EqualityAgreesIff`, fails at `Postings.CollisionSelects`).
- A crash between replacing the record file and the checkpoint marker, once the log is pruned, can
  lose records (`Crash.CrashRestoresIff`, `Counterexamples.CrashLosesRecord`).
- index.bin and index.meta are replaced one after the other. A crash in between can leave live
  vectors in neither tier (`Crash.TornReplayIff`, `Counterexamples.TornIndexLosesVector`), or a graph
  that already holds the label the maps hand out next, so that the flush at the end of open fails
  every time (`Crash.CrashOpensIff`, `Counterexamples.TornIndexRefusesOpen`); `Crash.TornIndexIff` is
  both.
- The segment rows and their row index are replaced one after the other; a crash in between can make
  an id read another id's vector (`Reads.CrashedRowsIff`, `Counterexamples.TornRowsMixUp`).
- The length of a segment's data block is computed with wrap-around; a file can open without the
  vectors its header promises (`Segments.OpenedHoldsDataIff`, `Segments.WrappedHeaderOpens`).
- After a checkpoint a read prefers the segment over a newer upsert
  (`Reads.ReadsAfterCheckpointIff`, `Counterexamples.SegmentShadowsUpsert`), and a second checkpoint
  forgets the vector of every id not written since the first, unless its record was above the
  watermark there (`Reads.SecondCheckpointReadsIff`, `Counterexamples.SecondCheckpointForgets`).
- The hybrid search can miss a neighbour behind a hit whose committed vector is stale
  (`Query.HybridExactIff`, `Counterexamples.StaleHitHidesNeighbour`); it is exact when no hit is a
  buffered id or the index has at most k entries (`Query.HybridExact`).
- The filtered search tests the buffered copy's metadata, which an Update does not refresh
  (`Query.FilteredExactIff`, `Counterexamples.StaleMetadataPasses`).
- `crates/rekha-index/src/usearch_index.rs:11-12` says that the maps never disagree with the graph.
  A vector left behind in the graph is filtered out of search results, but a saved index that has one
  no longer loads (`Labels.LoadsIff`, `Labels.LeftBehindRefusesLoad`).
- The follower marks a record as applied even when it does not decode or applying it failed
  (`crates/rekha-cli/src/main.rs:289-304`; `Follower.SkippedRecordIff`,
  `Follower.UndecodableIsSkipped`, `Follower.RefusedIsSkipped`).
- A leader that pruned past the follower ships a delta with a gap (`Follower.GapHarmlessIff`,
  `Counterexamples.GapLosesRecord`).
- The table log store stops a read without an upper bound at a million, and forgets the node of its
  purge position when reopened (`RaftStores.UnboundedAgreesIff`, `RaftStores.UnboundedReadMisses`,
  `RaftStores.ReopenKeepsIff`, `RaftStores.ReopenForgetsNode`).
- A cluster snapshot cut short is installed without an error (`Cluster.CutSnapshotIff`,
  `Cluster.CutSnapshotAccepted`).

## Model
| member | source | states |
|---|---|---|
| `Guarantees.RunRefinesFold` | crates/rekha-engine/src/collection.rs:112-133 | after any run of accepted batches, flushes, checkpoints, reopens, crashes inside a batch, and crashes inside a checkpoint whose record files still load, the live map is the fold of the complete operation history (vectors aside), although the log was pruned |
| `Guarantees.RunRecordsAreLast` | crates/rekha-engine/src/collection.rs:500-573 | in every reachable state a live record carries the number, the metadata and the document of the last operation on its id, which is no delete |
| `Guarantees.RunLivesBySurvivors` | crates/rekha-engine/src/collection.rs:500-573 | in every reachable state exactly those ids are live that have a write no later operation decided |
| `Guarantees.StateLands` | crates/rekha-engine/src/lib.rs:724-771 | in the state after a batch, read off the call's own arguments at the last position of each id: metadata and document given there, the vector given there as the newest one in the two tiers, nothing left of a deleted id, an update's vector unchanged, every other id as it was |
| `Guarantees.RunKeepsTwoTiers` | crates/rekha-engine/src/collection.rs:500-573 | in every state of those runs (a crash between index.bin and index.meta only where the pair is harmless) the newest vector of a live id is the buffered copy if buffered and the index entry otherwise; buffer and index hold live ids only; one buffer entry per id, in increasing sequence, above the watermark |
| `Guarantees.TwoTiersIff` | crates/rekha-engine/src/collection.rs:500-573 | with the pending writes in the buffer and live ids in the index, the two tiers hold every newest vector exactly when the index holds the surviving writes below the watermark |
| `Guarantees.RunKeepsPostings` | crates/rekha-engine/src/collection.rs:596-605 | in every reachable state a filter evaluated on the postings and mapped through the reverse offsets selects exactly the live ids whose metadata it matches, unless an integer operand collides with a stored value |
| `Guarantees.RunKeepsSequence` | crates/rekha-wal/src/lib.rs:194-222 | in every reachable state, even with an empty log, the next append continues the history, and the log holds exactly the newest operations |
| `Guarantees.NumbersStayAssigned` | crates/rekha-wal/src/lib.rs:237-280 | however a run goes on, through prunes and reopens, the operation that holds a sequence number stays the same |
| `Guarantees.NumbersAreUnique` | crates/rekha-wal/src/lib.rs:237-280 | two log records of one run with the same number, prunes and reopens between them included, are the same record |
| `Guarantees.RunReopens` | crates/rekha-engine/src/collection.rs:112-133 | in every reachable state the collection can be closed and opened again: the flush open ends with succeeds |
| `Guarantees.CheckpointThenReopen` | crates/rekha-engine/src/collection.rs:299-418 | a checkpoint followed by a reopen rebuilds the buffer and index held at the checkpoint, over exactly the record map the checkpoint left in memory |
| `Guarantees.StrippedReplay` | crates/rekha-engine/src/collection.rs:283-291 | in any reachable state, replaying the tail above the watermark over the stripped record map changes nothing |
| `Guarantees.TailAbsorbed` | crates/rekha-engine/src/collection.rs:283-291 | replaying the tail over an index that covers it and a buffer that pends it changes neither |
| `Runs.RunInv` | crates/rekha-engine/src/collection.rs:112-133 | every state of every run satisfies the invariant that links records, buffer, index, labels, postings, log and files to the history; a checkpoint crash is a step when the record files load and a torn index pair is harmless |
| `Runs.ExecInv` | crates/rekha-engine/src/collection.rs:466-490 | each enabled step keeps that invariant |
| `Runs.WriteInv` | crates/rekha-engine/src/collection.rs:466-490 | logging a whole batch and then applying it keeps the invariant for the longer history |
| `Runs.CheckpointInv` | crates/rekha-engine/src/collection.rs:299-418 | a completed checkpoint keeps the invariant, with the log pruned and flushed vectors stripped |
| `Runs.OpenInv` | crates/rekha-engine/src/collection.rs:112-170 | opening files that load, or that were never checkpointed, restores the invariant |
| `Runs.CheckpointFilesOk` | crates/rekha-engine/src/collection.rs:299-418 | after any number of the eight file replacements, index.bin and index.meta apart, the files still promise what reopening needs, provided a pair torn between those two is harmless |
| `Runs.CheckpointRecordFilesOk` | crates/rekha-engine/src/collection.rs:299-418 | after any number of replacements, with no proviso, record file, marker and log still promise what replaying the records needs |
| `Runs.TornPairHolds` | crates/rekha-index/src/usearch_index.rs:240-269 | a newer graph beside older label maps of the same size still holds every needed vector under its old label |
| `Runs.ReplayAfterIsReplay` | crates/rekha-engine/src/collection.rs:283-291 | replaying the log records above a watermark the log reaches back to is replaying that part of the history |
| `Batches.AcceptedKeepsValid` | crates/rekha-engine/src/collection.rs:639-711 | logging any prefix of an accepted batch leaves a history in which every Update targets a live id |
| `Batches.BatchLands` | crates/rekha-engine/src/lib.rs:724-771 | the same for the fold of the history with the batch's operations |
| `Batches.OpsCarry` | crates/rekha-engine/src/lib.rs:724-771 | the operation logged for position i is of the batch's kind and carries the vector, metadata and document given at i |
| `Batches.RefusedIff` | crates/rekha-engine/src/collection.rs:639-711 | a batch is refused exactly for a slice of another length, a vector of another dimension, an Add of a live or repeated id, or an Update of an id that is not live |
| `History.ReplayAbsorbed` | crates/rekha-engine/src/collection.rs:500-573 | replaying any stretch of a valid history over the record map that already contains it changes nothing |
| `History.ReplayCatchesUp` | crates/rekha-engine/src/collection.rs:283-291 | a stale record map plus the replayed tail equals the fold of the whole history, vectors aside |
| `History.ReplayBelow` | crates/rekha-engine/src/collection.rs:283-291 | replaying the same stretch over a record map with stripped vectors differs from the full one in stripped vectors only |
| `History.SurvivingIsNewest` | crates/rekha-engine/src/collection.rs:500-532 | a write that no later operation decided is live and its vector is current |
| `History.LiveHasSurviving` | crates/rekha-engine/src/collection.rs:500-573 | every live id has a surviving write |
| `History.LiveSeq` | crates/rekha-engine/src/collection.rs:533-555 | a live record carries the sequence number, the metadata and the document of the last operation on its id, which is no delete |
| `History.LiveIff` | crates/rekha-engine/src/collection.rs:500-573 | an id is live exactly when it has a write that no later operation decided |
| `History.PendingStep` | crates/rekha-engine/src/collection.rs:500-573 | one more operation changes the pending writes exactly as the buffer update does |
| `History.PendingMembers` | crates/rekha-engine/src/collection.rs:619-634 | a record is pending exactly when it is a surviving write above the watermark |
| `History.PendingOrdered` | crates/rekha-engine/src/collection.rs:619-634 | pending records are in increasing sequence with one entry per id |
| `Collection.ApplyInv` | crates/rekha-engine/src/collection.rs:500-573 | applying the next logged operation keeps the in-memory invariant for the extended history |
| `Collection.FlushInv` | crates/rekha-engine/src/collection.rs:619-634 | draining the buffer succeeds, keeps the invariant and moves only the watermark |
| `Collection.FlushEmpties` | crates/rekha-engine/src/collection.rs:619-634 | nothing is pending above the highest flushed number |
| `Collection.ReplayLabelling` | crates/rekha-engine/src/collection.rs:283-291 | a replay drops the labels of the ids it deletes and keeps all others |
| `Collection.FlushLabelling` | crates/rekha-engine/src/collection.rs:619-634 | a flush of a clean index succeeds, labels the buffered ids anew, keeps every other label, and leaves exactly the flushed index in the graph |
| `Collection.FlushesIff` | crates/rekha-engine/src/collection.rs:619-634 | over any graph a flush of n vectors succeeds exactly when the graph holds none of the next n labels, and then leaves exactly the flushed index |
| `Collection.FailedFlush` | crates/rekha-engine/src/collection.rs:619-634 | a flush that fails leaves records and watermark as they were and the buffer empty; the index has the vectors before the first held label, and the id refused there has none |
| `Collection.StepOffsetInv` | crates/rekha-engine/src/collection.rs:500-573 | every operation keeps offsets, reverse offsets and postings in step with the record map |
| `Collection.OffsetsNeverReused` | crates/rekha-engine/src/collection.rs:596-605 | an offset below the counter that is still mapped belongs to the id it was issued to |
| `Reopen.RestoredFacts` | crates/rekha-engine/src/collection.rs:176-278 | offsets and postings assigned on load are sound for any iteration order of the record map |
| `Reopen.ReplayFromEmpty` | crates/rekha-engine/src/collection.rs:283-291 | replaying the tail from an empty buffer rebuilds exactly the pending writes, even when some were later deleted |
| `Reopen.ReplayCovers` | crates/rekha-engine/src/collection.rs:283-291 | after the tail's deletes a loaded index covers the watermark exactly when it held every surviving write below it and no id that is neither live nor deleted in the tail |
| `Reopen.SavedIndexHolds` | crates/rekha-engine/src/collection.rs:212-224 | an index saved at any later point with any later watermark meets that condition |
| `Reopen.OffsetGap` | crates/rekha-engine/src/collection.rs:538-554 | a record lacks an offset only if an Update re-created an id that nothing in the tail has decided so far |
| `Reopen.ReplayOffsetKeys` | crates/rekha-engine/src/collection.rs:538-573 | after the whole tail every record has an offset again |
| `Reopen.ReopenInv` | crates/rekha-engine/src/collection.rs:112-133 | record file, index files and marker of different ages together restore the invariant for the full history |
| `WalLog.EntriesAbove` | crates/rekha-wal/src/lib.rs:370-434 | pruning a suffix of the history leaves the shorter suffix |
| `WalLog.EntriesSelect` | crates/rekha-wal/src/lib.rs:302-364 | reading the tail of a log that reaches back far enough gives exactly those operations |
| `WalLog.SelectMembers` | crates/rekha-wal/src/lib.rs:302-364 | a range read of a log in order is exactly its records in the range, in order |
| `WalLog.AboveMembers` | crates/rekha-wal/src/lib.rs:370-434 | a prune of a log in order keeps exactly the records above the watermark, in order |
| `WalLog.OpenContinues` | crates/rekha-wal/src/lib.rs:194-222 | appends continue one above the highest stored number, and at start_seq only if nothing is stored |
| `Crash.CrashKeepsLog` | crates/rekha-engine/src/collection.rs:299-418 | after any file replacement the log holds every operation above the marker's watermark |
| `Crash.CatalogBetween` | crates/rekha-storage/src/redb_catalog.rs:276-292 | the catalog's watermark never passes the marker's, and the log reaches back to it |
| `Crash.PartialReplayIff` | crates/rekha-engine/src/collection.rs:191-193 | replaying a pruned log from nothing restores the fold, vectors aside, exactly when every live record was last written above what the log still holds |
| `Crash.CrashRestoresIff` | crates/rekha-engine/src/collection.rs:176-193 | after a crash behind any file replacement, loading and replaying restores the folded records exactly when the files load, the log was complete, or every live record was last written above what the log still holds |
| `Crash.OpensIff` | crates/rekha-engine/src/collection.rs:126-132 | the same for any files with sound label maps |
| `Crash.CrashOpensIff` | crates/rekha-engine/src/collection.rs:126-132 | after a crash behind any file replacement open succeeds exactly when its flush is not due or the loaded graph holds none of the labels the flush takes; only a torn index pair can stop it |
| `Crash.CrashKeepsNumbering` | crates/rekha-wal/src/lib.rs:194-222 | after a crash behind any file replacement, rejected files included, appends continue the history |
| `Crash.FirstCheckpointIsSafe` | crates/rekha-engine/src/collection.rs:299-418 | a crash inside the first checkpoint always reopens, with all records |
| `Crash.TornReplayIff` | crates/rekha-index/src/usearch_index.rs:293-333 | the first half of that condition, for the state before the flush |
| `Crash.TornIndexIff` | crates/rekha-index/src/usearch_index.rs:240-333 | after a crash between index.bin and index.meta open returns a collection whose buffer and index hold every newest vector exactly when (the pair loads, or no live id's newest vector was written at or below the marker's watermark) and its flush is not due or finds its labels free |
| `Crash.FlushTiersIff` | crates/rekha-engine/src/collection.rs:619-634 | a flush that succeeds neither repairs nor breaks the two tiers |
| `Reads.ReadsBeforeCheckpoint` | crates/rekha-engine/src/collection.rs:576-583 | without a checkpoint every read returns the newest vector |
| `Reads.VectorSince` | crates/rekha-engine/src/collection.rs:388-396 | a live record still holds its vector exactly when a write decided the id since the checkpoint or the record there was above the watermark |
| `Reads.StripAbsorbed` | crates/rekha-engine/src/collection.rs:244-255 | replaying the tail above the watermark over the stripped record map changes nothing |
| `Reads.ReadsAfterCheckpointIff` | crates/rekha-engine/src/lib.rs:542-563 | in any run with one checkpoint, reopens included, a read returns the newest vector exactly when the id was not live at the checkpoint or no surviving write since carries another vector |
| `Reads.SecondCheckpointReadsIff` | crates/rekha-engine/src/collection.rs:350-396 | after a second checkpoint, any operations and reopens after the first, a read returns the newest vector exactly when a write decided the id since the first checkpoint or its record there was above the watermark |
| `Reads.CrashedRowsIff` | crates/rekha-engine/src/collection.rs:360-375 | after a crash between the segment rows and their index, an id reads what the new segment holds for it exactly when its old row is in range and holds its own vector, or, for an id without a row, when it has no old row in range |
| `Nearest.TopKIsNearest` | crates/rekha-engine/src/collection.rs:766-780 | stable sort and truncation of any enumeration of the candidates give a sorted list of k nearest |
| `Nearest.SortStable` | crates/rekha-engine/src/collection.rs:755-761 | the sort is stable: equally distant candidates keep the order they came in |
| `Nearest.NearestOfPartIff` | crates/rekha-engine/src/collection.rs:785-803 | the k nearest of some of the candidates are k nearest of all exactly when, for each candidate not ranked, at least k ranked ones are as near |
| `Nearest.MergeIsNearest` | crates/rekha-engine/src/collection.rs:785-803 | k nearest of one tier merged with the other tier lose nothing when the tiers share no id |
| `Query.BruteExactIff` | crates/rekha-engine/src/collection.rs:766-780 | with no segments the scan ranks all live ids exactly when no record was stripped |
| `Query.BruteForceIsExact` | crates/rekha-engine/src/collection.rs:766-780 | in any run without a checkpoint the brute-force answer is k nearest live records |
| `Query.HybridSound` | crates/rekha-engine/src/collection.rs:785-803 | for any sound index search only live ids come out, at their newest vector's distance |
| `Query.HybridExact` | crates/rekha-engine/src/collection.rs:785-803 | with an exact search the hybrid answer is exact unless a hit is a buffered id while the index has more than k entries |
| `Query.HybridExactIff` | crates/rekha-engine/src/collection.rs:785-803 | for any sound search the hybrid answer is exact if and only if, for each committed, unbuffered id left out of the hits, at least k ranked candidates are as near |
| `Query.FilteredExactIff` | crates/rekha-engine/src/collection.rs:835-891 | with the ids the postings select and no colliding integer, the exact filtered path ranks the eligible live ids if and only if no stale buffered metadata admits an ineligible id and every eligible id is still readable |
| `Query.FilteredQueryIsExact` | crates/rekha-engine/src/collection.rs:835-891 | in any run without a checkpoint and with buffered metadata in sync the filtered answer is k nearest eligible live records |
| `Query.FilteredAnnSound` | crates/rekha-engine/src/collection.rs:835-891 | with the ids the postings select, no colliding integer and buffered metadata in sync, the ANN filtered path returns only eligible live ids at their newest vector's distance |
| `Query.InvServes` | crates/rekha-engine/src/collection.rs:720-763 | every reachable state serves the fold of its history to the query paths |
| `Query.HybridAnswers` | crates/rekha-engine/src/collection.rs:785-803 | for any sound search the hybrid answer is k nearest of the hits and the buffered ids by their newest vectors, and exact for all live ids exactly when each live id not ranked has k ranked ones as near |
| `Query.FilteredAnswers` | crates/rekha-engine/src/collection.rs:835-877 | the filtered scan's answer is k nearest of the ids with a readable vector that match, or are buffered and match there; in sync, only eligible ids, and exact exactly when each eligible id not ranked has k ranked ones as near |
| `Query.AnnAnswers` | crates/rekha-engine/src/collection.rs:878-891 | the same for the ANN path over the eligible hits and the buffered matches; an eligible hit that is buffered without passing ranks by its stale committed vector |
| `Query.SelectedCount` | crates/rekha-engine/src/collection.rs:856-859 | the postings select as many offsets as there are eligible live records, so the planner's limit is on those |
| `Query.FirstHitWins` | crates/rekha-engine/src/collection.rs:793-796 | of several hits with one id the first gives the distance |
| `Counterexamples.CrashLosesRecord` | crates/rekha-engine/src/collection.rs:191-193 | a run with one checkpoint and one more record, crashed after records.bin, loses the checkpointed record |
| `Counterexamples.SegmentShadowsUpsert` | crates/rekha-engine/src/collection.rs:770-771 | a run in which the segment shadows a newer upsert |
| `Counterexamples.SecondCheckpointForgets` | crates/rekha-engine/src/collection.rs:350-387 | a run in which an update between two checkpoints makes a live vector unreadable, although its record is above the first watermark |
| `Counterexamples.TornIndexLosesVector` | crates/rekha-index/src/usearch_index.rs:240-269 | a run whose crash after index.bin leaves a live vector in neither tier |
| `Counterexamples.TornIndexRefusesOpen` | crates/rekha-engine/src/collection.rs:126-132 | a run whose crash after index.bin leaves files that load with every record, and a collection that no open returns |
| `Counterexamples.TornRowsMixUp` | crates/rekha-engine/src/collection.rs:360-375 | a run whose crash between the segment rows and their index makes one id read another's vector |
| `Counterexamples.StaleHitHidesNeighbour` | crates/rekha-engine/src/collection.rs:785-803 | a run after which an exact search hits a stale committed vector and the hybrid answer misses the true neighbour |
| `Counterexamples.StaleMetadataPasses` | crates/rekha-engine/src/collection.rs:849-852 | a run after which a filter still ranks a record by the metadata it had before an update |
| `Counterexamples.GapLosesRecord` | crates/rekha-cli/src/main.rs:289-305 | a follower that first polls after the leader's checkpoint marks the next operation applied and never gets the pruned one |
| `CollectionStore.CollectionStore.OffsetFor` | crates/rekha-engine/src/collection.rs:596-605 | the offset of an id; without one it gets the counter's value, in both maps, and the counter moves by one |
| `CollectionStore.CollectionStore.ApplyOperation` | crates/rekha-engine/src/collection.rs:500-573 | the in-place update equals the specified transition on the whole state |
| `CollectionStore.CollectionStore.FlushBuffer` | crates/rekha-engine/src/collection.rs:619-634 | the in-place drain equals the specified flush, stopping at the first add the graph refuses |
| `CollectionStore.CollectionStore.FlushVector` | crates/rekha-engine/src/collection.rs:626-629 | the committed vector is deleted before the new one is added; the add fails exactly when the graph holds its label |
| `CollectionStore.CollectionStore.LogOps` | crates/rekha-engine/src/collection.rs:481-490 | the operations appended to the log, each at the next number |
| `CollectionStore.CollectionStore.WriteOps` | crates/rekha-engine/src/collection.rs:481-490 | the whole batch is logged before any of it is applied |
| `CollectionStore.CollectionStore.ReplayTail` | crates/rekha-engine/src/collection.rs:283-291 | the replay loop equals the specified replay of the log above the watermark |
| `CollectionStore.CollectionStore.WriteSegments` | crates/rekha-engine/src/collection.rs:350-387 | the segment rows and the row of each id that still holds a vector |
| `CollectionStore.CollectionStore.WriteFiles` | crates/rekha-engine/src/collection.rs:299-387 | the seven file replacements before the prune, in order, or the removal of both index files of an empty index |
| `CollectionStore.CollectionStore.FinishCheckpoint` | crates/rekha-engine/src/collection.rs:388-418 | files replaced, records stripped, log pruned and reopened at the next number |
| `CollectionStore.CollectionStore.AssignOffsets` | crates/rekha-engine/src/collection.rs:200-208 | fresh offsets and postings for every loaded record |
| `CollectionStore.CollectionStore.LoadIndex` | crates/rekha-engine/src/collection.rs:212-224 | the saved index if its two files load, the fresh empty one otherwise |
| `CollectionStore.CollectionStore.LoadCheckpoint` | crates/rekha-engine/src/collection.rs:176-278 | files that load restore the specified state; others leave it fresh |
| `CollectionStore.CollectionStore.OpenFiles` | crates/rekha-engine/src/collection.rs:112-133 | opening equals the specified reopen, fails exactly when its flush does, leaves fewer than a batch in the buffer, and succeeds with the invariant restored when the files keep their promise and load |
| `CollectionStore.CollectionStore.Call` | crates/rekha-engine/src/lib.rs:381-472 | one write call: a rejected batch changes nothing; an accepted one lands every id as the call's arguments say and leaves the others; the buffer is drained exactly if the batch carries vectors and what is pending has reached the batch size; a checkpoint is taken exactly when the history has grown past the threshold since the last one, and then the log holds the operations above the watermark only |
| `CollectionStore.CollectionStore.BruteForce` | crates/rekha-engine/src/collection.rs:766-780 | the scan loop gives every live record with a readable vector its distance |
| `CollectionStore.CollectionStore.HybridSearch` | crates/rekha-engine/src/collection.rs:785-803 | index hits first, the buffer over them |
| `CollectionStore.CollectionStore.ScanSelected` | crates/rekha-engine/src/collection.rs:835-891 | buffered matches first, then every selected record with a vector |
| `CollectionStore.CollectionStore.FilterHits` | crates/rekha-engine/src/collection.rs:835-891 | buffered matches, then the hits whose offset is selected |
| `CollectionStore.CollectionStore.Query` | crates/rekha-engine/src/collection.rs:720-763 | a vector of the wrong dimension is refused; each path's answer is stated on the live records, the hits and the buffer: the scan exact when reads are newest, the hybrid path exact under exactly the condition of `Query.HybridExactIff`, the filtered scan k nearest eligible live records with no segment and buffered metadata in sync, the ANN path sound for any sound search |
| `Postings.EvaluateAgrees` | crates/rekha-engine/src/postings.rs:238-297 | on every filter tree evaluation selects exactly the offsets whose metadata the filter matches, unless an integer operand collides with a stored one |
| `Postings.EqualityAgreesIff` | crates/rekha-engine/src/postings.rs:263-297 | for one equality test the postings and the oracle agree if and only if the values do not collide |
| `Postings.CollisionSelects` | crates/rekha-engine/src/postings.rs:54-61 | a value one above the operand, just beyond 53 bits, is selected but does not match |
| `Postings.KeysAgreeIff` | crates/rekha-engine/src/postings.rs:54-61 | key equality is value equality exactly where no two integers share a binary64 image |
| `Postings.IndexesUnique` | crates/rekha-engine/src/postings.rs:97-175 | the metadata maps determine the postings, so no empty bitmap is kept and no state is hidden |
| `Postings.InsertIndexes` | crates/rekha-engine/src/postings.rs:97-119 | indexing a record keeps the postings in step |
| `Postings.RemoveIndexes` | crates/rekha-engine/src/postings.rs:123-156 | removing a record with its own metadata keeps the postings in step |
| `Postings.RemoveAllIndexes` | crates/rekha-engine/src/postings.rs:159-175 | dropping an offset everywhere keeps the postings in step without knowing its metadata |
| `PostingsStore.PostingsIndex.Insert` | crates/rekha-engine/src/postings.rs:97-119 | the field-by-field loop equals the specified insertion |
| `PostingsStore.PostingsIndex.Remove` | crates/rekha-engine/src/postings.rs:123-156 | the field-by-field loop, with empty bitmaps and fields dropped, equals the specified removal |
| `PostingsStore.PostingsIndex.RemoveAll` | crates/rekha-engine/src/postings.rs:159-175 | the sweep over both tables equals the specified removal |
| `Numbers.ExactUpTo53Bits` | crates/rekha-engine/src/postings.rs:58 | integers of at most 53 bits convert to binary64 exactly |
| `Numbers.FirstCollision` | crates/rekha-core/src/filter.rs:364-374 | one more bit and two different integers share an image |
| `Numbers.RoundsToNearest` | crates/rekha-engine/src/postings.rs:58 | the image is the nearest multiple of the spacing, ties to even |
| `Numbers.SpacingLeaves53Bits` | crates/rekha-engine/src/postings.rs:58 | the spacing is the power of two that leaves 53 significant bits |
| `Filter.OrderLaws` | crates/rekha-core/src/filter.rs:337-362 | strict and non-strict comparisons differ exactly in equality, opposite ones exclude each other, greater means greater |
| `Filter.EqualityLaws` | crates/rekha-core/src/filter.rs:337-362 | membership is equality with some operand, negated tests are complements on a present key, an absent key passes `$nin` only |
| `Filter.EqualIff` | crates/rekha-core/src/filter.rs:364-374 | two values are equal exactly if they are the same, or numbers of different kinds with one image |
| `WalFormat.ReadHeaderOfHeader` | crates/rekha-wal/src/lib.rs:448-488 | a written header reads back with its epoch |
| `WalFormat.ReadHeaderIff` | crates/rekha-wal/src/lib.rs:448-488 | a file is accepted with an epoch exactly when it starts with the header written for that epoch |
| `WalFormat.HeaderLayout` | crates/rekha-wal/src/lib.rs:448-457 | magic, version 1, epoch, and the checksum of those fourteen bytes |
| `WalFormat.FrameLayout` | crates/rekha-wal/src/lib.rs:255-270 | the whole length, the payload's checksum, number, epoch, payload |
| `WalFormat.ScanIsLongest` | crates/rekha-wal/src/lib.rs:494-545 | a scan returns the longest list of whole frames the bytes start with in which every epoch is at least the header's, numbers increase and payloads decode |
| `WalFormat.ScanSound` | crates/rekha-wal/src/lib.rs:494-545 | what a scan of any bytes returns is a good record list whose frames are a prefix of the bytes |
| `WalFormat.ScanOfFrames` | crates/rekha-wal/src/lib.rs:494-545 | scanning a good log followed by anything finds all its records and goes on |
| `WalFormat.ScanMaximal` | crates/rekha-wal/src/lib.rs:494-545 | every good log the bytes start with is part of the scan |
| `WalFormat.ScanIdempotent` | crates/rekha-wal/src/lib.rs:548-562 | truncating to what the scan accepted and scanning again changes nothing |
| `WalFormat.TornWrite` | crates/rekha-wal/src/lib.rs:237-280 | of any byte prefix of a batch the scan recovers exactly the records written whole |
| `WalFormat.TornAppend` | crates/rekha-wal/src/lib.rs:237-280 | the same behind an existing log, whose records all survive |
| `WalFile.ScanFile` | crates/rekha-wal/src/lib.rs:494-545 | the offset-advancing loop finds where the valid log ends, its record count and its last number |
| `WalFile.Wal.Open` | crates/rekha-wal/src/lib.rs:175-233 | an empty file gets a header, a bad header is refused, anything else is cut back to its longest valid prefix |
| `WalFile.Wal.Append` | crates/rekha-wal/src/lib.rs:237-280 | one record is added at the next number; it is refused only if too long for its length field |
| `WalFile.Wal.ReadRange` | crates/rekha-wal/src/lib.rs:302-364 | never reports corruption and returns exactly the records in range, in order |
| `WalFile.Wal.Prune` | crates/rekha-wal/src/lib.rs:370-434 | the file is rewritten with exactly the records above the watermark, byte for byte |
| `WalFile.TornBatchReopens` | crates/rekha-engine/src/collection.rs:481-490 | for every valid log, an empty one that continues at start_seq included, a crash that lets any byte prefix of a batch through reopens to the log with its whole operations appended, and numbering continues |
| `Bytes.FromLeOfLe` | crates/rekha-wal/src/lib.rs:49-59 | little-endian integers read back as written |
| `Bytes.LeOfFromLe` | crates/rekha-wal/src/lib.rs:49-59 | the bytes of a read integer are the bytes it was read from |
| `Bytes.LeAt` | crates/rekha-wal/src/lib.rs:49-59 | byte i is digit i to base 256, the least significant first |
| `FilterJson.GatherLoop` | crates/rekha-core/src/filter.rs:182-218 | the member loop gathers fields and combinator lists as specified, stopping at the first error |
| `FilterJson.ParseCanonical` | crates/rekha-core/src/filter.rs:175-257 | every parsed tree has at least two children under each And and Or and no combinator as a field key |
| `FilterJson.RoundTrip` | crates/rekha-core/src/filter.rs:376-431 | parsing the printed form of any canonical tree gives back the identical tree |
| `FilterJson.RoundTripIff` | crates/rekha-core/src/filter.rs:376-431 | printing is undone by parsing for exactly the canonical trees |
| `FilterJson.ParsesIff` | crates/rekha-core/src/filter.rs:175-257 | a JSON value parses exactly when it is well formed: an object with at least one member whose fields are scalars or non-empty objects of known operators with operands of the right kind, `$and` and `$or` lists of well-formed filters, not both, no field beside `$or`, and nothing empty |
| `FilterJson.OperandErrors` | crates/rekha-core/src/filter.rs:259-316 | which error an unknown operator or an operand of the wrong kind is reported as |
| `FilterJson.BigIsNearest` | crates/rekha-core/src/filter.rs:301-316 | an integer above i64 becomes the nearest binary64 value |
| `FilterJson.ShapeErrors` | crates/rekha-core/src/filter.rs:175-257 | which error each malformed shape is reported as |
| `FilterJson.ParseMeaning` | crates/rekha-core/src/filter.rs:175-257 | the tree of any JSON value that parses matches a metadata map exactly when the JSON, read directly, does |
| `FilterJson.GatherMeaning` | crates/rekha-core/src/filter.rs:182-218 | the gathered fields mean the object's field members |
| `Follower.WalReplication.MarkApplied` | crates/rekha-cluster/src/replication.rs:68-70 | the position of one collection moves, all others stay |
| `Follower.WalReplication.ApplyDelta` | crates/rekha-cli/src/main.rs:289-305 | apply then mark, record by record, also when a record does not decode or the engine returns an error |
| `Follower.WalReplication.constructor` | crates/rekha-cluster/src/replication.rs:24-37 | every collection starts at number 1 |
| `Follower.WalReplication.Poll` | crates/rekha-cli/src/main.rs:286-311 | one round of the loop for one collection: with the leader's log reaching back to the follower's position the records end as the fold of the whole history and the next request is for the number after it; a failed fetch changes nothing |
| `Follower.FetchWithRetry` | crates/rekha-cluster/src/replication.rs:78-98 | the first successful answer among the allowed attempts, the last error otherwise |
| `Follower.DeltaShips` | crates/rekha-engine/src/lib.rs:609-626 | while the leader's log reaches back far enough the delta is exactly the missing operations, up to the leader's last number |
| `Follower.FollowerTracks` | crates/rekha-engine/src/lib.rs:638-649 | over any interleaving of leader steps, failed polls and partly applied deltas the follower holds the fold of the leader's history up to its last applied number |
| `Follower.RedeliveryChangesNothing` | crates/rekha-cli/src/main.rs:280-313 | re-delivering any range that ends at the last applied number changes nothing |
| `Follower.GapHarmlessIff` | crates/rekha-engine/src/lib.rs:609-626 | after the leader pruned above the follower, what the shipped delta leaves applied, and exactly which ids still end up right |
| `Follower.SkippedRecordIff` | crates/rekha-cli/src/main.rs:289-305 | after a delta in which one record does not take effect everything is marked applied, and exactly which ids still end up right |
| `Follower.UndecodableIsSkipped` | crates/rekha-cli/src/main.rs:290-304 | one record that does not decode is marked applied and its write is lost |
| `Follower.RefusedIsSkipped` | crates/rekha-cli/src/main.rs:294-304 | one record the engine refuses is marked applied and its write is lost |
| `Labels.RunIxOk` | crates/rekha-index/src/usearch_index.rs:154-192 | over any run of adds, deletes, failures and save/load the maps stay inverse and the index stands for the latest successful adds |
| `Labels.HitsSound` | crates/rekha-index/src/usearch_index.rs:194-222 | every hit is a present id at the distance of its own vector |
| `Labels.HitsComplete` | crates/rekha-index/src/usearch_index.rs:209-221 | exactly the matches whose label is mapped are returned, in the order of the matches |
| `Labels.LoadsIff` | crates/rekha-index/src/usearch_index.rs:293-333 | a saved index loads exactly when no unmapped vector was left in the graph |
| `Labels.CleanLoads` | crates/rekha-index/src/usearch_index.rs:240-333 | the two files of one save of an index with nothing left behind load to that index |
| `Labels.LeftBehindRefusesLoad` | crates/rekha-index/src/usearch_index.rs:181-192 | one delete that the graph did not carry out, and the saved index no longer loads |
| `Labels.NeverReissued` | crates/rekha-index/src/usearch_index.rs:154-179 | over any run without a refused load a label once issued is never mapped to another id |
| `Labels.SearchAfterRun` | crates/rekha-index/src/usearch_index.rs:194-222 | after any run every hit is a present id at the distance of the vector of its latest successful add |
| `Labels.UsearchIndex.Add` | crates/rekha-index/src/usearch_index.rs:154-179 | maps are updated first and rolled back on failure; the add succeeds exactly when it is not refused, the graph reports no failure and holds nothing under the label; which error is returned, and that an add that reached the graph spends its label |
| `Labels.UsearchIndex.Delete` | crates/rekha-index/src/usearch_index.rs:181-192 | the new state is as specified and stands for the same vectors without the id |
| `Labels.UsearchIndex.Search` | crates/rekha-index/src/usearch_index.rs:194-222 | hits are present ids at the distance of their own vectors |
| `Distances.Dot` | crates/rekha-distance/src/lib.rs:71-91 | the eight-lane loop and scalar tail equal the plain sum, for every length |
| `Distances.L2Squared` | crates/rekha-distance/src/lib.rs:42-64 | the eight-lane loop and scalar tail equal the plain sum of squared differences |
| `Distances.Distance` | crates/rekha-distance/src/lib.rs:102-108 | the three distances in terms of the plain sums |
| `Distances.Polarization` | crates/rekha-distance/src/lib.rs:42-91 | the squared distance is both squared norms less twice the dot product |
| `Distances.SquaredSumSeparates` | crates/rekha-distance/src/lib.rs:42-64 | the squared distance is non-negative, symmetric, and zero exactly on equal vectors |
| `Distances.CauchySchwarz` | crates/rekha-distance/src/lib.rs:71-91 | the squared dot product is at most the product of the squared norms |
| `Distances.NormalizedNorm` | crates/rekha-distance/src/lib.rs:28-35 | normalizing always gives a norm of at most 1; the zero vector comes back unchanged |
| `Distances.CosineRange` | crates/rekha-distance/src/lib.rs:102-108 | the cosine distance lies in [0, 2] and is 1 exactly when the vectors are orthogonal |
| `Distances.L2Law` | crates/rekha-distance/src/lib.rs:102-108 | the L2 distance is non-negative, zero exactly on equal vectors, and is both squared norms less twice the dot product |
| `Distances.IpOrders` | crates/rekha-distance/src/lib.rs:102-108 | the inner-product distance orders by dot product, the larger the closer, and is zero at 1 |
| `Distances.CosineOrders` | crates/rekha-distance/src/lib.rs:102-108 | the cosine distance is below 1 exactly for a positive dot product and orders by the dot product of the normalized vectors, the larger the closer |
| `Distances.CosineOrdersByNorm` | crates/rekha-distance/src/lib.rs:102-108 | it orders two vectors by their dot products divided by their norm factors |
| `Segments.HeaderRoundTrip` | crates/rekha-engine/src/segment.rs:48-80 | a header reads back as written |
| `Segments.DecodedHeaderIsWritten` | crates/rekha-engine/src/segment.rs:58-80 | bytes that decode are what the decoded header is written as, reserved bytes aside |
| `Segments.DecodeErrors` | crates/rekha-engine/src/segment.rs:58-80 | a header is refused exactly for another magic or another version, each as such |
| `Segments.HeaderLayout` | crates/rekha-engine/src/segment.rs:48-56 | magic, version 1, dimension, count, checksum, twelve zeros |
| `Segments.CastAt` | crates/rekha-engine/src/segment.rs:224-251 | component i stands at byte 4 i, little-endian |
| `Segments.WrittenReopens` | crates/rekha-engine/src/segment.rs:105-163 | a written segment opens, even with bytes behind it, and the i-th pushed vector is at index i |
| `Segments.StrictPrefixRefused` | crates/rekha-engine/src/segment.rs:105-136 | every strict prefix is refused, as a short header or as truncated |
| `Segments.OpenedIsChecked` | crates/rekha-engine/src/segment.rs:105-136 | whatever opens starts with the decoded header, and the checksum is that of the data block whose length was computed, wrap-around included |
| `Segments.OpenedHoldsDataIff` | crates/rekha-engine/src/segment.rs:115-121 | an opened file holds the vectors its header promises exactly when their byte length is below 2^64 |
| `Segments.WrappedHeaderOpens` | crates/rekha-engine/src/segment.rs:115-121 | a 32-byte file that promises 2^31 vectors of dimension 2^31 opens |
| `Segments.SegmentWriter.Push` | crates/rekha-engine/src/segment.rs:200-210 | one more vector at the end |
| `Segments.SegmentWriter.Write` | crates/rekha-engine/src/segment.rs:224-251 | the file holds exactly the pushed vectors |
| `RaftStores.StoresAgree` | crates/rekha-cluster/src/redb_log_store.rs:61-105 | after any run of continuing appends, truncations and purges both stores give the same log state and bounded reads, in any key order |
| `RaftStores.RunsRefine` | crates/rekha-cluster/src/redb_log_store.rs:240-319 | over such a run the table holds exactly the vector's entries, each under its own index |
| `RaftStores.ReadsAgree` | crates/rekha-cluster/src/redb_log_store.rs:61-82 | index-by-index lookup equals filtering the vector, for every range |
| `RaftStores.LastAgrees` | crates/rekha-cluster/src/redb_log_store.rs:84-105 | the maximum over the keys in any order is the vector's last entry |
| `RaftStores.AppendAgreesIff` | crates/rekha-cluster/src/log_store.rs:157-172 | one append keeps every bounded read in agreement exactly when its index is above all stored ones |
| `RaftStores.UnboundedAgreesIff` | crates/rekha-cluster/src/redb_log_store.rs:171-175 | reads without an upper bound agree exactly when no entry lies at a million or above |
| `RaftStores.UnboundedReadMisses` | crates/rekha-cluster/src/redb_log_store.rs:171-175 | an entry at a million is found by an unbounded read of the vector store only |
| `RaftStores.ReopenKeepsIff` | crates/rekha-cluster/src/redb_log_store.rs:26-37 | reopening keeps the log state exactly when the purge position was proposed by node 0 |
| `RaftStores.ReopenForgetsNode` | crates/rekha-cluster/src/redb_log_store.rs:26-37 | a purge position proposed by another node than 0 comes back changed |
| `RaftStores.KeyRoundTrip` | crates/rekha-cluster/src/redb_log_store.rs:73-78 | a key parses back to its index |
| `RaftStores.StoredIff` | crates/rekha-cluster/src/log_store.rs:157-185 | after any run an entry is stored exactly if some step appended it and no later truncation or purge dropped its index |
| `RaftStores.LastPurgedIs` | crates/rekha-cluster/src/log_store.rs:180-185 | the purge position is that of the latest purge |
| `RaftStores.StateReports` | crates/rekha-cluster/src/log_store.rs:47-52 | the last position is that of the stored entry with the highest index, or the purge position if nothing is stored |
| `RaftStores.MemoryLogStore.Append` | crates/rekha-cluster/src/log_store.rs:157-172 | the entries are pushed in order |
| `RaftStores.MemoryLogStore.Truncate` | crates/rekha-cluster/src/log_store.rs:174-178 | exactly the entries below the index stay |
| `RaftStores.MemoryLogStore.Purge` | crates/rekha-cluster/src/log_store.rs:180-185 | exactly the entries above the index stay and the purge position is kept |
| `RaftStores.MemoryLogStore.GetLogState` | crates/rekha-cluster/src/log_store.rs:47-52 | the last entry's position, or the purge position |
| `RaftStores.MemoryLogStore.TryGetLogEntries` | crates/rekha-cluster/src/log_store.rs:61-84 | the entries in range, in order |
| `RaftStores.RedbLogStore.Append` | crates/rekha-cluster/src/redb_log_store.rs:240-264 | each entry under the text of its index |
| `RaftStores.RedbLogStore.Truncate` | crates/rekha-cluster/src/redb_log_store.rs:266-290 | collecting and removing keys drops exactly the indices from the given one on |
| `RaftStores.RedbLogStore.Purge` | crates/rekha-cluster/src/redb_log_store.rs:292-319 | collecting and removing keys drops exactly the indices up to the given one |
| `RaftStores.RedbLogStore.FindLastLogId` | crates/rekha-cluster/src/redb_log_store.rs:84-105 | the position of highest index among the keys |
| `RaftStores.RedbLogStore.ReadLogEntries` | crates/rekha-cluster/src/redb_log_store.rs:61-82 | the entries found index by index |
| `Cluster.LeaderIff` | crates/rekha-cluster/src/state_machine.rs:56-87 | after any log a node leads exactly when the latest transfer elected it while a member and nothing added or removed it since |
| `Cluster.AtMostOneLeader` | crates/rekha-cluster/src/state_machine.rs:80-86 | at every point of every log there is at most one leader |
| `Cluster.NodesAreLatest` | crates/rekha-cluster/src/state_machine.rs:62-71 | a node is there exactly if the latest entry that adds or removes it adds it, under the address given there |
| `Cluster.UntouchedNode` | crates/rekha-cluster/src/state_machine.rs:56-87 | a node no entry adds or removes keeps its id and address |
| `Cluster.CollectionsAreLatest` | crates/rekha-cluster/src/state_machine.rs:72-79 | a collection is assigned exactly if the latest entry that names it assigns it, to the owners given there |
| `Cluster.UnplacedCollection` | crates/rekha-cluster/src/state_machine.rs:56-87 | a collection no entry names keeps its owners |
| `Cluster.AppliedIsLast` | crates/rekha-cluster/src/state_machine.rs:142-166 | the applied position is that of the last entry, and no entry changes a clock |
| `Cluster.MembershipIsLatest` | crates/rekha-cluster/src/state_machine.rs:142-166 | the membership is the latest one of the log with the position it stands at |
| `Cluster.SnapshotThenRest` | crates/rekha-cluster/src/state_machine.rs:178-226 | installing a snapshot taken at any log prefix and applying the rest equals applying the whole log |
| `Cluster.InstallRestores` | crates/rekha-cluster/src/state_machine.rs:95-130 | a snapshot replaces whatever state it is installed over and the engine gets its own bytes back |
| `Cluster.CutSnapshotIff` | crates/rekha-cluster/src/state_machine.rs:185-226 | a cut-off snapshot is accepted; the receiver has the snapshot's state exactly when the cluster part was whole or it already held it |
| `Cluster.CutSnapshotAccepted` | crates/rekha-cluster/src/state_machine.rs:185-187 | a snapshot cut to three bytes installs without an error and changes nothing |
| `Cluster.ClusterStateMachine.TransferTo` | crates/rekha-cluster/src/state_machine.rs:80-86 | the loop over the nodes leaves exactly the new leader marked |
| `Cluster.ClusterStateMachine.Apply` | crates/rekha-cluster/src/state_machine.rs:142-166 | the loop over the entries equals applying the log, and each entry is answered with its own operation or membership |
| `Cluster.ClusterStateMachine.BuildSnapshot` | crates/rekha-cluster/src/state_machine.rs:95-130 | length, cluster state and engine bytes; an engine failure is reported |
| `Cluster.ClusterStateMachine.InstallSnapshot` | crates/rekha-cluster/src/state_machine.rs:178-226 | the new state, the bytes handed to the engine, and what is left behind on each error |

## Left out
- Rounding: vectors, distances and float metadata are exact reals, so f32 and f64 rounding, NaN and the infinities do not occur; only the conversion of integers to binary64 is modelled.
- Foreign code: bincode and JSON text (a payload codec that decodes what it encoded, and a JSON value datatype), CRC-32 (an arbitrary function), the usearch graph (a search that returns vectors it holds), redb, roaring, memory maps and the openraft protocol.
- Hash-map iteration order is a parameter of the methods that depend on it.
- Integer widths: sequence numbers (u64), offsets (u32) and labels (u64) do not overflow, and segment lengths wrap as in a 64-bit release build; log frames, segment counts and snapshot lengths are assumed to fit their 32-bit fields where the lemmas say so.
- Distances.NormalizedNorm: takes the norm as a given non-negative square root, because exact reals here have no square-root function.
- Distances.CosineRange: takes the two norms in the same way.
- Guarantees.RunRefinesFold: a crash inside a checkpoint is a step only if the record files load or no checkpoint was completed before; the general single crash is `Crash.CrashRestoresIff`.
- Guarantees.RunKeepsTwoTiers: leaves out the same crashes, and the crash between index.bin and index.meta unless the pair loads as a sound index or no live vector needs it; the general single crash is `Crash.TornIndexIff`.
- Runs.RunInv: leaves out the same crashes.
- Runs.ExecInv: leaves out the same crashes.
- Crash.TornIndexIff: no run continues from a torn pair that loads without being a sound index, whose label counter can be behind the graph; later adds there are covered by `Collection.FlushesIff` alone.
- Collection.FlushesIff: the graph refuses an add only for a label it holds, and carries out every delete; its other failures are in `Labels`.
- Reads.CrashedRowsIff: compares with the segment the checkpoint was writing; reads over whole runs are stated for completed checkpoints.
- Follower.SkippedRecordIff: one record of the delta fails; several are not combined.
- Guarantees.RunKeepsPostings: selects exactly only where no integer operand collides with a stored value, the condition of `Postings.EqualityAgreesIff`.
- Query.BruteForceIsExact: only for runs without a checkpoint; vectors after a checkpoint are covered by the conditions in `Reads` and by `Query.BruteExactIff`.
- Query.HybridSound: the index search is a parameter that promises only held ids at true distances.
- Follower.WalReplication.Poll: one collection and a round in which the engine refuses nothing; refused records are `Follower.SkippedRecordIff`.
- Query.FilteredAnswers: needs that no integer operand collides with a stored value, the condition of `Postings.EqualityAgreesIff`.
- Query.AnnAnswers: needs the same.
- CollectionStore.CollectionStore.Call: takes no dimension from the first write of a collection without one.
- Follower.FollowerTracks: needs every shipped operation to decode and apply, and the leader's log to reach back to the follower's position; the gap is `Follower.GapHarmlessIff`.
- CollectionStore.CollectionStore.Query: returns ids and distances; attaching metadata, documents and vectors to the hits is left out.
- WAL I/O errors in the middle of a batch, a flush that fails for another reason than a held label, and other error paths of file operations.
- Syncing: completed writes and renames are durable in program order.
- `optimize` and `rebuild_index`, whole-engine snapshot and restore, the object-store copy of segments, and a dimension inferred from the first write.
- RaftStores: vote and committed position, stored and returned as they are.
- Cluster: the text of responses, and the clock map beyond that no entry changes it.
- HTTP, the command line other than the follower loop, authentication, tenants and databases, and request-size checks.
