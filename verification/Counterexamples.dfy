/**
 Reachable states at which a plausible property of the engine fails.  Each is a concrete run, for
 any configuration of one-dimensional vectors; the section headings name the lemma that states the
 general condition.
 */
module Counterexamples {
  import opened Core
  import opened History
  import opened Filter
  import opened Collection
  import opened Batches
  import opened Runs
  import opened Guarantees
  import opened Crash
  import opened Reads
  import opened Nearest
  import opened Query
  import F = Follower
  import L = Labels
  import W = WalLog
  import WF = WalFormat

  // ---------------------------------------------------------------------------------------------
  // Building runs
  // ---------------------------------------------------------------------------------------------

  /** What a scenario knows of its state. */
  ghost predicate Holds(s: Sys, h: seq<Operation>, r: map<Id, Record>, b: seq<Record>, ix: map<Id, Embedding>, f: nat) {
    && s.history == h
    && s.mem.records == r && s.mem.buffer == b && s.mem.index == ix && s.mem.flushedSeq == f
  }

  lemma Begin(c: Config)
    ensures Run(c, []) == Some(Start(c)) && Holds(Start(c), [], map[], [], map[], 0)
  {
  }

  lemma Extend(c: Config, steps: seq<Step>, s: Sys, step: Step)
    requires Run(c, steps) == Some(s) && Enabled(c, s, step)
    ensures Run(c, steps + [step]) == Some(Exec(c, s, step))
  {
    assert (steps + [step])[..|steps|] == steps;
    hide Exec, Enabled;
  }

  function AddOne(x: Id, v: Embedding, m: Option<Metadata>): Batch {
    AddBatch([x], [v], Some([m]), None)
  }

  function UpsertOne(x: Id, v: Embedding): Batch {
    UpsertBatch([x], [v], None, None)
  }

  function UpdateOne(x: Id, m: Option<Metadata>): Batch {
    UpdateBatch([x], Some([m]), None)
  }

  lemma AddOps(c: Config, live: set<Id>, x: Id, v: Embedding, m: Option<Metadata>)
    requires |v| == c.dimension && x !in live
    ensures Accepted(c.dimension, live, AddOne(x, v, m))
    ensures Ops(c.dimension, live, AddOne(x, v, m)) == [Add(x, v, m, None)]
  {
  }

  lemma UpsertOps(c: Config, live: set<Id>, x: Id, v: Embedding)
    requires |v| == c.dimension
    ensures Accepted(c.dimension, live, UpsertOne(x, v))
    ensures Ops(c.dimension, live, UpsertOne(x, v)) == [Upsert(x, v, None, None)]
  {
  }

  lemma UpdateOps(c: Config, live: set<Id>, x: Id, m: Option<Metadata>)
    requires x in live
    ensures Accepted(c.dimension, live, UpdateOne(x, m))
    ensures Ops(c.dimension, live, UpdateOne(x, m)) == [Update(x, m, None)]
  {
  }

  lemma DeleteOps(c: Config, live: set<Id>, x: Id)
    ensures Accepted(c.dimension, live, DeleteBatch([x]))
    ensures Ops(c.dimension, live, DeleteBatch([x])) == [Delete(x)]
  {
  }

  lemma DoWrite(c: Config, steps: seq<Step>, s: Sys, batch: Batch, op: Operation,
                h: seq<Operation>, r: map<Id, Record>, b: seq<Record>, ix: map<Id, Embedding>, f: nat) returns (t: Sys)
    requires Run(c, steps) == Some(s) && Holds(s, h, r, b, ix, f)
    requires Accepted(c.dimension, r.Keys, batch) && Ops(c.dimension, r.Keys, batch) == [op]
    ensures Run(c, steps + [Write(batch)]) == Some(t)
    ensures Holds(t, h + [op], Apply(r, op, |h| + 1), BufferStep(b, op, |h| + 1), StepIndex(ix, op), f)
    ensures t.segments == s.segments && t.disk.marker == s.disk.marker && t.disk.records == s.disk.records
    ensures t.disk.meta == s.disk.meta && t.disk.segments == s.disk.segments
    ensures t.mem.labels == StepLabels(s.mem.labels, op)
    ensures |t.disk.wal| == |s.disk.wal| + 1
  {
    hide Accepted, Ops, SysInv, Run, Apply, BufferStep, StepIndex, StepLabels;
    RunInv(c, steps);
    Extend(c, steps, s, Write(batch));
    t := Exec(c, s, Write(batch));
    WriteOne(s, op);
    SysLog(c, s);
    SysDisk(c, s);
  }

  lemma SysDisk(c: Config, s: Sys)
    requires SysInv(c, s)
    ensures s.disk.wal == s.wal.records && Labelling(s.mem.labels, s.mem.index)
  {
  }

  lemma WriteOne(s: Sys, op: Operation)
    ensures WriteOps(s, [op]) ==
            Sys(ApplyOp(s.mem, op, s.wal.lastSeq + 1), W.Append(s.wal, op), s.segments,
                s.disk.(wal := W.Append(s.wal, op).records), s.history + [op])
  {
    hide ApplyOp;
    var rs := W.Append(s.wal, op).records[|s.wal.records|..];
    assert [op][..0] == [];
    assert W.AppendAll(s.wal, [op]) == W.Append(s.wal, op);
    assert rs == [W.WalRecord(s.wal.lastSeq + 1, s.wal.epoch, op)];
    assert rs[..0] == [];
    assert ReplayLog(s.mem, rs) == ApplyOp(ReplayLog(s.mem, []), op, s.wal.lastSeq + 1);
  }

  lemma DoFlush(c: Config, steps: seq<Step>, s: Sys,
                h: seq<Operation>, r: map<Id, Record>, b: seq<Record>, ix: map<Id, Embedding>, f: nat) returns (t: Sys)
    requires Run(c, steps) == Some(s) && Holds(s, h, r, b, ix, f)
    ensures Run(c, steps + [FlushNow]) == Some(t)
    ensures Holds(t, h, r, [], FlushInto(ix, b), Max(f, MaxSeq(b)))
    ensures t.segments == s.segments && t.disk == s.disk
    ensures t.mem.labels == FlushLabels(s.mem.labels, b)
  {
    hide SysInv, Run, Flushes, FlushLabels, FlushInto, MaxSeq;
    RunInv(c, steps);
    InvOf(c, s);
    FlushInv(s.mem, s.history);
    Extend(c, steps, s, FlushNow);
    t := Exec(c, s, FlushNow);
  }

  lemma DoCheckpoint(c: Config, steps: seq<Step>, s: Sys, rows: seq<Id>,
                     h: seq<Operation>, r: map<Id, Record>, b: seq<Record>, ix: map<Id, Embedding>, f: nat) returns (t: Sys)
    requires Run(c, steps) == Some(s) && Holds(s, h, r, b, ix, f) && r != map[] && ListsVectors(rows, r)
    ensures Run(c, steps + [CheckpointNow(rows)]) == Some(t)
    ensures Holds(t, h, Strip(r, f), b, ix, f)
    ensures t.segments == SegmentsFor(r, rows)
    ensures t.disk.marker.Some? && t.disk.marker.value.flushedSeq == f && t.disk.marker.value.recordCount == |r|
    ensures SavedLabels(t.disk).Keys == ix.Keys
    ensures t.mem.labels == s.mem.labels
    ensures t.disk.meta == if s.mem.labels.graph == map[] then None else Some(L.MetaOf(s.mem.labels))
    ensures t.disk.segments == SegmentsFor(r, rows)
    ensures |h| - |t.disk.wal| >= 0 && (f == |h| ==> t.disk.wal == [])
  {
    hide SysInv, Run, CheckpointFiles, ListsVectors, W.Above, W.Open, SegmentsFor, Strip;
    RunInv(c, steps);
    Extend(c, steps, s, CheckpointNow(rows));
    t := Exec(c, s, CheckpointNow(rows));
    RunInv(c, steps + [CheckpointNow(rows)]);
    SysDisk(c, s);
    CheckpointParts(s, rows);
    CheckpointSegments(s, rows);
    SavedPair(s, rows, 8);
    LabelIds(s.mem.labels, s.mem.index);
    PrunedLog(c, s, rows);
    SysLog(c, t);
    SysDisk(c, t);
    LogContents(t.history, c.epoch, t.wal.records);
  }

  lemma CheckpointSegments(s: Sys, rows: seq<Id>)
    requires ListsVectors(rows, s.mem.records) && s.mem.records != map[]
    ensures Checkpoint(s, rows).segments == SegmentsFor(s.mem.records, rows)
    ensures Checkpoint(s, rows).disk.segments == SegmentsFor(s.mem.records, rows)
    ensures Checkpoint(s, rows).disk.meta == if s.mem.labels.graph == map[] then None else Some(L.MetaOf(s.mem.labels))
  {
  }

  lemma PrunedLog(c: Config, s: Sys, rows: seq<Id>)
    requires SysInv(c, s) && ListsVectors(rows, s.mem.records)
    ensures s.mem.flushedSeq == |s.history| ==> CheckpointFiles(s, rows, 8).wal == []
  {
    hide W.Entries, W.Above, ListsVectors, Inv;
    SysLog(c, s);
    LogParts(s.history, c.epoch, s.wal.records);
    SysWatermark(c, s);
    W.EntriesAbove(s.history, c.epoch, |s.history| - |s.wal.records|, s.mem.flushedSeq);
    assert |W.Entries(s.history, c.epoch, |s.history|)| == 0;
  }

  lemma SysWatermark(c: Config, s: Sys)
    requires SysInv(c, s)
    ensures |s.history| - |s.wal.records| <= s.mem.flushedSeq <= |s.history|
  {
  }

  // ---------------------------------------------------------------------------------------------
  // One checkpointed record
  // ---------------------------------------------------------------------------------------------

  const A := "a"
  const B := "b"
  const C := "c"

  function FirstSteps(): seq<Step> {
    [] + [Write(AddOne(A, [1.0], None))] + [FlushNow] + [CheckpointNow([A])]
  }

  /** Add a, flush, checkpoint: the record is stripped, its vector sits in the segment and the index. */
  lemma Checkpointed(c: Config) returns (s: Sys)
    requires c.dimension == 1
    ensures Run(c, FirstSteps()) == Some(s)
    ensures Holds(s, [Add(A, [1.0], None, None)], map[A := Record(A, None, None, None, 1)], [], map[A := [1.0]], 1)
    ensures s.segments == Segments(Some([[1.0]]), map[A := 0])
    ensures s.disk.marker.Some? && s.disk.marker.value.flushedSeq == 1 && s.disk.marker.value.recordCount == 1
    ensures s.disk.wal == [] && s.disk.segments == s.segments
    ensures s.mem.labels == L.Labelled(map[A := 0], map[0 := A], 1, map[0 := [1.0]])
    ensures s.disk.meta == Some(L.IndexMeta(map[A := 0], map[0 := A], 1))
  {
    hide Run;
    var add := Add(A, [1.0], None, None);
    var a := Record(A, Some([1.0]), None, None, 1);
    Begin(c);
    AddOps(c, {}, A, [1.0], None);
    var s1 := DoWrite(c, [], Start(c), AddOne(A, [1.0], None), add, [], map[], [], map[], 0);
    assert [] + [add] == [add];
    FirstWrite(add);
    var steps1 := [] + [Write(AddOne(A, [1.0], None))];
    var s2 := DoFlush(c, steps1, s1, [add], map[A := a], [a], map[], 0);
    FlushOne(map[], a);
    FirstLabels(a);
    FirstRows(a);
    s := DoCheckpoint(c, steps1 + [FlushNow], s2, [A], [add], map[A := a], [], map[A := [1.0]], 1);
  }

  lemma FirstWrite(op: Operation)
    requires op.Add?
    ensures Apply(map[], op, 1) == map[op.id := Written(op, 1)]
    ensures BufferStep([], op, 1) == [Written(op, 1)]
    ensures StepIndex(map[], op) == map[]
  {
  }

  lemma FlushOne(ix: map<Id, Embedding>, e: Record)
    requires e.embedding.Some?
    ensures FlushInto(ix, [e]) == ix[e.id := e.embedding.value] && MaxSeq([e]) == e.seqNo
  {
    assert [e][..0] == [];
    assert FlushInto(ix, []) == ix;
    assert MaxSeq([]) == 0;
  }

  lemma FirstLabels(a: Record)
    requires a.id == A && a.embedding == Some([1.0])
    ensures StepLabels(L.NO_LABELS, Add(A, [1.0], None, None)) == L.NO_LABELS
    ensures FlushLabels(L.NO_LABELS, [a]) == L.Labelled(map[A := 0], map[0 := A], 1, map[0 := [1.0]])
  {
    assert [a][..0] == [];
    assert FlushLabels(L.NO_LABELS, []) == L.NO_LABELS && Flushes(L.NO_LABELS, []);
  }

  lemma FirstRows(a: Record)
    requires a.id == A && a.embedding == Some([1.0]) && a.seqNo == 1
    ensures ListsVectors([A], map[A := a])
    ensures SegmentsFor(map[A := a], [A]) == Segments(Some([[1.0]]), map[A := 0])
    ensures Strip(map[A := a], 1) == map[A := a.(embedding := None)]
  {
    var g := SegmentsFor(map[A := a], [A]);
    assert g.rows.value == [[1.0]];
    assert [A][0] in g.rowOf;
    assert g.rowOf.Keys == {A};
  }

  // ---------------------------------------------------------------------------------------------
  // Crash.CrashRestoresIff
  // ---------------------------------------------------------------------------------------------

  /**
   Add a, flush, checkpoint, add b, and a crash inside the second checkpoint after records.bin: the
   marker counts one record, the file holds two, and a is lost.
   */
  lemma CrashLosesRecord(c: Config) returns (s: Sys)
    requires c.dimension == 1
    ensures Run(c, FirstSteps() + [Write(AddOne(B, [2.0], None))]) == Some(s)
    ensures ListsVectors([B], s.mem.records) && OrderFor(CheckpointFiles(s, [B], 1), [])
    ensures A in Fold(s.history, |s.history|)
    ensures A !in OpenFrom(c, CheckpointFiles(s, [B], 1), [], s.history).mem.records
  {
    hide Run, SysInv;
    var add := Add(B, [2.0], None, None);
    var s0 := Checkpointed(c);
    var h, r, ix := s0.history, s0.mem.records, s0.mem.index;
    AddOps(c, r.Keys, B, [2.0], None);
    s := DoWrite(c, FirstSteps(), s0, AddOne(B, [2.0], None), add, h, r, [], ix, 1);
    RunInv(c, FirstSteps() + [Write(AddOne(B, [2.0], None))]);
    assert s.mem.records == map[A := Record(A, None, None, None, 1), B := Record(B, Some([2.0]), None, None, 2)];
    CrashedBefore(c, s);
  }

  lemma CrashedBefore(c: Config, s: Sys)
    requires c.dimension == 1
    requires SysInv(c, s) && |s.history| == 2 && |s.disk.wal| == 1
    requires s.mem.records == map[A := Record(A, None, None, None, 1), B := Record(B, Some([2.0]), None, None, 2)]
    requires s.disk.marker.Some? && s.disk.marker.value.recordCount == 1
    ensures ListsVectors([B], s.mem.records) && OrderFor(CheckpointFiles(s, [B], 1), [])
    ensures A in Fold(s.history, |s.history|)
    ensures A !in OpenFrom(c, CheckpointFiles(s, [B], 1), [], s.history).mem.records
  {
    hide Inv, FilesOk, LabelsKept, Replayed, Replay;
    var h := s.history;
    RecordsMatch(c, s);
    var d := CheckpointFiles(s, [B], 1);
    assert |s.mem.records| == 2;
    assert d.records == Some(s.mem.records) && d.marker == s.disk.marker && d.wal == s.disk.wal;
    CheckpointRecordFilesOk(c, s, [B], 1);
    FilesHoldLog(d, h, c.epoch);
    hide RecordFilesOk, CheckpointFiles, LogHolds;
    LosesOld(c, s, d, h, A);
  }

  lemma RecordsMatch(c: Config, s: Sys)
    requires SysInv(c, s)
    ensures Valid(s.history)
    ensures RecordFilesOk(s.disk, s.history, c.epoch)
    ensures s.mem.records.Keys == Fold(s.history, |s.history|).Keys
    ensures forall x :: x in s.mem.records ==> s.mem.records[x].seqNo == Fold(s.history, |s.history|)[x].seqNo
  {
    hide Replay;
    var truth := Fold(s.history, |s.history|);
    forall x | x in s.mem.records
      ensures s.mem.records[x].seqNo == truth[x].seqNo
    {
      assert s.mem.records[x].(embedding := None).seqNo == truth[x].(embedding := None).seqNo;
    }
  }

  /** A full replay of a pruned log misses every record last written at or below its base. */
  lemma LosesOld(c: Config, s: Sys, d: Disk, h: seq<Operation>, x: Id)
    requires Valid(h) && LogHolds(h, c.epoch, d.wal) && !Accepts(d)
    requires x in Fold(h, |h|) && Fold(h, |h|)[x].seqNo <= |h| - |d.wal|
    requires RecordFilesOk(d, h, c.epoch)
    ensures x !in OpenFrom(c, d, [], h).mem.records
  {
    hide Replay, Replayed, RecordFilesOk, LogHolds, Accepts;
    RejectedReplay(c, d, [], h);
    FilesHoldLog(d, h, c.epoch);
    LogContents(h, c.epoch, d.wal);
    ReplayInStep(h, |h| - |d.wal|, |h|, map[], x);
    PartialLookup(h, |h| - |d.wal|, x);
  }

  // ---------------------------------------------------------------------------------------------
  // Crash.CrashOpensIff
  // ---------------------------------------------------------------------------------------------

  function MovedSteps(): seq<Step> {
    FirstSteps() + [Write(UpsertOne(A, [2.0]))] + [FlushNow]
  }

  /** After the checkpoint a is written again and flushed: its vector moves from label 0 to label 1. */
  lemma Moved(c: Config) returns (s: Sys)
    requires c.dimension == 1
    ensures Run(c, MovedSteps()) == Some(s)
    ensures s.history == [Add(A, [1.0], None, None), Upsert(A, [2.0], None, None)]
    ensures s.mem.records == map[A := Record(A, Some([2.0]), None, None, 2)]
    ensures s.mem.labels.graph == map[1 := [2.0]]
    ensures s.disk.meta == Some(L.IndexMeta(map[A := 0], map[0 := A], 1))
    ensures s.disk.marker.Some? && s.disk.marker.value.flushedSeq == 1 && s.disk.marker.value.recordCount == 1
  {
    hide Run, SysInv;
    var op := Upsert(A, [2.0], None, None);
    var s0 := Checkpointed(c);
    UpsertOps(c, s0.mem.records.Keys, A, [2.0]);
    var s1 := DoWrite(c, FirstSteps(), s0, UpsertOne(A, [2.0]), op, s0.history, s0.mem.records, [], s0.mem.index, 1);
    MovedLabels(s0.mem.labels, Written(op, 2), op);
    s := DoFlush(c, FirstSteps() + [Write(UpsertOne(A, [2.0]))], s1, s1.history, s1.mem.records, [Written(op, 2)], s1.mem.index, 1);
  }

  lemma MovedLabels(x: L.Labelled, e: Record, op: Operation)
    requires x == L.Labelled(map[A := 0], map[0 := A], 1, map[0 := [1.0]])
    requires e.id == A && e.embedding == Some([2.0]) && op.Upsert? && op.id == A
    ensures StepLabels(x, op) == x && Without([], A) == []
    ensures FlushLabels(x, [e]).graph == map[1 := [2.0]]
  {
    assert [e][..0] == [];
    assert FlushLabels(x, []) == x && Flushes(x, []);
    assert L.RemoveFrom(x, A, true) == L.Labelled(map[], map[], 1, map[]);
  }

  /**
   A crash after index.bin of the next checkpoint.  The files load and every record is restored, but
   the newer graph holds the label that the older maps hand out next: with a batch size of one the
   flush at the end of open fails, and so does open, every time.
   */
  lemma TornIndexRefusesOpen(c: Config) returns (s: Sys)
    requires c.dimension == 1 && c.batchSize <= 1
    ensures Run(c, MovedSteps()) == Some(s) && ListsVectors([A], s.mem.records)
    ensures var d := CheckpointFiles(s, [A], 2);
            && Accepts(d) && L.PairLoads(d.graph, d.meta)
            && forall order :: OrderFor(d, order) ==>
                 Below(Replayed(c, d, order).records, Fold(s.history, |s.history|)) && !Opens(c, d, order)
  {
    hide Run, SysInv, Replayed, Opens, CheckpointFiles, Below;
    s := Moved(c);
    RunInv(c, MovedSteps());
    TornParts(s, [A]);
    var d := CheckpointFiles(s, [A], 2);
    assert 1 in s.mem.labels.graph;
    SizesFit(s, d);
    forall order | OrderFor(d, order)
      ensures Below(Replayed(c, d, order).records, Fold(s.history, |s.history|)) && !Opens(c, d, order)
    {
      CrashRestoresIff(c, s, [A], 2, order);
      RefusedOpen(c, s, order);
    }
  }

  lemma SizesFit(s: Sys, d: Disk)
    requires s.mem.records == map[A := Record(A, Some([2.0]), None, None, 2)] && d.records == Some(s.mem.records)
    requires d.marker.Some? && d.marker.value.recordCount == 1
    requires d.graph == Some(map[1 := [2.0]]) && d.meta == Some(L.IndexMeta(map[A := 0], map[0 := A], 1))
    ensures Accepts(d) && L.PairLoads(d.graph, d.meta) && OpenedLabels(d).nextLabel == 1 && OpenedLabels(d).graph == d.graph.value
  {
    assert |s.mem.records| == 1;
  }

  lemma RefusedOpen(c: Config, s: Sys, order: seq<Id>)
    requires c.batchSize <= 1 && SysInv(c, s) && ListsVectors([A], s.mem.records)
    requires s.history == [Add(A, [1.0], None, None), Upsert(A, [2.0], None, None)]
    requires var d := CheckpointFiles(s, [A], 2);
             && Accepts(d) && OrderFor(d, order) && d.marker.value.flushedSeq == 1
             && OpenedLabels(d).nextLabel == 1 && 1 in OpenedLabels(d).graph
    ensures !Opens(c, CheckpointFiles(s, [A], 2), order)
  {
    hide SysInv, CheckpointFiles, ListsVectors, Replayed, Opens, OrderFor;
    var h := s.history;
    TornReplay(c, s, [A], order);
    CrashOpensIff(c, s, [A], 2, order);
    PendingLast(h, 1);
    assert Without([], A) == [];
  }

  // ---------------------------------------------------------------------------------------------
  // Reads.CrashedRowsIff
  // ---------------------------------------------------------------------------------------------

  /** A crash between the segment rows and their index: a reads the vector of b. */
  lemma TornRowsMixUp(c: Config) returns (s: Sys)
    requires c.dimension == 1
    ensures Run(c, FirstSteps() + [Write(AddOne(B, [2.0], None))]) == Some(s) && ListsVectors([B], s.mem.records)
    ensures Fold(s.history, |s.history|).Keys == {A, B}
    ensures forall order ::
              var t := OpenFrom(c, CheckpointFiles(s, [B], 5), order, s.history);
              LoadVector(t.segments, A) == Some([2.0])
  {
    hide Run, SysInv;
    var add := Add(B, [2.0], None, None);
    var s0 := Checkpointed(c);
    AddOps(c, {A}, B, [2.0], None);
    s := DoWrite(c, FirstSteps(), s0, AddOne(B, [2.0], None), add, s0.history, s0.mem.records, [], s0.mem.index, 1);
    RunInv(c, FirstSteps() + [Write(AddOne(B, [2.0], None))]);
    LiveIds(c, s);
    assert s.mem.records == map[A := Record(A, None, None, None, 1), B := Record(B, Some([2.0]), None, None, 2)];
    MixedRows(c, s);
  }

  lemma MixedRows(c: Config, s: Sys)
    requires s.mem.records == map[A := Record(A, None, None, None, 1), B := Record(B, Some([2.0]), None, None, 2)]
    requires s.disk.segments == Segments(Some([[1.0]]), map[A := 0])
    ensures ListsVectors([B], s.mem.records)
    ensures forall order ::
              LoadVector(OpenFrom(c, CheckpointFiles(s, [B], 5), order, s.history).segments, A) == Some([2.0])
  {
    hide Replayed;
    var g := SegmentsFor(s.mem.records, [B]);
    assert g.rows.value == [[2.0]];
  }

  // ---------------------------------------------------------------------------------------------
  // Reads.ReadsAfterCheckpointIff and Reads.SecondCheckpointReadsIff
  // ---------------------------------------------------------------------------------------------

  /** An upsert after the checkpoint is shadowed by the segment. */
  lemma SegmentShadowsUpsert(c: Config) returns (s: Sys)
    requires c.dimension == 1
    ensures Run(c, FirstSteps() + [Write(UpsertOne(A, [2.0]))]) == Some(s)
    ensures A in s.mem.records && ReadVector(s.segments, s.mem.records, A) == Some([1.0])
    ensures A in Fold(s.history, |s.history|) && Fold(s.history, |s.history|)[A].embedding == Some([2.0])
  {
    hide Run, SysInv;
    var op := Upsert(A, [2.0], None, None);
    var s0 := Checkpointed(c);
    UpsertOps(c, s0.mem.records.Keys, A, [2.0]);
    s := DoWrite(c, FirstSteps(), s0, UpsertOne(A, [2.0]), op, s0.history, s0.mem.records, [], s0.mem.index, 1);
    RunRefinesFold(c, FirstSteps() + [Write(UpsertOne(A, [2.0]))]);
  }

  /**
   An update after the first checkpoint raises the record's number above the watermark without
   giving it back its vector; the second checkpoint then writes no segment row for it.
   */
  lemma SecondCheckpointForgets(c: Config) returns (s: Sys)
    requires c.dimension == 1
    ensures Run(c, FirstSteps() + [Write(UpdateOne(A, Some(map[])))] + [CheckpointNow([])]) == Some(s)
    ensures A in s.mem.records && s.mem.records[A].seqNo > 1 && ReadVector(s.segments, s.mem.records, A) == None
    ensures A in Fold(s.history, |s.history|) && Fold(s.history, |s.history|)[A].embedding == Some([1.0])
  {
    hide Run, SysInv;
    var op := Update(A, Some(map[]), None);
    var s0 := Checkpointed(c);
    UpdateOps(c, s0.mem.records.Keys, A, Some(map[]));
    var steps := FirstSteps() + [Write(UpdateOne(A, Some(map[])))];
    var s1 := DoWrite(c, FirstSteps(), s0, UpdateOne(A, Some(map[])), op, s0.history, s0.mem.records, [], s0.mem.index, 1);
    UpdatedRows(s0.mem.records, op);
    s := DoCheckpoint(c, steps, s1, [], s1.history, s1.mem.records, [], s0.mem.index, 1);
    NewestAfterUpdate(s.history, op);
  }

  lemma UpdatedRows(r: map<Id, Record>, op: Operation)
    requires r == map[A := Record(A, None, None, None, 1)] && op == Update(A, Some(map[]), None)
    ensures var u := Apply(r, op, 2);
            && u == map[A := Record(A, None, Some(map[]), None, 2)] && u != map[]
            && ListsVectors([], u) && SegmentsFor(u, []) == NO_SEGMENTS && Strip(u, 1) == u
  {
    var u := Apply(r, op, 2);
    assert u == map[A := Record(A, None, Some(map[]), None, 2)];
    assert A in u;
  }

  lemma NewestAfterUpdate(h: seq<Operation>, op: Operation)
    requires h == [Add(A, [1.0], None, None), op] && op.Update? && op.id == A
    ensures A in Fold(h, 2) && Fold(h, 2)[A].embedding == Some([1.0])
  {
    assert Fold(h, 1) == Apply(Replay(h, 0, 0, map[]), h[0], 1);
    assert Fold(h, 2) == Apply(Fold(h, 1), h[1], 2);
  }

  // ---------------------------------------------------------------------------------------------
  // Query.HybridExactIff
  // ---------------------------------------------------------------------------------------------

  function FirstComponent(v: Embedding): real {
    if |v| > 0 then v[0] else 0.0
  }

  function TwoSteps(y: Id): seq<Step> {
    [] + [Write(AddOne(A, [0.0], None))] + [Write(AddOne(y, [5.0], None))] + [FlushNow]
  }

  /** Add a at 0 and another record at 5, then flush. */
  lemma TwoFlushed(c: Config, y: Id) returns (s: Sys)
    requires c.dimension == 1
    requires y != A
    ensures Run(c, TwoSteps(y)) == Some(s)
    ensures Holds(s, [Add(A, [0.0], None, None), Add(y, [5.0], None, None)],
                  map[A := Record(A, Some([0.0]), None, None, 1), y := Record(y, Some([5.0]), None, None, 2)], [],
                  map[A := [0.0], y := [5.0]], 2)
  {
    hide Run, SysInv;
    var addA, addY := Add(A, [0.0], None, None), Add(y, [5.0], None, None);
    var a, e := Written(addA, 1), Written(addY, 2);
    Begin(c);
    AddOps(c, {}, A, [0.0], None);
    var steps1 := [] + [Write(AddOne(A, [0.0], None))];
    var s1 := DoWrite(c, [], Start(c), AddOne(A, [0.0], None), addA, [], map[], [], map[], 0);
    FirstWrite(addA);
    AddOps(c, {A}, y, [5.0], None);
    var s2 := DoWrite(c, steps1, s1, AddOne(y, [5.0], None), addY, [] + [addA], map[A := a], [a], map[], 0);
    SecondWrite(addA, addY);
    s := DoFlush(c, steps1 + [Write(AddOne(y, [5.0], None))], s2, [addA, addY], map[A := a, y := e], [a, e], map[], 0);
    FlushTwo(a, e);
  }

  lemma SecondWrite(op1: Operation, op2: Operation)
    requires op1.Add? && op2.Add? && op1.id != op2.id
    ensures var e1, e2 := Written(op1, 1), Written(op2, 2);
            && Apply(map[op1.id := e1], op2, 2) == map[op1.id := e1, op2.id := e2]
            && BufferStep([e1], op2, 2) == [e1, e2]
    ensures [] + [op1] + [op2] == [op1, op2]
  {
    var e1 := Written(op1, 1);
    assert [e1][1..] == [];
    assert Without([], op2.id) == [];
    assert Without([e1], op2.id) == [e1] + Without([e1][1..], op2.id);
  }

  lemma FlushTwo(a: Record, b: Record)
    requires a.id != b.id && a.embedding.Some? && b.embedding.Some? && a.seqNo < b.seqNo
    ensures FlushInto(map[], [a, b]) == map[a.id := a.embedding.value, b.id := b.embedding.value]
    ensures MaxSeq([a, b]) == b.seqNo
  {
    assert [a, b][..1] == [a];
    FlushOne(map[], a);
  }

  /**
   a and b are committed at 0 and 5, then a moves to 9 in the buffer.  An exact search for the one
   nearest to 0 hits the stale a, and the hybrid path answers a at 9 although b is at 5.
   */
  lemma StaleHitHidesNeighbour(c: Config) returns (s: Sys)
    requires c.dimension == 1
    ensures Run(c, TwoSteps(B) + [Write(UpsertOne(A, [9.0]))]) == Some(s)
    ensures KNearest([Scored(A, 0.0)], IndexDist(s.mem.index, FirstComponent), 1)
    ensures KNearest([Scored(A, 9.0)], HybridDist([Scored(A, 0.0)], s.mem.buffer, FirstComponent), 1)
    ensures !KNearest([Scored(A, 9.0)], NewestDist(Fold(s.history, |s.history|), FirstComponent), 1)
  {
    hide Run, SysInv, KNearest, IndexDist, HybridDist, NewestDist;
    var up := Upsert(A, [9.0], None, None);
    var s0 := TwoFlushed(c, B);
    UpsertOps(c, {A, B}, A, [9.0]);
    s := DoWrite(c, TwoSteps(B), s0, UpsertOne(A, [9.0]), up, s0.history, s0.mem.records, [], s0.mem.index, 2);
    RunInv(c, TwoSteps(B) + [Write(UpsertOne(A, [9.0]))]);
    InvOf(c, s);
    InvServes(s.mem, s.history);
    StaleHit(s.mem, Fold(s.history, |s.history|));
  }

  lemma InvOf(c: Config, s: Sys)
    requires SysInv(c, s)
    ensures Inv(s.mem, s.history)
  {
  }

  lemma StaleHit(m: Mem, live: map<Id, Record>)
    requires Serves(m, live) && m.index == map[A := [0.0], B := [5.0]]
    requires m.buffer == [Record(A, Some([9.0]), None, None, 3)]
    ensures KNearest([Scored(A, 0.0)], IndexDist(m.index, FirstComponent), 1)
    ensures KNearest([Scored(A, 9.0)], HybridDist([Scored(A, 0.0)], m.buffer, FirstComponent), 1)
    ensures !KNearest([Scored(A, 9.0)], NewestDist(live, FirstComponent), 1)
  {
    hide Serves, HybridDist, NewestDist, Near, LeftOut;
    var hits, out := [Scored(A, 0.0)], [Scored(A, 9.0)];
    StaleIndex(m.index);
    StaleHybrid(m);
    SingleNearest();
    hide KNearest, IndexDist;
    HybridExactIff(m, live, hits, FirstComponent, out, 1);
    NothingNear();
    NotRanked(m, hits);
  }

  lemma StaleIndex(index: map<Id, Embedding>)
    requires index == map[A := [0.0], B := [5.0]]
    ensures IndexDist(index, FirstComponent) == map[A := 0.0, B := 5.0]
    ensures SoundHits([Scored(A, 0.0)], index, FirstComponent)
  {
  }

  lemma StaleHybrid(m: Mem)
    requires m.buffer == [Record(A, Some([9.0]), None, None, 3)]
    ensures HybridDist([Scored(A, 0.0)], m.buffer, FirstComponent) == map[A := 9.0]
  {
    var hits := [Scored(A, 0.0)];
    assert hits[..0] == [] && HitDist([]) == map[];
    assert HitDist(hits) == map[A := 0.0];
    assert m.buffer[..0] == [];
    assert OverBuffer(map[A := 0.0], [], FirstComponent) == map[A := 0.0];
  }

  lemma SingleNearest()
    ensures KNearest([Scored(A, 0.0)], map[A := 0.0, B := 5.0], 1)
    ensures KNearest([Scored(A, 9.0)], map[A := 9.0], 1)
  {
    assert |map[A := 0.0, B := 5.0]| == 2;
  }

  lemma NothingNear()
    ensures |Near(map[A := 9.0], 5.0)| == 0
  {
    assert Near(map[A := 9.0], 5.0) == {};
  }

  lemma NotRanked(m: Mem, hits: seq<Scored>)
    requires m.index == map[A := [0.0], B := [5.0]] && hits == [Scored(A, 0.0)]
    requires m.buffer == [Record(A, Some([9.0]), None, None, 3)]
    ensures LeftOut(m, hits, B) && FirstComponent(m.index[B]) == 5.0
  {
  }

  // ---------------------------------------------------------------------------------------------
  // Query.FilteredExactIff
  // ---------------------------------------------------------------------------------------------

  const COLOUR := "colour"
  const RED := Str("red")
  const BLUE := Str("blue")

  const IS_RED := Comparison(COLOUR, Eq(RED))

  function ColourSteps(): seq<Step> {
    [] + [Write(AddOne(A, [1.0], Some(map[COLOUR := RED])))] + [Write(UpdateOne(A, Some(map[COLOUR := BLUE])))]
  }

  lemma Recoloured(c: Config) returns (s: Sys)
    requires c.dimension == 1
    ensures Run(c, ColourSteps()) == Some(s)
    ensures s.mem.records == map[A := Record(A, Some([1.0]), Some(map[COLOUR := BLUE]), None, 2)]
    ensures s.mem.buffer == [Record(A, Some([1.0]), Some(map[COLOUR := RED]), None, 1)]
  {
    hide Run, SysInv;
    var red, blue := Some(map[COLOUR := RED]), Some(map[COLOUR := BLUE]);
    var add, up := Add(A, [1.0], red, None), Update(A, blue, None);
    Begin(c);
    AddOps(c, {}, A, [1.0], red);
    var steps1 := [] + [Write(AddOne(A, [1.0], red))];
    var s1 := DoWrite(c, [], Start(c), AddOne(A, [1.0], red), add, [], map[], [], map[], 0);
    FirstWrite(add);
    UpdateOps(c, {A}, A, blue);
    s := DoWrite(c, steps1, s1, UpdateOne(A, blue), up, [] + [add], map[A := Written(add, 1)], [Written(add, 1)], map[], 0);
  }

  /** A record is added red and updated to blue; a query for red still ranks the buffered red copy. */
  lemma StaleMetadataPasses(c: Config) returns (s: Sys)
    requires c.dimension == 1
    ensures Run(c, ColourSteps()) == Some(s)
    ensures A in FilteredDist(s.mem, Selected(s.mem, IS_RED), IS_RED, FirstComponent)
    ensures EligibleDist(Fold(s.history, |s.history|), IS_RED, FirstComponent) == map[]
  {
    hide Run, SysInv, FilteredDist, EligibleDist, Selected, ColourSteps, Fold;
    s := Recoloured(c);
    RunRefinesFold(c, ColourSteps());
    StaleMatch(s.mem, Fold(s.history, |s.history|), IS_RED, s.mem.buffer[0], s.mem.records[A]);
  }

  lemma StaleMatch(m: Mem, live: map<Id, Record>, f: Condition, buffered: Record, now: Record)
    requires f == Comparison(COLOUR, Eq(RED)) && buffered.id == A && buffered.embedding == Some([1.0])
    requires buffered.metadata == Some(map[COLOUR := RED]) && now.metadata == Some(map[COLOUR := BLUE])
    requires m.buffer == [buffered] && live.Keys == {A} && live[A].metadata == now.metadata
    ensures A in FilteredDist(m, Selected(m, f), f, FirstComponent)
    ensures EligibleDist(live, f, FirstComponent) == map[]
  {
    hide Selected;
    assert Matches(f, OrEmpty(buffered.metadata)) && !Matches(f, OrEmpty(now.metadata));
    assert m.buffer[..0] == [] && BufferPassing([], f) == [];
    assert BufferPassing(m.buffer, f) == [buffered];
    assert [buffered][..0] == [];
    assert A in OverBuffer(map[], [buffered], FirstComponent);
  }

  // ---------------------------------------------------------------------------------------------
  // Crash.TornReplayIff
  // ---------------------------------------------------------------------------------------------

  function TwoRecordSteps(): seq<Step> {
    TwoSteps(C) + [CheckpointNow([A, C])] + [Write(DeleteBatch([C]))] + [Write(AddOne(B, [2.0], None))]
  }

  lemma TwoCheckpointed(c: Config) returns (s: Sys)
    requires c.dimension == 1
    ensures Run(c, TwoSteps(C) + [CheckpointNow([A, C])]) == Some(s)
    ensures Holds(s, [Add(A, [0.0], None, None), Add(C, [5.0], None, None)],
                  map[A := Record(A, None, None, None, 1), C := Record(C, None, None, None, 2)], [],
                  map[A := [0.0], C := [5.0]], 2)
    ensures s.disk.marker.Some? && s.disk.marker.value.flushedSeq == 2 && s.disk.marker.value.recordCount == 2
    ensures SavedLabels(s.disk).Keys == {A, C}
  {
    hide Run, SysInv;
    var s0 := TwoFlushed(c, C);
    var r := s0.mem.records;
    TwoRows(r);
    s := DoCheckpoint(c, TwoSteps(C), s0, [A, C], s0.history, r, [], s0.mem.index, 2);
  }

  lemma TwoRows(r: map<Id, Record>)
    requires r == map[A := Record(A, Some([0.0]), None, None, 1), C := Record(C, Some([5.0]), None, None, 2)]
    ensures ListsVectors([A, C], r) && |r| == 2
    ensures Strip(r, 2) == map[A := Record(A, None, None, None, 1), C := Record(C, None, None, None, 2)]
  {
    assert |r| == |r.Keys| && r.Keys == {A, C};
  }

  /**
   a and c are checkpointed, then c is deleted and b added, so the record count fits again.  A crash
   after index.bin leaves a graph of one vector beside label maps of two: the index is refused, and
   a's vector is in neither tier.
   */
  lemma TornIndexLosesVector(c: Config) returns (s: Sys)
    requires c.dimension == 1
    ensures Run(c, TwoRecordSteps()) == Some(s) && ListsVectors([B], s.mem.records)
    ensures Accepts(CheckpointFiles(s, [B], 2))
    ensures forall order :: OrderFor(CheckpointFiles(s, [B], 2), order) ==>
              !TwoTiers(Replayed(c, CheckpointFiles(s, [B], 2), order), s.history)
  {
    hide Run, SysInv, TwoTiers, Replayed, CheckpointFiles, ListsVectors, Accepts, OrderFor;
    var del, addB := Delete(C), Add(B, [2.0], None, None);
    var s4 := TwoCheckpointed(c);
    var steps4 := TwoSteps(C) + [CheckpointNow([A, C])];
    DeleteOps(c, {A, C}, C);
    var s5 := DoWrite(c, steps4, s4, DeleteBatch([C]), del, s4.history, s4.mem.records, [], s4.mem.index, 2);
    AddOps(c, {A}, B, [2.0], None);
    AfterDelete(s4.mem.records, s4.mem.index, del);
    s := DoWrite(c, steps4 + [Write(DeleteBatch([C]))], s5, AddOne(B, [2.0], None), addB,
                 s5.history, s5.mem.records, [], s5.mem.index, 2);
    RunInv(c, TwoRecordSteps());
    TornBefore(c, s, s4.history[0], s4.history[1], del, addB);
  }

  lemma AfterDelete(r: map<Id, Record>, ix: map<Id, Embedding>, del: Operation)
    requires r == map[A := Record(A, None, None, None, 1), C := Record(C, None, None, None, 2)]
    requires ix == map[A := [0.0], C := [5.0]] && del == Delete(C)
    ensures Apply(r, del, 3) == map[A := Record(A, None, None, None, 1)]
    ensures BufferStep([], del, 3) == []
    ensures StepIndex(ix, del) == map[A := [0.0]]
  {
  }

  lemma TornBefore(c: Config, s: Sys, addA: Operation, addC: Operation, del: Operation, addB: Operation)
    requires c.dimension == 1
    requires SysInv(c, s) && s.history == [addA, addC, del, addB]
    requires addA.Add? && addA.id == A && addC.id == C && del == Delete(C) && addB.Add? && addB.id == B
    requires s.mem.records.Keys == {A, B} && s.mem.records[A].embedding.None? && s.mem.records[B].embedding.Some?
    requires s.mem.index.Keys == {A} && SavedLabels(s.disk).Keys == {A, C}
    requires s.disk.marker.Some? && s.disk.marker.value.flushedSeq == 2 && s.disk.marker.value.recordCount == 2
    ensures ListsVectors([B], s.mem.records)
    ensures Accepts(CheckpointFiles(s, [B], 2))
    ensures forall order :: OrderFor(CheckpointFiles(s, [B], 2), order) ==>
              !TwoTiers(Replayed(c, CheckpointFiles(s, [B], 2), order), s.history)
  {
    hide SysInv, TwoTiers, Replayed;
    var d := CheckpointFiles(s, [B], 2);
    TornParts(s, [B]);
    SysDisk(c, s);
    LabelIds(s.mem.labels, s.mem.index);
    L.CleanLoads(s.mem.labels);
    assert |s.mem.records| == |s.mem.records.Keys| == 2;
    assert |s.mem.labels.labels| == |s.mem.labels.labels.Keys| == 1;
    assert |SavedLabels(s.disk)| == |SavedLabels(s.disk).Keys| == 2;
    assert !L.PairLoads(d.graph, d.meta);
    assert Surviving(s.history, 4, 0);
    forall order | OrderFor(d, order)
      ensures !TwoTiers(Replayed(c, d, order), s.history)
    {
      TornReplayIff(c, s, [B], order);
    }
  }

  // ---------------------------------------------------------------------------------------------
  // Follower.GapHarmlessIff
  // ---------------------------------------------------------------------------------------------

  /**
   A new follower polls after the leader's first checkpoint pruned the log: it receives b alone,
   marks number 2 applied, and never asks for a again.
   */
  lemma GapLosesRecord(c: Config, k: WF.Codec) returns (s: Sys)
    requires c.dimension == 1
    requires k.Sound()
    ensures Run(c, FirstSteps() + [Write(AddOne(B, [2.0], None))]) == Some(s)
    ensures var f' := F.ApplyEntries(k, F.Replica(FRESH, 0), F.Delta(k, s.wal, 1).records);
            && f'.applied == |s.history|
            && A in Fold(s.history, |s.history|) && A !in f'.mem.records
  {
    hide Run, SysInv, F.ApplyEntries, F.Delta;
    var add := Add(B, [2.0], None, None);
    var s0 := Checkpointed(c);
    AddOps(c, {A}, B, [2.0], None);
    s := DoWrite(c, FirstSteps(), s0, AddOne(B, [2.0], None), add, s0.history, s0.mem.records, [], s0.mem.index, 1);
    RunInv(c, FirstSteps() + [Write(AddOne(B, [2.0], None))]);
    SysDisk(c, s);
    RecordsMatch(c, s);
    GapMisses(c, k, s);
  }

  lemma GapMisses(c: Config, k: WF.Codec, s: Sys)
    requires c.dimension == 1
    requires k.Sound() && SysInv(c, s) && |s.wal.records| == 1
    requires s.history == [Add(A, [1.0], None, None), Add(B, [2.0], None, None)]
    requires A in Fold(s.history, 2)
    ensures var f' := F.ApplyEntries(k, F.Replica(FRESH, 0), F.Delta(k, s.wal, 1).records);
            f'.applied == 2 && A !in f'.mem.records
  {
    hide SysInv, F.ApplyEntries, F.Delta;
    var h := s.history;
    SysLog(c, s);
    assert F.Tracks(F.Replica(FRESH, 0), h);
    F.GapHarmlessIff(c, k, s, F.Replica(FRESH, 0), A);
    F.GapShips(k, h, s.wal, 0);
    F.ShippedIsReplayed(k, F.Replica(FRESH, 0), F.Delta(k, s.wal, 1).records, h, 1);
    assert Replay(h, 1, 2, map[]) == Apply(Replay(h, 1, 1, map[]), h[1], 2);
  }
}
