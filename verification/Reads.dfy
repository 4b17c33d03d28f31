/**
 Reading vectors back.  A checkpoint moves vectors into segment files and strips the record map;
 reads ask the segment first.  The lemmas say exactly when such a read returns the newest vector.
 */
module Reads {
  import opened Core
  import opened History
  import opened Collection
  import opened Reopen
  import opened Runs
  import Crash
  import B = Batches
  import L = Labels
  import W = WalLog

  /** The segment row of an id, if the segment index knows the id. */
  function LoadVector(g: Segments, x: Id): Option<Embedding> {
    if x in g.rowOf && g.rows.Some? && g.rowOf[x] < |g.rows.value| then Some(g.rows.value[g.rowOf[x]]) else None
  }

  /** The vector `get` and the brute-force scan use: the segment's, else the record's own. */
  function ReadVector(g: Segments, r: map<Id, Record>, x: Id): Option<Embedding>
    requires x in r
  {
    if LoadVector(g, x).Some? then LoadVector(g, x) else r[x].embedding
  }

  // ---------------------------------------------------------------------------------------------
  // Before any checkpoint
  // ---------------------------------------------------------------------------------------------

  /** No segment exists and the record map is the fold itself, vectors included. */
  ghost predicate Unsegmented(s: Sys) {
    && s.segments == NO_SEGMENTS
    && s.disk.marker.None?
    && s.mem.records == Fold(s.history, |s.history|)
  }

  lemma ReplayRecordsOf(m: Mem, h: seq<Operation>, ops: seq<Operation>)
    requires m.records == Fold(h, |h|)
    ensures ReplayMem(m, h + ops, |h|, |h + ops|).records == Fold(h + ops, |h + ops|)
  {
    hide Replay, ReplayOffs, ReplayBuffer, ReplayIndex, ReplayLabels;
    var g := h + ops;
    ReplayPrefix(h, g, 0, |h|, map[]);
    ReplaySplit(g, 0, |h|, |g|, map[]);
  }

  lemma WriteUnsegmented(c: Config, s: Sys, ops: seq<Operation>)
    requires SysInv(c, s) && Unsegmented(s) && Valid(s.history + ops)
    ensures Unsegmented(WriteOps(s, ops))
  {
    hide SysInv, WriteOps, ReplayMem, Replay, Valid;
    WriteParts(c, s, ops);
    WriteSegments(s, ops);
    ReplayRecordsOf(s.mem, s.history, ops);
  }

  lemma WriteSegments(s: Sys, ops: seq<Operation>)
    ensures WriteOps(s, ops).segments == s.segments
  {
  }

  lemma OpenUnsegmented(c: Config, d: Disk, order: seq<Id>, h: seq<Operation>)
    requires FilesOk(d, h, c.epoch) && d.marker.None?
    ensures Unsegmented(OpenFrom(c, d, order, h))
  {
    hide Replay, Replayed;
    Crash.RejectedReplay(c, d, order, h);
  }

  lemma ExecUnsegmented(c: Config, s: Sys, step: Step)
    requires SysInv(c, s) && Unsegmented(s) && Enabled(c, s, step)
    requires !step.CheckpointNow? && !step.CrashInCheckpoint?
    ensures Unsegmented(Exec(c, s, step))
  {
    hide Inv, FilesOk, WriteOps, OpenFrom, Replay, LabelsKept;
    InvFiles(s.mem, s.history);
    match step
    case Write(b) =>
      if B.Accepted(c.dimension, s.mem.records.Keys, b) {
        var ops := B.Ops(c.dimension, s.mem.records.Keys, b);
        B.AcceptedKeepsValid(s.history, c.dimension, s.mem.records.Keys, b, |ops|);
        assert ops[..|ops|] == ops;
        WriteUnsegmented(c, s, ops);
      }
    case FlushNow =>
    case ReopenNow(order) => OpenUnsegmented(c, s.disk, order, s.history);
    case CrashInWrite(b, k, order) =>
      if B.Accepted(c.dimension, s.mem.records.Keys, b) {
        var ops := B.Ops(c.dimension, s.mem.records.Keys, b)[..k];
        GrowFiles(s.disk, s.history, ops, s.wal);
        OpenUnsegmented(c, s.disk.(wal := W.AppendAll(s.wal, ops).records), order, s.history + ops);
      } else {
        OpenUnsegmented(c, s.disk, order, s.history);
      }
  }

  /** In runs without a checkpoint every read returns the newest vector. */
  lemma {:induction false} ReadsBeforeCheckpoint(c: Config, steps: seq<Step>)
    requires Run(c, steps).Some?
    requires forall i :: 0 <= i < |steps| ==> !steps[i].CheckpointNow? && !steps[i].CrashInCheckpoint?
    ensures var s := Run(c, steps).value;
            && Unsegmented(s)
            && forall x :: x in s.mem.records ==>
                 ReadVector(s.segments, s.mem.records, x) == Fold(s.history, |s.history|)[x].embedding
  {
    hide Exec, Enabled, Replay;
    if steps != [] {
      var k := |steps| - 1;
      ReadsBeforeCheckpoint(c, steps[..k]);
      RunInv(c, steps[..k]);
      ExecUnsegmented(c, Run(c, steps[..k]).value, steps[k]);
    } else {
      assert Fold([], 0) == map[] by { NoHistory(); }
    }
  }

  lemma NoHistory()
    ensures Fold([], 0) == map[]
  {
  }

  // ---------------------------------------------------------------------------------------------
  // After the first checkpoint
  // ---------------------------------------------------------------------------------------------

  lemma SegmentRow(r: map<Id, Record>, rows: seq<Id>, x: Id)
    requires ListsVectors(rows, r)
    ensures LoadVector(SegmentsFor(r, rows), x) == if x in r then r[x].embedding else None
  {
    var g := SegmentsFor(r, rows);
    if x in rows {
      var i :| 0 <= i < |rows| && rows[i] == x;
      assert x in g.rowOf;
    }
  }

  lemma VectorsLive(h: seq<Operation>, x: Id)
    requires Valid(h)
    ensures x in Fold(h, |h|) ==> Fold(h, |h|)[x].embedding.Some?
  {
    hide Replay;
    if x in Fold(h, |h|) {
      var i := LiveHasSurviving(h, |h|, x);
      SurvivingIsNewest(h, |h|, i);
    }
  }

  /** The record map a checkpoint at history h with watermark f leads to by history g. */
  function Since(h: seq<Operation>, f: nat, g: seq<Operation>): map<Id, Record>
    requires |h| <= |g|
  {
    Replay(g, |h|, |g|, Strip(Fold(h, |h|), f))
  }

  /** An id's lookup after the checkpoint, by what touched the id since. */
  lemma SinceInStep(h: seq<Operation>, f: nat, g: seq<Operation>, x: Id)
    requires Valid(g) && h <= g
    ensures var before := Fold(h, |h|);
            && InStep(g, |h|, |g|, x, At(Strip(before, f), x), At(Since(h, f, g), x), At(Fold(g, |g|), x))
            && InStep(g, |h|, |g|, x, At(before, x), At(Fold(g, |g|), x), At(Fold(g, |g|), x))
            && Below(Since(h, f, g), Fold(g, |g|))
  {
    hide Replay, InStep, Below, Strip;
    var before := Fold(h, |h|);
    ReplayPrefix(h, g, 0, |h|, map[]);
    RecordIds(h, 0, |h|, map[]);
    StripBelow(before, before, f) by {
      SelfBelow(before);
    }
    StripIds(before, f);
    ReplayInStep(g, |h|, |g|, Strip(before, f), x);
    ReplayInStep(g, |h|, |g|, before, x);
    ReplaySplit(g, 0, |h|, |g|, map[]);
    ReplayBelow(g, |h|, |g|, Strip(before, f), before);
  }

  lemma SelfBelow(r: map<Id, Record>)
    ensures Below(r, r)
  {
  }

  lemma StripIds(r: map<Id, Record>, f: nat)
    requires forall y :: y in r ==> r[y].id == y
    ensures forall y :: y in Strip(r, f) ==> Strip(r, f)[y].id == y
  {
  }

  /**
   A live id's record still holds its vector exactly when the id was written since the checkpoint,
   or its record at the checkpoint was above the watermark.
   */
  lemma VectorSince(h: seq<Operation>, f: nat, g: seq<Operation>, x: Id)
    requires Valid(g) && h <= g && x in Fold(g, |g|)
    ensures x in Since(h, f, g)
    ensures Since(h, f, g)[x].embedding ==
            if Decided(g, |h|, |g|, x) || (x in Fold(h, |h|) && Fold(h, |h|)[x].seqNo > f)
            then Fold(g, |g|)[x].embedding else None
  {
    hide Replay, Decided, Touched;
    SinceInStep(h, f, g, x);
    if !Decided(g, |h|, |g|, x) {
      UndecidedWasLive(h, g, x);
    }
  }

  lemma UndecidedWasLive(h: seq<Operation>, g: seq<Operation>, x: Id)
    requires Valid(g) && h <= g && x in Fold(g, |g|) && !Decided(g, |h|, |g|, x)
    ensures x in Fold(h, |h|)
  {
    hide Replay;
    LiveOnlyByWrites(g, |h|, |g|, x);
    ReplayPrefix(h, g, 0, |h|, map[]);
  }

  // ---------------------------------------------------------------------------------------------
  // Runs with one checkpoint
  // ---------------------------------------------------------------------------------------------

  /** Replaying the tail above the watermark over the stripped record map changes nothing. */
  lemma StripAbsorbed(h: seq<Operation>, f: nat)
    requires Valid(h) && f <= |h|
    ensures Replay(h, f, |h|, Strip(Fold(h, |h|), f)) == Strip(Fold(h, |h|), f)
  {
    hide Replay, Strip;
    var truth := Fold(h, |h|);
    RecordIds(h, 0, |h|, map[]);
    StripIds(truth, f);
    forall x
      ensures At(Replay(h, f, |h|, Strip(truth, f)), x) == At(Strip(truth, f), x)
    {
      ReplayInStep(h, f, |h|, Strip(truth, f), x);
      TouchedAbove(h, f, x);
    }
    SameLookups(Replay(h, f, |h|, Strip(truth, f)), Strip(truth, f));
  }

  /** A live id touched above the watermark was not stripped. */
  lemma TouchedAbove(h: seq<Operation>, f: nat, x: Id)
    requires f <= |h|
    ensures Touched(h, f, |h|, x) ==> At(Strip(Fold(h, |h|), f), x) == At(Fold(h, |h|), x)
    ensures Decided(h, f, |h|, x) ==> Touched(h, f, |h|, x)
  {
    hide Replay;
    if Touched(h, f, |h|, x) && x in Fold(h, |h|) {
      LiveSeq(h, |h|, x);
    }
  }

  /** One checkpoint was taken at history h with watermark f; what it wrote is still in place. */
  ghost predicate Segmented(s: Sys, h: seq<Operation>, f: nat, rows: seq<Id>) {
    && h <= s.history && f <= |h|
    && rows != [] && ListsVectors(rows, Fold(h, |h|))
    && s.segments == s.disk.segments == SegmentsFor(Fold(h, |h|), rows)
    && s.disk.marker.Some? && s.disk.marker.value.flushedSeq == f
    && s.disk.records == Some(Fold(h, |h|))
    && s.mem.records == Since(h, f, s.history)
  }

  lemma FirstCheckpoint(c: Config, s: Sys, rows: seq<Id>)
    requires SysInv(c, s) && Unsegmented(s) && ListsVectors(rows, s.mem.records) && s.mem.records != map[]
    ensures Segmented(Checkpoint(s, rows), s.history, s.mem.flushedSeq, rows)
  {
    hide Replay, Strip, SegmentsFor, IndexFilesOk, RecordFilesOk;
    var x :| x in s.mem.records;
    VectorsLive(s.history, x);
    assert x in rows;
    NothingSince(s.history, s.mem.flushedSeq);
  }

  lemma NothingSince(h: seq<Operation>, f: nat)
    ensures Since(h, f, h) == Strip(Fold(h, |h|), f)
  {
  }

  lemma SinceGrows(h: seq<Operation>, f: nat, g: seq<Operation>, ops: seq<Operation>)
    requires h <= g
    ensures Replay(g + ops, |g|, |g + ops|, Since(h, f, g)) == Since(h, f, g + ops)
  {
    hide Replay;
    var start := Strip(Fold(h, |h|), f);
    ReplayPrefix(g, g + ops, |h|, |g|, start);
    ReplaySplit(g + ops, |h|, |g|, |g + ops|, start);
  }

  lemma WriteSegmented(c: Config, s: Sys, ops: seq<Operation>, h: seq<Operation>, f: nat, rows: seq<Id>)
    requires SysInv(c, s) && Segmented(s, h, f, rows) && Valid(s.history + ops)
    ensures Segmented(WriteOps(s, ops), h, f, rows)
  {
    hide SysInv, WriteOps, Replay, Since, SegmentsFor, ListsVectors, Valid, ReplayOffs, ReplayLabels, ReplayBuffer, ReplayIndex;
    WriteParts(c, s, ops);
    WriteSegments(s, ops);
    SinceGrows(h, f, s.history, ops);
  }

  /** The files of that checkpoint, with more operations in the log. */
  ghost predicate SegmentFiles(d: Disk, h: seq<Operation>, f: nat, rows: seq<Id>) {
    && f <= |h|
    && rows != [] && ListsVectors(rows, Fold(h, |h|))
    && d.segments == SegmentsFor(Fold(h, |h|), rows)
    && d.marker.Some? && d.marker.value.flushedSeq == f
    && d.records == Some(Fold(h, |h|))
  }

  lemma OpenSegmented(c: Config, d: Disk, order: seq<Id>, g: seq<Operation>, h: seq<Operation>, f: nat, rows: seq<Id>)
    requires Valid(g) && h <= g && FilesOk(d, g, c.epoch) && Accepts(d) && SegmentFiles(d, h, f, rows)
    ensures Segmented(OpenFrom(c, d, order, g), h, f, rows)
  {
    hide Replay, Strip, ReplayAfter, IndexFilesOk, LogHolds, RecordsAsOf, Enumerate, L.Vectors, LoadedLabels, Fold;
    OpenWalSeq(c, d, g);
    var m := Loaded(d, order);
    ReplayAfterIsReplay(m, g, OpenWal(c, d), f);
    Crash.ReplayMemRecords(m, g, f, |g|);
    OpenedRecords(g, h, f);
  }

  /** Loading the checkpoint's record file stripped and replaying the tail above its watermark. */
  lemma OpenedRecords(g: seq<Operation>, h: seq<Operation>, f: nat)
    requires Valid(g) && h <= g && f <= |h|
    ensures Replay(g, f, |g|, Strip(Fold(h, |h|), f)) == Since(h, f, g)
  {
    hide Replay, Strip;
    var start := Strip(Fold(h, |h|), f);
    ValidPrefix(h, g);
    ReplaySplit(g, f, |h|, |g|, start);
    ReplayPrefix(h, g, f, |h|, start);
    StripAbsorbed(h, f);
  }

  /** Steps other than checkpoints. */
  predicate NoCheckpoint(step: Step) {
    !step.CheckpointNow? && !step.CrashInCheckpoint?
  }

  lemma ExecSegmented(c: Config, s: Sys, step: Step, h: seq<Operation>, f: nat, rows: seq<Id>)
    requires SysInv(c, s) && Segmented(s, h, f, rows) && Enabled(c, s, step) && NoCheckpoint(step)
    ensures Segmented(Exec(c, s, step), h, f, rows)
  {
    hide Inv, FilesOk, WriteOps, OpenFrom, Replay, LabelsKept, SegmentsFor, ListsVectors, Fold, Since;
    InvFiles(s.mem, s.history);
    match step
    case Write(b) =>
      if B.Accepted(c.dimension, s.mem.records.Keys, b) {
        var ops := B.Ops(c.dimension, s.mem.records.Keys, b);
        LiveIds(c, s);
        B.AcceptedKeepsValid(s.history, c.dimension, s.mem.records.Keys, b, |ops|);
        assert ops[..|ops|] == ops;
        WriteSegmented(c, s, ops, h, f, rows);
      }
    case FlushNow =>
    case ReopenNow(order) => OpenSegmented(c, s.disk, order, s.history, h, f, rows);
    case CrashInWrite(b, k, order) =>
      if B.Accepted(c.dimension, s.mem.records.Keys, b) {
        var ops := B.Ops(c.dimension, s.mem.records.Keys, b)[..k];
        LiveIds(c, s);
        B.AcceptedKeepsValid(s.history, c.dimension, s.mem.records.Keys, b, k);
        GrowFiles(s.disk, s.history, ops, s.wal);
        OpenSegmented(c, s.disk.(wal := W.AppendAll(s.wal, ops).records), order, s.history + ops, h, f, rows);
      } else {
        OpenSegmented(c, s.disk, order, s.history, h, f, rows);
      }
  }

  lemma LiveIds(c: Config, s: Sys)
    requires SysInv(c, s)
    ensures s.mem.records.Keys == Fold(s.history, |s.history|).Keys
  {
    hide Replay;
  }

  /** A run with one checkpoint among other steps. */
  lemma {:induction false} RunSegmented(c: Config, a: seq<Step>, rows: seq<Id>, b: seq<Step>)
    requires Run(c, a + [CheckpointNow(rows)] + b).Some?
    requires (forall step :: step in a ==> NoCheckpoint(step)) && (forall step :: step in b ==> NoCheckpoint(step))
    ensures Run(c, a).Some?
    ensures var s, t := Run(c, a).value, Run(c, a + [CheckpointNow(rows)] + b).value;
            SysInv(c, t) && (s.mem.records != map[] ==> Segmented(t, s.history, s.mem.flushedSeq, rows))
  {
    hide SysInv, Segmented, Unsegmented, Exec, Enabled;
    var steps := a + [CheckpointNow(rows)] + b;
    var last := |steps| - 1;
    if b == [] {
      assert steps[..last] == a;
      assert forall i :: 0 <= i < |a| ==> a[i] in a;
      ReadsBeforeCheckpoint(c, a);
      RunInv(c, a);
      RunInv(c, steps);
      CheckpointStep(c, Run(c, a).value, rows);
    } else {
      assert steps[..last] == a + [CheckpointNow(rows)] + b[..|b| - 1];
      RunSegmented(c, a, rows, b[..|b| - 1]);
      RunInv(c, steps);
      var s, t := Run(c, a).value, Run(c, steps[..last]).value;
      if s.mem.records != map[] {
        ExecSegmented(c, t, steps[last], s.history, s.mem.flushedSeq, rows);
      }
    }
  }

  lemma CheckpointStep(c: Config, s: Sys, rows: seq<Id>)
    requires SysInv(c, s) && Unsegmented(s) && Enabled(c, s, CheckpointNow(rows))
    ensures s.mem.records != map[] ==> Segmented(Exec(c, s, CheckpointNow(rows)), s.history, s.mem.flushedSeq, rows)
  {
    hide SysInv, Unsegmented, Segmented, Checkpoint, ListsVectors;
    if s.mem.records != map[] {
      FirstCheckpoint(c, s, rows);
    }
  }

  /**
   Reads in any run with one checkpoint, taken at history h: a live id reads its newest vector
   exactly when it was not live at the checkpoint or no surviving write since carries another
   vector.  A newer upsert is shadowed by the segment, across deletes and reopens.
   */
  lemma ReadsAfterCheckpointIff(c: Config, a: seq<Step>, rows: seq<Id>, b: seq<Step>, x: Id)
    requires Run(c, a + [CheckpointNow(rows)] + b).Some?
    requires (forall step :: step in a ==> NoCheckpoint(step)) && (forall step :: step in b ==> NoCheckpoint(step))
    requires Run(c, a).Some? && Run(c, a).value.mem.records != map[]
    requires x in Run(c, a + [CheckpointNow(rows)] + b).value.mem.records
    ensures var h, t := Run(c, a).value.history, Run(c, a + [CheckpointNow(rows)] + b).value;
            var before, g := Fold(h, |h|), t.history;
            && |h| <= |g| && x in Fold(g, |g|)
            && (ReadVector(t.segments, t.mem.records, x) == Fold(g, |g|)[x].embedding <==>
                  x in before ==> forall i: nat :: |h| <= i && Surviving(g, |g|, i) && g[i].id == x ==>
                                    Some(g[i].embedding) == before[x].embedding)
  {
    hide Run, SysInv, Replay, SegmentsFor, ListsVectors, Decided, Since;
    var s, t := Run(c, a).value, Run(c, a + [CheckpointNow(rows)] + b).value;
    var h, g := s.history, t.history;
    RunSegmented(c, a, rows, b);
    LiveIds(c, t);
    HistoryValid(c, t);
    SegmentRow(Fold(h, |h|), rows, x);
    ValidPrefix(h, g);
    VectorsLive(h, x);
    VectorSince(h, s.mem.flushedSeq, g, x);
    NewestSince(h, g, x);
  }

  lemma HistoryValid(c: Config, s: Sys)
    requires SysInv(c, s)
    ensures Valid(s.history)
  {
  }

  /** A live id's newest vector is the one it had at h unless a write since h survives. */
  lemma NewestSince(h: seq<Operation>, g: seq<Operation>, x: Id)
    requires Valid(g) && h <= g && x in Fold(g, |g|)
    ensures x in Fold(h, |h|) ==>
              (Fold(g, |g|)[x].embedding == Fold(h, |h|)[x].embedding <==>
               forall i: nat :: |h| <= i && Surviving(g, |g|, i) && g[i].id == x ==>
                 Some(g[i].embedding) == Fold(h, |h|)[x].embedding)
    ensures x !in Fold(h, |h|) ==> Decided(g, |h|, |g|, x)
  {
    hide Replay, Decided;
    var i := LiveHasSurviving(g, |g|, x);
    SurvivingIsNewest(g, |g|, i);
    if i < |h| {
      SurvivingBefore(h, g, i);
      SurvivingIsNewest(h, |h|, i);
    } else {
      WriteDecides(g, |h|, i);
    }
    forall j: nat | Surviving(g, |g|, j) && g[j].id == x
      ensures j == i
    {
      SurvivingUnique(g, |g|, i, j);
    }
  }

  lemma WriteDecides(g: seq<Operation>, lo: nat, i: nat)
    requires lo <= i < |g| && g[i].Writes()
    ensures Decided(g, lo, |g|, g[i].id)
  {
    assert g[i].Decides(g[i].id);
  }

  // ---------------------------------------------------------------------------------------------
  // After a second checkpoint
  // ---------------------------------------------------------------------------------------------

  /**
   A second checkpoint, any number of operations and reopens after the first, rewrites the segment
   from the records that still hold a vector.  A live id then reads its newest vector exactly when
   a write decided it since the first checkpoint or its record there was above the watermark; every
   other vector is unreadable.
   */
  lemma SecondCheckpointReadsIff(c: Config, a: seq<Step>, rows: seq<Id>, b: seq<Step>, rows2: seq<Id>, x: Id)
    requires Run(c, a + [CheckpointNow(rows)] + b).Some?
    requires (forall step :: step in a ==> NoCheckpoint(step)) && (forall step :: step in b ==> NoCheckpoint(step))
    requires Run(c, a).Some? && Run(c, a).value.mem.records != map[]
    requires ListsVectors(rows2, Run(c, a + [CheckpointNow(rows)] + b).value.mem.records)
    requires x in Run(c, a + [CheckpointNow(rows)] + b).value.mem.records
    ensures var s, t := Run(c, a).value, Run(c, a + [CheckpointNow(rows)] + b).value;
            var h, f, g := s.history, s.mem.flushedSeq, t.history;
            var t2 := Checkpoint(t, rows2);
            && |h| <= |g| && x in Fold(g, |g|) && x in t2.mem.records
            && (ReadVector(t2.segments, t2.mem.records, x) == Fold(g, |g|)[x].embedding <==>
                  Decided(g, |h|, |g|, x) || (x in Fold(h, |h|) && Fold(h, |h|)[x].seqNo > f))
  {
    hide Run, SysInv, Replay, SegmentsFor, CheckpointFiles, ListsVectors, Decided, Since;
    var s, t := Run(c, a).value, Run(c, a + [CheckpointNow(rows)] + b).value;
    RunSegmented(c, a, rows, b);
    LiveIds(c, t);
    HistoryValid(c, t);
    VectorSince(s.history, s.mem.flushedSeq, t.history, x);
    VectorsLive(t.history, x);
    SegmentRow(t.mem.records, rows2, x);
  }

  // ---------------------------------------------------------------------------------------------
  // Between the segment rows and their row index
  // ---------------------------------------------------------------------------------------------

  /** The row an old row index gives an id lies in the new rows and holds the id's own vector. */
  predicate RowFits(r: map<Id, Record>, rows: seq<Id>, rowOf: map<Id, nat>, x: Id)
    requires x in r && forall y :: y in rows ==> y in r
  {
    x in rowOf && rowOf[x] < |rows| && r[rows[rowOf[x]]].embedding == r[x].embedding
  }

  /**
   New rows read through an older row index: an id reads what the new segment holds for it exactly
   when its old row is in range and holds its own vector, or, for an id without one, when it has no
   old row in range.
   */
  lemma TornRowsIff(r: map<Id, Record>, rows: seq<Id>, rowOf: map<Id, nat>, x: Id)
    requires ListsVectors(rows, r)
    ensures LoadVector(Segments(SegmentsFor(r, rows).rows, rowOf), x) == LoadVector(SegmentsFor(r, rows), x) <==>
            if x in rows then RowFits(r, rows, rowOf, x) else x !in rowOf || rowOf[x] >= |rows|
  {
    SegmentRow(r, rows, x);
    if rows != [] {
      assert |SegmentsFor(r, rows).rows.value| == |rows|;
      if x in rowOf && rowOf[x] < |rows| {
        assert rows[rowOf[x]] in rows;
      }
    }
  }

  /** The same after a crash between the two replacements of a checkpoint, whatever is reopened. */
  lemma CrashedRowsIff(c: Config, s: Sys, rows: seq<Id>, order: seq<Id>, x: Id)
    requires ListsVectors(rows, s.mem.records)
    ensures var g := OpenFrom(c, CheckpointFiles(s, rows, 5), order, s.history).segments;
            var rowOf := s.disk.segments.rowOf;
            LoadVector(g, x) == LoadVector(SegmentsFor(s.mem.records, rows), x) <==>
              if x in rows then RowFits(s.mem.records, rows, rowOf, x) else x !in rowOf || rowOf[x] >= |rows|
  {
    hide SegmentsFor, Replayed, LoadVector;
    TornRowsIff(s.mem.records, rows, s.disk.segments.rowOf, x);
  }
}
