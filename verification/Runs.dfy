/**
 Whole runs of a collection: write batches, flushes, checkpoints, reopens and crashes, over the
 files a checkpoint leaves on disk.  The complete operation history is carried along for the
 statements only: the state itself keeps a pruned log.
 */
module Runs {
  import opened Core
  import opened History
  import opened Collection
  import opened Reopen
  import opened Batches
  import L = Labels
  import W = WalLog

  datatype Config = Config(dimension: nat, batchSize: nat, epoch: nat)

  /** `checkpoint.json`. */
  datatype Marker = Marker(flushedSeq: nat, nextSeq: nat, recordCount: nat)

  /** Vectors moved out of the record map: the segment's rows and the row of each id. */
  datatype Segments = Segments(rows: Option<seq<Embedding>>, rowOf: map<Id, nat>)

  /** The durable files of one collection; `graph` is index.bin and `meta` is index.meta. */
  datatype Disk = Disk(
    records: Option<map<Id, Record>>,
    graph: Option<map<nat, Embedding>>,
    meta: Option<L.IndexMeta>,
    marker: Option<Marker>,
    segments: Segments,
    wal: seq<W.WalRecord>,
    catalogSeq: nat)

  datatype Sys = Sys(
    mem: Mem,
    wal: W.Log,
    segments: Segments,
    disk: Disk,
    history: seq<Operation>)

  const NO_SEGMENTS := Segments(None, map[])

  function Start(c: Config): Sys {
    Sys(FRESH, W.Log(c.epoch, [], 0), NO_SEGMENTS, Disk(None, None, None, None, NO_SEGMENTS, [], 0), [])
  }

  // ---------------------------------------------------------------------------------------------
  // Transitions
  // ---------------------------------------------------------------------------------------------

  /** Log records applied in order. */
  function ReplayLog(m: Mem, rs: seq<W.WalRecord>): Mem {
    if rs == [] then m
    else ApplyOp(ReplayLog(m, rs[..|rs| - 1]), rs[|rs| - 1].op, rs[|rs| - 1].seqNo)
  }

  /** `write_ops`: the whole batch is logged first, then the logged records are applied. */
  function WriteOps(s: Sys, ops: seq<Operation>): Sys {
    var wal := W.AppendAll(s.wal, ops);
    Sys(ReplayLog(s.mem, wal.records[|s.wal.records|..]), wal, s.segments, s.disk.(wal := wal.records), s.history + ops)
  }

  function Strip(r: map<Id, Record>, upTo: nat): map<Id, Record> {
    map x | x in r :: if r[x].seqNo <= upTo then r[x].(embedding := None) else r[x]
  }

  /** The segment contents for the ids of `rows`, which hold a vector each. */
  function SegmentsFor(r: map<Id, Record>, rows: seq<Id>): Segments
    requires ListsVectors(rows, r)
  {
    if rows == [] then NO_SEGMENTS
    else Segments(Some(seq(|rows|, i requires 0 <= i < |rows| => r[rows[i]].embedding.value)),
                  map i: nat | i < |rows| :: rows[i] := i)
  }

  /** rows lists the ids that still hold a vector, once each (the source sorts them by id). */
  ghost predicate ListsVectors(rows: seq<Id>, r: map<Id, Record>) {
    && (forall x :: x in rows <==> x in r && r[x].embedding.Some?)
    && (forall i, j :: 0 <= i < j < |rows| ==> rows[i] != rows[j])
  }

  /**
   The files after the first k of the eight replacements of `checkpoint`: records.bin, index.bin,
   index.meta, checkpoint.json, the segment rows, the segment index, the catalog watermark, the
   pruned log.  The two index files of an empty index are removed instead.
   */
  function CheckpointFiles(s: Sys, rows: seq<Id>, k: nat): Disk
    requires ListsVectors(rows, s.mem.records)
  {
    var m, d := s.mem, s.disk;
    var seg := SegmentsFor(m.records, rows);
    var none := m.labels.graph == map[];
    Disk(
      if k >= 1 then Some(m.records) else d.records,
      if k >= 2 then (if none then None else Some(m.labels.graph)) else d.graph,
      if k >= 3 then (if none then None else Some(L.MetaOf(m.labels))) else d.meta,
      if k >= 4 then Some(Marker(m.flushedSeq, s.wal.lastSeq + 1, |m.records|)) else d.marker,
      Segments(if k >= 5 then seg.rows else d.segments.rows, if k >= 6 then seg.rowOf else d.segments.rowOf),
      if k >= 8 then W.Prune(s.wal, m.flushedSeq).records else d.wal,
      if k >= 7 then Max(d.catalogSeq, m.flushedSeq) else d.catalogSeq)
  }

  /** `checkpoint`; nothing happens while there are no records. */
  function Checkpoint(s: Sys, rows: seq<Id>): Sys
    requires ListsVectors(rows, s.mem.records)
  {
    if s.mem.records == map[] then s
    else
      var disk := CheckpointFiles(s, rows, 8);
      s.(mem := s.mem.(records := Strip(s.mem.records, s.mem.flushedSeq)),
         wal := W.Open(s.wal.epoch, disk.wal, Some(s.wal.lastSeq + 1)),
         segments := SegmentsFor(s.mem.records, rows),
         disk := disk)
  }

  /** `load_checkpoint` accepts the files. */
  predicate Accepts(d: Disk) {
    d.marker.Some? && d.records.Some? && |d.records.value| == d.marker.value.recordCount
  }

  /** `replay_after`: the log records above `flushed`, applied in order. */
  function ReplayAfter(m: Mem, wal: W.Log, flushed: nat): Mem {
    if wal.lastSeq > flushed then ReplayLog(m, W.Select(wal.records, flushed + 1, wal.lastSeq)) else m
  }

  function LoadedRecords(d: Disk): map<Id, Record>
    requires Accepts(d)
  {
    if d.segments.rows.Some? then Strip(d.records.value, d.marker.value.flushedSeq) else d.records.value
  }

  /** The index the two files load to; a pair that does not load leaves an empty index. */
  function LoadedLabels(d: Disk): L.Labelled {
    L.LoadPair(d.graph, d.meta)
  }

  /** `load_checkpoint` when it accepts: the restored state before the tail replay. */
  function Loaded(d: Disk, order: seq<Id>): Mem
    requires Accepts(d)
  {
    Restored(LoadedRecords(d), LoadedLabels(d), d.marker.value.flushedSeq, order)
  }

  function OpenWal(c: Config, d: Disk): W.Log {
    W.Open(c.epoch, d.wal, if Accepts(d) then Some(d.marker.value.nextSeq) else None)
  }

  /** The state `open` has rebuilt just before it re-applies the flush policy. */
  function Replayed(c: Config, d: Disk, order: seq<Id>): Mem {
    if Accepts(d) then ReplayAfter(Loaded(d, order), OpenWal(c, d), d.marker.value.flushedSeq)
    else ReplayAfter(FRESH, OpenWal(c, d), 0)
  }

  function FlushIfNeeded(c: Config, m: Mem): Mem {
    if |m.buffer| >= c.batchSize then Flush(m) else m
  }

  /** `open` returns a collection: the flush it ends with succeeds. */
  predicate Opens(c: Config, d: Disk, order: seq<Id>) {
    var m := Replayed(c, d, order);
    |m.buffer| >= c.batchSize ==> Flushes(m.labels, m.buffer)
  }

  /** The collection `open` returns, if it does. */
  function OpenFrom(c: Config, d: Disk, order: seq<Id>, h: seq<Operation>): Sys {
    Sys(FlushIfNeeded(c, Replayed(c, d, order)), OpenWal(c, d),
        if Accepts(d) then d.segments else NO_SEGMENTS, d, h)
  }

  // ---------------------------------------------------------------------------------------------
  // Steps and runs
  // ---------------------------------------------------------------------------------------------

  datatype Step =
    | Write(batch: Batch)
    | FlushNow
    | CheckpointNow(rows: seq<Id>)
    | ReopenNow(order: seq<Id>)
    // A crash after the first k operations of a batch reached the log.
    | CrashInWrite(batch: Batch, k: nat, order: seq<Id>)
    // A crash after the first k file replacements of a checkpoint.
    | CrashInCheckpoint(rows: seq<Id>, k: nat, order: seq<Id>)

  ghost predicate OrderFor(d: Disk, order: seq<Id>) {
    Accepts(d) ==> Lists(order, d.records.value)
  }

  /**
   The index files between the replacement of the graph and that of its maps: a pair that loads is
   a sound index, and one that does not load is needed by no live vector.
   */
  ghost predicate TornPairHarmless(d: Disk, h: seq<Operation>) {
    d.marker.Some? ==>
      if L.PairLoads(d.graph, d.meta) then L.Clean(LoadedLabels(d))
      else NoneBelow(h, d.marker.value.flushedSeq)
  }

  /** No live id's newest vector was written at or below the watermark. */
  ghost predicate NoneBelow(h: seq<Operation>, flushed: nat) {
    forall k: nat :: k < flushed ==> !Surviving(h, |h|, k)
  }

  /**
   Iteration orders are real ones, and a checkpoint crash leaves files that load: the records
   always, the index files when the crash separated the two and a live vector needs them.
   */
  ghost predicate Enabled(c: Config, s: Sys, step: Step) {
    match step
    case Write(_) => true
    case FlushNow => true
    case CheckpointNow(rows) => ListsVectors(rows, s.mem.records)
    case ReopenNow(order) => OrderFor(s.disk, order)
    case CrashInWrite(b, k, order) => k <= |b.ids| && OrderFor(s.disk, order)
    case CrashInCheckpoint(rows, k, order) =>
      && s.mem.records != map[]
      && ListsVectors(rows, s.mem.records)
      && OrderFor(CheckpointFiles(s, rows, k), order)
      && (CheckpointFiles(s, rows, k).marker.Some? ==> Accepts(CheckpointFiles(s, rows, k)))
      && (k == 2 ==> TornPairHarmless(CheckpointFiles(s, rows, k), s.history))
  }

  ghost function Exec(c: Config, s: Sys, step: Step): Sys
    requires Enabled(c, s, step)
  {
    match step
    case Write(b) =>
      if Accepted(c.dimension, s.mem.records.Keys, b)
      then WriteOps(s, Ops(c.dimension, s.mem.records.Keys, b)) else s
    case FlushNow => s.(mem := Flush(s.mem))
    case CheckpointNow(rows) => Checkpoint(s, rows)
    case ReopenNow(order) => OpenFrom(c, s.disk, order, s.history)
    case CrashInWrite(b, k, order) =>
      if Accepted(c.dimension, s.mem.records.Keys, b) then
        var ops := Ops(c.dimension, s.mem.records.Keys, b)[..k];
        OpenFrom(c, s.disk.(wal := W.AppendAll(s.wal, ops).records), order, s.history + ops)
      else OpenFrom(c, s.disk, order, s.history)
    case CrashInCheckpoint(rows, k, order) => OpenFrom(c, CheckpointFiles(s, rows, k), order, s.history)
  }

  /** The state after a run, None if some step was not enabled. */
  ghost function Run(c: Config, steps: seq<Step>): Option<Sys> {
    if steps == [] then Some(Start(c))
    else
      var before := Run(c, steps[..|steps| - 1]);
      if before.Some? && Enabled(c, before.value, steps[|steps| - 1])
      then Some(Exec(c, before.value, steps[|steps| - 1])) else None
  }

  // ---------------------------------------------------------------------------------------------
  // The run invariant
  // ---------------------------------------------------------------------------------------------

  /** The oldest sequence number the log no longer holds. */
  function Base(h: seq<Operation>, rs: seq<W.WalRecord>): int {
    |h| - |rs|
  }

  ghost predicate LogHolds(h: seq<Operation>, epoch: nat, rs: seq<W.WalRecord>) {
    |rs| <= |h| && rs == W.Entries(h, epoch, |h| - |rs|)
  }

  lemma LogContents(h: seq<Operation>, epoch: nat, rs: seq<W.WalRecord>)
    requires LogHolds(h, epoch, rs)
    ensures |rs| <= |h|
    ensures forall i :: 0 <= i < |rs| ==> rs[i] == W.WalRecord(|h| - |rs| + i + 1, epoch, h[|h| - |rs| + i])
  {
  }

  /** records.bin is the record map as of point r of the history. */
  ghost predicate RecordsAsOf(f: map<Id, Record>, h: seq<Operation>, r: nat) {
    r <= |h| && Below(f, Fold(h, r))
  }

  function IndexFile(d: Disk): map<Id, Embedding> {
    L.Vectors(LoadedLabels(d))
  }

  /** The ids in index.meta and their labels. */
  function SavedLabels(d: Disk): map<Id, nat> {
    if d.meta.Some? then d.meta.value.labels else map[]
  }

  /** What the record file, the marker and the log promise, whether or not the record count fits. */
  ghost predicate RecordFilesOk(d: Disk, h: seq<Operation>, epoch: nat) {
    && LogHolds(h, epoch, d.wal)
    && Base(h, d.wal) <= d.catalogSeq
    && (d.marker.None? ==> Base(h, d.wal) == 0 && d.catalogSeq == 0)
    && (d.marker.Some? ==>
          && d.catalogSeq <= d.marker.value.flushedSeq < d.marker.value.nextSeq <= |h| + 1
          && d.records.Some?
          && (exists r: nat :: d.marker.value.flushedSeq <= r && RecordsAsOf(d.records.value, h, r)))
  }

  /** The saved label maps are inverse and hold issued labels only, whatever graph they load beside. */
  ghost predicate MetaMapped(meta: L.IndexMeta) {
    L.Mapped(L.Labelled(meta.labels, meta.ids, meta.nextLabel, map[]))
  }

  /** What the index files promise about the tail above the watermark. */
  ghost predicate IndexFilesOk(d: Disk, h: seq<Operation>, flushed: nat) {
    && L.Clean(LoadedLabels(d))
    && HoldsBelow(h, flushed, IndexFile(d))
    && LiveOrDeleted(h, flushed, SavedLabels(d).Keys)
    && (d.meta.Some? ==> MetaMapped(d.meta.value))
  }

  /** What all checkpoint files promise about a history. */
  ghost predicate FilesOk(d: Disk, h: seq<Operation>, epoch: nat) {
    && RecordFilesOk(d, h, epoch)
    && (d.marker.Some? ==> IndexFilesOk(d, h, d.marker.value.flushedSeq))
  }

  /** A vector the saved index is needed for has kept its label since. */
  ghost predicate LabelsKept(saved: map<Id, nat>, now: map<Id, nat>, h: seq<Operation>, flushed: nat) {
    forall k: nat :: k < flushed && Surviving(h, |h|, k) ==>
                       h[k].id in saved && h[k].id in now && saved[h[k].id] == now[h[k].id]
  }

  ghost predicate SysInv(c: Config, s: Sys) {
    && Inv(s.mem, s.history)
    && s.wal.epoch == c.epoch
    && s.wal.lastSeq == |s.history|
    && s.wal.records == s.disk.wal
    && FilesOk(s.disk, s.history, c.epoch)
    && (s.disk.marker.Some? ==>
          && Accepts(s.disk)
          && s.disk.marker.value.flushedSeq <= s.mem.flushedSeq
          && LabelsKept(SavedLabels(s.disk), s.mem.labels.labels, s.history, s.disk.marker.value.flushedSeq))
  }

  lemma StartInv(c: Config)
    ensures SysInv(c, Start(c))
  {
    FreshInv();
  }

  // ---------------------------------------------------------------------------------------------
  // Writes
  // ---------------------------------------------------------------------------------------------

  /** rs are the log records of operations lo, lo + 1, ... of h. */
  ghost predicate Logs(rs: seq<W.WalRecord>, h: seq<Operation>, lo: nat) {
    lo + |rs| <= |h| && forall i :: 0 <= i < |rs| ==> rs[i].op == h[lo + i] && rs[i].seqNo == lo + i + 1
  }

  lemma {:induction false} ReplayLogIsReplay(m: Mem, rs: seq<W.WalRecord>, h: seq<Operation>, lo: nat)
    requires Logs(rs, h, lo)
    ensures ReplayLog(m, rs) == ReplayMem(m, h, lo, lo + |rs|)
  {
    hide ReplayMem, ApplyOp;
    ReplayMemStep(m, h, lo, lo + |rs|);
    if rs != [] {
      ReplayLogIsReplay(m, rs[..|rs| - 1], h, lo);
    }
  }

  lemma {:induction false} ReplayMemInv(m: Mem, h: seq<Operation>, lo: nat, hi: nat)
    requires Valid(h) && lo <= hi <= |h| && Inv(m, h[..lo])
    ensures Inv(ReplayMem(m, h, lo, hi), h[..hi])
    decreases hi
  {
    hide ReplayMem, ApplyOp, Inv;
    ReplayMemStep(m, h, lo, hi);
    if hi > lo {
      ReplayMemInv(m, h, lo, hi - 1);
      ReplayPrefix(h[..hi - 1], h, 0, hi - 1, map[]);
      ApplyInv(ReplayMem(m, h, lo, hi - 1), h[..hi - 1], h[hi - 1]);
      assert h[..hi - 1] + [h[hi - 1]] == h[..hi];
    }
  }

  lemma GrowRecords(f: map<Id, Record>, h: seq<Operation>, g: seq<Operation>, r: nat)
    requires h <= g && RecordsAsOf(f, h, r)
    ensures RecordsAsOf(f, g, r)
  {
    ReplayPrefix(h, g, 0, r, map[]);
  }

  lemma DecidedGrows(h: seq<Operation>, g: seq<Operation>, lo: nat, x: Id)
    requires h <= g
    ensures Decided(h, lo, |h|, x) ==> Decided(g, lo, |g|, x)
    ensures Deleted(h, lo, |h|, x) ==> Deleted(g, lo, |g|, x)
  {
    assert forall i :: 0 <= i < |h| ==> h[i] == g[i];
  }

  /** A longer history has fewer old surviving writes. */
  lemma SurvivingBefore(h: seq<Operation>, g: seq<Operation>, k: nat)
    requires h <= g && k < |h| && Surviving(g, |g|, k)
    ensures Surviving(h, |h|, k) && !Deleted(g, |h|, |g|, h[k].id)
  {
    hide Decided, Deleted;
    DeletedIsDecided(g, k + 1, |h|, |g|, h[k].id);
    DecidedGrows(h, g, k + 1, h[k].id);
  }

  lemma GrowHolds(saved: map<Id, Embedding>, ids: set<Id>, h: seq<Operation>, g: seq<Operation>, lo: nat)
    requires h <= g && lo <= |h| && HoldsBelow(h, lo, saved) && LiveOrDeleted(h, lo, ids)
    ensures HoldsBelow(g, lo, saved) && LiveOrDeleted(g, lo, ids)
  {
    hide Replay, Decided, Deleted;
    ReplayPrefix(h, g, 0, |h|, map[]);
    forall k: nat | k < lo && Surviving(g, |g|, k)
      ensures g[k].id in saved && saved[g[k].id] == g[k].embedding
    {
      SurvivingBefore(h, g, k);
    }
    forall x | x in ids && !Deleted(g, lo, |g|, x)
      ensures x in Fold(g, |g|)
    {
      DecidedGrows(h, g, lo, x);
      DeletedLater(g, lo, |h|, x);
      LiveUntilDeleted(g, |h|, |g|, x);
    }
  }

  lemma DeletedLater(g: seq<Operation>, lo: nat, mid: nat, x: Id)
    requires lo <= mid <= |g|
    ensures Deleted(g, mid, |g|, x) ==> Deleted(g, lo, |g|, x)
  {
  }

  /** The labels of needed vectors are kept while logged operations are applied. */
  lemma GrowKept(saved: map<Id, nat>, x: L.Labelled, index: map<Id, Embedding>, h: seq<Operation>, g: seq<Operation>, flushed: nat)
    requires h <= g && flushed <= |h| && Labelling(x, index) && LabelsKept(saved, x.labels, h, flushed)
    ensures LabelsKept(saved, ReplayLabels(g, |h|, |g|, x).labels, g, flushed)
  {
    hide Labelling, ReplayLabels, Decided, Deleted;
    ReplayLabelling(g, |h|, |g|, x, index);
    forall k: nat | k < flushed && Surviving(g, |g|, k)
      ensures g[k].id in saved && g[k].id in ReplayLabels(g, |h|, |g|, x).labels
      ensures saved[g[k].id] == ReplayLabels(g, |h|, |g|, x).labels[g[k].id]
    {
      SurvivingBefore(h, g, k);
    }
  }

  /** A flush moves only vectors that were pending, so it keeps those labels too. */
  lemma FlushKept(saved: map<Id, nat>, m: Mem, h: seq<Operation>, flushed: nat)
    requires Inv(m, h) && flushed <= m.flushedSeq && LabelsKept(saved, m.labels.labels, h, flushed)
    ensures LabelsKept(saved, Flush(m).labels.labels, h, flushed)
  {
    hide Replay, Labelling, Covers, OffsetInv, FlushLabels, Pending, Decided, Below;
    FlushLabelling(m.labels, m.index, m.buffer);
    forall k: nat | k < flushed && Surviving(h, |h|, k)
      ensures forall e :: e in m.buffer ==> e.id != h[k].id
    {
      forall e | e in m.buffer
        ensures e.id != h[k].id
      {
        PendingElsewhere(h, m.flushedSeq, |h|, k, e);
      }
    }
  }

  /** The files keep their promise while the history grows by logged operations. */
  lemma GrowFiles(d: Disk, h: seq<Operation>, ops: seq<Operation>, wal: W.Log)
    requires FilesOk(d, h, wal.epoch) && wal.records == d.wal && wal.lastSeq == |h|
    ensures FilesOk(d.(wal := W.AppendAll(wal, ops).records), h + ops, wal.epoch)
  {
    hide RecordsAsOf, W.Entries, W.AppendAll, HoldsBelow, LiveOrDeleted, L.Clean, L.LoadPair, L.Vectors;
    W.EntriesAppendAll(h, wal, |h| - |d.wal|, ops);
    if d.marker.Some? {
      var f := d.marker.value.flushedSeq;
      var r: nat :| f <= r && RecordsAsOf(d.records.value, h, r);
      GrowRecords(d.records.value, h, h + ops, r);
      GrowHolds(IndexFile(d), SavedLabels(d).Keys, h, h + ops, f);
    }
  }

  lemma WriteMem(m: Mem, h: seq<Operation>, wal: W.Log, ops: seq<Operation>)
    requires Inv(m, h) && Valid(h + ops)
    requires LogHolds(h, wal.epoch, wal.records) && wal.lastSeq == |h|
    ensures var wal' := W.AppendAll(wal, ops);
            && ReplayLog(m, wal'.records[|wal.records|..]) == ReplayMem(m, h + ops, |h|, |h + ops|)
            && Inv(ReplayMem(m, h + ops, |h|, |h + ops|), h + ops)
  {
    hide ReplayMem, ReplayLog, Inv;
    var base, g := |h| - |wal.records|, h + ops;
    W.EntriesAppendAll(h, wal, base, ops);
    var appended := W.AppendAll(wal, ops).records[|wal.records|..];
    ReplayLogIsReplay(m, appended, g, |h|);
    assert g[..|h|] == h && g[..|g|] == g;
    ReplayMemInv(m, g, |h|, |g|);
  }

  /** What a logged and applied batch leaves behind. */
  lemma WriteParts(c: Config, s: Sys, ops: seq<Operation>)
    requires SysInv(c, s) && Valid(s.history + ops)
    ensures var t, g := WriteOps(s, ops), s.history + ops;
            && t.history == g
            && t.mem == ReplayMem(s.mem, g, |s.history|, |g|) && Inv(t.mem, g)
            && t.wal == W.AppendAll(s.wal, ops) && t.wal.epoch == c.epoch && t.wal.lastSeq == |g|
            && t.disk == s.disk.(wal := t.wal.records)
  {
    hide SysInv, Inv, ReplayLog, ReplayMem, Valid, W.AppendAll, W.Entries, LogHolds;
    SysFiles(c, s);
    SysWal(c, s);
    assert |s.disk.wal| <= |s.history| && s.disk.wal == W.Entries(s.history, c.epoch, |s.history| - |s.disk.wal|) by {
      LogParts(s.history, c.epoch, s.disk.wal);
    }
    WriteMem(s.mem, s.history, s.wal, ops);
    W.EntriesAppendAll(s.history, s.wal, |s.history| - |s.disk.wal|, ops);
  }

  lemma LogParts(h: seq<Operation>, epoch: nat, rs: seq<W.WalRecord>)
    requires LogHolds(h, epoch, rs)
    ensures |rs| <= |h| && rs == W.Entries(h, epoch, |h| - |rs|)
  {
  }

  lemma SysWal(c: Config, s: Sys)
    requires SysInv(c, s)
    ensures Inv(s.mem, s.history) && s.wal.epoch == c.epoch && s.wal.lastSeq == |s.history| && s.wal.records == s.disk.wal
  {
  }

  lemma WriteKept(c: Config, s: Sys, ops: seq<Operation>)
    requires SysInv(c, s) && s.disk.marker.Some?
    ensures var f, g := s.disk.marker.value.flushedSeq, s.history + ops;
            && LabelsKept(SavedLabels(s.disk), ReplayMem(s.mem, g, |s.history|, |g|).labels.labels, g, f)
            && ReplayMem(s.mem, g, |s.history|, |g|).flushedSeq == s.mem.flushedSeq
  {
    hide Inv, RecordFilesOk, IndexFilesOk, ReplayLabels, LabelsKept, Labelling;
    SysFiles(c, s);
    InvFiles(s.mem, s.history);
    GrowKept(SavedLabels(s.disk), s.mem.labels, s.mem.index, s.history, s.history + ops, s.disk.marker.value.flushedSeq);
  }

  lemma WriteInv(c: Config, s: Sys, ops: seq<Operation>)
    requires SysInv(c, s) && Valid(s.history + ops)
    ensures SysInv(c, WriteOps(s, ops))
  {
    hide Inv, FilesOk, ReplayMem, WriteOps, LabelsKept, W.AppendAll;
    WriteParts(c, s, ops);
    GrowFiles(s.disk, s.history, ops, s.wal);
    if s.disk.marker.Some? {
      WriteKept(c, s, ops);
    }
  }

  lemma SysFiles(c: Config, s: Sys)
    requires SysInv(c, s)
    ensures LogHolds(s.history, c.epoch, s.disk.wal) && RecordFilesOk(s.disk, s.history, c.epoch)
    ensures s.disk.marker.Some? ==> s.disk.marker.value.flushedSeq <= |s.history|
  {
  }

  lemma FilesHoldLog(d: Disk, h: seq<Operation>, epoch: nat)
    requires RecordFilesOk(d, h, epoch)
    ensures LogHolds(h, epoch, d.wal)
  {
  }

  // ---------------------------------------------------------------------------------------------
  // Checkpoints
  // ---------------------------------------------------------------------------------------------

  lemma InvFiles(m: Mem, h: seq<Operation>)
    requires Inv(m, h)
    ensures Valid(h) && m.flushedSeq <= |h|
    ensures RecordsAsOf(m.records, h, |h|) && Covers(h, |h|, m.flushedSeq, m.index)
    ensures Labelling(m.labels, m.index)
  {
  }

  /** Whatever file replacement a checkpoint stops after, record file, marker and log keep their promise. */
  lemma CheckpointRecordFilesOk(c: Config, s: Sys, rows: seq<Id>, k: nat)
    requires SysInv(c, s) && ListsVectors(rows, s.mem.records)
    ensures RecordFilesOk(CheckpointFiles(s, rows, k), s.history, c.epoch)
  {
    hide Inv, W.Entries, W.Above, RecordsAsOf, SegmentsFor, IndexFilesOk, LabelsKept, ListsVectors, Labelling, Covers, Replay;
    var d, h, f := CheckpointFiles(s, rows, k), s.history, s.mem.flushedSeq;
    InvFiles(s.mem, h);
    var base := |h| - |s.disk.wal|;
    W.EntriesAbove(h, c.epoch, base, f);
    if d.marker.Some? && k >= 1 {
      assert d.records.value == s.mem.records;
    }
  }

  /** A freshly saved index loads to itself, an empty one by its absence. */
  lemma SavedPair(s: Sys, rows: seq<Id>, k: nat)
    requires Labelling(s.mem.labels, s.mem.index) && ListsVectors(rows, s.mem.records) && k >= 3
    ensures var d := CheckpointFiles(s, rows, k);
            && L.Clean(LoadedLabels(d)) && IndexFile(d) == s.mem.index
            && SavedLabels(d) == s.mem.labels.labels
            && (d.meta.Some? ==> MetaMapped(d.meta.value))
  {
    L.CleanMapped(s.mem.labels);
    var x := s.mem.labels;
    L.CleanLoads(x);
    if x.graph == map[] {
      assert x.labels == map[];
      assert L.Vectors(L.NO_LABELS) == map[];
    }
  }

  /** A torn pair that loads takes every needed vector from its own label in the newer graph. */
  lemma TornPairHolds(saved: L.IndexMeta, x: L.Labelled, index: map<Id, Embedding>, h: seq<Operation>, flushed: nat, f: nat)
    requires Labelling(x, index) && Covers(h, |h|, f, index) && flushed <= f
    requires LabelsKept(saved.labels, x.labels, h, flushed)
    requires L.PairLoads(Some(x.graph), Some(saved))
    ensures HoldsBelow(h, flushed, L.Vectors(L.LoadPair(Some(x.graph), Some(saved))))
  {
    hide Replay, Decided;
    var loaded := L.Vectors(L.LoadPair(Some(x.graph), Some(saved)));
    forall k: nat | k < flushed && Surviving(h, |h|, k)
      ensures h[k].id in loaded && loaded[h[k].id] == h[k].embedding
    {
      assert h[k].id in index && h[k].id in L.Vectors(x);
    }
  }

  /** What the index files promise after k replacements; between the graph and its maps if the pair is harmless. */
  lemma CheckpointIndexFilesOk(c: Config, s: Sys, rows: seq<Id>, k: nat)
    requires SysInv(c, s) && ListsVectors(rows, s.mem.records) && CheckpointFiles(s, rows, k).marker.Some?
    requires k == 2 ==> TornPairHarmless(CheckpointFiles(s, rows, k), s.history)
    ensures var d := CheckpointFiles(s, rows, k); IndexFilesOk(d, s.history, d.marker.value.flushedSeq)
  {
    hide Inv, RecordFilesOk, L.Clean, L.Vectors, L.LoadPair, SegmentsFor, LabelsKept;
    var d, h := CheckpointFiles(s, rows, k), s.history;
    var f := d.marker.value.flushedSeq;
    InvFiles(s.mem, h);
    if k <= 1 {
      assert d.graph == s.disk.graph && d.meta == s.disk.meta;
    } else if k == 2 {
      TornFilesOk(c, s, rows);
    } else {
      SavedPair(s, rows, k);
      LabelIds(s.mem.labels, s.mem.index);
      SavedIndexHolds(h, f, s.mem.flushedSeq, |h|, s.mem.index);
    }
  }

  /** The files between the replacement of the graph and that of its maps. */
  lemma TornParts(s: Sys, rows: seq<Id>)
    requires ListsVectors(rows, s.mem.records)
    ensures var d := CheckpointFiles(s, rows, 2);
            && d.meta == s.disk.meta && d.marker == s.disk.marker
            && d.graph == (if s.mem.labels.graph == map[] then None else Some(s.mem.labels.graph))
            && d.records == Some(s.mem.records) && d.wal == s.disk.wal
  {
  }

  lemma TornFilesOk(c: Config, s: Sys, rows: seq<Id>)
    requires SysInv(c, s) && ListsVectors(rows, s.mem.records) && CheckpointFiles(s, rows, 2).marker.Some?
    requires TornPairHarmless(CheckpointFiles(s, rows, 2), s.history)
    ensures var d := CheckpointFiles(s, rows, 2); IndexFilesOk(d, s.history, d.marker.value.flushedSeq)
  {
    hide Inv, RecordFilesOk, CheckpointFiles, LabelsKept, Decided, ListsVectors, Labelling, Covers, L.Vectors, Deleted, Replay;
    var d, h := CheckpointFiles(s, rows, 2), s.history;
    TornParts(s, rows);
    InvFiles(s.mem, h);
    if L.PairLoads(d.graph, d.meta) {
      TornPairHolds(d.meta.value, s.mem.labels, s.mem.index, h, d.marker.value.flushedSeq, s.mem.flushedSeq);
    } else {
      EmptyClean();
    }
  }

  lemma EmptyClean()
    ensures L.Clean(L.NO_LABELS)
  {
  }

  /** Whatever file replacement a checkpoint stops after, the files keep their promise. */
  lemma CheckpointFilesOk(c: Config, s: Sys, rows: seq<Id>, k: nat)
    requires SysInv(c, s) && ListsVectors(rows, s.mem.records)
    requires k == 2 ==> TornPairHarmless(CheckpointFiles(s, rows, k), s.history)
    ensures FilesOk(CheckpointFiles(s, rows, k), s.history, c.epoch)
  {
    hide SysInv, RecordFilesOk, IndexFilesOk, CheckpointFiles, ListsVectors;
    CheckpointRecordFilesOk(c, s, rows, k);
    if CheckpointFiles(s, rows, k).marker.Some? {
      CheckpointIndexFilesOk(c, s, rows, k);
    }
  }

  lemma StripBelow(r: map<Id, Record>, s: map<Id, Record>, upTo: nat)
    requires Below(r, s)
    ensures Below(Strip(r, upTo), s)
  {
  }

  lemma StripOffsets(t: Offs, r: map<Id, Record>, upTo: nat)
    requires OffsetInv(t, r)
    ensures OffsetInv(t, Strip(r, upTo))
  {
    assert ByOffset(t, Strip(r, upTo)) == ByOffset(t, r);
  }

  lemma StripInv(m: Mem, h: seq<Operation>, upTo: nat)
    requires Inv(m, h) && upTo <= m.flushedSeq
    ensures Inv(m.(records := Strip(m.records, upTo)), h)
  {
    hide Replay, Below, OffsetInv, Labelling, Covers, Pending, Strip, KeepsAbove;
    StripKeepsAbove(m.records, h, m.flushedSeq, upTo);
    StripBelow(m.records, Fold(h, |h|), upTo);
    StripOffsets(m.offs, m.records, upTo);
    StripKeys(m.records, upTo);
  }

  lemma StripKeepsAbove(r: map<Id, Record>, h: seq<Operation>, f: nat, upTo: nat)
    requires Below(r, Fold(h, |h|)) && KeepsAbove(h, f, r) && upTo <= f
    ensures KeepsAbove(h, f, Strip(r, upTo))
  {
    hide Replay, Decided;
    forall x | x in Strip(r, upTo) && Decided(h, f, |h|, x)
      ensures Strip(r, upTo)[x].embedding.Some?
    {
      DecidedSeq(h, f, x);
      assert r[x].(embedding := None).seqNo == Fold(h, |h|)[x].(embedding := None).seqNo;
    }
  }

  lemma StripKeys(r: map<Id, Record>, upTo: nat)
    ensures Strip(r, upTo).Keys == r.Keys
  {
  }

  /** A completed checkpoint of a collection with records. */
  lemma CheckpointParts(s: Sys, rows: seq<Id>)
    requires ListsVectors(rows, s.mem.records) && s.mem.records != map[]
    ensures var t, d := Checkpoint(s, rows), CheckpointFiles(s, rows, 8);
            && t.history == s.history && t.disk == d
            && t.mem == s.mem.(records := Strip(s.mem.records, s.mem.flushedSeq))
            && t.wal == W.Open(s.wal.epoch, d.wal, Some(s.wal.lastSeq + 1)) && t.wal.epoch == s.wal.epoch
            && t.wal.records == d.wal
            && d.marker == Some(Marker(s.mem.flushedSeq, s.wal.lastSeq + 1, |s.mem.records|))
            && d.records == Some(s.mem.records)
  {
    hide Strip, W.Prune, SegmentsFor, ListsVectors;
  }

  lemma CheckpointInv(c: Config, s: Sys, rows: seq<Id>)
    requires SysInv(c, s) && ListsVectors(rows, s.mem.records)
    ensures SysInv(c, Checkpoint(s, rows))
  {
    if s.mem.records == map[] {
      assert Checkpoint(s, rows) == s;
    } else {
      hide Inv, FilesOk, CheckpointFiles, Checkpoint, ListsVectors, LabelsKept, Strip;
      InvFiles(s.mem, s.history);
      CheckpointFilesOk(c, s, rows, 8);
      CheckpointParts(s, rows);
      SavedPair(s, rows, 8);
      StripInv(s.mem, s.history, s.mem.flushedSeq);
      OwnLabelsKept(s.mem, s.history);
      ReopenedSeq(c, CheckpointFiles(s, rows, 8), s.history, s.wal.lastSeq);
    }
  }

  lemma OwnLabelsKept(m: Mem, h: seq<Operation>)
    requires Inv(m, h)
    ensures LabelsKept(m.labels.labels, m.labels.labels, h, m.flushedSeq)
  {
    hide Replay, Pending, OffsetInv, Below, Decided;
    LabelIds(m.labels, m.index);
  }

  /** The pruned log, opened at the marker's next number, continues the history. */
  lemma ReopenedSeq(c: Config, d: Disk, h: seq<Operation>, lastSeq: nat)
    requires FilesOk(d, h, c.epoch) && lastSeq == |h|
    ensures W.Open(c.epoch, d.wal, Some(lastSeq + 1)).lastSeq == |h|
  {
  }

  // ---------------------------------------------------------------------------------------------
  // Reopening
  // ---------------------------------------------------------------------------------------------

  /** Replaying the log above a watermark it still reaches back to replays that part of the history. */
  lemma ReplayAfterIsReplay(m: Mem, h: seq<Operation>, wal: W.Log, lo: nat)
    requires LogHolds(h, wal.epoch, wal.records) && wal.lastSeq == |h|
    requires Base(h, wal.records) <= lo <= |h|
    ensures ReplayAfter(m, wal, lo) == ReplayMem(m, h, lo, |h|)
  {
    hide ReplayMem, ReplayLog, W.Entries, W.Select;
    ReplayMemStep(m, h, lo, |h|);
    W.EntriesSelect(h, wal.epoch, |h| - |wal.records|, lo);
    ReplayLogIsReplay(m, W.Entries(h, wal.epoch, lo), h, lo);
  }

  lemma OpenWalSeq(c: Config, d: Disk, h: seq<Operation>)
    requires RecordFilesOk(d, h, c.epoch) && (Accepts(d) || Base(h, d.wal) == 0)
    ensures OpenWal(c, d).lastSeq == |h|
  {
  }

  /** The loaded state, its record map stripped or not, satisfies what the tail replay needs. */
  lemma LoadedFacts(d: Disk, h: seq<Operation>, r: nat, order: seq<Id>)
    requires Accepts(d) && RecordsAsOf(d.records.value, h, r) && OrderFor(d, order)
    ensures var m := Loaded(d, order);
            && m.flushedSeq == d.marker.value.flushedSeq
            && Below(m.records, Fold(h, r)) && m.buffer == [] && m.index == IndexFile(d)
            && m.labels == LoadedLabels(d)
            && OffsetInv(m.offs, m.records) && m.offs.offsets.Keys == m.records.Keys
  {
    hide Below, Replay;
    StripBelow(d.records.value, Fold(h, r), d.marker.value.flushedSeq);
    RestoredFacts(LoadedRecords(d), order);
  }

  /** Reopening files that load, or that were never checkpointed, restores the invariant. */
  lemma ReplayedInv(c: Config, d: Disk, order: seq<Id>, h: seq<Operation>)
    requires Valid(h) && FilesOk(d, h, c.epoch) && OrderFor(d, order)
    requires d.marker.Some? ==> Accepts(d)
    ensures Inv(Replayed(c, d, order), h)
    ensures d.marker.Some? ==> Replayed(c, d, order).flushedSeq == d.marker.value.flushedSeq
  {
    hide ReplayAfter, ReplayMem, Loaded, Inv, Below, L.Clean, L.Vectors, LoadedLabels, HoldsBelow, LiveOrDeleted, LogHolds;
    OpenWalSeq(c, d, h);
    if Accepts(d) {
      var m, f := Loaded(d, order), d.marker.value.flushedSeq;
      var r: nat :| f <= r && RecordsAsOf(d.records.value, h, r);
      LoadedFacts(d, h, r, order);
      FileKeys(d, h, f);
      ReopenInv(m, h, r);
      ReplayAfterIsReplay(m, h, OpenWal(c, d), f);
      ReplayMemWatermark(m, h, f);
    } else {
      FreshReplay(h);
      ReplayAfterIsReplay(FRESH, h, OpenWal(c, d), 0);
    }
  }

  /** The loaded index holds only ids of index.meta. */
  lemma FileKeys(d: Disk, h: seq<Operation>, lo: nat)
    requires LiveOrDeleted(h, lo, SavedLabels(d).Keys)
    ensures IndexFile(d).Keys <= SavedLabels(d).Keys
    ensures LiveOrDeleted(h, lo, IndexFile(d).Keys)
  {
    hide Replay, Deleted;
    assert IndexFile(d).Keys <= SavedLabels(d).Keys;
  }

  lemma ReplayMemWatermark(m: Mem, h: seq<Operation>, lo: nat)
    ensures ReplayMem(m, h, lo, |h|).flushedSeq == m.flushedSeq
  {
  }

  lemma FreshReplay(h: seq<Operation>)
    requires Valid(h)
    ensures Inv(ReplayMem(FRESH, h, 0, |h|), h)
  {
    FreshInv();
    ReopenInv(FRESH, h, 0);
  }

  /** The replayed state has the saved labels of every vector the files are needed for. */
  lemma ReplayedKept(c: Config, d: Disk, order: seq<Id>, h: seq<Operation>)
    requires Valid(h) && FilesOk(d, h, c.epoch) && OrderFor(d, order) && Accepts(d)
    ensures LabelsKept(SavedLabels(d), Replayed(c, d, order).labels.labels, h, d.marker.value.flushedSeq)
  {
    hide ReplayLog, Loaded, Below, HoldsBelow, LiveOrDeleted, LogHolds, Replay, ReplayOffs, ReplayBuffer, ReplayIndex;
    hide ReplayLabels, L.Clean, Decided, Deleted, RecordsAsOf;
    var m, f := Loaded(d, order), d.marker.value.flushedSeq;
    OpenWalSeq(c, d, h);
    var r: nat :| f <= r && RecordsAsOf(d.records.value, h, r);
    LoadedFacts(d, h, r, order);
    ReplayAfterIsReplay(m, h, OpenWal(c, d), f);
    LoadedKept(d, h, f);
    ReplayLabelling(h, f, |h|, m.labels, m.index);
    forall k: nat | k < f && Surviving(h, |h|, k)
      ensures !Deleted(h, f, |h|, h[k].id)
    {
      SurvivingUndeleted(h, k, f);
    }
  }

  lemma SurvivingUndeleted(h: seq<Operation>, k: nat, f: nat)
    requires k < f <= |h| && Surviving(h, |h|, k)
    ensures !Deleted(h, f, |h|, h[k].id)
  {
    DeletedIsDecided(h, k + 1, f, |h|, h[k].id);
  }

  lemma LoadedKept(d: Disk, h: seq<Operation>, f: nat)
    requires IndexFilesOk(d, h, f)
    ensures Labelling(LoadedLabels(d), IndexFile(d))
    ensures LabelsKept(SavedLabels(d), LoadedLabels(d).labels, h, f)
  {
    hide Replay, Decided, Deleted;
    LabelIds(LoadedLabels(d), IndexFile(d));
  }

  lemma OpenInv(c: Config, d: Disk, order: seq<Id>, h: seq<Operation>)
    requires Valid(h) && FilesOk(d, h, c.epoch) && OrderFor(d, order)
    requires d.marker.Some? ==> Accepts(d)
    ensures Opens(c, d, order)
    ensures SysInv(c, OpenFrom(c, d, order, h))
  {
    hide Inv, Replayed, IndexFilesOk, LabelsKept, Flush, LogHolds, RecordsAsOf;
    var m := Replayed(c, d, order);
    ReplayedInv(c, d, order, h);
    OpenWalSeq(c, d, h);
    FlushInv(m, h);
    FlushRaises(m);
    if d.marker.Some? {
      ReplayedKept(c, d, order, h);
      FlushKept(SavedLabels(d), m, h, d.marker.value.flushedSeq);
    }
  }

  lemma FlushRaises(m: Mem)
    ensures Flush(m).flushedSeq >= m.flushedSeq
  {
  }

  // ---------------------------------------------------------------------------------------------
  // The whole-run theorem
  // ---------------------------------------------------------------------------------------------

  lemma ExecInv(c: Config, s: Sys, step: Step)
    requires SysInv(c, s) && Enabled(c, s, step)
    ensures SysInv(c, Exec(c, s, step))
  {
    match step
    case Write(b) =>
      if Accepted(c.dimension, s.mem.records.Keys, b) {
        var ops := Ops(c.dimension, s.mem.records.Keys, b);
        AcceptedKeepsValid(s.history, c.dimension, s.mem.records.Keys, b, |ops|);
        assert ops[..|ops|] == ops;
        WriteInv(c, s, ops);
      }
    case FlushNow =>
      FlushInv(s.mem, s.history);
      if s.disk.marker.Some? {
        FlushKept(SavedLabels(s.disk), s.mem, s.history, s.disk.marker.value.flushedSeq);
      }
    case CheckpointNow(rows) => CheckpointInv(c, s, rows);
    case ReopenNow(order) => OpenInv(c, s.disk, order, s.history);
    case CrashInWrite(b, k, order) =>
      if Accepted(c.dimension, s.mem.records.Keys, b) {
        var ops := Ops(c.dimension, s.mem.records.Keys, b)[..k];
        AcceptedKeepsValid(s.history, c.dimension, s.mem.records.Keys, b, k);
        GrowFiles(s.disk, s.history, ops, s.wal);
        OpenInv(c, s.disk.(wal := W.AppendAll(s.wal, ops).records), order, s.history + ops);
      } else {
        OpenInv(c, s.disk, order, s.history);
      }
    case CrashInCheckpoint(rows, k, order) =>
      CheckpointFilesOk(c, s, rows, k);
      OpenInv(c, CheckpointFiles(s, rows, k), order, s.history);
  }

  lemma {:induction false} RunInv(c: Config, steps: seq<Step>)
    requires Run(c, steps).Some?
    ensures SysInv(c, Run(c, steps).value)
  {
    if steps == [] {
      StartInv(c);
    } else {
      RunInv(c, steps[..|steps| - 1]);
      ExecInv(c, Run(c, steps[..|steps| - 1]).value, steps[|steps| - 1]);
    }
  }
}
