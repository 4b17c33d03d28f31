/** A crash inside a checkpoint: what the log still holds, and exactly when reopen restores the records. */
module Crash {
  import opened Core
  import opened History
  import opened Collection
  import opened Reopen
  import opened Runs
  import opened Guarantees
  import L = Labels
  import W = WalLog

  /** The watermark of the marker on disk, 0 while there is none. */
  function Watermark(d: Disk): nat {
    if d.marker.Some? then d.marker.value.flushedSeq else 0
  }

  /** After any of the file replacements, the log still holds every operation above the marker's watermark. */
  lemma CrashKeepsLog(c: Config, s: Sys, rows: seq<Id>, k: nat, q: nat)
    requires SysInv(c, s) && ListsVectors(rows, s.mem.records)
    requires Watermark(CheckpointFiles(s, rows, k)) < q <= |s.history|
    ensures W.WalRecord(q, c.epoch, s.history[q - 1]) in CheckpointFiles(s, rows, k).wal
  {
    hide LogHolds, SysInv, CheckpointFiles, ListsVectors;
    CheckpointRecordFilesOk(c, s, rows, k);
    var d, h := CheckpointFiles(s, rows, k), s.history;
    LogContents(h, c.epoch, d.wal);
    assert d.wal[q - 1 - (|h| - |d.wal|)] == W.WalRecord(q, c.epoch, h[q - 1]);
  }

  /** The catalog's watermark never passes the marker's, and the log always reaches back to it. */
  lemma CatalogBetween(c: Config, s: Sys, rows: seq<Id>, k: nat)
    requires SysInv(c, s) && ListsVectors(rows, s.mem.records)
    ensures var d := CheckpointFiles(s, rows, k);
            |s.history| - |d.wal| <= d.catalogSeq <= Watermark(d)
  {
    CheckpointRecordFilesOk(c, s, rows, k);
  }

  /** Replaying only the operations above base, from nothing. */
  lemma PartialReplayIff(h: seq<Operation>, base: nat)
    requires Valid(h) && base <= |h|
    ensures Below(Replay(h, base, |h|, map[]), Fold(h, |h|)) <==>
            forall x :: x in Fold(h, |h|) ==> Fold(h, |h|)[x].seqNo > base
  {
    var n := |h|;
    var now, truth := Replay(h, base, n, map[]), Fold(h, n);
    forall x
      ensures x in now ==> x in truth
      ensures x in truth ==> (x in now <==> truth[x].seqNo > base)
      ensures x in now ==> now[x].(embedding := None) == truth[x].(embedding := None)
      ensures x in now ==> now[x].embedding.None? || now[x].embedding == truth[x].embedding
    {
      ReplayInStep(h, base, n, map[], x);
      PartialLookup(h, base, x);
    }
  }

  lemma PartialLookup(h: seq<Operation>, base: nat, x: Id)
    requires Valid(h) && base <= |h|
    requires InStep(h, base, |h|, x, None, At(Replay(h, base, |h|, map[]), x), At(Fold(h, |h|), x))
    ensures var now, truth := Replay(h, base, |h|, map[]), Fold(h, |h|);
            && (x in now ==> x in truth)
            && (x in truth ==> (x in now <==> truth[x].seqNo > base))
            && (x in now ==> now[x].(embedding := None) == truth[x].(embedding := None))
            && (x in now ==> now[x].embedding.None? || now[x].embedding == truth[x].embedding)
  {
    hide Replay;
    if x in Fold(h, |h|) {
      LiveSeq(h, |h|, x);
      var q := Fold(h, |h|)[x].seqNo;
      if q > base {
        assert h[q - 1].id == x;
      }
    }
  }

  /** Files that do not load leave the fresh state and a replay of the whole log. */
  lemma RejectedOpens(c: Config, d: Disk, order: seq<Id>)
    requires !Accepts(d)
    ensures Replayed(c, d, order) == ReplayAfter(FRESH, W.Open(c.epoch, d.wal, None), 0)
  {
    hide Accepts, W.Open, ReplayAfter, Loaded;
  }

  /** A full replay of a log that holds the newest operations. */
  lemma WholeLogReplay(h: seq<Operation>, epoch: nat, rs: seq<W.WalRecord>)
    requires |rs| <= |h| && rs != []
    requires forall i :: 0 <= i < |rs| ==> rs[i] == W.WalRecord(|h| - |rs| + i + 1, epoch, h[|h| - |rs| + i])
    ensures ReplayAfter(FRESH, W.Open(epoch, rs, None), 0) == ReplayMem(FRESH, h, |h| - |rs|, |h|)
  {
    hide ReplayMem, ReplayLog, W.Select;
    W.AllSelected(rs, 1, |h|);
    ReplayLogIsReplay(FRESH, rs, h, |h| - |rs|);
  }

  lemma RejectedReplay(c: Config, d: Disk, order: seq<Id>, h: seq<Operation>)
    requires RecordFilesOk(d, h, c.epoch) && !Accepts(d)
    ensures Replayed(c, d, order).records == Replay(h, |h| - |d.wal|, |h|, map[])
  {
    hide RecordFilesOk, Accepts, Replayed, Replay, ReplayAfter, ReplayMem, LogHolds, W.Open;
    FilesHoldLog(d, h, c.epoch);
    LogContents(h, c.epoch, d.wal);
    RejectedOpens(c, d, order);
    if d.wal == [] {
      EmptyLogReplay(c.epoch);
      ReplayNothing(h);
    } else {
      WholeLogReplay(h, c.epoch, d.wal);
      ReplayMemRecords(FRESH, h, |h| - |d.wal|, |h|);
    }
  }

  lemma EmptyLogReplay(epoch: nat)
    ensures ReplayAfter(FRESH, W.Open(epoch, [], None), 0) == FRESH
  {
  }

  lemma ReplayNothing(h: seq<Operation>)
    ensures Replay(h, |h|, |h|, map[]) == map[]
  {
  }

  lemma ReplayMemRecords(m: Mem, h: seq<Operation>, lo: nat, hi: nat)
    requires hi <= |h|
    ensures ReplayMem(m, h, lo, hi).records == Replay(h, lo, hi, m.records)
  {
  }

  lemma AcceptedRestores(c: Config, d: Disk, order: seq<Id>, h: seq<Operation>)
    requires Valid(h) && RecordFilesOk(d, h, c.epoch) && Accepts(d) && OrderFor(d, order)
    ensures Below(Replayed(c, d, order).records, Fold(h, |h|))
  {
    hide Replay, ReplayMem, ReplayAfter, StepOffs, Loaded, LogHolds, Below, Valid;
    var f := d.marker.value.flushedSeq;
    OpenWalSeq(c, d, h);
    var r: nat :| f <= r && RecordsAsOf(d.records.value, h, r);
    LoadedFacts(d, h, r, order);
    ReplayAfterIsReplay(Loaded(d, order), h, OpenWal(c, d), f);
    ReplayMemRecords(Loaded(d, order), h, f, |h|);
    ReplayBelow(h, f, |h|, Loaded(d, order).records, Fold(h, r));
    ReplayCatchesUp(h, f, r, |h|);
  }

  /**
   Crash safety of a checkpoint.  Whatever file replacement the crash follows, loading and replaying
   restores the folded record map (vectors aside) exactly when the files load, or the log was never
   pruned, or every live record was last written above what the log still holds.
   */
  lemma CrashRestoresIff(c: Config, s: Sys, rows: seq<Id>, k: nat, order: seq<Id>)
    requires SysInv(c, s) && ListsVectors(rows, s.mem.records)
    requires OrderFor(CheckpointFiles(s, rows, k), order)
    ensures var d := CheckpointFiles(s, rows, k);
            var base := |s.history| - |d.wal|;
            var truth := Fold(s.history, |s.history|);
            Below(Replayed(c, d, order).records, truth) <==>
              (Accepts(d) || base == 0 || forall x :: x in truth ==> truth[x].seqNo > base)
  {
    hide Replay, Replayed, CheckpointFiles, Below, RecordFilesOk, IndexFilesOk, LabelsKept, Accepts, ListsVectors;
    CheckpointRecordFilesOk(c, s, rows, k);
    var d, h := CheckpointFiles(s, rows, k), s.history;
    var base := |h| - |d.wal|;
    assert base >= 0 by { FilesHoldLog(d, h, c.epoch); }
    if Accepts(d) {
      AcceptedRestores(c, d, order, h);
    } else {
      RejectedReplay(c, d, order, h);
      PartialReplayIff(h, base);
      if base == 0 {
        forall x | x in Fold(h, |h|)
          ensures Fold(h, |h|)[x].seqNo > 0
        {
          LiveSeq(h, |h|, x);
        }
      }
    }
  }

  // ---------------------------------------------------------------------------------------------
  // Whether open gets through the flush it ends with
  // ---------------------------------------------------------------------------------------------

  /** The label maps and the graph the tail replay starts from. */
  function OpenedLabels(d: Disk): L.Labelled {
    if Accepts(d) then LoadedLabels(d) else L.NO_LABELS
  }

  lemma {:induction false} ReplayBufferVectors(h: seq<Operation>, lo: nat, hi: nat)
    requires hi <= |h|
    ensures forall e :: e in ReplayBuffer(h, lo, hi, []) ==> e.embedding.Some?
    decreases hi
  {
    if hi > lo {
      ReplayBufferVectors(h, lo, hi - 1);
    }
  }

  /** Buffer and labels before that flush come from one replay of a tail of the history. */
  lemma ReplayedTail(c: Config, d: Disk, order: seq<Id>, h: seq<Operation>) returns (lo: nat)
    requires RecordFilesOk(d, h, c.epoch) && OrderFor(d, order)
    ensures lo <= |h|
    ensures Replayed(c, d, order).buffer == ReplayBuffer(h, lo, |h|, [])
    ensures Replayed(c, d, order).labels == ReplayLabels(h, lo, |h|, OpenedLabels(d))
  {
    hide Replay, ReplayAfter, ReplayBuffer, ReplayIndex, ReplayLabels, ReplayOffs, Loaded, LogHolds, RecordsAsOf, W.Open;
    FilesHoldLog(d, h, c.epoch);
    if Accepts(d) {
      lo := d.marker.value.flushedSeq;
      OpenWalSeq(c, d, h);
      var r: nat :| lo <= r && RecordsAsOf(d.records.value, h, r);
      LoadedFacts(d, h, r, order);
      OpenWalLog(c, d);
      ReplayAfterIsReplay(Loaded(d, order), h, OpenWal(c, d), lo);
    } else {
      LogContents(h, c.epoch, d.wal);
      lo := |h| - |d.wal|;
      RejectedOpens(c, d, order);
      if d.wal == [] {
        EmptyLogReplay(c.epoch);
        NothingReplayed(h);
      } else {
        WholeLogReplay(h, c.epoch, d.wal);
      }
    }
  }

  lemma OpenWalLog(c: Config, d: Disk)
    ensures OpenWal(c, d).records == d.wal && OpenWal(c, d).epoch == c.epoch
  {
  }

  lemma NothingReplayed(h: seq<Operation>)
    ensures ReplayBuffer(h, |h|, |h|, []) == [] && ReplayLabels(h, |h|, |h|, L.NO_LABELS) == L.NO_LABELS
  {
  }

  /**
   Reopening any files whose label maps are sound returns a collection exactly when the rebuilt
   buffer stays below the batch size, or the loaded graph holds none of the labels its flush takes.
   */
  lemma OpensIff(c: Config, d: Disk, order: seq<Id>, h: seq<Operation>)
    requires RecordFilesOk(d, h, c.epoch) && OrderFor(d, order) && L.Mapped(OpenedLabels(d))
    ensures var n, x := |Replayed(c, d, order).buffer|, OpenedLabels(d);
            Opens(c, d, order) <==> n < c.batchSize || LabelsFree(x.graph, x.nextLabel, n)
  {
    hide RecordFilesOk, Replayed, ReplayBuffer, ReplayLabels, OpenedLabels, L.Mapped, L.Vectors, OrderFor;
    var lo := ReplayedTail(c, d, order, h);
    var m, x := Replayed(c, d, order), OpenedLabels(d);
    ReplayBufferVectors(h, lo, |h|);
    ReplayMapped(h, lo, |h|, x);
    FlushesIff(m.labels, m.buffer);
  }

  /** The saved label maps stay sound through a checkpoint, torn or not. */
  lemma CheckpointMapped(c: Config, s: Sys, rows: seq<Id>, k: nat)
    requires SysInv(c, s) && ListsVectors(rows, s.mem.records)
    ensures L.Mapped(OpenedLabels(CheckpointFiles(s, rows, k)))
  {
    hide Inv, RecordFilesOk, LabelsKept, L.Clean, HoldsBelow, LiveOrDeleted, SegmentsFor, L.Vectors, ListsVectors, Labelling;
    var d := CheckpointFiles(s, rows, k);
    InvFiles(s.mem, s.history);
    if k >= 3 {
      SavedPair(s, rows, k);
    }
  }

  /** Whether open succeeds after a crash behind any file replacement; only a torn index pair can stop it. */
  lemma CrashOpensIff(c: Config, s: Sys, rows: seq<Id>, k: nat, order: seq<Id>)
    requires SysInv(c, s) && ListsVectors(rows, s.mem.records)
    requires OrderFor(CheckpointFiles(s, rows, k), order)
    ensures var d := CheckpointFiles(s, rows, k);
            var n, x := |Replayed(c, d, order).buffer|, OpenedLabels(d);
            && (Opens(c, d, order) <==> n < c.batchSize || LabelsFree(x.graph, x.nextLabel, n))
            && (k != 2 ==> Opens(c, d, order))
  {
    hide SysInv, CheckpointFiles, RecordFilesOk, Replayed, L.Mapped, ListsVectors, OrderFor, IndexFilesOk, LoadedLabels;
    var d, h := CheckpointFiles(s, rows, k), s.history;
    CheckpointRecordFilesOk(c, s, rows, k);
    CheckpointMapped(c, s, rows, k);
    OpensIff(c, d, order, h);
    if k != 2 && Accepts(d) {
      CheckpointIndexFilesOk(c, s, rows, k);
      CleanFree(d, h, d.marker.value.flushedSeq);
    }
  }

  lemma CleanFree(d: Disk, h: seq<Operation>, f: nat)
    requires IndexFilesOk(d, h, f)
    ensures forall n: nat :: LabelsFree(LoadedLabels(d).graph, LoadedLabels(d).nextLabel, n)
  {
  }

  /** The flush that open ends with touches no record. */
  lemma OpenedRecordsAre(c: Config, d: Disk, order: seq<Id>, h: seq<Operation>)
    ensures OpenFrom(c, d, order, h).mem.records == Replayed(c, d, order).records
  {
    hide Replayed, OpenWal;
  }

  /** A crash inside the first checkpoint of a collection always reopens, with all records. */
  lemma FirstCheckpointIsSafe(c: Config, s: Sys, rows: seq<Id>, k: nat, order: seq<Id>)
    requires SysInv(c, s) && ListsVectors(rows, s.mem.records) && s.disk.marker.None?
    requires OrderFor(CheckpointFiles(s, rows, k), order)
    ensures Opens(c, CheckpointFiles(s, rows, k), order)
    ensures Below(OpenFrom(c, CheckpointFiles(s, rows, k), order, s.history).mem.records, Fold(s.history, |s.history|))
  {
    hide Below, Replay, Opens, OpenFrom, Replayed;
    CrashRestoresIff(c, s, rows, k, order);
    CrashOpensIff(c, s, rows, k, order);
    OpenedRecordsAre(c, CheckpointFiles(s, rows, k), order, s.history);
  }

  /**
   Sequence numbers continue after any crash inside a checkpoint, rejected files included: an empty
   log forces the record count to fit.
   */
  lemma CrashKeepsNumbering(c: Config, s: Sys, rows: seq<Id>, k: nat)
    requires SysInv(c, s) && ListsVectors(rows, s.mem.records)
    ensures OpenWal(c, CheckpointFiles(s, rows, k)).lastSeq == |s.history|
  {
    hide SysInv, CheckpointFiles, ListsVectors, RecordFilesOk, LogHolds, Accepts;
    var d, h := CheckpointFiles(s, rows, k), s.history;
    CheckpointRecordFilesOk(c, s, rows, k);
    FilesHoldLog(d, h, c.epoch);
    LogContents(h, c.epoch, d.wal);
    if d.wal == [] {
      EmptyLogAccepts(c, s, rows, k);
    }
    if Accepts(d) || |d.wal| == |h| {
      OpenWalSeq(c, d, h);
    } else {
      assert d.wal[|d.wal| - 1].seqNo == |h|;
    }
  }

  /** The record count still fits when the log is empty: no operation came after the checkpoint. */
  lemma EmptyLogAccepts(c: Config, s: Sys, rows: seq<Id>, k: nat)
    requires SysInv(c, s) && ListsVectors(rows, s.mem.records) && CheckpointFiles(s, rows, k).wal == []
    ensures Accepts(CheckpointFiles(s, rows, k)) || s.history == []
  {
    hide OffsetInv, Labelling, Covers, Pending, IndexFilesOk, LabelsKept, ListsVectors, Replay, SegmentsFor, W.Above;
    var d, h := CheckpointFiles(s, rows, k), s.history;
    if k < 4 && h != [] {
      assert d.wal == s.disk.wal == [] && d.marker == s.disk.marker;
      var r: nat :| d.marker.value.flushedSeq <= r && RecordsAsOf(s.disk.records.value, h, r);
      assert r == |h|;
      SameCount(s.disk.records.value, s.mem.records);
    }
  }

  lemma SameCount(a: map<Id, Record>, b: map<Id, Record>)
    ensures a.Keys == b.Keys ==> |a| == |b|
  {
    assert |a| == |a.Keys| && |b| == |b.Keys|;
  }

  // ---------------------------------------------------------------------------------------------
  // Between index.bin and index.meta
  // ---------------------------------------------------------------------------------------------

  lemma TornReplay(c: Config, s: Sys, rows: seq<Id>, order: seq<Id>)
    requires SysInv(c, s) && ListsVectors(rows, s.mem.records)
    requires Accepts(CheckpointFiles(s, rows, 2)) && OrderFor(CheckpointFiles(s, rows, 2), order)
    ensures var d, h := CheckpointFiles(s, rows, 2), s.history;
            var m, f := Replayed(c, d, order), d.marker.value.flushedSeq;
            && Valid(h) && f <= |h|
            && m.flushedSeq == f && m.buffer == Pending(h, f, |h|)
            && m.index == ReplayIndex(h, f, |h|, IndexFile(d))
            && LiveOrDeleted(h, f, IndexFile(d).Keys)
  {
    hide Inv, CheckpointFiles, ListsVectors, LabelsKept, LogHolds, RecordsAsOf, Pending, ReplayIndex, ReplayBuffer, L.Clean;
    hide HoldsBelow, LiveOrDeleted, Replayed;
    var d, h := CheckpointFiles(s, rows, 2), s.history;
    var f := d.marker.value.flushedSeq;
    InvFiles(s.mem, h);
    TornParts(s, rows);
    CheckpointRecordFilesOk(c, s, rows, 2);
    LoadedReplay(c, d, order, h);
    ReplayFromEmpty(h, f, |h|);
    FileKeys(d, h, f);
  }

  /** A torn pair that loads is harmless: the newer graph still holds every needed vector under its old label. */
  lemma LoadedPairHolds(c: Config, s: Sys, rows: seq<Id>)
    requires SysInv(c, s) && ListsVectors(rows, s.mem.records) && CheckpointFiles(s, rows, 2).marker.Some?
    requires L.PairLoads(CheckpointFiles(s, rows, 2).graph, CheckpointFiles(s, rows, 2).meta)
    ensures var d := CheckpointFiles(s, rows, 2); HoldsBelow(s.history, d.marker.value.flushedSeq, IndexFile(d))
  {
    hide Inv, CheckpointFiles, ListsVectors, LabelsKept, Labelling, Covers, RecordFilesOk, L.Vectors, HoldsBelow;
    var d, h := CheckpointFiles(s, rows, 2), s.history;
    TornParts(s, rows);
    InvFiles(s.mem, h);
    TornPairHolds(d.meta.value, s.mem.labels, s.mem.index, h, d.marker.value.flushedSeq, s.mem.flushedSeq);
  }

  /** An index that did not load holds every needed vector exactly when none is needed. */
  lemma RefusedPairHolds(d: Disk, h: seq<Operation>, f: nat)
    requires !L.PairLoads(d.graph, d.meta)
    ensures HoldsBelow(h, f, IndexFile(d)) <==> NoneBelow(h, f)
  {
    hide Decided;
    assert IndexFile(d) == map[];
  }

  /**
   A crash between the replacement of index.bin and that of index.meta, with a record file that
   loads: after the tail replay the buffer and the index hold every newest vector exactly when the
   pair loads (the newer graph has as many vectors as the older maps have labels), or no live id's
   newest vector was written at or below the marker's watermark.
   */
  lemma TornReplayIff(c: Config, s: Sys, rows: seq<Id>, order: seq<Id>)
    requires SysInv(c, s) && ListsVectors(rows, s.mem.records)
    requires Accepts(CheckpointFiles(s, rows, 2)) && OrderFor(CheckpointFiles(s, rows, 2), order)
    ensures var d := CheckpointFiles(s, rows, 2);
            TwoTiers(Replayed(c, d, order), s.history) <==>
              L.PairLoads(d.graph, d.meta) || NoneBelow(s.history, d.marker.value.flushedSeq)
  {
    hide SysInv, CheckpointFiles, ListsVectors, Replayed, HoldsBelow, LiveOrDeleted, NoneBelow, TwoTiers, Pending, ReplayIndex, Replay;
    hide IndexFile, L.PairLoads, Valid;
    var d, h := CheckpointFiles(s, rows, 2), s.history;
    var m, f := Replayed(c, d, order), d.marker.value.flushedSeq;
    TornReplay(c, s, rows, order);
    TailTiersIff(m, h, IndexFile(d));
    if L.PairLoads(d.graph, d.meta) {
      LoadedPairHolds(c, s, rows);
    } else {
      RefusedPairHolds(d, h, f);
    }
  }

  /**
   The whole reopen after that crash.  It returns a collection whose buffer and index hold every
   newest vector exactly when that condition holds and the flush it ends with is not due or finds
   its labels free in the newer graph.
   */
  lemma TornIndexIff(c: Config, s: Sys, rows: seq<Id>, order: seq<Id>)
    requires SysInv(c, s) && ListsVectors(rows, s.mem.records)
    requires Accepts(CheckpointFiles(s, rows, 2)) && OrderFor(CheckpointFiles(s, rows, 2), order)
    ensures var d := CheckpointFiles(s, rows, 2);
            var n, x := |Replayed(c, d, order).buffer|, LoadedLabels(d);
            Opens(c, d, order) && TwoTiers(OpenFrom(c, d, order, s.history).mem, s.history) <==>
              && (L.PairLoads(d.graph, d.meta) || NoneBelow(s.history, d.marker.value.flushedSeq))
              && (n < c.batchSize || LabelsFree(x.graph, x.nextLabel, n))
  {
    hide SysInv, CheckpointFiles, ListsVectors, Replayed, LiveOrDeleted, NoneBelow, TwoTiers, Pending, ReplayIndex, Replay;
    hide IndexFile, L.PairLoads, Valid, LabelsFree, LoadedLabels, OrderFor, Flush, Flushes;
    var d, h := CheckpointFiles(s, rows, 2), s.history;
    var m := Replayed(c, d, order);
    TornReplay(c, s, rows, order);
    TornReplayIff(c, s, rows, order);
    CrashOpensIff(c, s, rows, 2, order);
    if Opens(c, d, order) {
      TailIsLive(m, h, IndexFile(d));
      if |m.buffer| >= c.batchSize {
        FlushTiersIff(m, h);
      }
    }
  }

  lemma TailIsLive(m: Mem, h: seq<Operation>, saved: map<Id, Embedding>)
    requires m.flushedSeq <= |h| && m.index == ReplayIndex(h, m.flushedSeq, |h|, saved)
    requires LiveOrDeleted(h, m.flushedSeq, saved.Keys)
    ensures forall x :: x in m.index ==> x in Fold(h, |h|) && !Deleted(h, m.flushedSeq, |h|, x)
  {
    hide Replay, ReplayIndex, Deleted;
    forall x | x in m.index
      ensures x in Fold(h, |h|) && !Deleted(h, m.flushedSeq, |h|, x)
    {
      ReplayIndexLookup(h, m.flushedSeq, |h|, saved, x);
    }
  }

  /** A flush that succeeds neither repairs nor breaks the two tiers. */
  lemma FlushTiersIff(m: Mem, h: seq<Operation>)
    requires Valid(h) && m.flushedSeq <= |h| && m.buffer == Pending(h, m.flushedSeq, |h|)
    requires forall x :: x in m.index ==> x in Fold(h, |h|) && !Deleted(h, m.flushedSeq, |h|, x)
    requires Flushes(m.labels, m.buffer)
    ensures TwoTiers(Flush(m), h) <==> TwoTiers(m, h)
  {
    hide Replay, Pending, TwoTiers, Decided, Deleted, FlushInto, FlushLabels, Valid, MaxSeq;
    var n, m' := |h|, Flush(m);
    TwoTiersIff(m, h);
    FlushEmpties(h, m.flushedSeq, n);
    FlushedIsLive(m, h);
    TwoTiersIff(m', h);
    if HoldsBelow(h, m.flushedSeq, m.index) {
      FlushCovers(h, n, m.flushedSeq, m'.flushedSeq, m.index);
    }
    if HoldsBelow(h, m'.flushedSeq, m'.index) {
      forall k: nat | k < m.flushedSeq && Surviving(h, n, k)
        ensures h[k].id in m.index && m.index[h[k].id] == h[k].embedding
      {
        UnflushedLookup(m, h, k);
      }
    }
  }

  lemma FlushedIsLive(m: Mem, h: seq<Operation>)
    requires m.buffer == Pending(h, m.flushedSeq, |h|)
    requires forall x :: x in m.index ==> x in Fold(h, |h|)
    ensures forall x :: x in FlushInto(m.index, m.buffer) ==> x in Fold(h, |h|)
  {
    hide Replay, Pending, FlushInto;
    PendingOrdered(h, m.flushedSeq, |h|);
    PendingCarryVectors(h, m.flushedSeq, |h|);
    forall x | x in FlushInto(m.index, m.buffer)
      ensures x in Fold(h, |h|)
    {
      FlushIntoLookups(m.index, m.buffer, x);
      if e :| e in m.buffer && e.id == x {
        BufferedIsNewest(m, h, e);
      }
    }
  }

  /** A flush leaves the committed vector of an id it does not hold. */
  lemma UnflushedLookup(m: Mem, h: seq<Operation>, k: nat)
    requires m.buffer == Pending(h, m.flushedSeq, |h|) && k < m.flushedSeq && Surviving(h, |h|, k)
    ensures var index := FlushInto(m.index, m.buffer);
            (h[k].id in index <==> h[k].id in m.index) && (h[k].id in index ==> index[h[k].id] == m.index[h[k].id])
  {
    hide Replay, Pending, FlushInto, Decided;
    PendingOrdered(h, m.flushedSeq, |h|);
    PendingCarryVectors(h, m.flushedSeq, |h|);
    forall e | e in m.buffer
      ensures e.id != h[k].id
    {
      PendingElsewhere(h, m.flushedSeq, |h|, k, e);
    }
    FlushIntoLookups(m.index, m.buffer, h[k].id);
  }

  /** Whether the two tiers hold after the tail replay depends on the loaded index alone. */
  lemma TailTiersIff(m: Mem, h: seq<Operation>, saved: map<Id, Embedding>)
    requires Valid(h) && m.flushedSeq <= |h| && m.buffer == Pending(h, m.flushedSeq, |h|)
    requires m.index == ReplayIndex(h, m.flushedSeq, |h|, saved) && LiveOrDeleted(h, m.flushedSeq, saved.Keys)
    ensures TwoTiers(m, h) <==> HoldsBelow(h, m.flushedSeq, saved)
  {
    hide Pending, Valid, TwoTiers, Replay, Deleted;
    forall x | x in m.index
      ensures x in Fold(h, |h|)
    {
      ReplayIndexLookup(h, m.flushedSeq, |h|, saved, x);
    }
    TwoTiersIff(m, h);
    HoldsAfterTail(h, m.flushedSeq, saved);
  }

  lemma HoldsAfterTail(h: seq<Operation>, lo: nat, saved: map<Id, Embedding>)
    requires lo <= |h|
    ensures HoldsBelow(h, lo, ReplayIndex(h, lo, |h|, saved)) <==> HoldsBelow(h, lo, saved)
  {
    hide Replay, ReplayIndex, Decided, Deleted;
    forall k: nat | k < lo && Surviving(h, |h|, k)
      ensures var index := ReplayIndex(h, lo, |h|, saved);
              && (h[k].id in index <==> h[k].id in saved)
              && (h[k].id in index ==> index[h[k].id] == saved[h[k].id])
    {
      ReplayIndexLookup(h, lo, |h|, saved, h[k].id);
      SurvivingUndeleted(h, k, lo);
    }
  }
}
