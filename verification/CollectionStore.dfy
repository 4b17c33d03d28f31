/**
 The collection as the object the engine holds: its methods change the fields in place, and each
 is proved to take the state to what the transition functions on values say.
 */
module CollectionStore {
  import opened Core
  import opened History
  import opened Filter
  import opened Collection
  import opened Reopen
  import opened Batches
  import opened Runs
  import opened PostingsStore
  import opened Reads
  import opened Nearest
  import opened Guarantees
  import L = Labels
  import P = Postings
  import Q = Query
  import W = WalLog

  class CollectionStore {
    const config: Config
    const syncThreshold: nat
    const maxScan: nat
    var records: map<Id, Record>
    var buffer: seq<Record>
    var index: map<Id, Embedding>
    /** The index's label maps and its graph. */
    var labels: L.Labelled
    var flushedSeq: nat
    var offsets: map<Id, nat>
    var idByOffset: map<nat, Id>
    var nextOffset: nat
    var postings: PostingsIndex
    var wal: W.Log
    var segments: Segments
    var lastCheckpointSeq: nat
    /** The collection's files. */
    var disk: Disk
    /** Every operation ever logged. */
    ghost var history: seq<Operation>

    ghost function OffsView(): Offs
      reads this, postings
    {
      Offs(offsets, idByOffset, nextOffset, postings.Value())
    }

    ghost function View(): Mem
      reads this, postings
    {
      Mem(records, buffer, index, flushedSeq, OffsView(), labels)
    }

    ghost function SysView(): Sys
      reads this, postings
    {
      Sys(View(), wal, segments, disk, history)
    }

    /** Fresh in-memory state over the files d, whose log holds the tail of h. */
    constructor (c: Config, threshold: nat, scan: nat, d: Disk, ghost h: seq<Operation>)
      ensures config == c && syncThreshold == threshold && maxScan == scan
      ensures fresh(postings)
      ensures SysView() == Sys(FRESH, W.Open(c.epoch, d.wal, None), NO_SEGMENTS, d, h)
    {
      config, syncThreshold, maxScan := c, threshold, scan;
      records, buffer, index, labels, flushedSeq := map[], [], map[], L.NO_LABELS, 0;
      offsets, idByOffset, nextOffset := map[], map[], 0;
      postings := new PostingsIndex();
      wal := W.Open(c.epoch, d.wal, None);
      segments := NO_SEGMENTS;
      lastCheckpointSeq := 0;
      disk := d;
      history := h;
    }

    method OffsetFor(x: Id) returns (o: nat)
      modifies this`offsets, this`idByOffset, this`nextOffset
      ensures o == OffsetOf(old(OffsView()), x)
      ensures OffsView() == WithOffset(old(OffsView()), x)
      ensures x in offsets && offsets[x] == o && idByOffset == if x in old(offsets) then old(idByOffset) else old(idByOffset)[o := x]
      ensures if x in old(offsets) then offsets == old(offsets) && nextOffset == old(nextOffset)
              else o == old(nextOffset) && offsets == old(offsets)[x := o] && nextOffset == o + 1
    {
      if x in offsets {
        return offsets[x];
      }
      o := nextOffset;
      nextOffset := nextOffset + 1;
      offsets := offsets[x := o];
      idByOffset := idByOffset[o := x];
    }

    method ApplyOperation(op: Operation, s: nat)
      modifies this`records, this`buffer, this`index, this`labels, this`offsets, this`idByOffset, this`nextOffset, postings
      ensures View() == ApplyOp(old(View()), op, s)
    {
      hide P.Insert, P.Remove, P.RemoveAll, Without, L.RemoveFrom;
      match op
      case Update(id, m, d) =>
        var record := if id in records then records[id] else Record(id, None, None, None, s);
        var changed := record.metadata != m;
        var before := record.metadata;
        records := records[id := record.(metadata := m, document := d, seqNo := s)];
        if changed {
          var offset := OffsetFor(id);
          postings.Remove(offset, before);
          postings.Insert(offset, m);
        }
      case Delete(id) =>
        if id in offsets {
          var offset := offsets[id];
          if id in records {
            postings.Remove(offset, records[id].metadata);
          }
          postings.RemoveAll(offset);
          idByOffset := idByOffset - {offset};
          offsets := offsets - {id};
        }
        records := records - {id};
        buffer := Without(buffer, id);
        index := index - {id};
        labels := L.RemoveFrom(labels, id, true);
      case _ =>
        var offset := OffsetFor(op.id);
        if op.id in records {
          postings.Remove(offset, records[op.id].metadata);
        }
        postings.Insert(offset, op.metadata);
        var record := Written(op, s);
        records := records[op.id := record];
        buffer := Without(buffer, op.id) + [record];
    }

    /** One drained vector: the committed one is deleted, then the new one is added. */
    method FlushVector(x: Id, v: Embedding) returns (ok: bool)
      modifies this`index, this`labels
      ensures ok == L.Replaces(old(labels), x) && labels == L.Replace(old(labels), x, v)
      ensures index == if ok then old(index)[x := v] else L.Vectors(labels)
    {
      hide L.RemoveFrom, L.AddTo, L.Vectors;
      labels := L.RemoveFrom(labels, x, true);
      ok := L.LabelFree(labels);
      labels := L.AddTo(labels, |v|, x, v, L.Added);
      if !ok {
        index := L.Vectors(labels);
        return;
      }
      if x in index {
        index := index - {x};
      }
      index := index[x := v];
      assert index == old(index)[x := v];
    }

    /** Stops at the first add that the graph refuses; the drained buffer is lost then. */
    method FlushBuffer() returns (ok: bool)
      modifies this`buffer, this`index, this`labels, this`flushedSeq
      ensures View() == Flush(old(View()))
      ensures ok == Flushes(old(labels), old(buffer))
    {
      hide L.Replace, L.Replaces, L.Vectors;
      var batch := buffer;
      buffer := [];
      var maxSeq := 0;
      for i := 0 to |batch|
        invariant index == FlushInto(old(index), batch[..i])
        invariant labels == FlushLabels(old(labels), batch[..i])
        invariant Flushes(old(labels), batch[..i])
        invariant maxSeq == MaxSeq(batch[..i])
        invariant buffer == [] && flushedSeq == old(flushedSeq)
      {
        var e := batch[i];
        assert batch[..i + 1][..i] == batch[..i];
        if e.embedding.Some? {
          var added := FlushVector(e.id, e.embedding.value);
          if !added {
            FlushStops(old(labels), batch, i + 1);
            return false;
          }
          maxSeq := Max(maxSeq, e.seqNo);
        }
      }
      assert batch[..|batch|] == batch;
      flushedSeq := Max(flushedSeq, maxSeq);
      ok := true;
    }

    method FlushPolicy() returns (ok: bool)
      modifies this`buffer, this`index, this`labels, this`flushedSeq
      ensures View() == FlushIfNeeded(config, old(View()))
      ensures buffer == [] || |buffer| < config.batchSize
      ensures ok <==> (|old(buffer)| >= config.batchSize ==> Flushes(old(labels), old(buffer)))
    {
      ok := true;
      if |buffer| >= config.batchSize {
        ok := FlushBuffer();
      }
    }

    method ApplyRecords(rs: seq<W.WalRecord>)
      modifies this`records, this`buffer, this`index, this`labels, this`offsets, this`idByOffset, this`nextOffset, postings
      ensures View() == ReplayLog(old(View()), rs)
    {
      for i := 0 to |rs|
        invariant postings == old(postings)
        invariant View() == ReplayLog(old(View()), rs[..i])
      {
        assert rs[..i + 1][..i] == rs[..i];
        ApplyOperation(rs[i].op, rs[i].seqNo);
      }
      assert rs[..|rs|] == rs;
    }

    /** Each operation appended to the log file in turn. */
    method LogOps(ops: seq<Operation>)
      modifies this`wal, this`disk
      requires disk.wal == wal.records
      ensures wal == W.AppendAll(old(wal), ops) && disk == old(disk).(wal := wal.records)
    {
      for i := 0 to |ops|
        invariant wal == W.AppendAll(old(wal), ops[..i])
        invariant disk == old(disk).(wal := wal.records)
      {
        assert ops[..i + 1][..i] == ops[..i];
        wal := W.Append(wal, ops[i]);
        disk := disk.(wal := wal.records);
      }
      assert ops[..|ops|] == ops;
    }

    /** The whole batch is logged before any of it is applied. */
    method WriteOps(ops: seq<Operation>)
      requires disk.wal == wal.records
      modifies this, postings
      ensures postings == old(postings) && lastCheckpointSeq == old(lastCheckpointSeq)
      ensures SysView() == Runs.WriteOps(old(SysView()), ops)
    {
      hide W.AppendAll, ReplayLog;
      var before := |wal.records|;
      LogOps(ops);
      history := history + ops;
      ApplyRecords(wal.records[before..]);
    }

    method ReplayTail(flushed: nat)
      modifies this`records, this`buffer, this`index, this`labels, this`offsets, this`idByOffset, this`nextOffset, postings
      ensures View() == ReplayAfter(old(View()), wal, flushed)
    {
      var last := wal.lastSeq;
      if last > flushed {
        ApplyRecords(W.Select(wal.records, flushed + 1, last));
      }
    }

    /** The ids that still hold a vector, in some order. */
    method CollectVectors() returns (rows: seq<Id>)
      ensures ListsVectors(rows, records)
    {
      rows := [];
      var rest := set x | x in records && records[x].embedding.Some?;
      ghost var all := rest;
      while rest != {}
        invariant rest <= all
        invariant forall x :: x in rows <==> x in all && x !in rest
        invariant forall i, j :: 0 <= i < j < |rows| ==> rows[i] != rows[j]
        decreases |rest|
      {
        var x :| x in rest;
        rows := rows + [x];
        rest := rest - {x};
      }
    }

    /** The segment rows and the row of each id, pushed one by one. */
    method WriteSegments(rows: seq<Id>) returns (g: Segments)
      requires ListsVectors(rows, records)
      ensures g == SegmentsFor(records, rows)
    {
      if rows == [] {
        return NO_SEGMENTS;
      }
      hide SegmentsFor;
      var vectors: seq<Embedding> := [];
      var rowOf: map<Id, nat> := map[];
      for i := 0 to |rows|
        invariant |vectors| == i && forall j :: 0 <= j < i ==> vectors[j] == records[rows[j]].embedding.value
        invariant forall j :: 0 <= j < i ==> rows[j] in rowOf && rowOf[rows[j]] == j
        invariant forall x :: x in rowOf ==> rowOf[x] < i && rows[rowOf[x]] == x
      {
        vectors := vectors + [records[rows[i]].embedding.value];
        rowOf := rowOf[rows[i] := i];
      }
      g := Segments(Some(vectors), rowOf);
      SegmentsAre(g, records, rows);
    }

    /** The seven file replacements before the prune, in their order. */
    method WriteFiles(rows: seq<Id>, marker: Marker)
      requires ListsVectors(rows, records) && marker == Marker(flushedSeq, wal.lastSeq + 1, |records|)
      modifies this`disk, this`segments
      ensures disk == CheckpointFiles(old(SysView()), rows, 7)
      ensures segments == SegmentsFor(records, rows)
    {
      hide SegmentsFor, CheckpointFiles;
      ghost var s := SysView();
      FilesOneByOne(s, rows);
      disk := disk.(records := Some(records));
      if labels.graph != map[] {
        disk := disk.(graph := Some(labels.graph));
        disk := disk.(meta := Some(L.MetaOf(labels)));
      } else {
        disk := disk.(graph := None);
        disk := disk.(meta := None);
      }
      disk := disk.(marker := Some(marker));
      segments := WriteSegments(rows);
      disk := disk.(segments := disk.segments.(rows := segments.rows));
      disk := disk.(segments := disk.segments.(rowOf := segments.rowOf));
      disk := disk.(catalogSeq := Max(disk.catalogSeq, marker.flushedSeq));
    }

    /** The files, then the stripped records, the pruned log and the log reopened at the next number. */
    method WriteCheckpoint() returns (rows: seq<Id>)
      modifies this`disk, this`segments, this`records, this`wal, this`lastCheckpointSeq
      ensures ListsVectors(rows, old(records))
      ensures SysView() == Checkpoint(old(SysView()), rows)
      ensures old(records) != map[] ==> lastCheckpointSeq == flushedSeq
    {
      hide Checkpoint, CheckpointFiles, ListsVectors;
      rows := CollectVectors();
      CheckpointWritten(SysView(), rows);
      if records != map[] {
        FinishCheckpoint(rows);
      }
    }

    method FinishCheckpoint(rows: seq<Id>)
      requires ListsVectors(rows, records)
      modifies this`disk, this`segments, this`records, this`wal, this`lastCheckpointSeq
      ensures SysView() == AfterCheckpoint(old(SysView()), rows)
      ensures lastCheckpointSeq == flushedSeq
    {
      hide SegmentsFor, Strip, W.Prune, W.Open, CheckpointFiles, ListsVectors;
      ghost var s := SysView();
      var epoch, nextSeq := wal.epoch, wal.lastSeq + 1;
      var marker := Marker(flushedSeq, nextSeq, |records|);
      WriteFiles(rows, marker);
      records := Strip(records, marker.flushedSeq);
      wal := W.Prune(wal, marker.flushedSeq);
      disk := disk.(wal := wal.records);
      wal := W.Open(epoch, disk.wal, Some(nextSeq));
      lastCheckpointSeq := marker.flushedSeq;
      assert OffsView() == s.mem.offs;
      assert View() == s.mem.(records := Strip(s.mem.records, s.mem.flushedSeq));
    }

    /** The next offset goes to x, and x's metadata into the postings. */
    method AssignOffset(x: Id)
      requires x in records
      modifies this`offsets, this`idByOffset, this`nextOffset, postings
      ensures OffsView() == NextOffset(old(OffsView()), records, x)
    {
      hide P.Insert;
      offsets := offsets[x := nextOffset];
      idByOffset := idByOffset[nextOffset := x];
      postings.Insert(nextOffset, records[x].metadata);
      nextOffset := nextOffset + 1;
    }

    /** Offsets 0, 1, 2, ... and fresh postings for every record; the order walked is returned. */
    method AssignOffsets() returns (order: seq<Id>)
      modifies this`offsets, this`idByOffset, this`nextOffset, this`postings
      ensures fresh(postings)
      ensures Lists(order, records)
      ensures OffsView() == Enumerate(records, order)
    {
      hide NextOffset, Enumerate;
      offsets, idByOffset, nextOffset := map[], map[], 0;
      postings := new PostingsIndex();
      order := [];
      EnumerateNone(records);
      var rest := records.Keys;
      while rest != {}
        invariant rest <= records.Keys
        invariant forall x :: x in order <==> x in records && x !in rest
        invariant forall i, j :: 0 <= i < j < |order| ==> order[i] != order[j]
        invariant fresh(postings)
        invariant OffsView() == Enumerate(records, order)
        decreases |rest|
      {
        var x :| x in rest;
        EnumerateNext(records, order, x);
        AssignOffset(x);
        order := order + [x];
        rest := rest - {x};
      }
    }

    /** The saved index, if its two files load. */
    method LoadIndex()
      requires labels == L.NO_LABELS && index == map[]
      modifies this`index, this`labels
      ensures labels == LoadedLabels(disk) && index == L.Vectors(labels)
    {
      hide L.PairLoads, L.Vectors;
      L.NothingLoaded(disk.graph, disk.meta);
      if L.PairLoads(disk.graph, disk.meta) {
        labels := L.LoadPair(disk.graph, disk.meta);
        index := L.Vectors(labels);
      }
    }

    /** The record map as saved, with its offsets, and the index. */
    method RestoreRecords() returns (order: seq<Id>)
      requires labels == L.NO_LABELS && index == map[] && buffer == [] && Accepts(disk)
      modifies this`records, this`index, this`labels, this`flushedSeq, this`lastCheckpointSeq,
               this`offsets, this`idByOffset, this`nextOffset, this`postings
      ensures fresh(postings)
      ensures Lists(order, disk.records.value) && lastCheckpointSeq == disk.marker.value.flushedSeq
      ensures View() == Mem(disk.records.value, [], L.Vectors(LoadedLabels(disk)), disk.marker.value.flushedSeq,
                            Enumerate(disk.records.value, order), LoadedLabels(disk))
    {
      hide P.Insert, Enumerate, L.Vectors, LoadedLabels, Lists;
      records := disk.records.value;
      order := AssignOffsets();
      flushedSeq := disk.marker.value.flushedSeq;
      lastCheckpointSeq := disk.marker.value.flushedSeq;
      LoadIndex();
    }

    /** The record map with its offsets, the index and the segments, from files that load. */
    method RestoreFiles() returns (order: seq<Id>)
      requires labels == L.NO_LABELS && index == map[] && buffer == [] && Accepts(disk)
      modifies this`records, this`index, this`labels, this`flushedSeq, this`lastCheckpointSeq, this`segments,
               this`offsets, this`idByOffset, this`nextOffset, this`postings
      ensures fresh(postings)
      ensures Lists(order, disk.records.value) && View() == Loaded(disk, order)
      ensures segments == disk.segments && lastCheckpointSeq == disk.marker.value.flushedSeq
    {
      hide P.Insert, Enumerate, Strip, L.Vectors, LoadedLabels, Loaded, LoadedRecords, Lists;
      order := RestoreRecords();
      LoadSegments();
      LoadedIs(disk, order, records);
    }

    /** The segments; loaded records that they cover lose their vectors. */
    method LoadSegments()
      modifies this`segments, this`records
      ensures segments == disk.segments
      ensures records == if disk.segments.rows.Some? then Strip(old(records), flushedSeq) else old(records)
    {
      hide Strip;
      segments := disk.segments;
      if segments.rows.Some? {
        records := Strip(records, flushedSeq);
      }
    }

    /** `load_checkpoint`: false leaves the fresh state for a full replay. */
    method LoadCheckpoint() returns (ok: bool, order: seq<Id>)
      requires View() == FRESH && wal == W.Open(config.epoch, disk.wal, None) && segments == NO_SEGMENTS
      modifies this
      ensures ok == Accepts(disk) && disk == old(disk) && history == old(history)
      ensures fresh(postings) || postings == old(postings)
      ensures ok ==> Lists(order, disk.records.value) && View() == Loaded(disk, order)
      ensures !ok ==> View() == FRESH && postings == old(postings)
      ensures wal == OpenWal(config, disk)
      ensures segments == if ok then disk.segments else NO_SEGMENTS
      ensures lastCheckpointSeq == if ok then disk.marker.value.flushedSeq else old(lastCheckpointSeq)
    {
      hide W.Open, Loaded;
      order := [];
      if disk.marker.None? || disk.records.None? || |disk.records.value| != disk.marker.value.recordCount {
        return false, order;
      }
      order := RestoreFiles();
      wal := W.Open(config.epoch, disk.wal, Some(disk.marker.value.nextSeq));
      ok := true;
    }

    /**
     `Collection::open` on a freshly constructed object.  It fails exactly when the flush it ends
     with does; the invariant holds if the files keep their promise and load.
     */
    method OpenFiles() returns (ok: bool, order: seq<Id>)
      requires View() == FRESH && wal == W.Open(config.epoch, disk.wal, None) && segments == NO_SEGMENTS
      modifies this, postings
      ensures OrderFor(disk, order)
      ensures ok == Opens(config, old(disk), order)
      ensures SysView() == OpenFrom(config, old(disk), order, old(history))
      ensures lastCheckpointSeq == if Accepts(old(disk)) then old(disk).marker.value.flushedSeq else old(lastCheckpointSeq)
      ensures buffer == [] || |buffer| < config.batchSize
      ensures Valid(old(history)) && FilesOk(old(disk), old(history), config.epoch) && (old(disk).marker.Some? ==> Accepts(old(disk))) ==>
                ok && SysInv(config, SysView())
    {
      hide SysInv, FilesOk, W.Open, Valid, ReplayLog, Loaded, Flush, Flushes, W.Select;
      ghost var d, h := disk, history;
      var loaded: bool;
      loaded, order := LoadCheckpoint();
      if loaded {
        ReplayTail(flushedSeq);
      } else {
        ReplayTail(0);
      }
      ghost var m := View();
      ok := FlushPolicy();
      LoadedWatermarks(d, order);
      assert m == Replayed(config, d, order);
      if Valid(h) && FilesOk(d, h, config.epoch) && (d.marker.Some? ==> Accepts(d)) {
        OpenInv(config, d, order, h);
      }
    }

    /** Checkpoint once the log has grown past the threshold. */
    method AutoCheckpoint() returns (ran: bool, rows: seq<Id>)
      modifies this`disk, this`segments, this`records, this`wal, this`lastCheckpointSeq
      ensures ran <==> old(records) != map[] && SaturatingSub(old(wal.lastSeq), old(lastCheckpointSeq)) >= syncThreshold
      ensures ListsVectors(rows, old(records))
      ensures SysView() == if ran then Checkpoint(old(SysView()), rows) else old(SysView())
      ensures lastCheckpointSeq == if ran then flushedSeq else old(lastCheckpointSeq)
    {
      rows := CollectVectors();
      if records == map[] {
        return false, rows;
      }
      if SaturatingSub(wal.lastSeq, lastCheckpointSeq) >= syncThreshold {
        rows := WriteCheckpoint();
        return true, rows;
      }
      return false, rows;
    }

    /**
     One engine write call: validate, log and apply, flush if the batch carried vectors, checkpoint
     if due.  A rejected batch changes nothing; `ran` says whether a checkpoint was taken.
     */
    method Call(b: Batch) returns (accepted: bool, ran: bool, rows: seq<Id>)
      requires SysInv(config, SysView())
      modifies this, postings
      ensures postings == old(postings)
      ensures accepted == Accepted(config.dimension, old(records.Keys), b)
      ensures !accepted ==> !ran && SysView() == old(SysView())
      ensures accepted ==>
                var t := Applied(config, old(SysView()), b);
                && (ran <==> t.mem.records != map[] && SaturatingSub(t.wal.lastSeq, old(lastCheckpointSeq)) >= syncThreshold)
                && ListsVectors(rows, t.mem.records)
                && SysView() == if ran then Checkpoint(t, rows) else t
      ensures accepted ==> BatchLanded(b, old(View()), View())
      ensures accepted ==> FlushedWhenDue(config, b, old(View()), View(), history)
      ensures accepted ==> CheckpointedWhenDue(syncThreshold, old(lastCheckpointSeq), old(SysView()), SysView(), ran)
      ensures lastCheckpointSeq == if ran then flushedSeq else old(lastCheckpointSeq)
      ensures SysInv(config, SysView())
    {
      hide SysInv, ReplayLog, W.AppendAll, Accepted, Ops, Checkpoint, ListsVectors, Flush, BatchLanded, FlushedWhenDue, CheckpointedWhenDue, Applied;
      accepted := Accepted(config.dimension, records.Keys, b);
      if !accepted {
        return false, false, [];
      }
      var ops := Ops(config.dimension, records.Keys, b);
      ghost var s := SysView();
      SysInvParts(config, s);
      AppliedInv(config, s, b);
      WriteOps(ops);
      if b.AddBatch? || b.UpsertBatch? {
        var flushed := FlushPolicy();
        assert flushed by {
          FlushSucceeds(config, s, b);
        }
      }
      ghost var t, lastBefore := SysView(), lastCheckpointSeq;
      assert t == Applied(config, s, b) by {
        AppliedIs(config, s, b);
      }
      ran, rows := AutoCheckpoint();
      if ran {
        CheckpointInv(config, t, rows);
      }
      CallLands(config, s, b, rows, ran, SysView());
      CallCheckpoints(config, s, b, rows, syncThreshold, lastBefore, ran, SysView());
    }

    // -------------------------------------------------------------------------------------------
    // Queries
    // -------------------------------------------------------------------------------------------

    /** Exact scan over every live record with a readable vector. */
    method BruteForce(d: Q.Dist) returns (points: seq<Scored>)
      ensures Enumerates(points, Q.BruteDist(records, segments, d))
    {
      points := [];
      var rest := records.Keys;
      while rest != {}
        invariant rest <= records.Keys
        invariant forall p :: p in points ==>
                    p.id in records && p.id !in rest && ReadVector(segments, records, p.id).Some? &&
                    p.distance == d(ReadVector(segments, records, p.id).value)
        invariant forall x :: x in records && x !in rest && ReadVector(segments, records, x).Some? ==>
                    Scored(x, d(ReadVector(segments, records, x).value)) in points
        invariant Distinct(points)
        decreases |rest|
      {
        var x :| x in rest;
        var v := ReadVector(segments, records, x);
        if v.Some? {
          points := points + [Scored(x, d(v.value))];
        }
        rest := rest - {x};
      }
    }

    /** Index hits, then the buffer over them. */
    method HybridSearch(hits: seq<Scored>, d: Q.Dist) returns (dist: map<Id, real>)
      ensures dist == Q.HybridDist(hits, buffer, d)
    {
      dist := map[];
      for i := 0 to |hits|
        invariant dist == Q.HitDist(hits[..i])
      {
        assert hits[..i + 1][..i] == hits[..i];
        if hits[i].id !in dist {
          dist := dist[hits[i].id := hits[i].distance];
        }
      }
      assert hits[..|hits|] == hits;
      ghost var base := dist;
      for i := 0 to |buffer|
        invariant dist == Q.OverBuffer(base, buffer[..i], d)
      {
        assert buffer[..i + 1][..i] == buffer[..i];
        if buffer[i].embedding.Some? {
          dist := dist[buffer[i].id := d(buffer[i].embedding.value)];
        }
      }
      assert buffer[..|buffer|] == buffer;
    }

    /** The buffered records that pass the filter, each at its own vector's distance. */
    method BufferMatches(f: Condition, d: Q.Dist) returns (dist: map<Id, real>)
      ensures dist == Q.OverBuffer(map[], Q.BufferPassing(buffer, f), d)
    {
      hide Matches;
      dist := map[];
      for i := 0 to |buffer|
        invariant dist == Q.OverBuffer(map[], Q.BufferPassing(buffer[..i], f), d)
      {
        assert buffer[..i + 1][..i] == buffer[..i];
        var e := buffer[i];
        if Matches(f, OrEmpty(e.metadata)) {
          assert Q.BufferPassing(buffer[..i + 1], f) == Q.BufferPassing(buffer[..i], f) + [e];
          Q.OverBufferLast(map[], Q.BufferPassing(buffer[..i], f), e, d);
          if e.embedding.Some? {
            dist := dist[e.id := d(e.embedding.value)];
          }
        } else {
          assert Q.BufferPassing(buffer[..i + 1], f) == Q.BufferPassing(buffer[..i], f);
        }
      }
      assert buffer[..|buffer|] == buffer;
    }

    /** The exact filtered path: buffered matches first, then every selected record with a vector. */
    method ScanSelected(f: Condition, d: Q.Dist) returns (dist: map<Id, real>)
      ensures dist == Q.FilteredDist(View(), Selected(View(), f), f, d)
    {
      hide Q.OverBuffer, Q.BufferPassing, P.Evaluate, Matches, ScannedFrom, Selected, Q.FilteredDist;
      dist := BufferMatches(f, d);
      ghost var buffered := dist;
      var candidates := P.Evaluate(postings.Value(), f);
      NothingScanned(records, idByOffset, d);
      ScannedAll(View(), f, d);
      var rest := candidates;
      assert candidates - rest == {} && map[] + buffered == buffered;
      while rest != {}
        invariant rest <= candidates
        invariant dist == ScannedFrom(records, idByOffset, candidates - rest, d) + buffered
        decreases |rest|
      {
        var o :| o in rest;
        ScanNext(records, idByOffset, candidates - rest, o, d, buffered);
        if o in idByOffset && idByOffset[o] in records && records[idByOffset[o]].embedding.Some? && idByOffset[o] !in dist {
          dist := dist[idByOffset[o] := d(records[idByOffset[o]].embedding.value)];
        }
        assert candidates - (rest - {o}) == candidates - rest + {o};
        rest := rest - {o};
      }
      assert candidates - rest == candidates;
    }

    /** The ANN filtered path: buffered matches, then the hits whose offset is selected. */
    method FilterHits(f: Condition, hits: seq<Scored>, d: Q.Dist) returns (dist: map<Id, real>)
      requires MapsOk(OffsView(), records)
      ensures dist == Q.FilteredAnn(View(), Selected(View(), f), f, hits, d)
    {
      hide Q.OverBuffer, Q.BufferPassing, P.Evaluate, Matches, Q.HitsWithin;
      dist := BufferMatches(f, d);
      ghost var buffered := dist;
      var candidates := P.Evaluate(postings.Value(), f);
      ghost var selected := Selected(View(), f);
      Q.NoHitsWithin(selected, buffered);
      for i := 0 to |hits|
        invariant dist == Q.HitsWithin(hits[..i], selected) + buffered
      {
        assert hits[..i + 1] == hits[..i] + [hits[i]];
        Q.HitsWithinStep(hits[..i], selected, hits[i], buffered);
        var x := hits[i].id;
        assert x in selected <==> x in offsets && offsets[x] in candidates;
        if x in offsets && offsets[x] in candidates && x !in dist {
          dist := dist[x := hits[i].distance];
        }
      }
      assert hits[..|hits|] == hits;
    }

    /** `build_scored`: the merged map as a list. */
    method BuildScored(dist: map<Id, real>) returns (points: seq<Scored>)
      ensures Enumerates(points, dist)
    {
      points := [];
      var rest := dist.Keys;
      while rest != {}
        invariant rest <= dist.Keys
        invariant forall p :: p in points ==> p.id in dist && p.id !in rest && p.distance == dist[p.id]
        invariant forall x :: x in dist && x !in rest ==> Scored(x, dist[x]) in points
        invariant Distinct(points)
        decreases |rest|
      {
        var x :| x in rest;
        points := points + [Scored(x, dist[x])];
        rest := rest - {x};
      }
    }

    /** The candidates the planner ranks for an unfiltered or filtered query. */
    ghost function Candidates(k: nat, filter: Option<Condition>, oversampling: nat, search: nat -> seq<Scored>, d: Q.Dist): map<Id, real>
      reads this, postings
    {
      if filter.None? then
        if |index| + |buffer| <= maxScan then Q.BruteDist(records, segments, d)
        else Q.HybridDist(search(k), buffer, d)
      else if |P.Evaluate(postings.Value(), filter.value)| <= maxScan then
        Q.FilteredDist(View(), Selected(View(), filter.value), filter.value, d)
      else
        Q.FilteredAnn(View(), Selected(View(), filter.value), filter.value, search(Fetch(k, oversampling)), d)
    }

    method UnfilteredPoints(k: nat, search: nat -> seq<Scored>, d: Q.Dist) returns (points: seq<Scored>)
      ensures Enumerates(points, Candidates(k, None, 0, search, d))
    {
      if |index| + |buffer| <= maxScan {
        points := BruteForce(d);
      } else {
        var dist := HybridSearch(search(k), d);
        points := BuildScored(dist);
      }
    }

    method FilteredPoints(k: nat, f: Condition, oversampling: nat, search: nat -> seq<Scored>, d: Q.Dist)
      returns (points: seq<Scored>)
      requires MapsOk(OffsView(), records)
      ensures Enumerates(points, Candidates(k, Some(f), oversampling, search, d))
    {
      hide P.Evaluate, Q.FilteredDist, Q.FilteredAnn, Selected;
      var dist;
      if |P.Evaluate(postings.Value(), f)| <= maxScan {
        dist := ScanSelected(f, d);
      } else {
        dist := FilterHits(f, search(Fetch(k, oversampling)), d);
      }
      points := BuildScored(dist);
    }

    /**
     `query`: k is raised to at least one, a vector of the wrong dimension is refused, and the
     answer is a sorted list of k nearest candidates of the planned path.
     */
    method Query(dimension: nat, k: nat, filter: Option<Condition>, oversampling: nat, search: nat -> seq<Scored>, d: Q.Dist)
      returns (out: Result<seq<Scored>, string>)
      requires SysInv(config, SysView())
      ensures out.Err? <==> config.dimension != 0 && dimension != config.dimension
      ensures out.Ok? ==> KNearest(out.value, Candidates(Max(k, 1), filter, oversampling, search, d), Max(k, 1))
      ensures out.Ok? && Unsegmented(SysView()) && filter.None? && |index| + |buffer| <= maxScan ==>
                KNearest(out.value, Q.NewestDist(Fold(history, |history|), d), Max(k, 1))
      ensures out.Ok? && filter.None? ==> UnfilteredAnswer(SysView(), maxScan, Max(k, 1), search, d, out.value)
      ensures out.Ok? && filter.Some? ==>
                FilterAnswer(SysView(), maxScan, Max(k, 1), filter.value, oversampling, search, d, out.value)
    {
      hide SysInv, KNearest, TopK, Q.BruteDist, Q.HybridDist, Q.FilteredDist, Q.FilteredAnn, Q.NewestDist, Replay, P.Evaluate;
      hide UnfilteredAnswer, FilterAnswer, Selected, Unsegmented;
      if config.dimension != 0 && dimension != config.dimension {
        return Err("query: embedding dimension mismatch");
      }
      var n := Max(k, 1);
      var points;
      SysInvParts(config, SysView());
      BruteIsNewest(config, SysView(), d);
      if filter.None? {
        points := UnfilteredPoints(n, search, d);
      } else {
        points := FilteredPoints(n, filter.value, oversampling, search, d);
      }
      TopKIsNearest(points, Candidates(n, filter, oversampling, search, d), n);
      out := Ok(TopK(points, n));
      if filter.None? {
        UnfilteredAnswers(config, SysView(), maxScan, n, search, d, out.value);
      } else {
        FilterAnswers(config, SysView(), maxScan, n, filter.value, oversampling, search, d, out.value);
      }
    }
  }

  /** What an unfiltered query answers, without the candidate maps the method works with. */
  ghost predicate UnfilteredAnswer(s: Sys, maxScan: nat, n: nat, search: nat -> seq<Scored>, d: Q.Dist, out: seq<Scored>) {
    var m, live := s.mem, Fold(s.history, |s.history|);
    if |m.index| + |m.buffer| <= maxScan then Q.ScanAnswer(m, live, s.segments, d, n, out)
    else Q.SoundHits(search(n), m.index, d) ==> Q.HybridAnswer(m, live, search(n), d, n, out)
  }

  /**
   What a filtered query answers when no integer of the filter collides with a record's.  With no
   segment and buffered metadata in sync, a scan gives n nearest of the eligible live records.
   */
  ghost predicate FilterAnswer(s: Sys, maxScan: nat, n: nat, f: Condition, oversampling: nat, search: nat -> seq<Scored>, d: Q.Dist, out: seq<Scored>) {
    var m, live, hits := s.mem, Fold(s.history, |s.history|), search(Fetch(n, oversampling));
    Q.NoClash(m, f) ==>
      if |Q.Eligible(live, f)| <= maxScan then
        && Q.FilteredAnswer(m, live, f, d, n, out)
        && (Unsegmented(s) && Q.InSync(m) ==> KNearest(out, Q.EligibleDist(live, f, d), n))
      else Q.SoundHits(hits, m.index, d) ==> Q.AnnAnswer(m, live, f, hits, d, n, out)
  }

  lemma UnfilteredAnswers(c: Config, s: Sys, maxScan: nat, n: nat, search: nat -> seq<Scored>, d: Q.Dist, out: seq<Scored>)
    requires SysInv(c, s)
    requires KNearest(out, if |s.mem.index| + |s.mem.buffer| <= maxScan then Q.BruteDist(s.mem.records, s.segments, d)
                           else Q.HybridDist(search(n), s.mem.buffer, d), n)
    ensures UnfilteredAnswer(s, maxScan, n, search, d, out)
  {
    hide Inv, Replay, KNearest, Q.BruteDist, Q.HybridDist, Q.ScanAnswer, Q.HybridAnswer, Q.SoundHits, Q.Serves;
    var live := Fold(s.history, |s.history|);
    Q.InvServes(s.mem, s.history);
    if |s.mem.index| + |s.mem.buffer| <= maxScan {
      Q.ScanAnswers(s.mem, live, s.segments, d, n, out);
    } else if Q.SoundHits(search(n), s.mem.index, d) {
      Q.HybridAnswers(s.mem, live, search(n), d, n, out);
    }
  }

  /** The postings select as many offsets as there are eligible records, so the planner's choice is theirs. */
  lemma FilterAnswers(c: Config, s: Sys, maxScan: nat, n: nat, f: Condition, oversampling: nat, search: nat -> seq<Scored>, d: Q.Dist, out: seq<Scored>)
    requires SysInv(c, s)
    requires KNearest(out, if |P.Evaluate(s.mem.offs.postings, f)| <= maxScan then Q.FilteredDist(s.mem, Selected(s.mem, f), f, d)
                           else Q.FilteredAnn(s.mem, Selected(s.mem, f), f, search(Fetch(n, oversampling)), d), n)
    ensures FilterAnswer(s, maxScan, n, f, oversampling, search, d, out)
  {
    hide Inv, Replay, KNearest, Q.FilteredDist, Q.FilteredAnn, Q.AnnAnswer, Q.SoundHits, Q.Serves, Q.Eligible, P.Evaluate, OffsetInv;
    hide Selected, Q.NewestAmong, Q.Scanned, Q.EligibleDist, P.Clashes, Q.InSync, FilesOk;
    if Q.NoClash(s.mem, f) {
      var live, hits := Fold(s.history, |s.history|), search(Fetch(n, oversampling));
      Q.InvServes(s.mem, s.history);
      Q.OffsetsComplete(s.mem, s.history);
      Q.SelectedCount(s.mem, live, f);
      if |Q.Eligible(live, f)| <= maxScan {
        Q.FilteredAnswers(s.mem, live, f, d, n, out);
      } else if Q.SoundHits(hits, s.mem.index, d) {
        Q.AnnAnswers(s.mem, live, f, hits, d, n, out);
      }
    }
  }

  /** The records behind a set of offsets that still hold a vector. */
  ghost function ScannedFrom(r: map<Id, Record>, ids: map<nat, Id>, os: set<nat>, d: Q.Dist): map<Id, real> {
    map x | x in r && r[x].embedding.Some? && (exists o :: o in os && o in ids && ids[o] == x) :: d(r[x].embedding.value)
  }

  lemma NothingScanned(r: map<Id, Record>, ids: map<nat, Id>, d: Q.Dist)
    ensures ScannedFrom(r, ids, {}, d) == map[]
  {
  }

  /** Scanning every candidate offset and laying the buffer over it is the filtered path. */
  lemma ScannedAll(m: Mem, f: Condition, d: Q.Dist)
    ensures Q.FilteredDist(m, Selected(m, f), f, d) ==
            ScannedFrom(m.records, m.offs.idByOffset, P.Evaluate(m.offs.postings, f), d)
            + Q.OverBuffer(map[], Q.BufferPassing(m.buffer, f), d)
  {
    hide Q.OverBuffer, Q.BufferPassing, P.Evaluate, Matches;
    assert ScannedFrom(m.records, m.offs.idByOffset, P.Evaluate(m.offs.postings, f), d) ==
           map x | x in Selected(m, f) && x in m.records && m.records[x].embedding.Some? :: d(m.records[x].embedding.value);
  }

  /** One more offset, inserted only if its id has no distance yet. */
  lemma ScanNext(r: map<Id, Record>, ids: map<nat, Id>, os: set<nat>, o: nat, d: Q.Dist, buffered: map<Id, real>)
    ensures var now, next := ScannedFrom(r, ids, os, d) + buffered, ScannedFrom(r, ids, os + {o}, d) + buffered;
            if o in ids && ids[o] in r && r[ids[o]].embedding.Some? && ids[o] !in now
            then next == now[ids[o] := d(r[ids[o]].embedding.value)] else next == now
  {
    var a, b := ScannedFrom(r, ids, os, d), ScannedFrom(r, ids, os + {o}, d);
    assert forall x :: x in b <==> x in a || (o in ids && ids[o] == x && x in r && r[x].embedding.Some?);
  }

  /** An accepted batch logged and applied, and the flush policy after one that carries vectors. */
  ghost function Applied(c: Config, s: Sys, b: Batch): Sys
    requires Accepted(c.dimension, s.mem.records.Keys, b)
  {
    var t := Runs.WriteOps(s, Ops(c.dimension, s.mem.records.Keys, b));
    if b.AddBatch? || b.UpsertBatch? then t.(mem := FlushIfNeeded(c, t.mem)) else t
  }

  lemma AppliedInv(c: Config, s: Sys, b: Batch)
    requires SysInv(c, s) && Accepted(c.dimension, s.mem.records.Keys, b)
    ensures SysInv(c, Applied(c, s, b))
  {
    hide SysInv, Runs.WriteOps, Accepted, Ops, Flush;
    ExecInv(c, s, Step.Write(b));
    ExecInv(c, Exec(c, s, Step.Write(b)), FlushNow);
  }

  lemma AppliedIs(c: Config, s: Sys, b: Batch)
    requires Accepted(c.dimension, s.mem.records.Keys, b)
    ensures var t := Runs.WriteOps(s, Ops(c.dimension, s.mem.records.Keys, b));
            Applied(c, s, b) == if b.AddBatch? || b.UpsertBatch? then t.(mem := FlushIfNeeded(c, t.mem)) else t
  {
  }

  /** Every id is left as the call's own arguments say. */
  ghost predicate BatchLanded(b: Batch, before: Mem, after: Mem) {
    forall x :: Landed(b, x, before, after)
  }

  /**
   Nothing is drained below the batch size, nor by a call that carries no vectors: the buffer then
   is what the history leaves pending above the old watermark.  Otherwise it ends up empty.
   */
  ghost predicate FlushedWhenDue(c: Config, b: Batch, before: Mem, after: Mem, h: seq<Operation>) {
    before.flushedSeq <= |h| &&
    var pending := Pending(h, before.flushedSeq, |h|);
    if CarriesVectors(b) && |pending| >= c.batchSize then after.buffer == []
    else after.buffer == pending && after.flushedSeq == before.flushedSeq && forall x :: x in after.index ==> x in before.index
  }

  /** What a call leaves behind, whether or not it took a checkpoint. */
  lemma CallLands(c: Config, s: Sys, b: Batch, rows: seq<Id>, ran: bool, t: Sys)
    requires SysInv(c, s) && Accepted(c.dimension, s.mem.records.Keys, b)
    requires ListsVectors(rows, Applied(c, s, b).mem.records)
    requires t == if ran then Checkpoint(Applied(c, s, b), rows) else Applied(c, s, b)
    requires SysInv(c, t)
    ensures BatchLanded(b, s.mem, t.mem)
    ensures FlushedWhenDue(c, b, s.mem, t.mem, t.history)
  {
    hide SysInv, Accepted, Ops, Applied, Checkpoint, ListsVectors, Landed, FlushedWhenDue;
    var a := Applied(c, s, b);
    AppliedFlushes(c, s, b);
    CheckpointKeeps(a, rows);
    forall x
      ensures Landed(b, x, s.mem, t.mem)
    {
      StateLands(c, s, t, b, x);
    }
    SameFlush(c, b, s.mem, a.mem, t.mem, a.history);
  }

  /**
   A checkpoint is taken exactly when there are records and the history has grown past the threshold
   since the last one.  It leaves in the log only the operations above the watermark, and a marker
   that says so; without one the operations are added to the log and no other file changes.
   */
  ghost predicate CheckpointedWhenDue(threshold: nat, last: nat, before: Sys, after: Sys, ran: bool) {
    && (ran <==> after.mem.records != map[] && SaturatingSub(|after.history|, last) >= threshold)
    && (ran ==>
          && after.mem.flushedSeq <= |after.history|
          && after.wal.records == W.Entries(after.history, after.wal.epoch, after.mem.flushedSeq)
          && after.disk.marker == Some(Marker(after.mem.flushedSeq, |after.history| + 1, |after.mem.records|)))
    && (!ran ==>
          && |after.wal.records| - |before.wal.records| == |after.history| - |before.history|
          && after.disk == before.disk.(wal := after.wal.records) && after.segments == before.segments)
  }

  lemma CallCheckpoints(c: Config, s: Sys, b: Batch, rows: seq<Id>, threshold: nat, last: nat, ran: bool, t: Sys)
    requires SysInv(c, s) && Accepted(c.dimension, s.mem.records.Keys, b)
    requires ListsVectors(rows, Applied(c, s, b).mem.records)
    requires var a := Applied(c, s, b);
             && (ran <==> a.mem.records != map[] && SaturatingSub(a.wal.lastSeq, last) >= threshold)
             && t == if ran then Checkpoint(a, rows) else a
    ensures CheckpointedWhenDue(threshold, last, s, t, ran)
  {
    hide SysInv, Accepted, Ops, Applied, Checkpoint, ListsVectors, W.Entries;
    var a := Applied(c, s, b);
    AppliedInv(c, s, b);
    SysLog(c, a);
    AppliedLogs(c, s, b);
    if ran {
      CheckpointPrunes(c, a, rows);
    }
  }

  lemma AppliedLogs(c: Config, s: Sys, b: Batch)
    requires Accepted(c.dimension, s.mem.records.Keys, b)
    ensures var t := Applied(c, s, b);
            && |t.wal.records| - |s.wal.records| == |t.history| - |s.history|
            && t.disk == s.disk.(wal := t.wal.records) && t.segments == s.segments
  {
    hide Accepted, Ops, Applied, Flush, ReplayLog;
    AppliedIs(c, s, b);
  }

  lemma CheckpointPrunes(c: Config, s: Sys, rows: seq<Id>)
    requires SysInv(c, s) && ListsVectors(rows, s.mem.records) && s.mem.records != map[]
    ensures var t := Checkpoint(s, rows);
            && t.history == s.history && t.mem.flushedSeq == s.mem.flushedSeq <= |s.history|
            && t.mem.records.Keys == s.mem.records.Keys && |t.mem.records| == |s.mem.records| && t.mem.records != map[]
            && t.wal.epoch == c.epoch
            && t.wal.records == W.Entries(s.history, c.epoch, s.mem.flushedSeq)
            && t.disk.marker == Some(Marker(s.mem.flushedSeq, |s.history| + 1, |s.mem.records|))
  {
    hide Inv, W.Entries, W.Above, SegmentsFor, ListsVectors, CheckpointFiles, Checkpoint, IndexFilesOk, LabelsKept;
    CheckpointParts(s, rows);
    CheckpointWritten(s, rows);
    BufferIsPending(s.mem, s.history);
    var base := |s.history| - |s.disk.wal|;
    W.EntriesAbove(s.history, c.epoch, base, s.mem.flushedSeq);
    var r, t := s.mem.records, Strip(s.mem.records, s.mem.flushedSeq);
    assert t.Keys == r.Keys;
    assert |t| == |t.Keys| && |r| == |r.Keys|;
  }

  lemma SameFlush(c: Config, b: Batch, before: Mem, m: Mem, m': Mem, h: seq<Operation>)
    requires FlushedWhenDue(c, b, before, m, h)
    requires m'.buffer == m.buffer && m'.flushedSeq == m.flushedSeq && m'.index == m.index
    ensures FlushedWhenDue(c, b, before, m', h)
  {
  }

  lemma CheckpointKeeps(s: Sys, rows: seq<Id>)
    requires ListsVectors(rows, s.mem.records)
    ensures var t := Checkpoint(s, rows);
            && t.history == s.history && t.mem.buffer == s.mem.buffer
            && t.mem.flushedSeq == s.mem.flushedSeq && t.mem.index == s.mem.index
  {
    hide Strip, W.Prune, W.Open, SegmentsFor, CheckpointFiles;
  }

  lemma AppliedFlushes(c: Config, s: Sys, b: Batch)
    requires SysInv(c, s) && Accepted(c.dimension, s.mem.records.Keys, b)
    ensures var t := Applied(c, s, b);
            && t.history == s.history + Ops(c.dimension, s.mem.records.Keys, b)
            && FlushedWhenDue(c, b, s.mem, t.mem, t.history)
  {
    hide SysInv, Accepted, Ops, Runs.WriteOps, ReplayMem, Replay, Pending, Inv, Applied, Valid, Flush, FlushedWhenDue;
    var live := s.mem.records.Keys;
    var ops := Ops(c.dimension, live, b);
    SysInvParts(c, s);
    ValidOf(c, s);
    FoldOf(s.mem, s.history);
    AcceptedKeepsValid(s.history, c.dimension, live, b, |ops|);
    assert ops[..|ops|] == ops;
    WriteParts(c, s, ops);
    AppliedIs(c, s, b);
    var w := Runs.WriteOps(s, ops);
    ReplayMemRest(s.mem, w.history, |s.history|, |w.history|);
    BufferIsPending(w.mem, w.history);
    BufferIsPending(s.mem, s.history);
    FlushDue(c, b, s.mem, w.mem, w.history);
  }

  lemma BufferIsPending(m: Mem, h: seq<Operation>)
    requires Inv(m, h)
    ensures m.flushedSeq <= |h| && m.buffer == Pending(h, m.flushedSeq, |h|)
  {
  }

  lemma ReplayMemRest(m: Mem, h: seq<Operation>, lo: nat, hi: nat)
    requires lo <= hi <= |h|
    ensures ReplayMem(m, h, lo, hi).flushedSeq == m.flushedSeq
    ensures forall x :: x in ReplayMem(m, h, lo, hi).index ==> x in m.index
  {
    hide Replay;
    ReplayIndexShrinks(h, lo, hi, m.index);
  }

  lemma {:induction false} ReplayIndexShrinks(h: seq<Operation>, lo: nat, hi: nat, ix: map<Id, Embedding>)
    requires lo <= hi <= |h|
    ensures forall x :: x in ReplayIndex(h, lo, hi, ix) ==> x in ix
    decreases hi
  {
    if lo < hi {
      ReplayIndexShrinks(h, lo, hi - 1, ix);
    }
  }

  lemma FlushDue(c: Config, b: Batch, before: Mem, m: Mem, h: seq<Operation>)
    requires m.flushedSeq == before.flushedSeq <= |h| && m.buffer == Pending(h, m.flushedSeq, |h|)
    requires forall x :: x in m.index ==> x in before.index
    ensures FlushedWhenDue(c, b, before, if b.AddBatch? || b.UpsertBatch? then FlushIfNeeded(c, m) else m, h)
  {
    hide Pending;
  }

  /** The loaded state, field by field; the offsets were assigned before any vector was stripped. */
  lemma LoadedIs(d: Disk, order: seq<Id>, r: map<Id, Record>)
    requires Accepts(d) && Lists(order, d.records.value)
    requires r == if d.segments.rows.Some? then Strip(d.records.value, d.marker.value.flushedSeq) else d.records.value
    ensures Loaded(d, order) ==
            Mem(r, [], L.Vectors(LoadedLabels(d)), d.marker.value.flushedSeq, Enumerate(d.records.value, order), LoadedLabels(d))
  {
    EnumerateStrip(d.records.value, d.marker.value.flushedSeq, order);
  }

  /** The flush after a write never fails: in a state that keeps the invariant the labels are free. */
  lemma FlushSucceeds(c: Config, s: Sys, b: Batch)
    requires SysInv(c, s) && Accepted(c.dimension, s.mem.records.Keys, b)
    ensures var m := Runs.WriteOps(s, Ops(c.dimension, s.mem.records.Keys, b)).mem; Flushes(m.labels, m.buffer)
  {
    hide SysInv, Runs.WriteOps, Accepted, Ops, Flushes;
    ExecInv(c, s, Step.Write(b));
    var t := Exec(c, s, Step.Write(b));
    SysInvParts(c, t);
    FlushInv(t.mem, t.history);
  }

  /** A flush that failed on a prefix went no further. */
  lemma {:induction false} FlushStops(x: L.Labelled, b: seq<Record>, i: nat)
    requires i <= |b| && !Flushes(x, b[..i])
    ensures !Flushes(x, b) && FlushLabels(x, b) == FlushLabels(x, b[..i])
  {
    if i == |b| {
      assert b[..i] == b;
    } else {
      var c := b[..|b| - 1];
      assert c[..i] == b[..i];
      FlushStops(x, c, i);
    }
  }

  lemma LoadedWatermarks(d: Disk, order: seq<Id>)
    ensures Accepts(d) ==> Loaded(d, order).flushedSeq == d.marker.value.flushedSeq
  {
  }

  lemma SysInvParts(c: Config, s: Sys)
    requires SysInv(c, s)
    ensures Inv(s.mem, s.history) && MapsOk(s.mem.offs, s.mem.records) && s.disk.wal == s.wal.records
  {
  }

  /** Before any checkpoint the scan ranks the fold of the history. */
  lemma BruteIsNewest(c: Config, s: Sys, d: Q.Dist)
    requires SysInv(c, s)
    ensures Unsegmented(s) ==> Q.BruteDist(s.mem.records, s.segments, d) == Q.NewestDist(Fold(s.history, |s.history|), d)
  {
    hide Replay;
    if Unsegmented(s) {
      Q.InvServes(s.mem, s.history);
    }
  }

  /** A checkpoint of a collection with records, written out. */
  ghost function AfterCheckpoint(s: Sys, rows: seq<Id>): Sys
    requires ListsVectors(rows, s.mem.records)
  {
    var disk := CheckpointFiles(s, rows, 7).(wal := W.Prune(s.wal, s.mem.flushedSeq).records);
    Sys(s.mem.(records := Strip(s.mem.records, s.mem.flushedSeq)),
        W.Open(s.wal.epoch, disk.wal, Some(s.wal.lastSeq + 1)), SegmentsFor(s.mem.records, rows), disk, s.history)
  }

  lemma CheckpointWritten(s: Sys, rows: seq<Id>)
    requires ListsVectors(rows, s.mem.records)
    ensures Checkpoint(s, rows) == if s.mem.records == map[] then s else AfterCheckpoint(s, rows)
  {
    hide SegmentsFor, Strip, W.Prune, W.Open, CheckpointFiles;
    PrunedLast(s, rows);
  }

  /** The pruned log is the last file to be replaced. */
  lemma PrunedLast(s: Sys, rows: seq<Id>)
    requires ListsVectors(rows, s.mem.records)
    ensures CheckpointFiles(s, rows, 8) == CheckpointFiles(s, rows, 7).(wal := W.Prune(s.wal, s.mem.flushedSeq).records)
  {
    hide SegmentsFor, W.Prune;
  }

  /** Each file replacement of a checkpoint changes one file of the disk before it. */
  lemma FilesOneByOne(s: Sys, rows: seq<Id>)
    requires ListsVectors(rows, s.mem.records)
    ensures var seg, x := SegmentsFor(s.mem.records, rows), s.mem.labels;
            var d1 := s.disk.(records := Some(s.mem.records));
            var d2 := d1.(graph := if x.graph == map[] then None else Some(x.graph));
            var d3 := d2.(meta := if x.graph == map[] then None else Some(L.MetaOf(x)));
            var d4 := d3.(marker := Some(Marker(s.mem.flushedSeq, s.wal.lastSeq + 1, |s.mem.records|)));
            var d5 := d4.(segments := d4.segments.(rows := seg.rows));
            var d6 := d5.(segments := d5.segments.(rowOf := seg.rowOf));
            var d7 := d6.(catalogSeq := Max(d6.catalogSeq, s.mem.flushedSeq));
            && CheckpointFiles(s, rows, 0) == s.disk && CheckpointFiles(s, rows, 1) == d1
            && CheckpointFiles(s, rows, 2) == d2 && CheckpointFiles(s, rows, 3) == d3
            && CheckpointFiles(s, rows, 4) == d4 && CheckpointFiles(s, rows, 5) == d5
            && CheckpointFiles(s, rows, 6) == d6 && CheckpointFiles(s, rows, 7) == d7
            && CheckpointFiles(s, rows, 8) == d7.(wal := W.Prune(s.wal, s.mem.flushedSeq).records)
  {
    hide SegmentsFor, W.Prune;
  }

  lemma SegmentsAre(g: Segments, r: map<Id, Record>, rows: seq<Id>)
    requires ListsVectors(rows, r) && rows != [] && g.rows.Some?
    requires |g.rows.value| == |rows| && forall j :: 0 <= j < |rows| ==> g.rows.value[j] == r[rows[j]].embedding.value
    requires forall j :: 0 <= j < |rows| ==> rows[j] in g.rowOf && g.rowOf[rows[j]] == j
    requires forall x :: x in g.rowOf ==> g.rowOf[x] < |rows| && rows[g.rowOf[x]] == x
    ensures g == SegmentsFor(r, rows)
  {
    var t := SegmentsFor(r, rows);
    assert g.rowOf == t.rowOf;
    assert g.rows.value == t.rows.value;
  }

  /** How many hits the ANN path asks for: never fewer than k. */
  function Fetch(k: nat, oversampling: nat): (n: nat)
    ensures n >= k
  {
    k * Max(oversampling, 1)
  }

  /** An oversampling of 0 counts as 1; each further one asks for k more. */
  lemma FetchSteps(k: nat, oversampling: nat)
    ensures Fetch(k, 0) == Fetch(k, 1) == k
    ensures oversampling >= 1 ==> Fetch(k, oversampling + 1) == Fetch(k, oversampling) + k
  {
  }

  function SaturatingSub(a: nat, b: nat): nat {
    if a < b then 0 else a - b
  }

  lemma EnumerateNone(r: map<Id, Record>)
    ensures Enumerate(r, []) == NO_OFFSETS
  {
  }

  lemma EnumerateNext(r: map<Id, Record>, order: seq<Id>, x: Id)
    ensures Enumerate(r, order + [x]) == NextOffset(Enumerate(r, order), r, x)
  {
    assert (order + [x])[..|order|] == order;
  }

  /** Stripping vectors does not change the offsets and postings a load assigns. */
  lemma {:induction false} EnumerateStrip(r: map<Id, Record>, upTo: nat, order: seq<Id>)
    requires forall x :: x in order ==> x in r
    ensures Enumerate(Strip(r, upTo), order) == Enumerate(r, order)
  {
    if order != [] {
      EnumerateStrip(r, upTo, order[..|order| - 1]);
    }
  }
}
