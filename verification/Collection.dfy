/**
 The in-memory state of one collection and its transitions, as functions on values.

 `Inv` says what that state is worth: a function of the operation history and one watermark, up to
 vectors that checkpoints moved out of the record map.
 */
module Collection {
  import opened Core
  import opened History
  import opened Filter
  import P = Postings
  import L = Labels

  /** Internal offsets and the postings keyed by them. */
  datatype Offs = Offs(
    offsets: map<Id, nat>,
    idByOffset: map<nat, Id>,
    nextOffset: nat,
    postings: P.Index)

  /** `index` is what the ANN index stands for, `labels` its label maps and its graph. */
  datatype Mem = Mem(
    records: map<Id, Record>,
    buffer: seq<Record>,
    index: map<Id, Embedding>,
    flushedSeq: nat,
    offs: Offs,
    labels: L.Labelled)

  const NO_OFFSETS := Offs(map[], map[], 0, P.EMPTY)

  const FRESH := Mem(map[], [], map[], 0, NO_OFFSETS, L.NO_LABELS)

  // ---------------------------------------------------------------------------------------------
  // apply_operation
  // ---------------------------------------------------------------------------------------------

  function OffsetOf(t: Offs, x: Id): nat {
    if x in t.offsets then t.offsets[x] else t.nextOffset
  }

  /** `offset_for`: the id's offset, allocated if it has none. */
  function WithOffset(t: Offs, x: Id): Offs {
    if x in t.offsets then t
    else t.(offsets := t.offsets[x := t.nextOffset],
            idByOffset := t.idByOffset[t.nextOffset := x],
            nextOffset := t.nextOffset + 1)
  }

  function MetadataOf(r: map<Id, Record>, x: Id): Option<Metadata> {
    if x in r then r[x].metadata else None
  }

  /** The postings part of a write: un-index the old metadata, index the new. */
  function Reindex(p: P.Index, o: nat, had: bool, before: Option<Metadata>, now: Option<Metadata>): P.Index {
    P.Insert(if had then P.Remove(p, o, before) else p, o, now)
  }

  /** Offsets and postings after one operation on a collection whose records were r. */
  function StepOffs(t: Offs, r: map<Id, Record>, op: Operation): Offs {
    var o, before := OffsetOf(t, op.id), MetadataOf(r, op.id);
    match op
    case Update(id, now, _) =>
      if now == before then t
      else WithOffset(t, id).(postings := Reindex(t.postings, o, true, before, now))
    case Delete(id) =>
      if id in t.offsets then
        var p := if id in r then P.Remove(t.postings, o, before) else t.postings;
        t.(postings := P.RemoveAll(p, o), offsets := t.offsets - {id}, idByOffset := t.idByOffset - {o})
      else t
    case _ =>
      WithOffset(t, op.id).(postings := Reindex(t.postings, o, op.id in r, before, op.metadata))
  }

  /** Only a delete touches the committed index. */
  function StepIndex(index: map<Id, Embedding>, op: Operation): map<Id, Embedding> {
    if op.Delete? then index - {op.id} else index
  }

  function StepLabels(x: L.Labelled, op: Operation): L.Labelled {
    if op.Delete? then L.RemoveFrom(x, op.id, true) else x
  }

  function ApplyOp(m: Mem, op: Operation, s: nat): Mem {
    Mem(Apply(m.records, op, s), BufferStep(m.buffer, op, s), StepIndex(m.index, op), m.flushedSeq,
        StepOffs(m.offs, m.records, op), StepLabels(m.labels, op))
  }

  // ---------------------------------------------------------------------------------------------
  // replay_after
  // ---------------------------------------------------------------------------------------------

  function ReplayBuffer(h: seq<Operation>, lo: nat, hi: nat, b: seq<Record>): seq<Record>
    requires hi <= |h|
    decreases hi
  {
    if hi <= lo then b else BufferStep(ReplayBuffer(h, lo, hi - 1, b), h[hi - 1], hi)
  }

  function ReplayIndex(h: seq<Operation>, lo: nat, hi: nat, index: map<Id, Embedding>): map<Id, Embedding>
    requires hi <= |h|
    decreases hi
  {
    if hi <= lo then index else StepIndex(ReplayIndex(h, lo, hi - 1, index), h[hi - 1])
  }

  function ReplayLabels(h: seq<Operation>, lo: nat, hi: nat, x: L.Labelled): L.Labelled
    requires hi <= |h|
    decreases hi
  {
    if hi <= lo then x else StepLabels(ReplayLabels(h, lo, hi - 1, x), h[hi - 1])
  }

  function ReplayOffs(h: seq<Operation>, lo: nat, hi: nat, t: Offs, r: map<Id, Record>): Offs
    requires hi <= |h|
    decreases hi
  {
    if hi <= lo then t else StepOffs(ReplayOffs(h, lo, hi - 1, t, r), Replay(h, lo, hi - 1, r), h[hi - 1])
  }

  /** Operations lo..hi of h applied in order. */
  function ReplayMem(m: Mem, h: seq<Operation>, lo: nat, hi: nat): Mem
    requires hi <= |h|
  {
    Mem(Replay(h, lo, hi, m.records), ReplayBuffer(h, lo, hi, m.buffer), ReplayIndex(h, lo, hi, m.index),
        m.flushedSeq, ReplayOffs(h, lo, hi, m.offs, m.records), ReplayLabels(h, lo, hi, m.labels))
  }

  /** The replay is one `apply_operation` after another. */
  lemma ReplayMemStep(m: Mem, h: seq<Operation>, lo: nat, hi: nat)
    requires hi <= |h|
    ensures ReplayMem(m, h, lo, hi) == if hi <= lo then m else ApplyOp(ReplayMem(m, h, lo, hi - 1), h[hi - 1], hi)
  {
  }

  // ---------------------------------------------------------------------------------------------
  // flush_buffer
  // ---------------------------------------------------------------------------------------------

  /** Each buffered vector added to the index in turn, replacing the id's committed one. */
  function FlushInto(index: map<Id, Embedding>, b: seq<Record>): map<Id, Embedding> {
    if b == [] then index
    else
      var e := b[|b| - 1];
      var rest := FlushInto(index, b[..|b| - 1]);
      if e.embedding.Some? then rest[e.id := e.embedding.value] else rest
  }

  function MaxSeq(b: seq<Record>): (s: nat)
    ensures forall e :: e in b && e.embedding.Some? ==> e.seqNo <= s
  {
    if b == [] then 0
    else
      var s := MaxSeq(b[..|b| - 1]);
      var e := b[|b| - 1];
      assert forall r :: r in b <==> r in b[..|b| - 1] || r == e;
      if e.embedding.Some? && e.seqNo > s then e.seqNo else s
  }

  function Max(a: nat, b: nat): nat {
    if a < b then b else a
  }

  /** Every add of the flush finds its label free in the graph. */
  predicate Flushes(x: L.Labelled, b: seq<Record>) {
    b == [] ||
    var e, c := b[|b| - 1], b[..|b| - 1];
    Flushes(x, c) && (e.embedding.Some? ==> L.Replaces(FlushLabels(x, c), e.id))
  }

  /**
   The flush on the label maps and the graph: a committed vector is deleted before the new one is
   added, and the first add that fails ends the flush.
   */
  function FlushLabels(x: L.Labelled, b: seq<Record>): L.Labelled {
    if b == [] then x
    else
      var e, c := b[|b| - 1], b[..|b| - 1];
      if Flushes(x, c) && e.embedding.Some? then L.Replace(FlushLabels(x, c), e.id, e.embedding.value)
      else FlushLabels(x, c)
  }

  /** `flush_buffer`; when an add fails the buffer is gone and the watermark stays. */
  function Flush(m: Mem): Mem {
    var x := FlushLabels(m.labels, m.buffer);
    if Flushes(m.labels, m.buffer) then
      m.(index := FlushInto(m.index, m.buffer), buffer := [], flushedSeq := Max(m.flushedSeq, MaxSeq(m.buffer)), labels := x)
    else m.(index := L.Vectors(x), buffer := [], labels := x)
  }

  // ---------------------------------------------------------------------------------------------
  // Offsets and postings
  // ---------------------------------------------------------------------------------------------

  /** The metadata of every record that has an offset. */
  ghost function ByOffset(t: Offs, r: map<Id, Record>): map<nat, Metadata> {
    map o: nat | o in t.idByOffset :: OrEmpty(MetadataOf(r, t.idByOffset[o]))
  }

  /** Offsets and reverse offsets are inverse, and only records without metadata may lack one. */
  ghost predicate MapsOk(t: Offs, r: map<Id, Record>) {
    && (forall x :: x in t.offsets ==>
          && x in r
          && t.offsets[x] < t.nextOffset
          && t.offsets[x] in t.idByOffset && t.idByOffset[t.offsets[x]] == x)
    && (forall o :: o in t.idByOffset ==>
          t.idByOffset[o] in t.offsets && t.offsets[t.idByOffset[o]] == o)
    && (forall x :: x in r && x !in t.offsets ==> r[x].metadata == None)
  }

  /** The offset maps are sound and the postings index exactly the records with an offset. */
  ghost predicate OffsetInv(t: Offs, r: map<Id, Record>) {
    MapsOk(t, r) && P.Indexes(t.postings, ByOffset(t, r))
  }

  lemma ReindexFacts(p: P.Index, ms: map<nat, Metadata>, o: nat, had: bool, before: Option<Metadata>, now: Option<Metadata>)
    requires P.Indexes(p, ms)
    requires had ==> if o in ms then ms[o] == OrEmpty(before) else OrEmpty(before) == map[]
    requires !had ==> o !in ms
    ensures P.Indexes(Reindex(p, o, had, before, now), ms[o := OrEmpty(now)])
  {
    if had {
      P.RemoveIndexes(p, ms, o, before);
      P.InsertIndexes(P.Remove(p, o, before), ms - {o}, o, now);
      assert (ms - {o})[o := OrEmpty(now)] == ms[o := OrEmpty(now)];
    } else {
      P.InsertIndexes(p, ms, o, now);
    }
  }

  /** The operations that re-index their record. */
  predicate Reindexes(r: map<Id, Record>, op: Operation) {
    op.Writes() || (op.Update? && op.metadata != MetadataOf(r, op.id))
  }

  lemma StepMaps(t: Offs, r: map<Id, Record>, op: Operation, s: nat)
    requires MapsOk(t, r)
    ensures MapsOk(StepOffs(t, r, op), Apply(r, op, s))
  {
    hide P.Insert, P.Remove, P.RemoveAll;
  }

  lemma ReindexByOffset(t: Offs, r: map<Id, Record>, op: Operation, s: nat)
    requires MapsOk(t, r) && Reindexes(r, op)
    ensures ByOffset(StepOffs(t, r, op), Apply(r, op, s)) == ByOffset(t, r)[OffsetOf(t, op.id) := OrEmpty(op.metadata)]
  {
    hide P.Insert, P.Remove, P.RemoveAll, OrEmpty;
  }

  lemma OtherByOffset(t: Offs, r: map<Id, Record>, op: Operation, s: nat)
    requires MapsOk(t, r) && !Reindexes(r, op)
    ensures ByOffset(StepOffs(t, r, op), Apply(r, op, s)) ==
            if op.Delete? && op.id in t.offsets then ByOffset(t, r) - {t.offsets[op.id]} else ByOffset(t, r)
  {
    hide P.Insert, P.Remove, P.RemoveAll, OrEmpty;
  }

  lemma WritePostings(t: Offs, r: map<Id, Record>, op: Operation)
    requires OffsetInv(t, r) && Reindexes(r, op)
    ensures P.Indexes(StepOffs(t, r, op).postings, ByOffset(t, r)[OffsetOf(t, op.id) := OrEmpty(op.metadata)])
  {
    ReindexFacts(t.postings, ByOffset(t, r), OffsetOf(t, op.id), op.Update? || op.id in r, MetadataOf(r, op.id), op.metadata);
  }

  lemma DeletePostings(t: Offs, r: map<Id, Record>, op: Operation)
    requires OffsetInv(t, r) && op.Delete? && op.id in t.offsets
    ensures P.Indexes(StepOffs(t, r, op).postings, ByOffset(t, r) - {t.offsets[op.id]})
  {
    var o, before := t.offsets[op.id], MetadataOf(r, op.id);
    P.RemoveIndexes(t.postings, ByOffset(t, r), o, before);
    P.RemoveAllIndexes(P.Remove(t.postings, o, before), ByOffset(t, r) - {o}, o);
    assert ByOffset(t, r) - {o} - {o} == ByOffset(t, r) - {o};
  }

  /** Every operation keeps offsets, reverse offsets and postings in step with the record map. */
  lemma StepOffsetInv(t: Offs, r: map<Id, Record>, op: Operation, s: nat)
    requires OffsetInv(t, r)
    ensures OffsetInv(StepOffs(t, r, op), Apply(r, op, s))
  {
    StepMaps(t, r, op, s);
    if Reindexes(r, op) {
      ReindexByOffset(t, r, op, s);
      WritePostings(t, r, op);
    } else {
      OtherByOffset(t, r, op, s);
      if op.Delete? && op.id in t.offsets {
        DeletePostings(t, r, op);
      }
    }
  }

  lemma StepFreshOffsets(t: Offs, r: map<Id, Record>, op: Operation)
    ensures var t' := StepOffs(t, r, op);
            && t'.nextOffset >= t.nextOffset
            && forall o :: o in t'.idByOffset && o < t.nextOffset ==>
                 o in t.idByOffset && t.idByOffset[o] == t'.idByOffset[o]
  {
  }

  /** Offsets are never reused: an old offset that is still mapped belongs to the id it was issued to. */
  lemma {:induction false} OffsetsNeverReused(h: seq<Operation>, lo: nat, hi: nat, t: Offs, r: map<Id, Record>)
    requires hi <= |h|
    ensures var t' := ReplayOffs(h, lo, hi, t, r);
            && t'.nextOffset >= t.nextOffset
            && forall o :: o in t'.idByOffset && o < t.nextOffset ==>
                 o in t.idByOffset && t.idByOffset[o] == t'.idByOffset[o]
    decreases hi
  {
    if hi > lo {
      OffsetsNeverReused(h, lo, hi - 1, t, r);
      StepFreshOffsets(ReplayOffs(h, lo, hi - 1, t, r), Replay(h, lo, hi - 1, r), h[hi - 1]);
    }
  }

  // ---------------------------------------------------------------------------------------------
  // The invariant
  // ---------------------------------------------------------------------------------------------

  /**
   Every surviving write below the watermark is committed with its vector; only live ids that were
   not deleted above the watermark are committed at all.
   */
  ghost predicate Covers(h: seq<Operation>, n: nat, f: nat, index: map<Id, Embedding>)
    requires n <= |h|
  {
    && (forall x :: x in index ==> x in Fold(h, n) && !Deleted(h, f, n, x))
    && (forall i: nat :: i < f && Surviving(h, n, i) ==>
          h[i].id in index && index[h[i].id] == h[i].embedding)
  }

  /** The label maps and the graph hold exactly the index, with nothing left behind. */
  ghost predicate Labelling(x: L.Labelled, index: map<Id, Embedding>) {
    L.Clean(x) && L.Vectors(x) == index
  }

  lemma LabelIds(x: L.Labelled, index: map<Id, Embedding>)
    requires Labelling(x, index)
    ensures x.labels.Keys == index.Keys
  {
    assert L.Vectors(x).Keys == x.labels.Keys;
  }

  lemma StepLabelling(x: L.Labelled, index: map<Id, Embedding>, op: Operation)
    requires Labelling(x, index)
    ensures Labelling(StepLabels(x, op), StepIndex(index, op))
    ensures StepLabels(x, op).labels == if op.Delete? then x.labels - {op.id} else x.labels
  {
    hide L.Clean, L.Vectors;
    if op.Delete? {
      L.RemoveClean(x, op.id);
    }
  }

  /** A replay removes the labels of the ids it deletes and keeps all others. */
  lemma {:induction false} ReplayLabelling(h: seq<Operation>, lo: nat, hi: nat, x: L.Labelled, index: map<Id, Embedding>)
    requires lo <= hi <= |h| && Labelling(x, index)
    ensures Labelling(ReplayLabels(h, lo, hi, x), ReplayIndex(h, lo, hi, index))
    ensures forall y :: y in x.labels && !Deleted(h, lo, hi, y) ==>
              y in ReplayLabels(h, lo, hi, x).labels && ReplayLabels(h, lo, hi, x).labels[y] == x.labels[y]
    decreases hi
  {
    hide Labelling, StepLabels, StepIndex;
    if hi > lo {
      ReplayLabelling(h, lo, hi - 1, x, index);
      StepLabelling(ReplayLabels(h, lo, hi - 1, x), ReplayIndex(h, lo, hi - 1, index), h[hi - 1]);
      forall y
        ensures Deleted(h, lo, hi, y) <==> Deleted(h, lo, hi - 1, y) || h[hi - 1] == Delete(y)
      {
        TouchedStep(h, lo, hi - 1, y);
      }
    }
  }

  /** A flush of a clean index succeeds, labels the buffered ids anew and keeps all others. */
  lemma {:induction false} FlushLabelling(x: L.Labelled, index: map<Id, Embedding>, b: seq<Record>)
    requires Labelling(x, index)
    ensures Flushes(x, b)
    ensures Labelling(FlushLabels(x, b), FlushInto(index, b))
    ensures forall y :: y in x.labels && (forall e :: e in b ==> e.id != y) ==>
              y in FlushLabels(x, b).labels && FlushLabels(x, b).labels[y] == x.labels[y]
  {
    hide L.Clean, L.Vectors, L.Replace, L.Replaces;
    if b != [] {
      var c, e := b[..|b| - 1], b[|b| - 1];
      FlushLabelling(x, index, c);
      if e.embedding.Some? {
        L.ReplaceClean(FlushLabels(x, c), e.id, e.embedding.value);
      }
      assert forall r :: r in b <==> r in c || r == e;
    }
  }

  /** No label from next on, for n labels, is held by the graph. */
  ghost predicate LabelsFree(graph: map<nat, Embedding>, next: nat, n: nat) {
    forall l :: next <= l < next + n ==> l !in graph
  }

  /**
   Over any graph, a flush of n vectors succeeds exactly when the graph holds none of the next n
   labels; it then takes the vectors in, and leaves the labels behind it as they were.
   */
  lemma {:induction false} FlushesIff(x: L.Labelled, b: seq<Record>)
    requires L.Mapped(x) && forall e :: e in b ==> e.embedding.Some?
    ensures Flushes(x, b) <==> LabelsFree(x.graph, x.nextLabel, |b|)
    ensures Flushes(x, b) ==>
              var y := FlushLabels(x, b);
              && L.Mapped(y) && y.nextLabel == x.nextLabel + |b|
              && L.Vectors(y) == FlushInto(L.Vectors(x), b)
              && (forall l :: l >= y.nextLabel ==> (l in y.graph <==> l in x.graph))
  {
    hide L.Mapped, L.Vectors, L.Replace, L.Replaces;
    if b != [] {
      var c, e := b[..|b| - 1], b[|b| - 1];
      assert forall r :: r in c ==> r in b;
      assert e in b;
      FlushesIff(x, c);
      if Flushes(x, c) {
        L.ReplaceMapped(FlushLabels(x, c), e.id, e.embedding.value);
      }
    }
  }

  /** Where a flush that fails stops: at the first label the graph holds, whose id loses its vector. */
  lemma {:induction false} FailedLabels(x: L.Labelled, b: seq<Record>) returns (i: nat)
    requires L.Mapped(x) && (forall e :: e in b ==> e.embedding.Some?) && !Flushes(x, b)
    ensures i < |b| && LabelsFree(x.graph, x.nextLabel, i) && x.nextLabel + i in x.graph
    ensures L.Vectors(FlushLabels(x, b)) == FlushInto(L.Vectors(x), b[..i]) - {b[i].id}
  {
    hide L.Mapped, L.Vectors, L.Replace, L.Replaces;
    var c, e := b[..|b| - 1], b[|b| - 1];
    assert e in b && forall r :: r in c ==> r in b;
    if Flushes(x, c) {
      i := |b| - 1;
      FlushesIff(x, c);
      L.ReplaceMapped(FlushLabels(x, c), e.id, e.embedding.value);
      L.ReplaceRefused(FlushLabels(x, c), e.id, e.embedding.value);
    } else {
      i := FailedLabels(x, c);
      assert c[..i] == b[..i];
    }
  }

  /**
   What a flush that fails leaves: the records and the watermark as they were, an empty buffer, and
   in the index the vectors before the refused one, whose id then has none.
   */
  lemma FailedFlush(m: Mem)
    requires L.Mapped(m.labels) && m.index == L.Vectors(m.labels) && forall e :: e in m.buffer ==> e.embedding.Some?
    requires !Flushes(m.labels, m.buffer)
    ensures var t := Flush(m);
            && t.records == m.records && t.offs == m.offs && t.flushedSeq == m.flushedSeq && t.buffer == []
            && t.index == L.Vectors(t.labels)
            && exists i: nat :: i < |m.buffer| && LabelsFree(m.labels.graph, m.labels.nextLabel, i)
                 && m.labels.nextLabel + i in m.labels.graph
                 && t.index == FlushInto(m.index, m.buffer[..i]) - {m.buffer[i].id}
  {
    hide L.Mapped, L.Vectors, FlushLabels, Flushes;
    var i := FailedLabels(m.labels, m.buffer);
    assert LabelsFree(m.labels.graph, m.labels.nextLabel, i);
  }

  /** A tail replay over any labelled graph: it deletes as the index does and takes no label. */
  lemma {:induction false} ReplayMapped(h: seq<Operation>, lo: nat, hi: nat, x: L.Labelled)
    requires lo <= hi <= |h| && L.Mapped(x)
    ensures var y := ReplayLabels(h, lo, hi, x);
            && L.Mapped(y) && y.nextLabel == x.nextLabel
            && L.Vectors(y) == ReplayIndex(h, lo, hi, L.Vectors(x))
            && (forall l :: l >= x.nextLabel ==> (l in y.graph <==> l in x.graph))
    decreases hi
  {
    hide L.Mapped, L.Vectors, L.RemoveFrom;
    if hi > lo {
      ReplayMapped(h, lo, hi - 1, x);
      L.RemoveMapped(ReplayLabels(h, lo, hi - 1, x), h[hi - 1].id);
    }
  }

  /**
   What the state is worth after history h: the record map is the fold of h (some vectors moved
   out), the buffer is exactly the surviving writes above the watermark, the index holds those
   below it under labels of their own, every record has an offset and the postings index every
   record's metadata.
   */
  ghost predicate Inv(m: Mem, h: seq<Operation>) {
    && Valid(h)
    && m.flushedSeq <= |h|
    && Below(m.records, Fold(h, |h|))
    && m.buffer == Pending(h, m.flushedSeq, |h|)
    && Covers(h, |h|, m.flushedSeq, m.index)
    && OffsetInv(m.offs, m.records)
    && m.offs.offsets.Keys == m.records.Keys
    && Labelling(m.labels, m.index)
    && KeepsAbove(h, m.flushedSeq, m.records)
  }

  /** A vector written above the watermark is still in the record map: only flushed ones are moved out. */
  ghost predicate KeepsAbove(h: seq<Operation>, f: nat, r: map<Id, Record>) {
    forall x :: x in r && Decided(h, f, |h|, x) ==> r[x].embedding.Some?
  }

  lemma KeepsAboveStep(h: seq<Operation>, f: nat, r: map<Id, Record>, op: Operation)
    requires f <= |h| && KeepsAbove(h, f, r) && (op.Update? ==> op.id in r)
    ensures KeepsAbove(h + [op], f, Apply(r, op, |h| + 1))
  {
    var g := h + [op];
    forall x | x in Apply(r, op, |g|) && Decided(g, f, |g|, x)
      ensures Apply(r, op, |g|)[x].embedding.Some?
    {
      TouchedStep(g, f, |h|, x);
      DecidedPrefix(h, g, f, x);
    }
  }

  lemma DecidedPrefix(h: seq<Operation>, g: seq<Operation>, f: nat, x: Id)
    requires h <= g
    ensures Decided(g, f, |h|, x) <==> Decided(h, f, |h|, x)
  {
    assert forall i :: 0 <= i < |h| ==> h[i] == g[i];
  }

  lemma FreshInv()
    ensures Inv(FRESH, [])
  {
    assert L.Vectors(L.NO_LABELS) == map[];
    assert ByOffset(NO_OFFSETS, map[]) == map[];
  }

  lemma CoversStep(h: seq<Operation>, op: Operation, f: nat, index: map<Id, Embedding>)
    requires f <= |h| && Covers(h, |h|, f, index)
    ensures Covers(h + [op], |h| + 1, f, StepIndex(index, op))
  {
    var g, n := h + [op], |h|;
    var index' := StepIndex(index, op);
    ReplayPrefix(h, g, 0, n, map[]);
    forall x | x in index'
      ensures x in Fold(g, n + 1) && !Deleted(g, f, n + 1, x)
    {
      TouchedStep(g, f, n, x);
      assert Deleted(g, f, n, x) <==> Deleted(h, f, n, x);
    }
    forall i: nat | i < f && Surviving(g, n + 1, i)
      ensures g[i].id in index' && index'[g[i].id] == g[i].embedding
    {
      TouchedStep(g, i + 1, n, g[i].id);
      assert Decided(g, i + 1, n, g[i].id) <==> Decided(h, i + 1, n, h[i].id);
      assert Surviving(h, n, i);
    }
  }

  lemma StepHistory(h: seq<Operation>, op: Operation, r: map<Id, Record>, f: nat, index: map<Id, Embedding>)
    requires Valid(h) && f <= |h| && Below(r, Fold(h, |h|)) && Covers(h, |h|, f, index)
    requires op.Update? ==> op.id in Fold(h, |h|)
    ensures var g := h + [op];
            && Valid(g)
            && Below(Apply(r, op, |g|), Fold(g, |g|))
            && Pending(g, f, |g|) == BufferStep(Pending(h, f, |h|), op, |g|)
            && Covers(g, |g|, f, StepIndex(index, op))
  {
    var g, n := h + [op], |h|;
    ValidExtend(h, op);
    ApplyBelow(r, Fold(h, n), op, n + 1);
    PendingPrefix(h, g, f, n);
    PendingStep(g, f, n);
    CoversStep(h, op, f, index);
  }

  lemma StepOffsetKeys(t: Offs, r: map<Id, Record>, op: Operation, s: nat)
    requires t.offsets.Keys == r.Keys && (op.Update? ==> op.id in r)
    ensures StepOffs(t, r, op).offsets.Keys == Apply(r, op, s).Keys
  {
  }

  /** Applying the next logged operation keeps the invariant, for the history it extends. */
  lemma ApplyInv(m: Mem, h: seq<Operation>, op: Operation)
    requires Inv(m, h) && (op.Update? ==> op.id in Fold(h, |h|))
    ensures Inv(ApplyOp(m, op, |h| + 1), h + [op])
  {
    StepHistory(h, op, m.records, m.flushedSeq, m.index);
    StepOffsetInv(m.offs, m.records, op, |h| + 1);
    StepOffsetKeys(m.offs, m.records, op, |h| + 1);
    StepLabelling(m.labels, m.index, op);
    KeepsAboveStep(h, m.flushedSeq, m.records, op);
  }

  lemma {:induction false} FlushIntoLookups(index: map<Id, Embedding>, b: seq<Record>, x: Id)
    requires forall i, j :: 0 <= i < j < |b| ==> b[i].id != b[j].id
    requires forall e :: e in b ==> e.embedding.Some?
    ensures (exists e :: e in b && e.id == x) ==> x in FlushInto(index, b)
    ensures forall e :: e in b && e.id == x ==> FlushInto(index, b)[x] == e.embedding.value
    ensures (forall e :: e in b ==> e.id != x) ==>
              (x in FlushInto(index, b) <==> x in index) && (x in index ==> FlushInto(index, b)[x] == index[x])
  {
    if b != [] {
      var c := b[..|b| - 1];
      FlushIntoLookups(index, c, x);
      assert forall e :: e in b <==> e in c || e == b[|b| - 1];
    }
  }

  lemma PendingCarryVectors(h: seq<Operation>, lo: nat, n: nat)
    requires n <= |h|
    ensures forall e :: e in Pending(h, lo, n) ==> e.embedding.Some?
  {
    forall e | e in Pending(h, lo, n)
      ensures e.embedding.Some?
    {
      PendingMembers(h, lo, n, e);
    }
  }

  lemma FlushCovers(h: seq<Operation>, n: nat, f: nat, f': nat, index: map<Id, Embedding>)
    requires n <= |h| && Covers(h, n, f, index)
    requires f' == Max(f, MaxSeq(Pending(h, f, n)))
    ensures Covers(h, n, f', FlushInto(index, Pending(h, f, n)))
  {
    var b := Pending(h, f, n);
    var index' := FlushInto(index, b);
    PendingOrdered(h, f, n);
    PendingCarryVectors(h, f, n);
    forall x | x in index'
      ensures x in Fold(h, n) && !Deleted(h, f', n, x)
    {
      FlushIntoLookups(index, b, x);
      if e :| e in b && e.id == x {
        PendingMembers(h, f, n, e);
        var i :| f <= i < n && Surviving(h, n, i) && e == Written(h[i], i + 1);
        SurvivingIsNewest(h, n, i);
      }
    }
    forall i: nat | i < f' && Surviving(h, n, i)
      ensures h[i].id in index' && index'[h[i].id] == h[i].embedding
    {
      FlushedLookup(h, n, f, index, i);
    }
  }

  lemma FlushedLookup(h: seq<Operation>, n: nat, f: nat, index: map<Id, Embedding>, i: nat)
    requires n <= |h| && Covers(h, n, f, index) && Surviving(h, n, i)
    ensures var index' := FlushInto(index, Pending(h, f, n));
            h[i].id in index' && index'[h[i].id] == h[i].embedding
  {
    var b := Pending(h, f, n);
    PendingOrdered(h, f, n);
    PendingCarryVectors(h, f, n);
    FlushIntoLookups(index, b, h[i].id);
    if i < f {
      forall e | e in b
        ensures e.id != h[i].id
      {
        PendingElsewhere(h, f, n, i, e);
      }
    } else {
      PendingMembers(h, f, n, Written(h[i], i + 1));
      assert Written(h[i], i + 1) in b;
    }
  }

  /** Nothing is pending above the highest flushed sequence number. */
  lemma FlushEmpties(h: seq<Operation>, f: nat, n: nat)
    requires f <= n <= |h|
    ensures var f' := Max(f, MaxSeq(Pending(h, f, n)));
            f' <= n && Pending(h, f', n) == []
  {
    var b := Pending(h, f, n);
    var f' := Max(f, MaxSeq(b));
    MaxSeqBound(h, f, n);
    if Pending(h, f', n) != [] {
      var e := Pending(h, f', n)[0];
      PendingMembers(h, f', n, e);
      PendingMembers(h, f, n, e);
      assert false;
    }
  }

  lemma {:induction false} MaxSeqAttained(b: seq<Record>, n: nat)
    requires forall e :: e in b ==> e.seqNo <= n
    ensures MaxSeq(b) <= n
  {
    if b != [] {
      assert forall r :: r in b[..|b| - 1] ==> r in b;
      MaxSeqAttained(b[..|b| - 1], n);
    }
  }

  lemma MaxSeqBound(h: seq<Operation>, f: nat, n: nat)
    requires n <= |h|
    ensures MaxSeq(Pending(h, f, n)) <= n
  {
    PendingOrdered(h, f, n);
    MaxSeqAttained(Pending(h, f, n), n);
  }

  /** Draining the buffer into the index succeeds, keeps the invariant and moves only the watermark. */
  lemma FlushInv(m: Mem, h: seq<Operation>)
    requires Inv(m, h)
    ensures Flushes(m.labels, m.buffer)
    ensures Inv(Flush(m), h)
  {
    var n := |h|;
    FlushLabelling(m.labels, m.index, m.buffer);
    FlushEmpties(h, m.flushedSeq, n);
    FlushCovers(h, n, m.flushedSeq, Flush(m).flushedSeq, m.index);
  }
}
