/**
 Reopening a collection: restoring the checkpoint files, then replaying the log tail above the
 checkpoint's watermark over a state that usually contains part of that tail already.
 */
module Reopen {
  import opened Core
  import opened History
  import opened Filter
  import opened Collection
  import P = Postings
  import L = Labels

  // ---------------------------------------------------------------------------------------------
  // Restoring offsets and postings from the record map
  // ---------------------------------------------------------------------------------------------

  /** The loop of `load_checkpoint`: ids get offsets 0, 1, 2, ... in the map's iteration order. */
  function Enumerate(r: map<Id, Record>, order: seq<Id>): Offs {
    if order == [] then NO_OFFSETS
    else NextOffset(Enumerate(r, order[..|order| - 1]), r, order[|order| - 1])
  }

  function NextOffset(t: Offs, r: map<Id, Record>, x: Id): Offs {
    Offs(t.offsets[x := t.nextOffset], t.idByOffset[t.nextOffset := x], t.nextOffset + 1,
         P.Insert(t.postings, t.nextOffset, MetadataOf(r, x)))
  }

  /** order lists every key of r once: one possible iteration order of the hash map. */
  ghost predicate Lists(order: seq<Id>, r: map<Id, Record>) {
    && (forall x :: x in order <==> x in r)
    && (forall i, j :: 0 <= i < j < |order| ==> order[i] != order[j])
  }

  /** The loaded state before the tail replay. */
  function Restored(r: map<Id, Record>, labels: L.Labelled, flushed: nat, order: seq<Id>): Mem {
    Mem(r, [], L.Vectors(labels), flushed, Enumerate(r, order), labels)
  }

  ghost predicate Enumerated(t: Offs, order: seq<Id>) {
    && t.nextOffset == |order|
    && (forall x :: x in t.offsets <==> x in order)
    && (forall x :: x in t.offsets ==>
          t.offsets[x] < |order| && t.offsets[x] in t.idByOffset && t.idByOffset[t.offsets[x]] == x)
    && (forall o :: o in t.idByOffset ==>
          o < |order| && t.idByOffset[o] in t.offsets && t.offsets[t.idByOffset[o]] == o)
  }

  lemma EnumeratedStep(t: Offs, r: map<Id, Record>, c: seq<Id>, x: Id)
    requires Enumerated(t, c) && x !in c
    ensures Enumerated(NextOffset(t, r, x), c + [x])
  {
    hide P.Insert, MetadataOf;
  }

  lemma {:induction false} EnumerateMaps(r: map<Id, Record>, order: seq<Id>)
    requires forall i, j :: 0 <= i < j < |order| ==> order[i] != order[j]
    ensures Enumerated(Enumerate(r, order), order)
  {
    hide Enumerated;
    if order == [] {
      NothingEnumerated(r);
    } else {
      var c, x := order[..|order| - 1], order[|order| - 1];
      EnumerateMaps(r, c);
      assert order == c + [x];
      EnumeratedStep(Enumerate(r, c), r, c, x);
    }
  }

  lemma NothingEnumerated(r: map<Id, Record>)
    ensures Enumerated(Enumerate(r, []), [])
  {
  }

  lemma {:induction false} EnumeratePostings(r: map<Id, Record>, order: seq<Id>)
    requires forall i, j :: 0 <= i < j < |order| ==> order[i] != order[j]
    ensures P.Indexes(Enumerate(r, order).postings, ByOffset(Enumerate(r, order), r))
  {
    if order == [] {
      assert ByOffset(NO_OFFSETS, r) == map[];
    } else {
      var c, x := order[..|order| - 1], order[|order| - 1];
      EnumeratePostings(r, c);
      EnumerateMaps(r, c);
      EnumerateOne(Enumerate(r, c), r, x);
    }
  }

  lemma EnumerateOne(t: Offs, r: map<Id, Record>, x: Id)
    requires P.Indexes(t.postings, ByOffset(t, r)) && t.nextOffset !in t.idByOffset
    ensures P.Indexes(NextOffset(t, r, x).postings, ByOffset(NextOffset(t, r, x), r))
  {
    hide P.Indexes, P.Insert, OrEmpty, MetadataOf;
    P.InsertIndexes(t.postings, ByOffset(t, r), t.nextOffset, MetadataOf(r, x));
    assert ByOffset(NextOffset(t, r, x), r) == ByOffset(t, r)[t.nextOffset := OrEmpty(MetadataOf(r, x))];
  }

  /** A restored state is sound, in whatever order the hash map was walked. */
  lemma RestoredFacts(r: map<Id, Record>, order: seq<Id>)
    requires Lists(order, r)
    ensures OffsetInv(Enumerate(r, order), r) && Enumerate(r, order).offsets.Keys == r.Keys
  {
    EnumerateMaps(r, order);
    EnumeratePostings(r, order);
  }

  // ---------------------------------------------------------------------------------------------
  // The tail replay, part by part
  // ---------------------------------------------------------------------------------------------

  /** Replaying from an empty buffer rebuilds exactly the pending writes. */
  lemma {:induction false} ReplayFromEmpty(h: seq<Operation>, lo: nat, hi: nat)
    requires lo <= hi <= |h|
    ensures ReplayBuffer(h, lo, hi, []) == Pending(h, lo, hi)
    decreases hi
  {
    hide BufferStep, Pending, ReplayBuffer;
    if hi == lo {
      NothingPending(h, lo);
    } else {
      ReplayFromEmpty(h, lo, hi - 1);
      PendingStep(h, lo, hi - 1);
      ReplayBufferStep(h, lo, hi - 1);
    }
  }

  lemma NothingPending(h: seq<Operation>, lo: nat)
    requires lo <= |h|
    ensures Pending(h, lo, lo) == [] == ReplayBuffer(h, lo, lo, [])
  {
  }

  lemma ReplayBufferStep(h: seq<Operation>, lo: nat, k: nat)
    requires lo <= k < |h|
    ensures ReplayBuffer(h, lo, k + 1, []) == BufferStep(ReplayBuffer(h, lo, k, []), h[k], k + 1)
  {
    hide BufferStep;
  }

  lemma {:induction false} ReplayIndexLookup(h: seq<Operation>, lo: nat, hi: nat, index: map<Id, Embedding>, x: Id)
    requires lo <= hi <= |h|
    ensures var index' := ReplayIndex(h, lo, hi, index);
            && (x in index' <==> x in index && !Deleted(h, lo, hi, x))
            && (x in index' ==> index'[x] == index[x])
    decreases hi
  {
    if hi > lo {
      ReplayIndexLookup(h, lo, hi - 1, index, x);
      TouchedStep(h, lo, hi - 1, x);
    }
  }

  lemma {:induction false} ReplayOffsetInv(h: seq<Operation>, lo: nat, hi: nat, t: Offs, r: map<Id, Record>)
    requires hi <= |h| && OffsetInv(t, r)
    ensures OffsetInv(ReplayOffs(h, lo, hi, t, r), Replay(h, lo, hi, r))
    decreases hi
  {
    if hi > lo {
      ReplayOffsetInv(h, lo, hi - 1, t, r);
      StepOffsetInv(ReplayOffs(h, lo, hi - 1, t, r), Replay(h, lo, hi - 1, r), h[hi - 1], hi);
    }
  }

  lemma DeletedIsDecided(h: seq<Operation>, start: nat, lo: nat, n: nat, x: Id)
    requires start <= lo <= n <= |h|
    ensures Deleted(h, lo, n, x) ==> Decided(h, start, n, x)
  {
    if Deleted(h, lo, n, x) {
      var d :| lo <= d < n && h[d] == Delete(x);
      assert h[d].Decides(x);
    }
  }

  /** The loaded index still holds every surviving write below lo, with its own vector. */
  ghost predicate HoldsBelow(h: seq<Operation>, lo: nat, saved: map<Id, Embedding>) {
    forall k: nat :: k < lo && Surviving(h, |h|, k) ==>
                       h[k].id in saved && saved[h[k].id] == h[k].embedding
  }

  /** Every id is live unless the tail above lo deletes it. */
  ghost predicate LiveOrDeleted(h: seq<Operation>, lo: nat, ids: set<Id>) {
    forall x :: x in ids && !Deleted(h, lo, |h|, x) ==> x in Fold(h, |h|)
  }

  /**
   After the tail's deletes an index covers the watermark lo exactly when it held every surviving
   write below lo and no id that is neither live nor deleted in the tail.
   */
  lemma ReplayCovers(h: seq<Operation>, lo: nat, saved: map<Id, Embedding>)
    requires lo <= |h|
    ensures Covers(h, |h|, lo, ReplayIndex(h, lo, |h|, saved)) <==>
            HoldsBelow(h, lo, saved) && LiveOrDeleted(h, lo, saved.Keys)
  {
    hide Replay, ReplayIndex, Deleted;
    var n := |h|;
    var index := ReplayIndex(h, lo, n, saved);
    forall x
      ensures x in index <==> x in saved && !Deleted(h, lo, n, x)
      ensures x in index ==> index[x] == saved[x]
    {
      ReplayIndexLookup(h, lo, n, saved, x);
    }
    forall k: nat | k < lo && Surviving(h, n, k)
      ensures !Deleted(h, lo, n, h[k].id)
    {
      DeletedIsDecided(h, k + 1, lo, n, h[k].id);
    }
  }

  /** An index saved at any later point i of the history, with any later watermark g, meets both. */
  lemma SavedIndexHolds(h: seq<Operation>, lo: nat, g: nat, i: nat, saved: map<Id, Embedding>)
    requires Valid(h) && lo <= g <= i <= |h| && Covers(h, i, g, saved)
    ensures HoldsBelow(h, lo, saved) && LiveOrDeleted(h, lo, saved.Keys)
  {
    hide Replay;
    var n := |h|;
    forall x | x in saved && !Deleted(h, lo, n, x)
      ensures x in Fold(h, n)
    {
      LiveUntilDeleted(h, i, n, x);
    }
    forall k: nat | k < lo && Surviving(h, n, k)
      ensures h[k].id in saved && saved[h[k].id] == h[k].embedding
    {
      assert Surviving(h, i, k);
    }
  }

  // ---------------------------------------------------------------------------------------------
  // Records that briefly have no offset
  // ---------------------------------------------------------------------------------------------

  /**
   During the replay a record can lack an offset only if an Update re-created an id that the
   restored state no longer holds and that nothing in the tail has decided so far.
   */
  lemma {:induction false} OffsetGap(h: seq<Operation>, lo: nat, j: nat, t: Offs, r: map<Id, Record>, x: Id)
    requires Valid(h) && lo <= j <= |h| && t.offsets.Keys == r.Keys
    requires forall y :: y in r ==> r[y].id == y
    ensures x in Replay(h, lo, j, r) && x !in ReplayOffs(h, lo, j, t, r).offsets ==>
              x !in r && !Decided(h, lo, j, x)
    decreases j
  {
    if j > lo {
      hide StepOffs, Apply, Decided, Touched, Deleted;
      var r1, op := Replay(h, lo, j - 1, r), h[j - 1];
      var t1 := ReplayOffs(h, lo, j - 1, t, r);
      OffsetGap(h, lo, j - 1, t, r, x);
      TouchedStep(h, lo, j - 1, x);
      if x in Apply(r1, op, j) && x !in StepOffs(t1, r1, op).offsets {
        StepGap(t1, r1, op, j, x);
      }
      if op.Update? && op.id == x && x !in r1 {
        ReplayInStep(h, lo, j - 1, r, x);
        assert x in Fold(h, j - 1);
      }
    }
  }

  lemma StepGap(t: Offs, r: map<Id, Record>, op: Operation, s: nat, x: Id)
    requires x in Apply(r, op, s) && x !in StepOffs(t, r, op).offsets
    ensures !op.Decides(x) && x !in t.offsets && (x in r || (op.Update? && op.id == x))
  {
  }

  /** The gap is always closed: after the whole tail every record has an offset again. */
  lemma ReplayOffsetKeys(h: seq<Operation>, lo: nat, mid: nat, t: Offs, r: map<Id, Record>)
    requires Valid(h) && lo <= mid <= |h| && Below(r, Fold(h, mid))
    requires OffsetInv(t, r) && t.offsets.Keys == r.Keys
    ensures ReplayOffs(h, lo, |h|, t, r).offsets.Keys == Replay(h, lo, |h|, r).Keys
  {
    var n := |h|;
    var t', r' := ReplayOffs(h, lo, n, t, r), Replay(h, lo, n, r);
    RecordIds(h, 0, mid, map[]);
    BelowIds(r, Fold(h, mid));
    ReplayOffsetInv(h, lo, n, t, r);
    ReplayBelow(h, lo, n, r, Fold(h, mid));
    ReplayCatchesUp(h, lo, mid, n);
    forall x | x in r'
      ensures x in t'.offsets
    {
      OffsetGap(h, lo, n, t, r, x);
      if x !in t'.offsets {
        LiveOnlyByWrites(h, mid, n, x);
        assert false;
      }
    }
  }

  lemma BelowIds(r: map<Id, Record>, s: map<Id, Record>)
    requires Below(r, s) && forall y :: y in s ==> s[y].id == y
    ensures forall y :: y in r ==> r[y].id == y
  {
    forall y | y in r
      ensures r[y].id == y
    {
      assert r[y].(embedding := None).id == s[y].(embedding := None).id;
    }
  }

  // ---------------------------------------------------------------------------------------------
  // The whole reopen
  // ---------------------------------------------------------------------------------------------

  /**
   Reopening restores the invariant for the full history: the record file may be as of any point r
   above the watermark lo, the index of any age that meets the condition of ReplayCovers.
   */
  lemma ReopenInv(m: Mem, h: seq<Operation>, r: nat)
    requires Valid(h)
    requires m.flushedSeq <= r <= |h| && Below(m.records, Fold(h, r))
    requires HoldsBelow(h, m.flushedSeq, m.index) && LiveOrDeleted(h, m.flushedSeq, m.index.Keys)
    requires Labelling(m.labels, m.index)
    requires m.buffer == [] && OffsetInv(m.offs, m.records) && m.offs.offsets.Keys == m.records.Keys
    ensures Inv(ReplayMem(m, h, m.flushedSeq, |h|), h)
  {
    hide Labelling, Covers, HoldsBelow, LiveOrDeleted, Pending, OffsetInv, ReplayIndex, ReplayLabels, ReplayBuffer, KeepsAbove;
    var lo, n := m.flushedSeq, |h|;
    ReplayBelow(h, lo, n, m.records, Fold(h, r));
    ReplayCatchesUp(h, lo, r, n);
    ReplayFromEmpty(h, lo, n);
    ReplayCovers(h, lo, m.index);
    ReplayOffsetInv(h, lo, n, m.offs, m.records);
    ReplayOffsetKeys(h, lo, r, m.offs, m.records);
    ReplayLabelling(h, lo, n, m.labels, m.index);
    ReplayKeepsAbove(h, lo, r, m.records);
  }

  /** A replay brings back every vector it decides. */
  lemma ReplayKeepsAbove(h: seq<Operation>, lo: nat, mid: nat, r: map<Id, Record>)
    requires Valid(h) && lo <= mid <= |h| && Below(r, Fold(h, mid))
    ensures KeepsAbove(h, lo, Replay(h, lo, |h|, r))
  {
    hide Replay, Decided, Touched;
    RecordIds(h, 0, mid, map[]);
    BelowIds(r, Fold(h, mid));
    forall x | x in Replay(h, lo, |h|, r) && Decided(h, lo, |h|, x)
      ensures Replay(h, lo, |h|, r)[x].embedding.Some?
    {
      ReplayInStep(h, lo, |h|, r, x);
      var i := LiveHasSurviving(h, |h|, x);
      SurvivingIsNewest(h, |h|, i);
    }
  }
}
