/** What the run invariant means for a reader: the statements about every reachable state. */
module Guarantees {
  import opened Core
  import opened History
  import opened Filter
  import opened Collection
  import opened Reopen
  import opened Batches
  import opened Runs
  import L = Labels
  import P = Postings
  import W = WalLog

  /**
   Whole-run refinement.  After any run of accepted batches, flushes, checkpoints, reopens and
   crashes, the live map is the fold of the complete operation history, although the log was pruned.
   */
  lemma RunRefinesFold(c: Config, steps: seq<Step>)
    requires Run(c, steps).Some?
    ensures var s := Run(c, steps).value;
            var truth := Fold(s.history, |s.history|);
            && s.mem.records.Keys == truth.Keys
            && forall x :: x in truth ==>
                 && s.mem.records[x].id == truth[x].id == x
                 && s.mem.records[x].metadata == truth[x].metadata
                 && s.mem.records[x].document == truth[x].document
                 && s.mem.records[x].seqNo == truth[x].seqNo
                 && (s.mem.records[x].embedding.Some? ==> s.mem.records[x].embedding == truth[x].embedding)
  {
    RunInv(c, steps);
    var s := Run(c, steps).value;
    var truth := Fold(s.history, |s.history|);
    RecordIds(s.history, 0, |s.history|, map[]);
    forall x | x in truth
      ensures var r := s.mem.records[x];
              r.id == x && r.metadata == truth[x].metadata && r.document == truth[x].document && r.seqNo == truth[x].seqNo
    {
      var r, t := s.mem.records[x].(embedding := None), truth[x].(embedding := None);
      assert r == t && r.id == s.mem.records[x].id && t.id == truth[x].id;
      assert r.metadata == s.mem.records[x].metadata && r.document == s.mem.records[x].document && r.seqNo == s.mem.records[x].seqNo;
    }
  }

  /**
   In every reachable state a live record carries the number, the metadata and the document of the
   last operation on its id, which is no delete.
   */
  lemma RunRecordsAreLast(c: Config, steps: seq<Step>, x: Id)
    requires Run(c, steps).Some? && x in Run(c, steps).value.mem.records
    ensures var s := Run(c, steps).value;
            var r, h := s.mem.records[x], s.history;
            && 1 <= r.seqNo <= |h| && h[r.seqNo - 1].id == x && !h[r.seqNo - 1].Delete?
            && !Touched(h, r.seqNo, |h|, x)
            && r.metadata == h[r.seqNo - 1].metadata && r.document == h[r.seqNo - 1].document
  {
    hide Run, Replay, Touched;
    RunRefinesFold(c, steps);
    LiveSeq(Run(c, steps).value.history, |Run(c, steps).value.history|, x);
  }

  /** In every reachable state the live ids are exactly those with a write that nothing decided since. */
  lemma RunLivesBySurvivors(c: Config, steps: seq<Step>, x: Id)
    requires Run(c, steps).Some?
    ensures var s := Run(c, steps).value;
            x in s.mem.records <==> exists i: nat :: Surviving(s.history, |s.history|, i) && s.history[i].id == x
  {
    hide Run, Replay, Decided, SysInv, Valid;
    RunRefinesFold(c, steps);
    RunInv(c, steps);
    ValidOf(c, Run(c, steps).value);
    LiveIff(Run(c, steps).value.history, |Run(c, steps).value.history|, x);
  }

  lemma ValidOf(c: Config, s: Sys)
    requires SysInv(c, s)
    ensures Valid(s.history) && Inv(s.mem, s.history)
  {
  }

  /** The newest vector of a live id: the buffered copy if the id is buffered, the committed one otherwise. */
  ghost predicate NewestAt(m: Mem, x: Id, v: Option<Embedding>) {
    && (forall e :: e in m.buffer && e.id == x ==> e.embedding == v)
    && ((forall e :: e in m.buffer ==> e.id != x) ==> x in m.index && Some(m.index[x]) == v)
  }

  ghost predicate TwoTiers(m: Mem, h: seq<Operation>) {
    var live := Fold(h, |h|);
    && (forall x :: x in live ==> live[x].embedding.Some? && NewestAt(m, x, live[x].embedding))
    && (forall e :: e in m.buffer ==> e.id in live)
    && (forall x :: x in m.index ==> x in live)
    && OnePerIdInOrder(m.buffer, m.flushedSeq, |h|)
  }

  lemma BufferedIsNewest(m: Mem, h: seq<Operation>, e: Record)
    requires m.buffer == Pending(h, m.flushedSeq, |h|) && e in m.buffer
    ensures e.id in Fold(h, |h|) && e.embedding == Fold(h, |h|)[e.id].embedding
  {
    PendingMembers(h, m.flushedSeq, |h|, e);
    var i :| m.flushedSeq <= i < |h| && Surviving(h, |h|, i) && e == Written(h[i], i + 1);
    SurvivingIsNewest(h, |h|, i);
  }

  lemma TwoTiersFromInv(m: Mem, h: seq<Operation>)
    requires Inv(m, h)
    ensures TwoTiers(m, h)
  {
    hide Replay, Labelling, OffsetInv;
    TwoTiersIff(m, h);
  }

  /**
   With the pending writes in the buffer and live ids in the index, the two tiers hold every newest
   vector exactly when the index holds the surviving writes below the watermark.
   */
  lemma TwoTiersIff(m: Mem, h: seq<Operation>)
    requires Valid(h) && m.buffer == Pending(h, m.flushedSeq, |h|)
    requires forall x :: x in m.index ==> x in Fold(h, |h|)
    ensures TwoTiers(m, h) <==> HoldsBelow(h, m.flushedSeq, m.index)
  {
    hide TwoTiers, HoldsBelow, Replay, Pending;
    if HoldsBelow(h, m.flushedSeq, m.index) {
      TiersFromBelow(m, h);
    }
    if TwoTiers(m, h) {
      BelowFromTiers(m, h);
    }
  }

  lemma TiersFromBelow(m: Mem, h: seq<Operation>)
    requires Valid(h) && m.buffer == Pending(h, m.flushedSeq, |h|) && HoldsBelow(h, m.flushedSeq, m.index)
    requires forall x :: x in m.index ==> x in Fold(h, |h|)
    ensures TwoTiers(m, h)
  {
    hide Replay, Surviving, Pending, HoldsBelow, NewestAt, OnePerIdInOrder, Valid;
    var n := |h|;
    PendingOrdered(h, m.flushedSeq, n);
    forall e | e in m.buffer
      ensures e.id in Fold(h, n) && e.embedding == Fold(h, n)[e.id].embedding
    {
      BufferedIsNewest(m, h, e);
    }
    forall x | x in Fold(h, n)
      ensures Fold(h, n)[x].embedding.Some? && NewestAt(m, x, Fold(h, n)[x].embedding)
    {
      NewestFromBelow(m, h, x);
    }
  }

  lemma BelowFromTiers(m: Mem, h: seq<Operation>)
    requires TwoTiers(m, h) && m.buffer == Pending(h, m.flushedSeq, |h|)
    ensures HoldsBelow(h, m.flushedSeq, m.index)
  {
    hide Replay, Decided, Pending, TwoTiers;
    forall k: nat | k < m.flushedSeq && Surviving(h, |h|, k)
      ensures h[k].id in m.index && m.index[h[k].id] == h[k].embedding
    {
      NeededBelow(m, h, k);
    }
  }

  lemma NewestFromBelow(m: Mem, h: seq<Operation>, x: Id)
    requires Valid(h) && m.buffer == Pending(h, m.flushedSeq, |h|) && HoldsBelow(h, m.flushedSeq, m.index)
    requires x in Fold(h, |h|)
    requires forall e :: e in m.buffer && e.id == x ==> e.embedding == Fold(h, |h|)[x].embedding
    ensures Fold(h, |h|)[x].embedding.Some? && NewestAt(m, x, Fold(h, |h|)[x].embedding)
  {
    hide Replay, Decided, Pending;
    var n := |h|;
    var i := LiveHasSurviving(h, n, x);
    SurvivingIsNewest(h, n, i);
    if i >= m.flushedSeq {
      PendingMembers(h, m.flushedSeq, n, Written(h[i], i + 1));
      assert Written(h[i], i + 1) in m.buffer;
    }
  }

  lemma NeededBelow(m: Mem, h: seq<Operation>, k: nat)
    requires TwoTiers(m, h) && m.buffer == Pending(h, m.flushedSeq, |h|)
    requires k < m.flushedSeq && Surviving(h, |h|, k)
    ensures h[k].id in m.index && m.index[h[k].id] == h[k].embedding
  {
    hide Replay, Decided, Pending;
    SurvivingIsNewest(h, |h|, k);
    forall e | e in m.buffer
      ensures e.id != h[k].id
    {
      PendingElsewhere(h, m.flushedSeq, |h|, k, e);
    }
    assert NewestAt(m, h[k].id, Fold(h, |h|)[h[k].id].embedding);
  }

  /** Two-tier vectors in every reachable state. */
  lemma RunKeepsTwoTiers(c: Config, steps: seq<Step>)
    requires Run(c, steps).Some?
    ensures TwoTiers(Run(c, steps).value.mem, Run(c, steps).value.history)
  {
    RunInv(c, steps);
    TwoTiersFromInv(Run(c, steps).value.mem, Run(c, steps).value.history);
  }

  // ---------------------------------------------------------------------------------------------
  // What a batch leaves behind
  // ---------------------------------------------------------------------------------------------

  /** x keeps its newest vector from one state to the next. */
  ghost predicate SameNewest(m: Mem, m': Mem, x: Id) {
    forall v :: NewestAt(m, x, v) ==> NewestAt(m', x, v)
  }

  /**
   What the call's arguments say about x in the state after it: the metadata and document given at
   the last position of x, and the vector given there as its newest; nothing left of a deleted id;
   all other ids as they were.
   */
  ghost predicate Landed(b: Batch, x: Id, m: Mem, m': Mem) {
    && (x !in b.ids ==>
          && (x in m'.records <==> x in m.records)
          && (x in m.records ==> m'.records[x].(embedding := None) == m.records[x].(embedding := None) && SameNewest(m, m', x)))
    && (forall i :: LastAt(b.ids, x, i) ==> LandedIn(b, x, i, m, m'))
  }

  ghost predicate LandedIn(b: Batch, x: Id, i: nat, m: Mem, m': Mem) {
    if b.DeleteBatch? then x !in m'.records && x !in m'.index && forall e :: e in m'.buffer ==> e.id != x
    else
      && x in m'.records && Described(b, i, m'.records[x].metadata, m'.records[x].document)
      && (b.AddBatch? ==> x !in m.records)
      && (b.UpdateBatch? ==> x in m.records && SameNewest(m, m', x))
      && (CarriesVectors(b) ==> i < |b.embeddings| && NewestAt(m', x, Some(b.embeddings[i])))
  }

  /** The newest vector the two tiers hold is unique. */
  lemma NewestUnique(m: Mem, h: seq<Operation>, x: Id, v: Option<Embedding>)
    requires TwoTiers(m, h) && x in Fold(h, |h|) && NewestAt(m, x, v)
    ensures v == Fold(h, |h|)[x].embedding
  {
    hide Replay;
    if e :| e in m.buffer && e.id == x {
      assert e.embedding == v;
    }
  }

  /** Any state that keeps the invariant for the history with the batch's operations has it landed. */
  lemma StateLands(c: Config, s: Sys, t: Sys, b: Batch, x: Id)
    requires SysInv(c, s) && SysInv(c, t) && Accepted(c.dimension, s.mem.records.Keys, b)
    requires t.history == s.history + Ops(c.dimension, s.mem.records.Keys, b)
    ensures Landed(b, x, s.mem, t.mem)
  {
    hide SysInv, Inv, Replay, Ops, Accepted, NewestAt, TwoTiers, Described, LastAt, Valid, Fold;
    var h, g := s.history, t.history;
    ValidOf(c, s);
    ValidOf(c, t);
    FoldOf(s.mem, h);
    FoldOf(t.mem, g);
    BatchLands(h, c.dimension, b, x);
    TwoTiersFromInv(s.mem, h);
    TwoTiersFromInv(t.mem, g);
    TierFacts(s.mem, h, x);
    TierFacts(t.mem, g, x);
    KeepsNewest(s.mem, h, t.mem, g, x);
    if x in s.mem.records {
      RecordAgrees(s.mem.records, Fold(h, |h|), x);
    }
    if x in t.mem.records {
      RecordAgrees(t.mem.records, Fold(g, |g|), x);
    }
    if x !in b.ids && x in s.mem.records {
      assert At(Fold(g, |g|), x) == At(Fold(h, |h|), x);
    }
    forall i: nat | LastAt(b.ids, x, i)
      ensures LandedIn(b, x, i, s.mem, t.mem)
    {
      LastUnique(b.ids, x, i);
      assert LandedAt(b, i, At(Fold(h, |h|), x), At(Fold(g, |g|), x));
    }
  }

  lemma FoldOf(m: Mem, h: seq<Operation>)
    requires Inv(m, h)
    ensures m.records.Keys == Fold(h, |h|).Keys && Below(m.records, Fold(h, |h|))
  {
  }

  lemma RecordAgrees(r: map<Id, Record>, s: map<Id, Record>, x: Id)
    requires Below(r, s) && x in r
    ensures r[x].(embedding := None) == s[x].(embedding := None)
    ensures r[x].metadata == s[x].metadata && r[x].document == s[x].document
  {
    assert r[x].(embedding := None).metadata == s[x].(embedding := None).metadata;
    assert r[x].(embedding := None).document == s[x].(embedding := None).document;
  }

  lemma TierFacts(m: Mem, h: seq<Operation>, x: Id)
    requires TwoTiers(m, h)
    ensures x in Fold(h, |h|) ==> NewestAt(m, x, Fold(h, |h|)[x].embedding)
    ensures x !in Fold(h, |h|) ==> x !in m.index && forall e :: e in m.buffer ==> e.id != x
  {
  }

  lemma KeepsNewest(m: Mem, h: seq<Operation>, m': Mem, g: seq<Operation>, x: Id)
    requires TwoTiers(m, h) && TwoTiers(m', g)
    ensures x in Fold(h, |h|) && x in Fold(g, |g|) && Fold(g, |g|)[x].embedding == Fold(h, |h|)[x].embedding ==>
              SameNewest(m, m', x)
  {
    hide Replay, NewestAt;
    if x in Fold(h, |h|) && x in Fold(g, |g|) && Fold(g, |g|)[x].embedding == Fold(h, |h|)[x].embedding {
      forall v | NewestAt(m, x, v)
        ensures NewestAt(m', x, v)
      {
        NewestUnique(m, h, x, v);
      }
    }
  }

  /** The ids a filter selects through the postings. */
  ghost function Selected(m: Mem, f: Condition): set<Id> {
    set o | o in P.Evaluate(m.offs.postings, f) && o in m.offs.idByOffset :: m.offs.idByOffset[o]
  }

  lemma SelectedIsEligible(m: Mem, f: Condition)
    requires OffsetInv(m.offs, m.records) && m.offs.offsets.Keys == m.records.Keys
    requires forall x :: x in m.records ==> !P.Clashes(f, OrEmpty(m.records[x].metadata))
    ensures Selected(m, f) == set x | x in m.records && Matches(f, OrEmpty(m.records[x].metadata))
    ensures P.Evaluate(m.offs.postings, f) <= m.offs.idByOffset.Keys
  {
    var ms := ByOffset(m.offs, m.records);
    forall o: nat
      ensures o in P.Evaluate(m.offs.postings, f) <==> o in ms && Matches(f, ms[o])
    {
      P.EvaluateAgrees(m.offs.postings, ms, f, o);
    }
    forall x | x in m.records && Matches(f, OrEmpty(m.records[x].metadata))
      ensures x in Selected(m, f)
    {
      var o := m.offs.offsets[x];
      assert ms[o] == OrEmpty(m.records[x].metadata);
    }
  }

  /**
   Postings agree with the oracle in every reachable state: the ids a filter selects are exactly
   the live ids whose metadata it matches, unless an integer operand collides with a record's value.
   */
  lemma RunKeepsPostings(c: Config, steps: seq<Step>, f: Condition)
    requires Run(c, steps).Some?
    requires var m := Run(c, steps).value.mem;
             forall x :: x in m.records ==> !P.Clashes(f, OrEmpty(m.records[x].metadata))
    ensures var s := Run(c, steps).value;
            var live := Fold(s.history, |s.history|);
            Selected(s.mem, f) == set x | x in live && Matches(f, OrEmpty(live[x].metadata))
  {
    RunRefinesFold(c, steps);
    RunInv(c, steps);
    SelectedIsEligible(Run(c, steps).value.mem, f);
  }

  /**
   Sequence numbers never restart: in every reachable state, even with an empty log, the next
   append continues the history, and the log holds exactly the history's newest operations.
   */
  lemma RunKeepsSequence(c: Config, steps: seq<Step>)
    requires Run(c, steps).Some?
    ensures var s := Run(c, steps).value;
            var base := |s.history| - |s.wal.records|;
            && s.wal.lastSeq == |s.history|
            && base >= 0
            && (forall i :: 0 <= i < |s.wal.records| ==>
                  s.wal.records[i] == W.WalRecord(base + i + 1, c.epoch, s.history[base + i]))
  {
    hide SysInv, LogHolds, Run, Exec, Enabled;
    RunInv(c, steps);
    var s := Run(c, steps).value;
    SysLog(c, s);
    LogContents(s.history, c.epoch, s.wal.records);
  }

  lemma SysLog(c: Config, s: Sys)
    requires SysInv(c, s)
    ensures s.wal.epoch == c.epoch && s.wal.lastSeq == |s.history| && LogHolds(s.history, c.epoch, s.wal.records)
  {
    hide Inv;
    SysFiles(c, s);
  }

  /** A step only ever extends the history, so a number once assigned keeps its operation. */
  lemma HistoryOnlyGrows(c: Config, s: Sys, step: Step)
    requires Enabled(c, s, step)
    ensures s.history <= Exec(c, s, step).history
  {
  }

  /** Whatever a run goes on to do, the operation that holds a sequence number stays the same. */
  lemma {:induction false} NumbersStayAssigned(c: Config, steps: seq<Step>, more: seq<Step>)
    requires Run(c, steps + more).Some?
    ensures Run(c, steps).Some? && Run(c, steps).value.history <= Run(c, steps + more).value.history
  {
    if more == [] {
      assert steps + more == steps;
    } else {
      var n := |more| - 1;
      assert (steps + more)[..|steps| + n] == steps + more[..n];
      NumbersStayAssigned(c, steps, more[..n]);
      HistoryOnlyGrows(c, Run(c, steps + more[..n]).value, more[n]);
    }
  }

  /** Two log records of one run with the same number, however far apart, are the same record. */
  lemma NumbersAreUnique(c: Config, steps: seq<Step>, more: seq<Step>, r: W.WalRecord, q: W.WalRecord)
    requires Run(c, steps + more).Some?
    requires Run(c, steps).Some? && r in Run(c, steps).value.wal.records
    requires q in Run(c, steps + more).value.wal.records && q.seqNo == r.seqNo
    ensures r == q && 1 <= r.seqNo <= |Run(c, steps + more).value.history|
    ensures r.op == Run(c, steps + more).value.history[r.seqNo - 1]
  {
    hide Run;
    NumbersStayAssigned(c, steps, more);
    RunKeepsSequence(c, steps);
    RunKeepsSequence(c, steps + more);
  }

  /** In every reachable state the collection can be closed and opened again. */
  lemma RunReopens(c: Config, steps: seq<Step>, order: seq<Id>)
    requires Run(c, steps).Some? && OrderFor(Run(c, steps).value.disk, order)
    ensures Opens(c, Run(c, steps).value.disk, order)
  {
    hide Run, Opens, FilesOk, Inv, LabelsKept, OpenFrom, OrderFor;
    RunInv(c, steps);
    var s := Run(c, steps).value;
    InvFiles(s.mem, s.history);
    OpenInv(c, s.disk, order, s.history);
  }

  /** Replaying the tail over an index that covers it, and over the buffer it pends, changes neither. */
  lemma TailAbsorbed(m: Mem, h: seq<Operation>, x: Id)
    requires Inv(m, h)
    ensures ReplayBuffer(h, m.flushedSeq, |h|, []) == m.buffer
    ensures x in ReplayIndex(h, m.flushedSeq, |h|, m.index) <==> x in m.index
    ensures x in m.index ==> ReplayIndex(h, m.flushedSeq, |h|, m.index)[x] == m.index[x]
  {
    hide Replay, Pending, ReplayBuffer, ReplayIndex, Labelling, OffsetInv, Below;
    ReplayFromEmpty(h, m.flushedSeq, |h|);
    ReplayIndexLookup(h, m.flushedSeq, |h|, m.index, x);
  }

  lemma LoadedReplay(c: Config, d: Disk, order: seq<Id>, h: seq<Operation>)
    requires RecordFilesOk(d, h, c.epoch) && Accepts(d) && OrderFor(d, order)
    ensures var m, f := Replayed(c, d, order), d.marker.value.flushedSeq;
            && m.buffer == ReplayBuffer(h, f, |h|, [])
            && m.index == ReplayIndex(h, f, |h|, IndexFile(d))
            && m.flushedSeq == f
  {
    hide Replay, ReplayBuffer, ReplayIndex, ReplayOffs, ReplayLog, Loaded, LogHolds, RecordsAsOf, ReplayLabels, L.Vectors, LoadedLabels;
    var f := d.marker.value.flushedSeq;
    OpenWalSeq(c, d, h);
    var r: nat :| f <= r && RecordsAsOf(d.records.value, h, r);
    LoadedFacts(d, h, r, order);
    LoadedWatermark(d, order);
    ReplayAfterIsReplay(Loaded(d, order), h, OpenWal(c, d), f);
  }

  lemma LoadedWatermark(d: Disk, order: seq<Id>)
    requires Accepts(d)
    ensures Loaded(d, order).flushedSeq == d.marker.value.flushedSeq
  {
  }

  /**
   Checkpoint, then reopen: the tail replay rebuilds exactly the buffer and the index the
   checkpointed state held, over the same record map, stripped of the same vectors.
   */
  lemma CheckpointThenReopen(c: Config, s: Sys, rows: seq<Id>, order: seq<Id>)
    requires SysInv(c, s) && s.mem.records != map[] && ListsVectors(rows, s.mem.records)
    requires OrderFor(CheckpointFiles(s, rows, 8), order)
    ensures var m := Replayed(c, CheckpointFiles(s, rows, 8), order);
            && m.buffer == s.mem.buffer
            && m.index == s.mem.index
            && m.records == Checkpoint(s, rows).mem.records
            && m.flushedSeq == s.mem.flushedSeq
  {
    hide Replay, ReplayBuffer, ReplayIndex, CheckpointFiles, Replayed, FilesOk, RecordFilesOk, Inv, ListsVectors, LabelsKept;
    var d, h := CheckpointFiles(s, rows, 8), s.history;
    InvFiles(s.mem, h);
    CheckpointFilesOk(c, s, rows, 8);
    CheckpointFileParts(s, rows);
    FilesRecords(d, h, c.epoch);
    LoadedReplay(c, d, order, h);
    ReplayedInv(c, d, order, h);
    TailReturns(s.mem, h);
    CheckpointedRecords(c, s, rows, order);
  }

  /** The reopened record map is the one the checkpoint left in memory. */
  lemma CheckpointedRecords(c: Config, s: Sys, rows: seq<Id>, order: seq<Id>)
    requires SysInv(c, s) && s.mem.records != map[] && ListsVectors(rows, s.mem.records)
    requires OrderFor(CheckpointFiles(s, rows, 8), order)
    ensures Replayed(c, CheckpointFiles(s, rows, 8), order).records == Checkpoint(s, rows).mem.records
  {
    hide Replay, CheckpointFiles, Checkpoint, ReplayAfter, ReplayMem, FilesOk, RecordFilesOk, Inv, ListsVectors, LabelsKept, Strip, Loaded, LogHolds;
    var d, h, f := CheckpointFiles(s, rows, 8), s.history, s.mem.flushedSeq;
    InvFiles(s.mem, h);
    CheckpointFilesOk(c, s, rows, 8);
    CheckpointFileParts(s, rows);
    FilesRecords(d, h, c.epoch);
    CheckpointParts(s, rows);
    LoadedStripped(s, rows, order);
    FilesHoldLog(d, h, c.epoch);
    OpenWalSeq(c, d, h);
    LogReaches(d, h, c.epoch);
    ReplayAfterIsReplay(Loaded(d, order), h, OpenWal(c, d), f);
    ReplayMemRecord(Loaded(d, order), h, f);
    StrippedReplay(s.mem, h);
  }

  lemma LogReaches(d: Disk, h: seq<Operation>, epoch: nat)
    requires RecordFilesOk(d, h, epoch) && d.marker.Some?
    ensures Base(h, d.wal) <= d.marker.value.flushedSeq <= |h|
  {
  }

  lemma ReplayMemRecord(m: Mem, h: seq<Operation>, lo: nat)
    ensures ReplayMem(m, h, lo, |h|).records == Replay(h, lo, |h|, m.records)
  {
  }

  /** What is loaded is the stripped record map, also when there was no vector to strip. */
  lemma LoadedStripped(s: Sys, rows: seq<Id>, order: seq<Id>)
    requires ListsVectors(rows, s.mem.records)
    ensures var d := CheckpointFiles(s, rows, 8);
            Accepts(d) && Loaded(d, order).records == Strip(s.mem.records, s.mem.flushedSeq)
  {
    if rows == [] {
      assert Strip(s.mem.records, s.mem.flushedSeq) == s.mem.records;
    }
  }

  /** Replaying the tail above the watermark over the stripped map changes nothing, in any state. */
  lemma StrippedReplay(m: Mem, h: seq<Operation>)
    requires Inv(m, h)
    ensures Replay(h, m.flushedSeq, |h|, Strip(m.records, m.flushedSeq)) == Strip(m.records, m.flushedSeq)
  {
    hide Replay, Strip, OffsetInv, Labelling, Covers, Pending, KeepsAbove;
    var f, r := m.flushedSeq, Strip(m.records, m.flushedSeq);
    StripBelow(m.records, Fold(h, |h|), f);
    StripKeepsAbove(m.records, h, f, f);
    RecordIds(h, 0, |h|, map[]);
    BelowIds(r, Fold(h, |h|));
    forall x
      ensures At(Replay(h, f, |h|, r), x) == At(r, x)
    {
      ReplayInStep(h, f, |h|, r, x);
      ReplayedRecord(h, f, r, x, At(Replay(h, f, |h|, r), x));
    }
    SameLookups(Replay(h, f, |h|, r), r);
  }

  lemma ReplayedRecord(h: seq<Operation>, f: nat, r: map<Id, Record>, x: Id, now: Option<Record>)
    requires Valid(h) && Below(r, Fold(h, |h|)) && KeepsAbove(h, f, r)
    requires InStep(h, f, |h|, x, At(r, x), now, At(Fold(h, |h|), x))
    ensures now == At(r, x)
  {
    hide Replay, Touched, Decided;
    TouchedOrDecided(h, f, x);
    var truth := At(Fold(h, |h|), x);
    if now.Some? && x in r {
      assert r[x] == r[x].(embedding := None).(embedding := r[x].embedding);
      assert now.value == now.value.(embedding := None).(embedding := now.value.embedding);
      assert truth.value == truth.value.(embedding := None).(embedding := truth.value.embedding);
    }
  }

  lemma TouchedOrDecided(h: seq<Operation>, f: nat, x: Id)
    ensures Decided(h, f, |h|, x) ==> Touched(h, f, |h|, x)
  {
  }

  lemma TailReturns(m: Mem, h: seq<Operation>)
    requires Inv(m, h)
    ensures ReplayBuffer(h, m.flushedSeq, |h|, []) == m.buffer
    ensures ReplayIndex(h, m.flushedSeq, |h|, m.index) == m.index
  {
    hide Inv, ReplayBuffer, ReplayIndex;
    forall x
      ensures ReplayBuffer(h, m.flushedSeq, |h|, []) == m.buffer
      ensures x in ReplayIndex(h, m.flushedSeq, |h|, m.index) <==> x in m.index
      ensures x in m.index ==> ReplayIndex(h, m.flushedSeq, |h|, m.index)[x] == m.index[x]
    {
      TailAbsorbed(m, h, x);
    }
    TailAbsorbed(m, h, "");
  }

  lemma FilesRecords(d: Disk, h: seq<Operation>, epoch: nat)
    requires FilesOk(d, h, epoch)
    ensures RecordFilesOk(d, h, epoch)
  {
  }

  lemma CheckpointFileParts(s: Sys, rows: seq<Id>)
    requires ListsVectors(rows, s.mem.records) && Labelling(s.mem.labels, s.mem.index)
    ensures var d := CheckpointFiles(s, rows, 8);
            && Accepts(d) && d.records.value == s.mem.records && IndexFile(d) == s.mem.index
            && d.marker.value.flushedSeq == s.mem.flushedSeq
  {
    SavedPair(s, rows, 8);
  }
}
