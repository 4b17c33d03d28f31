/** The engine's write calls: validation against the live records, and the operations they log. */
module Batches {
  import opened Core
  import opened History

  datatype Batch =
    | AddBatch(ids: seq<Id>, embeddings: seq<Embedding>, metadatas: Option<seq<Option<Metadata>>>, documents: Option<seq<Option<Document>>>)
    | UpsertBatch(ids: seq<Id>, embeddings: seq<Embedding>, metadatas: Option<seq<Option<Metadata>>>, documents: Option<seq<Option<Document>>>)
    | UpdateBatch(ids: seq<Id>, metadatas: Option<seq<Option<Metadata>>>, documents: Option<seq<Option<Document>>>)
    | DeleteBatch(ids: seq<Id>)

  /** `check_slice_lengths`. */
  predicate LengthOk<T>(n: nat, s: Option<seq<T>>) {
    s.Some? ==> |s.value| == n
  }

  predicate VectorsOk(dimension: nat, n: nat, es: seq<Embedding>) {
    && |es| == n
    && (dimension != 0 ==> forall e :: e in es ==> |e| == dimension)
  }

  /** The whole batch is checked before anything is written. */
  predicate Accepted(dimension: nat, live: set<Id>, b: Batch) {
    match b
    case AddBatch(ids, es, ms, ds) =>
      && VectorsOk(dimension, |ids|, es) && LengthOk(|ids|, ms) && LengthOk(|ids|, ds)
      && (forall i :: 0 <= i < |ids| ==> ids[i] !in live)
      && (forall i, j :: 0 <= i < j < |ids| ==> ids[i] != ids[j])
    case UpsertBatch(ids, es, ms, ds) =>
      VectorsOk(dimension, |ids|, es) && LengthOk(|ids|, ms) && LengthOk(|ids|, ds)
    case UpdateBatch(ids, ms, ds) =>
      && LengthOk(|ids|, ms) && LengthOk(|ids|, ds)
      && (forall i :: 0 <= i < |ids| ==> ids[i] in live)
    case DeleteBatch(_) => true
  }

  function Pick<T>(s: Option<seq<Option<T>>>, i: nat): Option<T>
    requires s.Some? ==> i < |s.value|
  {
    if s.Some? then s.value[i] else None
  }

  function Ops(dimension: nat, live: set<Id>, b: Batch): (ops: seq<Operation>)
    requires Accepted(dimension, live, b)
    ensures |ops| == |b.ids| && forall i :: 0 <= i < |ops| ==> ops[i].id == b.ids[i]
  {
    match b
    case AddBatch(ids, es, ms, ds) =>
      seq(|ids|, i requires 0 <= i < |ids| => Operation.Add(ids[i], es[i], Pick(ms, i), Pick(ds, i)))
    case UpsertBatch(ids, es, ms, ds) =>
      seq(|ids|, i requires 0 <= i < |ids| => Operation.Upsert(ids[i], es[i], Pick(ms, i), Pick(ds, i)))
    case UpdateBatch(ids, ms, ds) =>
      seq(|ids|, i requires 0 <= i < |ids| => Operation.Update(ids[i], Pick(ms, i), Pick(ds, i)))
    case DeleteBatch(ids) =>
      seq(|ids|, i requires 0 <= i < |ids| => Operation.Delete(ids[i]))
  }

  /** Only an accepted update batch logs Updates, and only of live ids. */
  lemma UpdatesTargetLive(dimension: nat, live: set<Id>, b: Batch, i: nat)
    requires Accepted(dimension, live, b) && i < |b.ids|
    ensures Ops(dimension, live, b)[i].Update? <==> b.UpdateBatch?
    ensures b.UpdateBatch? ==> Ops(dimension, live, b)[i].id in live
  {
  }

  /**
   Logging an accepted batch, or any prefix of it that a crash lets through, leaves a history in
   which every Update targets a live id.
   */
  lemma {:induction false} AcceptedKeepsValid(h: seq<Operation>, dimension: nat, live: set<Id>, b: Batch, k: nat)
    requires Valid(h) && live == Fold(h, |h|).Keys
    requires Accepted(dimension, live, b) && k <= |b.ids|
    ensures Valid(h + Ops(dimension, live, b)[..k])
    ensures b.UpdateBatch? ==> Fold(h + Ops(dimension, live, b)[..k], |h| + k).Keys == live
    decreases k
  {
    hide Valid, Replay, Fold, Accepted, Ops;
    var ops := Ops(dimension, live, b);
    if k == 0 {
      assert h + ops[..0] == h;
    } else {
      var g, op := h + ops[..k - 1], ops[k - 1];
      AcceptedKeepsValid(h, dimension, live, b, k - 1);
      UpdatesTargetLive(dimension, live, b, k - 1);
      ValidExtend(g, op);
      assert g + [op] == h + ops[..k];
    }
  }

  // ---------------------------------------------------------------------------------------------
  // What an accepted batch does to the history's fold
  // ---------------------------------------------------------------------------------------------

  /** i is the last position of x. */
  ghost predicate LastAt(ids: seq<Id>, x: Id, i: nat) {
    i < |ids| && ids[i] == x && forall j :: i < j < |ids| ==> ids[j] != x
  }

  /** r is what an optional slice gives at position i: nothing if the slice is absent. */
  ghost predicate GivenAt<T(!new)>(s: Option<seq<Option<T>>>, i: nat, r: Option<T>) {
    if s.None? then r == None else i < |s.value| && r == s.value[i]
  }

  /** The batch carries a vector for each id. */
  predicate CarriesVectors(b: Batch) {
    b.AddBatch? || b.UpsertBatch?
  }

  /** r has the metadata and the document that the call gave at position i. */
  ghost predicate Described(b: Batch, i: nat, m: Option<Metadata>, d: Option<Document>)
    requires !b.DeleteBatch?
  {
    GivenAt(b.metadatas, i, m) && GivenAt(b.documents, i, d)
  }

  /** The record of an id before the batch, and after the batch's last position i of that id. */
  ghost predicate LandedAt(b: Batch, i: nat, before: Option<Record>, after: Option<Record>)
    requires i < |b.ids|
  {
    if b.DeleteBatch? then after.None?
    else
      && after.Some? && after.value.id == b.ids[i]
      && Described(b, i, after.value.metadata, after.value.document)
      && (b.AddBatch? ==> before.None?)
      && (b.UpdateBatch? ==> before.Some? && after.value.embedding == before.value.embedding)
      && (CarriesVectors(b) ==> i < |b.embeddings| && after.value.embedding == Some(b.embeddings[i]))
  }

  /** The record of x before and after a batch, read off the call's arguments. */
  ghost predicate Lands(b: Batch, x: Id, before: Option<Record>, after: Option<Record>) {
    && (x !in b.ids ==> after == before)
    && (forall i :: LastAt(b.ids, x, i) ==> LandedAt(b, i, before, after))
  }

  /** The operation logged for position i carries the arguments of position i. */
  lemma OpsCarry(dimension: nat, live: set<Id>, b: Batch, i: nat)
    requires Accepted(dimension, live, b) && i < |b.ids|
    ensures var op := Ops(dimension, live, b)[i];
            && (op.Add? <==> b.AddBatch?) && (op.Upsert? <==> b.UpsertBatch?)
            && (op.Update? <==> b.UpdateBatch?) && (op.Delete? <==> b.DeleteBatch?)
            && (!op.Delete? ==> Described(b, i, op.metadata, op.document))
            && (op.Writes() ==> i < |b.embeddings| && op.embedding == b.embeddings[i])
  {
  }

  /** Folding an accepted batch onto a valid history lands it: at the last position of each id. */
  lemma BatchLands(h: seq<Operation>, dimension: nat, b: Batch, x: Id)
    requires Valid(h) && Accepted(dimension, Fold(h, |h|).Keys, b)
    ensures var g := h + Ops(dimension, Fold(h, |h|).Keys, b);
            Lands(b, x, At(Fold(h, |h|), x), At(Fold(g, |g|), x))
  {
    hide Replay, Valid, Accepted, Ops;
    var live := Fold(h, |h|).Keys;
    var ops := Ops(dimension, live, b);
    var g := h + ops;
    AcceptedKeepsValid(h, dimension, live, b, |ops|);
    assert ops[..|ops|] == ops;
    ReplayPrefix(h, g, 0, |h|, map[]);
    if x !in b.ids {
      BatchTouches(h, ops, b.ids, x, 0);
      UntouchedStays(g, |h|, |g|, x);
    }
    forall i: nat | LastAt(b.ids, x, i)
      ensures Lands(b, x, At(Fold(h, |h|), x), At(Fold(g, |g|), x))
    {
      BatchTouches(h, ops, b.ids, x, i + 1);
      UntouchedStays(g, |h| + i + 1, |g|, x);
      LandsAt(h, dimension, b, x, i);
      LastUnique(b.ids, x, i);
    }
  }

  lemma LastUnique(ids: seq<Id>, x: Id, i: nat)
    requires LastAt(ids, x, i)
    ensures i < |ids| && x in ids && forall j :: LastAt(ids, x, j) ==> j == i
  {
  }

  lemma BatchTouches(h: seq<Operation>, ops: seq<Operation>, ids: seq<Id>, x: Id, lo: nat)
    requires |ops| == |ids| && (forall i :: 0 <= i < |ops| ==> ops[i].id == ids[i]) && lo <= |ids|
    requires forall j :: lo <= j < |ids| ==> ids[j] != x
    ensures !Touched(h + ops, |h| + lo, |h + ops|, x)
  {
    var g := h + ops;
    forall k | |h| + lo <= k < |g|
      ensures g[k].id != x
    {
      assert g[k] == ops[k - |h|];
    }
  }

  /** The record right after position i, the last of x. */
  lemma LandsAt(h: seq<Operation>, dimension: nat, b: Batch, x: Id, i: nat)
    requires Valid(h) && Accepted(dimension, Fold(h, |h|).Keys, b) && LastAt(b.ids, x, i)
    requires Valid(h + Ops(dimension, Fold(h, |h|).Keys, b))
    ensures var g := h + Ops(dimension, Fold(h, |h|).Keys, b);
            Lands(b, x, At(Fold(h, |h|), x), At(Fold(g, |h| + i + 1), x))
  {
    hide Replay, Valid, Accepted, Ops, Decided, Described;
    var live := Fold(h, |h|).Keys;
    var ops := Ops(dimension, live, b);
    var g := h + ops;
    OpsCarry(dimension, live, b, i);
    LastUnique(b.ids, x, i);
    assert g[|h| + i] == ops[i];
    FoldLast(g, |h| + i);
    if b.UpdateBatch? {
      ReplayPrefix(h, g, 0, |h|, map[]);
      UpdatesDecideNothing(h, dimension, live, b, x, i);
      UpdatedIsLive(dimension, live, b, i);
      UndecidedVector(g, |h|, |h| + i, x);
      RecordIds(g, 0, |h| + i, map[]);
    } else if b.AddBatch? {
      AddedIsNew(dimension, live, b, i);
    }
  }

  lemma FoldLast(g: seq<Operation>, n: nat)
    requires n < |g|
    ensures Fold(g, n + 1) == Apply(Fold(g, n), g[n], n + 1)
  {
    hide Apply;
  }

  lemma UpdatedIsLive(dimension: nat, live: set<Id>, b: Batch, i: nat)
    requires Accepted(dimension, live, b) && b.UpdateBatch? && i < |b.ids|
    ensures b.ids[i] in live
  {
  }

  lemma AddedIsNew(dimension: nat, live: set<Id>, b: Batch, i: nat)
    requires Accepted(dimension, live, b) && b.AddBatch? && i < |b.ids|
    ensures b.ids[i] !in live
  {
  }

  lemma UpdatesDecideNothing(h: seq<Operation>, dimension: nat, live: set<Id>, b: Batch, x: Id, i: nat)
    requires Accepted(dimension, live, b) && b.UpdateBatch? && i <= |b.ids|
    ensures !Decided(h + Ops(dimension, live, b), |h|, |h| + i, x)
  {
    var g := h + Ops(dimension, live, b);
    forall k | |h| <= k < |h| + i
      ensures !g[k].Decides(x)
    {
      assert g[k] == Ops(dimension, live, b)[k - |h|];
    }
  }

  /** Some slice of the call has another length than its ids. */
  predicate Ragged(b: Batch)
    requires !b.DeleteBatch?
  {
    || (b.metadatas.Some? && |b.metadatas.value| != |b.ids|)
    || (b.documents.Some? && |b.documents.value| != |b.ids|)
    || (CarriesVectors(b) && |b.embeddings| != |b.ids|)
  }

  /**
   Exactly which batches are refused: a ragged one, a vector of another dimension, an Add of a live
   or repeated id, an Update of an id that is not live.
   */
  lemma RefusedIff(dimension: nat, live: set<Id>, b: Batch)
    ensures !Accepted(dimension, live, b) <==>
            || (!b.DeleteBatch? && Ragged(b))
            || (CarriesVectors(b) && dimension != 0 && exists i :: 0 <= i < |b.embeddings| && |b.embeddings[i]| != dimension)
            || (b.AddBatch? && ((exists x :: x in b.ids && x in live) || exists i, j :: 0 <= i < j < |b.ids| && b.ids[i] == b.ids[j]))
            || (b.UpdateBatch? && exists x :: x in b.ids && x !in live)
  {
  }
}
