/**
 The meaning of an operation history.

 The i-th operation of a history (counting from 0) carries sequence number i + 1.  The record map
 a history denotes is a left fold of its operations; this module relates that fold to replays of
 parts of the history over states that already contain some of it.
 */
module History {
  import opened Core

  /** The record an Add or Upsert leaves behind. */
  function Written(op: Operation, s: nat): Record
    requires op.Writes()
  {
    Record(op.id, Some(op.embedding), op.metadata, op.document, s)
  }

  /** One operation applied to the record map (the `records` part of `apply_operation`). */
  function Apply(r: map<Id, Record>, op: Operation, s: nat): map<Id, Record> {
    match op
    case Add(id, _, _, _) => r[id := Written(op, s)]
    case Upsert(id, _, _, _) => r[id := Written(op, s)]
    case Update(id, m, d) =>
      var prev := if id in r then r[id] else Record(id, None, None, None, s);
      r[id := prev.(metadata := m, document := d, seqNo := s)]
    case Delete(id) => r - {id}
  }

  /** Operations lo..hi of h applied over r. */
  function Replay(h: seq<Operation>, lo: nat, hi: nat, r: map<Id, Record>): map<Id, Record>
    requires hi <= |h|
    decreases hi
  {
    if hi <= lo then r else Apply(Replay(h, lo, hi - 1, r), h[hi - 1], hi)
  }

  /** The record map after the first n operations. */
  function Fold(h: seq<Operation>, n: nat): map<Id, Record>
    requires n <= |h|
  {
    Replay(h, 0, n, map[])
  }

  /** Every Update targets an id that is live at that point: what `validate_update` enforces. */
  ghost predicate Valid(h: seq<Operation>) {
    forall i :: 0 <= i < |h| && h[i].Update? ==> h[i].id in Fold(h, i)
  }

  /** The lookup of one id. */
  function At(r: map<Id, Record>, x: Id): Option<Record> {
    if x in r then Some(r[x]) else None
  }

  ghost predicate Touched(h: seq<Operation>, lo: nat, hi: nat, x: Id)
    requires hi <= |h|
  {
    exists i :: lo <= i < hi && h[i].id == x
  }

  ghost predicate Decided(h: seq<Operation>, lo: nat, hi: nat, x: Id)
    requires hi <= |h|
  {
    exists i :: lo <= i < hi && h[i].Decides(x)
  }

  ghost predicate Deleted(h: seq<Operation>, lo: nat, hi: nat, x: Id)
    requires hi <= |h|
  {
    exists i :: lo <= i < hi && h[i] == Delete(x)
  }

  // ---------------------------------------------------------------------------------------------
  // Histories that grow
  // ---------------------------------------------------------------------------------------------

  lemma {:induction false} ReplayPrefix(h: seq<Operation>, g: seq<Operation>, lo: nat, hi: nat, r: map<Id, Record>)
    requires h <= g && hi <= |h|
    ensures Replay(g, lo, hi, r) == Replay(h, lo, hi, r)
    decreases hi
  {
    if hi > lo {
      ReplayPrefix(h, g, lo, hi - 1, r);
    }
  }

  lemma {:induction false} ReplaySplit(h: seq<Operation>, lo: nat, mid: nat, hi: nat, r: map<Id, Record>)
    requires lo <= mid <= hi <= |h|
    ensures Replay(h, lo, hi, r) == Replay(h, mid, hi, Replay(h, lo, mid, r))
    decreases hi
  {
    if hi > mid {
      ReplaySplit(h, lo, mid, hi - 1, r);
    }
  }

  lemma ValidPrefix(h: seq<Operation>, g: seq<Operation>)
    requires h <= g && Valid(g)
    ensures Valid(h)
  {
    forall i | 0 <= i < |h| && h[i].Update?
      ensures h[i].id in Fold(h, i)
    {
      assert g[i] == h[i];
      ReplayPrefix(h, g, 0, i, map[]);
    }
  }

  lemma ValidExtend(h: seq<Operation>, op: Operation)
    requires Valid(h) && (op.Update? ==> op.id in Fold(h, |h|))
    ensures Valid(h + [op])
    ensures Fold(h + [op], |h| + 1) == Apply(Fold(h, |h|), op, |h| + 1)
  {
    var g := h + [op];
    forall i | 0 <= i < |g| && g[i].Update?
      ensures g[i].id in Fold(g, i)
    {
      ReplayPrefix(h, g, 0, i, map[]);
    }
    ReplayPrefix(h, g, 0, |h|, map[]);
  }

  // ---------------------------------------------------------------------------------------------
  // Replaying what a state already contains
  // ---------------------------------------------------------------------------------------------

  /** Equal up to the vector. */
  ghost predicate SameButVector(a: Option<Record>, b: Option<Record>) {
    a.Some? && b.Some? && a.value.(embedding := None) == b.value.(embedding := None)
  }

  function VectorOf(a: Option<Record>): Option<Embedding> {
    if a.Some? then a.value.embedding else None
  }

  /**
   While lo..j of a valid history is replayed over a later state of the same history, an id is in
   one of three situations: not yet touched; already decided, and then exactly in step with the
   history; or only updated, and then in step except for the vector it started with.
   */
  ghost predicate InStep(h: seq<Operation>, lo: nat, j: nat, x: Id, start: Option<Record>, now: Option<Record>, truth: Option<Record>)
    requires j <= |h|
  {
    && (!Touched(h, lo, j, x) ==> now == start)
    && (Decided(h, lo, j, x) ==> now == truth)
    && (Touched(h, lo, j, x) && !Decided(h, lo, j, x) ==>
          SameButVector(now, truth) && VectorOf(now) == VectorOf(start))
  }

  lemma {:induction false} ReplayInStep(h: seq<Operation>, lo: nat, j: nat, r: map<Id, Record>, x: Id)
    requires Valid(h) && lo <= j <= |h|
    requires forall y :: y in r ==> r[y].id == y
    ensures InStep(h, lo, j, x, At(r, x), At(Replay(h, lo, j, r), x), At(Fold(h, j), x))
    decreases j
  {
    if j > lo {
      ReplayInStep(h, lo, j - 1, r, x);
      RecordIds(h, lo, j - 1, r);
      RecordIds(h, 0, j - 1, map[]);
      StepInStep(h, lo, j - 1, x, At(r, x), Replay(h, lo, j - 1, r), Fold(h, j - 1));
    }
  }

  lemma TouchedStep(h: seq<Operation>, lo: nat, j: nat, x: Id)
    requires lo <= j < |h|
    ensures Touched(h, lo, j + 1, x) <==> Touched(h, lo, j, x) || h[j].id == x
    ensures Decided(h, lo, j + 1, x) <==> Decided(h, lo, j, x) || h[j].Decides(x)
    ensures Deleted(h, lo, j + 1, x) <==> Deleted(h, lo, j, x) || h[j] == Delete(x)
  {
  }

  lemma StepInStep(h: seq<Operation>, lo: nat, j: nat, x: Id, start: Option<Record>, now: map<Id, Record>, truth: map<Id, Record>)
    requires Valid(h) && lo <= j < |h| && truth == Fold(h, j)
    requires x in now ==> now[x].id == x
    requires x in truth ==> truth[x].id == x
    requires InStep(h, lo, j, x, start, At(now, x), At(truth, x))
    ensures InStep(h, lo, j + 1, x, start, At(Apply(now, h[j], j + 1), x), At(Apply(truth, h[j], j + 1), x))
  {
    TouchedStep(h, lo, j, x);
  }

  lemma {:induction false} RecordIds(h: seq<Operation>, lo: nat, hi: nat, r: map<Id, Record>)
    requires hi <= |h|
    requires forall y :: y in r ==> r[y].id == y
    ensures forall y :: y in Replay(h, lo, hi, r) ==> Replay(h, lo, hi, r)[y].id == y
    decreases hi
  {
    if hi > lo {
      RecordIds(h, lo, hi - 1, r);
    }
  }

  /**
   Tail replay is absorbed: replaying any stretch lo..hi of a valid history over the record map
   that already contains it changes nothing, whatever deletes and re-adds the stretch holds.
   */
  lemma ReplayAbsorbed(h: seq<Operation>, lo: nat, hi: nat)
    requires Valid(h) && lo <= hi <= |h|
    ensures Replay(h, lo, hi, Fold(h, hi)) == Fold(h, hi)
  {
    var a := Fold(h, hi);
    var b := Replay(h, lo, hi, a);
    RecordIds(h, 0, hi, map[]);
    forall x
      ensures At(b, x) == At(a, x)
    {
      ReplayInStep(h, lo, hi, a, x);
    }
    SameLookups(b, a);
  }

  lemma SameLookups(a: map<Id, Record>, b: map<Id, Record>)
    requires forall x :: At(a, x) == At(b, x)
    ensures a == b
  {
    forall x
      ensures x in a <==> x in b
      ensures x in a ==> a[x] == b[x]
    {
      assert At(a, x) == At(b, x);
    }
  }

  /** The same with more history after the stretch: the replay catches up with the fold. */
  lemma ReplayCatchesUp(h: seq<Operation>, lo: nat, mid: nat, hi: nat)
    requires Valid(h) && lo <= mid <= hi <= |h|
    ensures Replay(h, lo, hi, Fold(h, mid)) == Fold(h, hi)
  {
    ReplaySplit(h, lo, mid, hi, Fold(h, mid));
    ReplayAbsorbed(h, lo, mid);
    ReplaySplit(h, 0, mid, hi, map[]);
  }

  // ---------------------------------------------------------------------------------------------
  // Record maps whose vectors were stripped
  // ---------------------------------------------------------------------------------------------

  /** r is s, except that some vectors may be missing from r. */
  ghost predicate Below(r: map<Id, Record>, s: map<Id, Record>) {
    && r.Keys == s.Keys
    && forall x :: x in r ==>
         && r[x].(embedding := None) == s[x].(embedding := None)
         && (r[x].embedding.None? || r[x].embedding == s[x].embedding)
  }

  lemma {:induction false} ReplayBelow(h: seq<Operation>, lo: nat, hi: nat, r: map<Id, Record>, s: map<Id, Record>)
    requires hi <= |h| && Below(r, s)
    ensures Below(Replay(h, lo, hi, r), Replay(h, lo, hi, s))
    decreases hi
  {
    if hi > lo {
      ReplayBelow(h, lo, hi - 1, r, s);
      ApplyBelow(Replay(h, lo, hi - 1, r), Replay(h, lo, hi - 1, s), h[hi - 1], hi);
    }
  }

  lemma ApplyBelow(r: map<Id, Record>, s: map<Id, Record>, op: Operation, n: nat)
    requires Below(r, s)
    ensures Below(Apply(r, op, n), Apply(s, op, n))
  {
  }

  // ---------------------------------------------------------------------------------------------
  // Surviving writes: where the newest vector of an id comes from
  // ---------------------------------------------------------------------------------------------

  /** Operation i wrote a vector and nothing among i+1..n replaced or deleted it. */
  ghost predicate Surviving(h: seq<Operation>, n: nat, i: nat)
    requires n <= |h|
  {
    i < n && h[i].Writes() && !Decided(h, i + 1, n, h[i].id)
  }

  lemma SurvivingUnique(h: seq<Operation>, n: nat, i: nat, j: nat)
    requires n <= |h| && Surviving(h, n, i) && Surviving(h, n, j) && h[i].id == h[j].id
    ensures i == j
  {
    if i < j {
      assert h[j].Decides(h[i].id);
    } else if j < i {
      assert h[i].Decides(h[j].id);
    }
  }

  /** A surviving write is live and its vector is the current one. */
  lemma {:induction false} SurvivingIsNewest(h: seq<Operation>, n: nat, i: nat)
    requires n <= |h| && Surviving(h, n, i)
    ensures h[i].id in Fold(h, n) && Fold(h, n)[h[i].id].embedding == Some(h[i].embedding)
    decreases n
  {
    if n > i + 1 {
      TouchedStep(h, i + 1, n - 1, h[i].id);
      SurvivingIsNewest(h, n - 1, i);
    }
  }

  /** Every live id of a valid history has exactly one surviving write. */
  lemma {:induction false} LiveHasSurviving(h: seq<Operation>, n: nat, x: Id) returns (i: nat)
    requires Valid(h) && n <= |h| && x in Fold(h, n)
    ensures Surviving(h, n, i) && h[i].id == x
    decreases n
  {
    if h[n - 1].Decides(x) {
      i := n - 1;
    } else {
      i := LiveHasSurviving(h, n - 1, x);
      TouchedStep(h, i + 1, n - 1, x);
    }
  }

  /**
   A live id's record carries the sequence number of the last operation on the id, and the metadata
   and the document that operation gave.
   */
  lemma {:induction false} LiveSeq(h: seq<Operation>, n: nat, x: Id)
    requires n <= |h| && x in Fold(h, n)
    ensures var r := Fold(h, n)[x];
            var s := r.seqNo;
            && 1 <= s <= n && h[s - 1].id == x && !Touched(h, s, n, x)
            && !h[s - 1].Delete?
            && r.id == x && r.metadata == h[s - 1].metadata && r.document == h[s - 1].document
    decreases n
  {
    RecordIds(h, 0, n, map[]);
    if h[n - 1].id != x {
      LiveSeq(h, n - 1, x);
      TouchedStep(h, Fold(h, n)[x].seqNo, n - 1, x);
    }
  }

  /** The live ids of a valid history are exactly those of its surviving writes. */
  lemma LiveIff(h: seq<Operation>, n: nat, x: Id)
    requires Valid(h) && n <= |h|
    ensures x in Fold(h, n) <==> exists i: nat :: Surviving(h, n, i) && h[i].id == x
  {
    hide Replay, Decided;
    if x in Fold(h, n) {
      var i := LiveHasSurviving(h, n, x);
    }
    if i: nat :| Surviving(h, n, i) && h[i].id == x {
      SurvivingIsNewest(h, n, i);
    }
  }

  /** Operations that do not touch an id leave its record alone. */
  lemma {:induction false} UntouchedStays(h: seq<Operation>, lo: nat, hi: nat, x: Id)
    requires lo <= hi <= |h| && !Touched(h, lo, hi, x)
    ensures At(Fold(h, hi), x) == At(Fold(h, lo), x)
    decreases hi
  {
    if hi > lo {
      TouchedStep(h, lo, hi - 1, x);
      UntouchedStays(h, lo, hi - 1, x);
      assert h[hi - 1].id != x;
    }
  }

  /** Operations that do not decide an id leave its vector alone. */
  lemma UndecidedVector(h: seq<Operation>, lo: nat, hi: nat, x: Id)
    requires Valid(h) && lo <= hi <= |h| && x in Fold(h, lo) && !Decided(h, lo, hi, x)
    ensures x in Fold(h, hi) && Fold(h, hi)[x].embedding == Fold(h, lo)[x].embedding
  {
    hide Replay, Decided, Touched;
    RecordIds(h, 0, lo, map[]);
    ReplayInStep(h, lo, hi, Fold(h, lo), x);
    ReplaySplit(h, 0, lo, hi, map[]);
  }

  /** A live id that was written above f carries a number above f. */
  lemma DecidedSeq(h: seq<Operation>, f: nat, x: Id)
    requires x in Fold(h, |h|) && Decided(h, f, |h|, x)
    ensures Fold(h, |h|)[x].seqNo > f
  {
    hide Replay;
    LiveSeq(h, |h|, x);
    var i :| f <= i < |h| && h[i].Decides(x);
    assert h[i].id == x;
  }

  /** Without a delete in between, a live id stays live. */
  lemma {:induction false} LiveUntilDeleted(h: seq<Operation>, m: nat, n: nat, x: Id)
    requires m <= n <= |h| && x in Fold(h, m) && !Deleted(h, m, n, x)
    ensures x in Fold(h, n)
    decreases n
  {
    if n > m {
      TouchedStep(h, m, n - 1, x);
      LiveUntilDeleted(h, m, n - 1, x);
    }
  }

  /** An id that no operation decides between m and n is live at n only if it was live at m. */
  lemma {:induction false} LiveOnlyByWrites(h: seq<Operation>, m: nat, n: nat, x: Id)
    requires Valid(h) && m <= n <= |h| && x in Fold(h, n) && !Decided(h, m, n, x)
    ensures x in Fold(h, m)
    decreases n
  {
    if n > m {
      TouchedStep(h, m, n - 1, x);
      LiveOnlyByWrites(h, m, n - 1, x);
    }
  }

  // ---------------------------------------------------------------------------------------------
  // Pending writes: what the brute-force buffer holds
  // ---------------------------------------------------------------------------------------------

  /** The surviving writes among operations lo..n, in sequence order. */
  ghost function Pending(h: seq<Operation>, lo: nat, n: nat): seq<Record>
    requires n <= |h|
    decreases n - lo
  {
    if lo >= n then []
    else (if Surviving(h, n, lo) then [Written(h[lo], lo + 1)] else []) + Pending(h, lo + 1, n)
  }

  /** The buffer update of `apply_operation`: drop the id's entry, then append the new version. */
  function BufferStep(b: seq<Record>, op: Operation, s: nat): seq<Record> {
    match op
    case Update(_, _, _) => b
    case Delete(id) => Without(b, id)
    case _ => Without(b, op.id) + [Written(op, s)]
  }

  /** `Vec::retain(|r| r.id != id)`. */
  function Without(b: seq<Record>, x: Id): (r: seq<Record>)
    ensures forall e :: e in r <==> e in b && e.id != x
  {
    if b == [] then []
    else (if b[0].id == x then [] else [b[0]]) + Without(b[1..], x)
  }

  lemma {:induction false} WithoutConcat(a: seq<Record>, b: seq<Record>, x: Id)
    ensures Without(a + b, x) == Without(a, x) + Without(b, x)
  {
    if a == [] {
      assert a + b == b;
    } else {
      assert (a + b)[1..] == a[1..] + b;
      WithoutConcat(a[1..], b, x);
    }
  }

  /** A record is pending exactly when it is a surviving write above the watermark. */
  lemma {:induction false} PendingMembers(h: seq<Operation>, lo: nat, n: nat, e: Record)
    requires n <= |h|
    ensures e in Pending(h, lo, n) <==>
            exists i :: lo <= i < n && Surviving(h, n, i) && e == Written(h[i], i + 1)
    decreases n - lo
  {
    if lo < n {
      PendingMembers(h, lo + 1, n, e);
      PendingHead(h, lo, n);
      hide Pending, Decided;
      if i :| lo <= i < n && Surviving(h, n, i) && e == Written(h[i], i + 1) {
        assert i == lo ==> e in PendingEntry(h, lo, n);
      }
    } else {
      assert Pending(h, lo, n) == [];
    }
  }

  lemma {:induction false} PendingPrefix(h: seq<Operation>, g: seq<Operation>, lo: nat, n: nat)
    requires h <= g && n <= |h|
    ensures Pending(g, lo, n) == Pending(h, lo, n)
    decreases n - lo
  {
    if lo < n {
      PendingPrefix(h, g, lo + 1, n);
      assert Decided(g, lo + 1, n, h[lo].id) <==> Decided(h, lo + 1, n, h[lo].id);
    }
  }

  /** What a buffer step leaves of the entries that were there. */
  function Kept(b: seq<Record>, op: Operation): seq<Record> {
    if op.Update? then b else Without(b, op.id)
  }

  lemma BufferStepConcat(a: seq<Record>, b: seq<Record>, op: Operation, s: nat)
    ensures BufferStep(a + b, op, s) == Kept(a, op) + BufferStep(b, op, s)
  {
    hide Without;
    WithoutConcat(a, b, op.id);
  }

  /** The pending entry of operation lo, if its write survives until n. */
  ghost function PendingEntry(h: seq<Operation>, lo: nat, n: nat): seq<Record>
    requires lo < n <= |h|
  {
    if Surviving(h, n, lo) then [Written(h[lo], lo + 1)] else []
  }

  lemma PendingEntryStep(h: seq<Operation>, lo: nat, n: nat)
    requires lo < n < |h|
    ensures PendingEntry(h, lo, n + 1) == Kept(PendingEntry(h, lo, n), h[n])
  {
    hide Decided, Touched, Deleted;
    TouchedStep(h, lo + 1, n, h[lo].id);
    assert Without([], h[n].id) == [];
    if h[lo].Writes() {
      var e := Written(h[lo], lo + 1);
      assert [e][1..] == [];
      assert Without([e], h[n].id) == (if e.id == h[n].id then [] else [e]) + Without([], h[n].id);
    }
  }

  lemma PendingHead(h: seq<Operation>, lo: nat, n: nat)
    requires lo < n <= |h|
    ensures Pending(h, lo, n) == PendingEntry(h, lo, n) + Pending(h, lo + 1, n)
  {
  }

  lemma PendingNothing(h: seq<Operation>, n: nat)
    requires n <= |h|
    ensures Pending(h, n, n) == []
  {
  }

  /** The newest operation alone. */
  lemma PendingLast(h: seq<Operation>, n: nat)
    requires n < |h|
    ensures Pending(h, n, n + 1) == BufferStep([], h[n], n + 1)
  {
    PendingHead(h, n, n + 1);
    PendingNothing(h, n + 1);
    hide Pending;
    assert !Decided(h, n + 1, n + 1, h[n].id);
    assert Without([], h[n].id) == [];
  }

  /** Appending one operation to the history is one buffer step. */
  lemma {:induction false} PendingStep(h: seq<Operation>, lo: nat, n: nat)
    requires lo <= n < |h|
    ensures Pending(h, lo, n + 1) == BufferStep(Pending(h, lo, n), h[n], n + 1)
    decreases n - lo
  {
    hide Pending, BufferStep, PendingEntry, Kept;
    if lo < n {
      PendingStep(h, lo + 1, n);
      PendingHead(h, lo, n);
      PendingHead(h, lo, n + 1);
      PendingEntryStep(h, lo, n);
      BufferStepConcat(PendingEntry(h, lo, n), Pending(h, lo + 1, n), h[n], n + 1);
    } else {
      PendingNothing(h, n);
      PendingLast(h, n);
    }
  }

  /** One entry per id, in strictly increasing sequence order, all above lo and at most n. */
  ghost predicate OnePerIdInOrder(b: seq<Record>, lo: nat, n: nat) {
    && (forall i :: 0 <= i < |b| ==> lo < b[i].seqNo <= n)
    && (forall i, j :: 0 <= i < j < |b| ==> b[i].seqNo < b[j].seqNo && b[i].id != b[j].id)
  }

  lemma OrderedCons(e: Record, rest: seq<Record>, lo: nat, n: nat)
    requires OnePerIdInOrder(rest, lo + 1, n)
    requires e.seqNo == lo + 1 <= n
    requires forall r :: r in rest ==> r.id != e.id
    ensures OnePerIdInOrder([e] + rest, lo, n)
  {
  }

  lemma OrderedWiden(b: seq<Record>, lo: nat, n: nat)
    requires OnePerIdInOrder(b, lo + 1, n)
    ensures OnePerIdInOrder(b, lo, n)
  {
  }

  /** A surviving write is the only pending one of its id. */
  lemma PendingElsewhere(h: seq<Operation>, lo: nat, n: nat, i: nat, r: Record)
    requires n <= |h| && i < lo && Surviving(h, n, i) && r in Pending(h, lo, n)
    ensures r.id != h[i].id
  {
    PendingMembers(h, lo, n, r);
    var j :| lo <= j < n && Surviving(h, n, j) && r == Written(h[j], j + 1);
    if h[i].id == h[j].id {
      SurvivingUnique(h, n, i, j);
    }
  }

  lemma {:induction false} PendingOrdered(h: seq<Operation>, lo: nat, n: nat)
    requires n <= |h|
    ensures OnePerIdInOrder(Pending(h, lo, n), lo, n)
    decreases n - lo
  {
    if lo >= n {
      assert Pending(h, lo, n) == [];
    } else {
      hide OnePerIdInOrder, Decided, Pending;
      PendingHead(h, lo, n);
      PendingOrdered(h, lo + 1, n);
      var rest := Pending(h, lo + 1, n);
      if Surviving(h, n, lo) {
        forall r | r in rest
          ensures r.id != h[lo].id
        {
          PendingElsewhere(h, lo + 1, n, lo, r);
        }
        OrderedCons(Written(h[lo], lo + 1), rest, lo, n);
      } else {
        assert Pending(h, lo, n) == rest;
        OrderedWiden(rest, lo, n);
      }
    }
  }
}
