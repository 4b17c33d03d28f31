/**
 Shipping the leader's log to a follower: deltas are encoded log records, and the follower applies
 them one by one, marking each as applied.
 */
module Follower {
  import opened Core
  import opened Bytes
  import opened History
  import opened Collection
  import opened Runs
  import opened WalFormat
  import opened Guarantees
  import W = WalLog

  datatype DeltaRecord = DeltaRecord(seqNo: nat, epoch: nat, payload: seq<Byte>)

  datatype WalDelta = WalDelta(records: seq<DeltaRecord>, targetSeq: nat)

  /** `from_wal_records`. */
  function Encode(c: Codec, rs: seq<W.WalRecord>): (es: seq<DeltaRecord>)
    ensures |es| == |rs|
    ensures forall i :: 0 <= i < |rs| ==> es[i] == DeltaRecord(rs[i].seqNo, rs[i].epoch, c.encode(rs[i].op))
  {
    seq(|rs|, i requires 0 <= i < |rs| => DeltaRecord(rs[i].seqNo, rs[i].epoch, c.encode(rs[i].op)))
  }

  /** The leader's answer to a poll from `from`. */
  function Delta(c: Codec, wal: W.Log, from: nat): WalDelta {
    if from > wal.lastSeq then WalDelta([], wal.lastSeq)
    else WalDelta(Encode(c, W.Select(wal.records, from, wal.lastSeq)), wal.lastSeq)
  }

  /** A follower's copy of one collection and the highest sequence number marked applied. */
  datatype Replica = Replica(mem: Mem, applied: nat)

  /** The record takes effect: it decodes, and the engine does not refuse its number. */
  predicate Effective(c: Codec, e: DeltaRecord, refused: set<nat>) {
    c.decode(e.payload).Some? && e.seqNo !in refused
  }

  /** One delta record: applied if it takes effect, and marked either way. */
  function ApplyEntry(c: Codec, f: Replica, e: DeltaRecord, refused: set<nat> := {}): Replica {
    Replica(if Effective(c, e, refused) then ApplyOp(f.mem, c.decode(e.payload).value, e.seqNo) else f.mem, e.seqNo)
  }

  /** The records of a delta in order; `refused` holds the numbers at which the engine returns an error. */
  function ApplyEntries(c: Codec, f: Replica, es: seq<DeltaRecord>, refused: set<nat> := {}): Replica {
    if es == [] then f else ApplyEntry(c, ApplyEntries(c, f, es[..|es| - 1], refused), es[|es| - 1], refused)
  }

  // ---------------------------------------------------------------------------------------------
  // The follower's bookkeeping
  // ---------------------------------------------------------------------------------------------

  class WalReplication {
    /** Per collection: highest sequence number applied from the leader's log. */
    var lastApplied: map<string, nat>

    constructor ()
      ensures lastApplied == map[]
      ensures forall x :: NextSeq(x) == 1
    {
      lastApplied := map[];
    }

    /** The number to ask the leader for: one above the highest marked, 1 if nothing was. */
    function NextSeq(collection: string): nat
      reads this
    {
      (if collection in lastApplied then lastApplied[collection] else 0) + 1
    }

    method MarkApplied(collection: string, s: nat)
      modifies this
      ensures lastApplied == old(lastApplied)[collection := s]
      ensures NextSeq(collection) == s + 1
    {
      lastApplied := lastApplied[collection := s];
    }

    /** The body of the follower loop for a fetched delta: apply each record, then mark it. */
    method ApplyDelta(c: Codec, collection: string, start: Mem, delta: WalDelta, refused: set<nat>) returns (m: Mem)
      modifies this
      ensures var f := ApplyEntries(c, Replica(start, old(NextSeq(collection)) - 1), delta.records, refused);
              m == f.mem && NextSeq(collection) == f.applied + 1
      ensures forall x :: x in old(lastApplied) && x != collection ==> x in lastApplied && lastApplied[x] == old(lastApplied[x])
      ensures forall x :: x != collection ==> (x in lastApplied <==> x in old(lastApplied))
    {
      m := start;
      ghost var first := Replica(start, NextSeq(collection) - 1);
      var es := delta.records;
      for i := 0 to |es|
        invariant Replica(m, NextSeq(collection) - 1) == ApplyEntries(c, first, es[..i], refused)
        invariant forall x :: x in old(lastApplied) && x != collection ==> x in lastApplied && lastApplied[x] == old(lastApplied[x])
        invariant forall x :: x != collection ==> (x in lastApplied <==> x in old(lastApplied))
      {
        assert es[..i + 1][..i] == es[..i];
        var op := c.decode(es[i].payload);
        if op.Some? && es[i].seqNo !in refused {
          m := ApplyOp(m, op.value, es[i].seqNo);
        }
        MarkApplied(collection, es[i].seqNo);
      }
      assert es[..|es|] == es;
    }

    /**
     One round of the follower loop for one collection.  If the leader answers and its log reaches
     back to the follower's position, the follower's records end as the fold of the whole history and
     its next request is for the number after it.
     */
    method Poll(c: Codec, collection: string, start: Mem, wal: W.Log, answers: bool, ghost h: seq<Operation>) returns (m: Mem)
      modifies this
      ensures !answers ==> m == start && lastApplied == old(lastApplied)
      ensures answers && Serving(c, h, wal, Replica(start, old(NextSeq(collection)) - 1)) ==>
                m.records == Fold(h, |h|) && NextSeq(collection) == |h| + 1
      ensures forall x :: x != collection ==> NextSeq(x) == old(NextSeq(x))
    {
      hide Serving, Fold, Delta, ApplyEntries;
      m := start;
      if answers {
        ghost var first := Replica(start, NextSeq(collection) - 1);
        if Serving(c, h, wal, first) {
          PollCatchesUp(c, h, wal, first);
        }
        m := ApplyDelta(c, collection, start, Delta(c, wal, NextSeq(collection)), {});
      }
    }
  }

  /** The log holds the tail of h back to the follower's position, and the follower tracks h. */
  ghost predicate Serving(c: Codec, h: seq<Operation>, wal: W.Log, f: Replica) {
    && c.Sound() && Tracks(f, h) && wal.lastSeq == |h|
    && LogHolds(h, wal.epoch, wal.records) && Base(h, wal.records) <= f.applied
  }

  lemma PollCatchesUp(c: Codec, h: seq<Operation>, wal: W.Log, f: Replica)
    requires Serving(c, h, wal, f)
    ensures var g := ApplyEntries(c, f, Delta(c, wal, f.applied + 1).records);
            g.mem.records == Fold(h, |h|) && g.applied == |h|
  {
    hide Replay, Delta, ApplyEntries, LogHolds;
    var es := Delta(c, wal, f.applied + 1).records;
    DeltaShips(c, h, wal, f.applied);
    ShippedIsReplayed(c, f, es, h, f.applied);
    ReplaySplit(h, 0, f.applied, |h|, map[]);
  }

  /** `fetch_delta_with_retry`: the first successful answer among the allowed attempts. */
  method FetchWithRetry(attempts: seq<Result<WalDelta, string>>, maxRetries: nat) returns (r: Result<WalDelta, string>)
    requires |attempts| >= maxRetries
    ensures r.Ok? <==> exists i :: 0 <= i < maxRetries && attempts[i].Ok?
    ensures r.Ok? ==> exists i :: 0 <= i < maxRetries && attempts[i] == r && forall j :: 0 <= j < i ==> attempts[j].Err?
  {
    var lastErr := "";
    for i := 0 to maxRetries
      invariant forall j :: 0 <= j < i ==> attempts[j].Err?
    {
      if attempts[i].Ok? {
        return attempts[i];
      }
      lastErr := attempts[i].error;
    }
    r := Err(lastErr);
  }

  // ---------------------------------------------------------------------------------------------
  // The follower tracks the leader's history
  // ---------------------------------------------------------------------------------------------

  /** The follower's records are the fold of the leader's history up to its last applied number. */
  ghost predicate Tracks(f: Replica, h: seq<Operation>) {
    f.applied <= |h| && f.mem.records == Fold(h, f.applied)
  }

  /** A delta of the operations above lo. */
  ghost predicate Ships(c: Codec, es: seq<DeltaRecord>, h: seq<Operation>, lo: nat) {
    lo + |es| <= |h| && forall i :: 0 <= i < |es| ==> es[i].seqNo == lo + i + 1 && es[i].payload == c.encode(h[lo + i])
  }

  /** What the last record of a delta does. */
  lemma ApplyLast(c: Codec, f: Replica, es: seq<DeltaRecord>, refused: set<nat>)
    requires es != []
    ensures var e, g := es[|es| - 1], ApplyEntries(c, f, es[..|es| - 1], refused);
            && ApplyEntries(c, f, es, refused).applied == e.seqNo
            && ApplyEntries(c, f, es, refused).mem.records ==
               if Effective(c, e, refused) then Apply(g.mem.records, c.decode(e.payload).value, e.seqNo) else g.mem.records
  {
    hide StepOffs, BufferStep, StepIndex, StepLabels, Apply;
  }

  lemma ReplayLast(h: seq<Operation>, lo: nat, hi: nat, r: map<Id, Record>)
    requires hi <= |h|
    ensures Replay(h, lo, hi, r) == if hi <= lo then r else Apply(Replay(h, lo, hi - 1, r), h[hi - 1], hi)
  {
    hide Apply;
  }

  /** Shipped records, none refused, replay their part of the history. */
  lemma {:induction false} ShippedIsReplayed(c: Codec, f: Replica, es: seq<DeltaRecord>, h: seq<Operation>, lo: nat, refused: set<nat> := {})
    requires c.Sound() && Ships(c, es, h, lo) && forall j :: 0 <= j < |es| ==> es[j].seqNo !in refused
    ensures ApplyEntries(c, f, es, refused).mem.records == Replay(h, lo, lo + |es|, f.mem.records)
    ensures ApplyEntries(c, f, es, refused).applied == if es == [] then f.applied else lo + |es|
  {
    hide Replay, Apply;
    ReplayLast(h, lo, lo + |es|, f.mem.records);
    if es != [] {
      hide ApplyEntries;
      var k := |es| - 1;
      ApplyLast(c, f, es, refused);
      ShippedIsReplayed(c, f, es[..k], h, lo, refused);
      assert c.decode(c.encode(h[lo + k])) == Some(h[lo + k]);
    }
  }

  /** The leader's log reaches back to `from`: the delta is exactly the operations above it. */
  lemma DeltaShips(c: Codec, h: seq<Operation>, wal: W.Log, from: nat)
    requires LogHolds(h, wal.epoch, wal.records) && wal.lastSeq == |h|
    requires Base(h, wal.records) <= from <= |h|
    ensures var es := Delta(c, wal, from + 1).records;
            Ships(c, es, h, from) && |es| == |h| - from && Delta(c, wal, from + 1).targetSeq == |h|
  {
    hide W.Select;
    W.EntriesSelect(h, wal.epoch, |h| - |wal.records|, from);
  }

  datatype FollowerStep =
    // Anything the leader does.
    | LeaderStep(step: Step)
    // A poll that fails after all retries.
    | PollFailed
    // A delta of which the first k records are applied.
    | Poll(k: nat)

  datatype Pair = Pair(leader: Sys, follower: Replica)

  ghost predicate PairEnabled(cfg: Config, c: Codec, p: Pair, step: FollowerStep) {
    match step
    case LeaderStep(s) => Enabled(cfg, p.leader, s)
    case PollFailed => true
    case Poll(k) =>
      && |p.leader.history| - |p.leader.wal.records| <= p.follower.applied
      && k <= |Delta(c, p.leader.wal, p.follower.applied + 1).records|
  }

  ghost function PairExec(cfg: Config, c: Codec, p: Pair, step: FollowerStep): Pair
    requires PairEnabled(cfg, c, p, step)
  {
    match step
    case LeaderStep(s) => p.(leader := Exec(cfg, p.leader, s))
    case PollFailed => p
    case Poll(k) =>
      p.(follower := ApplyEntries(c, p.follower, Delta(c, p.leader.wal, p.follower.applied + 1).records[..k]))
  }

  ghost function PairRun(cfg: Config, c: Codec, steps: seq<FollowerStep>): Option<Pair> {
    if steps == [] then Some(Pair(Start(cfg), Replica(FRESH, 0)))
    else
      var p := PairRun(cfg, c, steps[..|steps| - 1]);
      if p.Some? && PairEnabled(cfg, c, p.value, steps[|steps| - 1])
      then Some(PairExec(cfg, c, p.value, steps[|steps| - 1])) else None
  }

  lemma TracksGrowing(f: Replica, h: seq<Operation>, g: seq<Operation>)
    requires Tracks(f, h) && h <= g
    ensures Tracks(f, g)
  {
    ReplayPrefix(h, g, 0, f.applied, map[]);
  }

  lemma PollTracks(cfg: Config, c: Codec, p: Pair, k: nat)
    requires c.Sound() && SysInv(cfg, p.leader) && Tracks(p.follower, p.leader.history)
    requires PairEnabled(cfg, c, p, Poll(k))
    ensures Tracks(PairExec(cfg, c, p, Poll(k)).follower, p.leader.history)
  {
    hide SysInv, Delta, ApplyEntries, Replay, LogHolds;
    var h, a := p.leader.history, p.follower.applied;
    SysLog(cfg, p.leader);
    DeltaShips(c, h, p.leader.wal, a);
    var es := Delta(c, p.leader.wal, a + 1).records[..k];
    assert Ships(c, es, h, a);
    ShippedIsReplayed(c, p.follower, es, h, a);
    ReplaySplit(h, 0, a, a + k, map[]);
  }

  /**
   Over any interleaving of leader steps, failed polls and partly applied deltas, as long as the
   leader's log still reaches back to the follower's position when it polls, the follower's records
   are the fold of the leader's history up to its last applied number.
   */
  lemma {:induction false} FollowerTracks(cfg: Config, c: Codec, steps: seq<FollowerStep>)
    requires c.Sound() && PairRun(cfg, c, steps).Some?
    ensures var p := PairRun(cfg, c, steps).value;
            SysInv(cfg, p.leader) && Tracks(p.follower, p.leader.history)
  {
    hide SysInv, Exec, Enabled, Delta, ApplyEntries, Codec.Sound;
    if steps == [] {
      StartInv(cfg);
      assert Tracks(Replica(FRESH, 0), []);
    } else {
      var step := steps[|steps| - 1];
      FollowerTracks(cfg, c, steps[..|steps| - 1]);
      var p := PairRun(cfg, c, steps[..|steps| - 1]).value;
      match step
      case LeaderStep(s) =>
        ExecInv(cfg, p.leader, s);
        HistoryOnlyGrows(cfg, p.leader, s);
        TracksGrowing(p.follower, p.leader.history, Exec(cfg, p.leader, s).history);
      case PollFailed =>
      case Poll(k) => PollTracks(cfg, c, p, k);
    }
  }

  /** Re-delivering any range that ends at the last applied number changes nothing. */
  lemma RedeliveryChangesNothing(c: Codec, f: Replica, h: seq<Operation>, from: nat, es: seq<DeltaRecord>)
    requires c.Sound() && Valid(h) && Tracks(f, h) && from + |es| == f.applied && Ships(c, es, h, from)
    ensures ApplyEntries(c, f, es).mem.records == f.mem.records && ApplyEntries(c, f, es).applied == f.applied
  {
    hide Replay, ApplyEntries, Valid;
    ShippedIsReplayed(c, f, es, h, from);
    ValidPrefix(h[..f.applied], h);
    ReplayAbsorbed(h, from, f.applied);
  }

  /** From a position below the log's base, the delta is everything the log still holds. */
  lemma GapShips(c: Codec, h: seq<Operation>, wal: W.Log, applied: nat)
    requires LogHolds(h, wal.epoch, wal.records) && wal.lastSeq == |h|
    requires applied <= Base(h, wal.records)
    ensures var es := Delta(c, wal, applied + 1).records;
            Ships(c, es, h, Base(h, wal.records)) && |es| == |wal.records|
  {
    hide W.Select, LogHolds;
    LogContents(h, wal.epoch, wal.records);
    W.AllSelected(wal.records, applied + 1, |h|);
  }

  /**
   If the leader has pruned above the follower's position, the delta it ships starts at its log's
   base instead, and the follower marks all of it applied.  An id then still ends up right exactly
   when the delta decides it, or the missed operations left what the delta does not overwrite as it
   was: its vector if the delta updates it, everything if the delta does not touch it.
   */
  lemma GapHarmlessIff(cfg: Config, c: Codec, leader: Sys, f: Replica, x: Id)
    requires c.Sound() && SysInv(cfg, leader) && Tracks(f, leader.history)
    requires f.applied <= Base(leader.history, leader.wal.records)
    ensures var h, base := leader.history, Base(leader.history, leader.wal.records);
            var f' := ApplyEntries(c, f, Delta(c, leader.wal, f.applied + 1).records);
            var was, due := At(Fold(h, f.applied), x), At(Fold(h, base), x);
            && f'.applied == (if base == |h| then f.applied else |h|)
            && (At(f'.mem.records, x) == At(Fold(h, |h|), x) <==>
                  || Decided(h, base, |h|, x)
                  || (if Touched(h, base, |h|, x) then VectorOf(was) == VectorOf(due) else was == due))
  {
    hide Replay, SysInv, ApplyEntries, Delta, Decided, Touched, LogHolds;
    var h, base := leader.history, Base(leader.history, leader.wal.records);
    SysLog(cfg, leader);
    ValidHistory(cfg, leader);
    GapShips(c, h, leader.wal, f.applied);
    ShippedIsReplayed(c, f, Delta(c, leader.wal, f.applied + 1).records, h, base);
    GapReplayIff(h, f.applied, base, x);
  }

  lemma ValidHistory(cfg: Config, s: Sys)
    requires SysInv(cfg, s)
    ensures Valid(s.history)
  {
  }

  lemma GapReplayIff(h: seq<Operation>, applied: nat, base: nat, x: Id)
    requires Valid(h) && applied <= base <= |h|
    ensures var was, due := At(Fold(h, applied), x), At(Fold(h, base), x);
            At(Replay(h, base, |h|, Fold(h, applied)), x) == At(Fold(h, |h|), x) <==>
              || Decided(h, base, |h|, x)
              || (if Touched(h, base, |h|, x) then VectorOf(was) == VectorOf(due) else was == due)
  {
    hide Replay;
    RecordIds(h, 0, applied, map[]);
    RecordIds(h, 0, base, map[]);
    ReplayInStep(h, base, |h|, Fold(h, applied), x);
    ReplayInStep(h, base, |h|, Fold(h, base), x);
    ReplaySplit(h, 0, base, |h|, map[]);
    var now, truth := At(Replay(h, base, |h|, Fold(h, applied)), x), At(Fold(h, |h|), x);
    if SameButVector(now, truth) && VectorOf(now) == VectorOf(truth) {
      assert now.value == now.value.(embedding := None).(embedding := now.value.embedding);
      assert truth.value == truth.value.(embedding := None).(embedding := truth.value.embedding);
    }
  }

  // ---------------------------------------------------------------------------------------------
  // A record that was marked without taking effect
  // ---------------------------------------------------------------------------------------------

  /** A delta of the operations above lo in which only record i fails to take effect. */
  ghost predicate ShipsAllBut(c: Codec, es: seq<DeltaRecord>, h: seq<Operation>, lo: nat, i: nat, refused: set<nat>) {
    && lo + |es| <= |h| && i < |es|
    && (forall j :: 0 <= j < |es| ==> es[j].seqNo == lo + j + 1)
    && (forall j :: 0 <= j < |es| && j != i ==> es[j].payload == c.encode(h[lo + j]) && es[j].seqNo !in refused)
    && !Effective(c, es[i], refused)
  }

  lemma {:induction false} SkippedIsReplayed(c: Codec, f: Replica, es: seq<DeltaRecord>, h: seq<Operation>, lo: nat, i: nat, refused: set<nat>)
    requires c.Sound() && ShipsAllBut(c, es, h, lo, i, refused)
    ensures ApplyEntries(c, f, es, refused).mem.records ==
            Replay(h, lo + i + 1, lo + |es|, Replay(h, lo, lo + i, f.mem.records))
    ensures ApplyEntries(c, f, es, refused).applied == lo + |es|
    decreases |es|
  {
    hide ApplyEntries, Replay, Apply;
    var k := |es| - 1;
    var r := Replay(h, lo, lo + i, f.mem.records);
    ApplyLast(c, f, es, refused);
    ReplayLast(h, lo + i + 1, lo + |es|, r);
    if k == i {
      ShippedIsReplayed(c, f, es[..k], h, lo, refused);
    } else {
      SkippedIsReplayed(c, f, es[..k], h, lo, i, refused);
      assert c.decode(c.encode(h[lo + k])) == Some(h[lo + k]);
    }
  }

  /**
   A delta in which one record does not decode, or is refused by the engine, is marked applied to
   its end.  An id then still ends up right exactly when a later record of the delta decides it, or
   the skipped operation left what the later ones do not overwrite as it was.
   */
  lemma SkippedRecordIff(c: Codec, f: Replica, h: seq<Operation>, es: seq<DeltaRecord>, i: nat, refused: set<nat>, x: Id)
    requires c.Sound() && Valid(h) && Tracks(f, h) && ShipsAllBut(c, es, h, f.applied, i, refused)
    ensures var f', s, n := ApplyEntries(c, f, es, refused), f.applied + i, f.applied + |es|;
            var was, due := At(Fold(h, s), x), At(Fold(h, s + 1), x);
            && f'.applied == n
            && (At(f'.mem.records, x) == At(Fold(h, n), x) <==>
                  || Decided(h, s + 1, n, x)
                  || (if Touched(h, s + 1, n, x) then VectorOf(was) == VectorOf(due) else was == due))
  {
    hide Replay, ApplyEntries, Decided, Touched, Valid;
    var lo, n := f.applied, f.applied + |es|;
    var g := h[..n];
    SkippedIsReplayed(c, f, es, h, lo, i, refused);
    ReplaySplit(h, 0, lo, lo + i, map[]);
    ValidPrefix(g, h);
    GapReplayIff(g, lo + i, lo + i + 1, x);
    ReplayPrefix(g, h, 0, lo + i, map[]);
    ReplayPrefix(g, h, 0, lo + i + 1, map[]);
    ReplayPrefix(g, h, 0, n, map[]);
    ReplayPrefix(g, h, lo + i + 1, n, Fold(g, lo + i));
    TouchedPrefix(g, h, lo + i + 1, x);
  }

  lemma TouchedPrefix(g: seq<Operation>, h: seq<Operation>, lo: nat, x: Id)
    requires g <= h
    ensures Touched(h, lo, |g|, x) <==> Touched(g, lo, |g|, x)
    ensures Decided(h, lo, |g|, x) <==> Decided(g, lo, |g|, x)
  {
    assert forall i :: 0 <= i < |g| ==> g[i] == h[i];
  }

  /** One undecodable record, alone in its delta: it is marked applied and its write is lost. */
  lemma UndecodableIsSkipped(c: Codec, id: Id, v: Embedding, bad: seq<Byte>)
    requires c.Sound() && c.decode(bad).None?
    ensures var h := [Operation.Add(id, v, None, None)];
            var f := ApplyEntries(c, Replica(FRESH, 0), [DeltaRecord(1, 0, bad)]);
            Valid(h) && f.applied == |h| && id in Fold(h, |h|) && id !in f.mem.records
  {
    var h := [Operation.Add(id, v, None, None)];
    assert [DeltaRecord(1, 0, bad)][..0] == [];
    assert Fold(h, 1) == Apply(Replay(h, 0, 0, map[]), h[0], 1);
  }

  /** One record refused by the engine: the same. */
  lemma RefusedIsSkipped(c: Codec, id: Id, v: Embedding)
    requires c.Sound()
    ensures var h := [Operation.Add(id, v, None, None)];
            var f := ApplyEntries(c, Replica(FRESH, 0), [DeltaRecord(1, 0, c.encode(h[0]))], {1});
            Valid(h) && f.applied == |h| && id in Fold(h, |h|) && id !in f.mem.records
  {
    var h := [Operation.Add(id, v, None, None)];
    assert [DeltaRecord(1, 0, c.encode(h[0]))][..0] == [];
    assert Fold(h, 1) == Apply(Replay(h, 0, 0, map[]), h[0], 1);
  }
}
