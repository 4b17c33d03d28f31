/** The write-ahead log as a sequence of records: what its byte format represents. */
module WalLog {
  import opened Core

  datatype WalRecord = WalRecord(seqNo: nat, epoch: nat, op: Operation)

  /** An open log: its file's epoch and records, and the sequence number appends continue from. */
  datatype Log = Log(epoch: nat, records: seq<WalRecord>, lastSeq: nat)

  function Append(l: Log, op: Operation): Log {
    l.(records := l.records + [WalRecord(l.lastSeq + 1, l.epoch, op)], lastSeq := l.lastSeq + 1)
  }

  function AppendAll(l: Log, ops: seq<Operation>): (l': Log)
    ensures |l'.records| == |l.records| + |ops|
  {
    if ops == [] then l else Append(AppendAll(l, ops[..|ops| - 1]), ops[|ops| - 1])
  }

  /** Appending a batch is appending its first operation, then the others. */
  lemma {:induction false} AppendAllHead(l: Log, ops: seq<Operation>)
    requires ops != []
    ensures AppendAll(l, ops) == AppendAll(Append(l, ops[0]), ops[1..])
    decreases |ops|
  {
    var k := |ops| - 1;
    if k == 0 {
      assert ops[..0] == [] && ops[1..] == [];
    } else {
      AppendAllHead(l, ops[..k]);
      assert ops[..k][1..] == ops[1..][..k - 1];
    }
  }

  /** The records numbered from..to, in order. */
  function Select(rs: seq<WalRecord>, from: nat, to: nat): seq<WalRecord> {
    if rs == [] then []
    else
      (if from <= rs[0].seqNo <= to then [rs[0]] else []) + Select(rs[1..], from, to)
  }

  /** The records numbered above keep. */
  function Above(rs: seq<WalRecord>, keep: nat): seq<WalRecord> {
    if rs == [] then []
    else (if rs[0].seqNo > keep then [rs[0]] else []) + Above(rs[1..], keep)
  }

  function LastOf(rs: seq<WalRecord>): nat {
    if rs == [] then 0 else rs[|rs| - 1].seqNo
  }

  /** Opening a file that holds rs: a stored record beats `start_seq`, which only an empty log honours. */
  function Open(epoch: nat, rs: seq<WalRecord>, startSeq: Option<nat>): Log {
    if rs == [] && startSeq.Some? && startSeq.value > 0 then Log(epoch, rs, startSeq.value - 1)
    else Log(epoch, rs, LastOf(rs))
  }

  function Prune(l: Log, keep: nat): Log {
    var rs := Above(l.records, keep);
    Log(l.epoch, rs, LastOf(rs))
  }


  ghost predicate Increasing(rs: seq<WalRecord>) {
    forall i, j :: 0 <= i < j < |rs| ==> rs[i].seqNo < rs[j].seqNo
  }

  /** A range read of a log in order is exactly its records in the range, in order. */
  lemma {:induction false} SelectMembers(rs: seq<WalRecord>, from: nat, to: nat)
    ensures forall r :: r in Select(rs, from, to) <==> r in rs && from <= r.seqNo <= to
    ensures Increasing(rs) ==> Increasing(Select(rs, from, to))
  {
    if rs != [] {
      SelectMembers(rs[1..], from, to);
      assert forall r :: r in rs <==> r == rs[0] || r in rs[1..];
      if Increasing(rs) {
        HeadBelow(rs);
      }
    }
  }

  /** What a prune keeps of a log in order is exactly the records above the watermark, in order. */
  lemma {:induction false} AboveMembers(rs: seq<WalRecord>, keep: nat)
    ensures forall r :: r in Above(rs, keep) <==> r in rs && r.seqNo > keep
    ensures Increasing(rs) ==> Increasing(Above(rs, keep))
  {
    if rs != [] {
      AboveMembers(rs[1..], keep);
      assert forall r :: r in rs <==> r == rs[0] || r in rs[1..];
      if Increasing(rs) {
        HeadBelow(rs);
      }
    }
  }

  lemma HeadBelow(rs: seq<WalRecord>)
    requires Increasing(rs) && rs != []
    ensures Increasing(rs[1..]) && forall r :: r in rs[1..] ==> rs[0].seqNo < r.seqNo
  {
  }

  /** Appends continue after the highest stored number, or at `startSeq` if nothing is stored. */
  lemma OpenContinues(epoch: nat, rs: seq<WalRecord>, startSeq: Option<nat>, op: Operation)
    requires Increasing(rs)
    ensures var l := Append(Open(epoch, rs, startSeq), op);
            && |l.records| == |rs| + 1 && l.records[..|rs|] == rs
            && l.records[|rs|].op == op && l.records[|rs|].epoch == epoch
            && (forall r :: r in rs ==> r.seqNo < l.records[|rs|].seqNo)
            && (rs != [] ==> exists r :: r in rs && l.records[|rs|].seqNo == r.seqNo + 1)
            && (rs == [] ==> l.records[|rs|].seqNo == if startSeq.Some? && startSeq.value > 0 then startSeq.value else 1)
  {
    if rs != [] {
      assert rs[|rs| - 1] in rs;
    }
  }

  // ---------------------------------------------------------------------------------------------
  // Logs that hold a suffix of the history
  // ---------------------------------------------------------------------------------------------

  /** The log records of operations lo..|h|. */
  function Entries(h: seq<Operation>, epoch: nat, lo: nat): (rs: seq<WalRecord>)
    requires lo <= |h|
    ensures |rs| == |h| - lo
    ensures forall i :: 0 <= i < |rs| ==> rs[i] == WalRecord(lo + i + 1, epoch, h[lo + i])
    decreases |h| - lo
  {
    if lo == |h| then [] else [WalRecord(lo + 1, epoch, h[lo])] + Entries(h, epoch, lo + 1)
  }

  lemma EntriesExtend(h: seq<Operation>, epoch: nat, lo: nat, op: Operation)
    requires lo <= |h|
    ensures Entries(h + [op], epoch, lo) == Entries(h, epoch, lo) + [WalRecord(|h| + 1, epoch, op)]
  {
  }

  lemma {:induction false} EntriesAppendAll(h: seq<Operation>, l: Log, lo: nat, ops: seq<Operation>)
    requires lo <= |h| && l.records == Entries(h, l.epoch, lo) && l.lastSeq == |h|
    ensures var l' := AppendAll(l, ops);
            l'.epoch == l.epoch && l'.records == Entries(h + ops, l.epoch, lo) && l'.lastSeq == |h + ops|
  {
    if ops == [] {
      assert h + ops == h;
    } else {
      var init := ops[..|ops| - 1];
      EntriesAppendAll(h, l, lo, init);
      EntriesExtend(h + init, l.epoch, lo, ops[|ops| - 1]);
      assert h + init + [ops[|ops| - 1]] == h + ops;
    }
  }

  /** Pruning a suffix of the history leaves the shorter suffix. */
  lemma {:induction false} EntriesAbove(h: seq<Operation>, epoch: nat, lo: nat, keep: nat)
    requires lo <= keep <= |h|
    ensures Above(Entries(h, epoch, lo), keep) == Entries(h, epoch, keep)
    decreases |h| - lo
  {
    var rs := Entries(h, epoch, lo);
    if lo < |h| {
      assert rs[1..] == Entries(h, epoch, lo + 1);
      if lo < keep {
        EntriesAbove(h, epoch, lo + 1, keep);
      } else {
        AllAbove(rs, keep);
      }
    }
  }

  lemma {:induction false} AllAbove(rs: seq<WalRecord>, keep: nat)
    requires forall r :: r in rs ==> r.seqNo > keep
    ensures Above(rs, keep) == rs
  {
    if rs != [] {
      AllAbove(rs[1..], keep);
    }
  }

  /** Reading the tail above keep from a log that reaches back far enough. */
  lemma {:induction false} EntriesSelect(h: seq<Operation>, epoch: nat, lo: nat, keep: nat)
    requires lo <= keep <= |h|
    ensures Select(Entries(h, epoch, lo), keep + 1, |h|) == Entries(h, epoch, keep)
    decreases |h| - lo
  {
    var rs := Entries(h, epoch, lo);
    if lo < |h| {
      assert rs[1..] == Entries(h, epoch, lo + 1);
      if lo < keep {
        EntriesSelect(h, epoch, lo + 1, keep);
      } else {
        AllSelected(rs, keep + 1, |h|);
      }
    }
  }

  lemma {:induction false} AllSelected(rs: seq<WalRecord>, from: nat, to: nat)
    requires forall r :: r in rs ==> from <= r.seqNo <= to
    ensures Select(rs, from, to) == rs
  {
    if rs != [] {
      AllSelected(rs[1..], from, to);
    }
  }
}
