/** The open log file: the object that appends, reads, prunes and recovers, against the log it stands for. */
module WalFile {
  import opened Core
  import opened Bytes
  import opened WalFormat
  import W = WalLog

  // ---------------------------------------------------------------------------------------------
  // Stored records as log records
  // ---------------------------------------------------------------------------------------------

  ghost predicate Decodable(c: Codec, rs: seq<Raw>) {
    forall r :: r in rs ==> c.decode(r.payload).Some?
  }

  function Decode(c: Codec, r: Raw): W.WalRecord
    requires c.decode(r.payload).Some?
  {
    W.WalRecord(r.seqNo, r.epoch, c.decode(r.payload).value)
  }

  function Decoded(c: Codec, rs: seq<Raw>): (ds: seq<W.WalRecord>)
    requires Decodable(c, rs)
    ensures |ds| == |rs| && forall i :: 0 <= i < |rs| ==> ds[i] == Decode(c, rs[i])
  {
    if rs == [] then [] else [Decode(c, rs[0])] + Decoded(c, rs[1..])
  }

  lemma {:induction false} GoodDecodes(c: Codec, hdr: nat, prev: Option<nat>, rs: seq<Raw>)
    requires GoodAfter(c, hdr, prev, rs)
    ensures Decodable(c, rs)
    decreases |rs|
  {
    if rs != [] {
      GoodDecodes(c, hdr, Some(rs[0].seqNo), rs[1..]);
      assert forall r :: r in rs <==> r == rs[0] || r in rs[1..];
    }
  }

  /** A good record list is strictly increasing and above prev. */
  lemma {:induction false} GoodIncreases(c: Codec, hdr: nat, prev: Option<nat>, rs: seq<Raw>)
    requires GoodAfter(c, hdr, prev, rs)
    ensures prev.Some? ==> forall i :: 0 <= i < |rs| ==> rs[i].seqNo > prev.value
    ensures forall i, j :: 0 <= i < j < |rs| ==> rs[i].seqNo < rs[j].seqNo
    decreases |rs|
  {
    if rs != [] {
      GoodIncreases(c, hdr, Some(rs[0].seqNo), rs[1..]);
      assert forall i :: 0 < i < |rs| ==> rs[i] == rs[1..][i - 1];
    }
  }

  lemma {:induction false} GoodWeaken(c: Codec, hdr: nat, prev: Option<nat>, lower: Option<nat>, rs: seq<Raw>)
    requires GoodAfter(c, hdr, prev, rs)
    requires lower.Some? ==> prev.Some? && lower.value <= prev.value
    ensures GoodAfter(c, hdr, lower, rs)
  {
  }

  function AboveRaw(rs: seq<Raw>, keep: nat): seq<Raw> {
    if rs == [] then [] else (if rs[0].seqNo > keep then [rs[0]] else []) + AboveRaw(rs[1..], keep)
  }

  /** Dropping records from a good list leaves a good list. */
  lemma {:induction false} AboveGood(c: Codec, hdr: nat, prev: Option<nat>, rs: seq<Raw>, keep: nat)
    requires GoodAfter(c, hdr, prev, rs)
    ensures GoodAfter(c, hdr, prev, AboveRaw(rs, keep))
    decreases |rs|
  {
    if rs != [] {
      AboveGood(c, hdr, Some(rs[0].seqNo), rs[1..], keep);
      var rest := AboveRaw(rs[1..], keep);
      if rs[0].seqNo > keep {
        assert AboveRaw(rs, keep) == [rs[0]] + rest;
        assert AboveRaw(rs, keep)[1..] == rest;
      } else {
        assert AboveRaw(rs, keep) == rest;
        GoodWeaken(c, hdr, Some(rs[0].seqNo), prev, rest);
      }
    }
  }

  lemma {:induction false} AboveMembers(rs: seq<Raw>, keep: nat)
    ensures forall r :: r in AboveRaw(rs, keep) ==> r in rs
  {
    if rs != [] {
      AboveMembers(rs[1..], keep);
    }
  }

  /** Pruning commutes with decoding. */
  lemma {:induction false} AboveDecoded(c: Codec, rs: seq<Raw>, keep: nat)
    requires Decodable(c, rs)
    ensures Decodable(c, AboveRaw(rs, keep))
    ensures Decoded(c, AboveRaw(rs, keep)) == W.Above(Decoded(c, rs), keep)
  {
    AboveMembers(rs, keep);
    if rs != [] {
      AboveDecoded(c, rs[1..], keep);
      assert Decoded(c, rs)[1..] == Decoded(c, rs[1..]);
      var rest := AboveRaw(rs[1..], keep);
      if rs[0].seqNo > keep {
        assert AboveRaw(rs, keep)[1..] == rest;
      } else {
        assert AboveRaw(rs, keep) == rest;
      }
    }
  }

  lemma {:induction false} AboveStep(rs: seq<Raw>, r: Raw, keep: nat)
    ensures AboveRaw(rs + [r], keep) == AboveRaw(rs, keep) + if r.seqNo > keep then [r] else []
  {
    if rs != [] {
      assert (rs + [r])[1..] == rs[1..] + [r];
      AboveStep(rs[1..], r, keep);
    } else {
      assert (rs + [r])[1..] == [];
    }
  }

  lemma {:induction false} SelectStep(ds: seq<W.WalRecord>, d: W.WalRecord, from: nat, to: nat)
    ensures W.Select(ds + [d], from, to) == W.Select(ds, from, to) + if from <= d.seqNo <= to then [d] else []
  {
    if ds != [] {
      assert (ds + [d])[1..] == ds[1..] + [d];
      SelectStep(ds[1..], d, from, to);
    } else {
      assert (ds + [d])[1..] == [];
    }
  }

  lemma {:induction false} SelectNone(ds: seq<W.WalRecord>, from: nat, to: nat)
    requires forall d :: d in ds ==> d.seqNo > to
    ensures W.Select(ds, from, to) == []
  {
    if ds != [] {
      SelectNone(ds[1..], from, to);
    }
  }

  lemma {:induction false} SelectConcat(a: seq<W.WalRecord>, b: seq<W.WalRecord>, from: nat, to: nat)
    ensures W.Select(a + b, from, to) == W.Select(a, from, to) + W.Select(b, from, to)
  {
    if a == [] {
      assert a + b == b;
    } else {
      assert (a + b)[1..] == a[1..] + b;
      SelectConcat(a[1..], b, from, to);
    }
  }

  function LastOf(rs: seq<Raw>): nat {
    if rs == [] then 0 else rs[|rs| - 1].seqNo
  }

  // ---------------------------------------------------------------------------------------------
  // Recovery
  // ---------------------------------------------------------------------------------------------

  /** The scanned records of a file with a good header. */
  ghost function Stored(c: Codec, hdr: nat, f: seq<Byte>): seq<Raw>
    requires |f| >= HEADER_LEN
  {
    Scan(c, hdr, None, f[HEADER_LEN..])
  }

  /** `scan`: where the valid log ends, how many records it holds, and the last one's number. */
  method ScanFile(c: Codec, hdr: nat, f: seq<Byte>) returns (end: nat, count: nat, last: nat)
    requires |f| >= HEADER_LEN
    ensures HEADER_LEN <= end <= |f|
    ensures f[HEADER_LEN..end] == Frames(c, Stored(c, hdr, f))
    ensures count == |Stored(c, hdr, f)| && last == LastOf(Stored(c, hdr, f))
  {
    hide Parse, Frame, Frames, Scan;
    end, count, last := HEADER_LEN, 0, 0;
    var prev: Option<nat> := None;
    ghost var done: seq<Raw> := [];
    assert Frames(c, done) == [] by { NoFrames(c); }
    while end + RECORD_HEADER_LEN <= |f|
      invariant HEADER_LEN <= end <= |f|
      invariant f[HEADER_LEN..end] == Frames(c, done)
      invariant Stored(c, hdr, f) == done + Scan(c, hdr, prev, f[end..])
      invariant count == |done| && last == LastOf(done)
      decreases |f| - end
    {
      ScanStep(c, hdr, prev, f[end..]);
      var p := Parse(c, hdr, prev, f[end..]);
      if p.None? {
        assert done + [] == done;
        return;
      }
      var n := FrameLen(p.value);
      OneMoreFrame(c, done, p.value);
      assert f[HEADER_LEN..end + n] == f[HEADER_LEN..end] + f[end..][..n];
      assert f[end..][n..] == f[end + n..];
      done := done + [p.value];
      end := end + n;
      count := count + 1;
      last := p.value.seqNo;
      prev := Some(p.value.seqNo);
    }
    ScanOfLittle(c, hdr, prev, f[end..]);
    assert done + [] == done;
  }

  lemma NoFrames(c: Codec)
    ensures Frames(c, []) == []
  {
  }

  // ---------------------------------------------------------------------------------------------
  // The open file
  // ---------------------------------------------------------------------------------------------

  class Wal {
    const codec: Codec
    var file: seq<Byte>
    var headerEpoch: nat
    var lastSeq: nat
    var len: nat
    var fileLen: nat

    ghost function Raws(): seq<Raw>
      reads this
      requires |file| >= HEADER_LEN
    {
      Stored(codec, headerEpoch, file)
    }

    /** The file is a header and whole records, and the cached numbers describe it. */
    ghost predicate Valid()
      reads this
    {
      && codec.Sound()
      && headerEpoch < Span(8)
      && |file| >= HEADER_LEN && fileLen == |file|
      && ReadHeader(codec, file) == Ok(headerEpoch)
      && file[HEADER_LEN..] == Frames(codec, Raws())
      && len == |Raws()|
      && (len > 0 ==> lastSeq == LastOf(Raws()))
    }

    lemma StoredIsGood()
      requires Valid()
      ensures GoodAfter(codec, headerEpoch, None, Raws()) && Decodable(codec, Raws())
    {
      ScanSound(codec, headerEpoch, None, file[HEADER_LEN..]);
      GoodDecodes(codec, headerEpoch, None, Raws());
    }

    /** The log this file stands for. */
    ghost function View(): W.Log
      reads this
      requires Valid()
    {
      StoredIsGood();
      W.Log(headerEpoch, Decoded(codec, Raws()), lastSeq)
    }

    constructor (c: Codec, f: seq<Byte>, epoch: nat, last: nat, count: nat)
      ensures codec == c && file == f && headerEpoch == epoch && lastSeq == last && len == count && fileLen == |f|
    {
      codec, file, headerEpoch, lastSeq, len, fileLen := c, f, epoch, last, count, |f|;
    }

    /**
     `open` on arbitrary bytes: an empty file gets a header, a bad header is refused, anything else
     is cut back to its longest valid record prefix.
     */
    static method Open(c: Codec, f: seq<Byte>, epoch: nat, startSeq: Option<nat>) returns (r: Result<Wal, string>)
      requires c.Sound() && epoch < Span(8)
      ensures r.Err? <==> f != [] && ReadHeader(c, f).Err?
      ensures r.Ok? ==> r.value.Valid() && r.value.codec == c && fresh(r.value)
      ensures r.Ok? && f == [] ==> r.value.View() == W.Open(epoch, [], startSeq)
      ensures r.Ok? && f != [] ==>
                var hdr := ReadHeader(c, f).value;
                && |f| >= HEADER_LEN
                && r.value.headerEpoch == hdr
                && r.value.file == f[..HEADER_LEN] + Frames(c, Stored(c, hdr, f))
                && r.value.Raws() == Stored(c, hdr, f)
                && r.value.View() == W.Open(hdr, r.value.View().records, startSeq)
    {
      hide Header, ReadHeader, Frames, Stored, Decoded, GoodAfter, Scan;
      if f == [] {
        EmptyFile(c, epoch);
        var last := if startSeq.Some? && startSeq.value > 0 then startSeq.value - 1 else 0;
        var w := new Wal(c, Header(c, epoch), epoch, last, 0);
        return Ok(w);
      }
      var h := ReadHeader(c, f);
      if h.Err? {
        return Err(h.error);
      }
      HeaderEpochFits(c, f);
      var end, count, last := ScanFile(c, h.value, f);
      var g := f[..end];
      assert g == f[..HEADER_LEN] + f[HEADER_LEN..end];
      KeptFile(c, h.value, f, g);
      if count == 0 && startSeq.Some? && startSeq.value > 0 {
        last := startSeq.value - 1;
      }
      var w := new Wal(c, g, h.value, last, count);
      r := Ok(w);
    }

    /** `append`: the record is refused only if it is too long for its length field. */
    method Append(op: Operation) returns (r: Result<W.WalRecord, string>)
      requires Valid() && lastSeq + 1 < Span(8)
      modifies this
      ensures Valid()
      ensures r.Err? <==> RECORD_HEADER_LEN + |codec.encode(op)| >= Span(4)
      ensures r.Err? ==> View() == old(View()) && file == old(file)
      ensures r.Ok? ==> View() == W.Append(old(View()), op)
      ensures r.Ok? ==> r.value == W.WalRecord(old(lastSeq) + 1, old(headerEpoch), op)
      ensures r.Ok? ==> file == old(file) + Frame(codec, Raw(old(lastSeq) + 1, old(headerEpoch), codec.encode(op)))
    {
      hide Parse, Frame, Frames, Scan, ReadHeader, Decoded;
      var payload := codec.encode(op);
      Spans();
      if RECORD_HEADER_LEN + |payload| > 0xFFFF_FFFF {
        return Err("record too large for WAL framing");
      }
      var raw := Raw(lastSeq + 1, headerEpoch, payload);
      ghost var raws, rest := Raws(), file[HEADER_LEN..];
      StoredIsGood();
      AppendOne(codec, headerEpoch, raws, raw);
      AppendDecoded(codec, raws, raw);
      file := file[..fileLen] + Frame(codec, raw);
      assert file[HEADER_LEN..] == rest + Frame(codec, raw);
      SameHeader(codec, old(file), file);
      fileLen := fileLen + FrameLen(raw);
      lastSeq := lastSeq + 1;
      len := len + 1;
      r := Ok(W.WalRecord(raw.seqNo, raw.epoch, op));
    }

    /** `read_range`: never reports corruption, and returns exactly the records in range, in order. */
    method ReadRange(from: nat, to: nat) returns (r: Result<seq<W.WalRecord>, string>)
      requires Valid()
      ensures r.Ok? && r.value == W.Select(View().records, from, to)
    {
      hide Parse, Frame, Frames, Scan, ReadHeader, Decoded, W.Select, GoodAfter;
      StoredIsGood();
      ghost var raws, ds := Raws(), Decoded(codec, Raws());
      if from > to {
        SelectEmptyRange(ds, from, to);
        return Ok([]);
      }
      var f, hdr := file, headerEpoch;
      var out: seq<W.WalRecord> := [];
      var offset := HEADER_LEN;
      var prev: Option<nat> := None;
      ghost var i := 0;
      SelectNone([], from, to);
      while offset + RECORD_HEADER_LEN <= |f|
        invariant 0 <= i <= |raws| && HEADER_LEN <= offset <= |f|
        invariant f[offset..] == Frames(codec, raws[i..])
        invariant GoodAfter(codec, hdr, prev, raws[i..])
        invariant out == W.Select(ds[..i], from, to)
        decreases |f| - offset
      {
        FramesLeft(codec, raws[i..]);
        FrontRecord(codec, hdr, prev, raws[i..]);
        ghost var raw := raws[i..][0];
        var b := f[offset..];
        var recordLen, storedCrc := FromLe(b[0..4]), FromLe(b[4..8]);
        var seqNo, epoch := FromLe(b[8..16]), FromLe(b[16..24]);
        assert recordLen == FrameLen(raw) && seqNo == raw.seqNo && epoch == raw.epoch;
        if recordLen < RECORD_HEADER_LEN || offset + recordLen > |f| {
          assert false;
        }
        if epoch < hdr {
          assert false;
        }
        if prev.Some? && seqNo <= prev.value {
          assert false;
        }
        prev := Some(seqNo);
        var payload := b[24..recordLen];
        if codec.crc(payload) != storedCrc {
          assert false;
        }
        DecodedAt(codec, raws, i);
        SelectStep(ds[..i], Decode(codec, raw), from, to);
        if seqNo >= from {
          if seqNo > to {
            RestAbove(codec, hdr, raws, i, from, to);
            return Ok(out);
          }
          out := out + [W.WalRecord(seqNo, epoch, codec.decode(payload).value)];
        } else {
          assert out + [] == out;
        }
        assert raws[i..][1..] == raws[i + 1..];
        assert b[recordLen..] == f[offset + recordLen..];
        offset := offset + recordLen;
        i := i + 1;
      }
      FramesLeft(codec, raws[i..]);
      assert ds[..i] == ds;
      r := Ok(out);
    }

    /** `prune`: the file is rewritten with exactly the records above the watermark, byte for byte. */
    method Prune(keep: nat)
      requires Valid()
      modifies this
      ensures Valid() && View() == W.Prune(old(View()), keep)
      ensures file == Header(codec, headerEpoch) + Frames(codec, AboveRaw(old(Raws()), keep))
    {
      hide Parse, Frame, Frames, Scan, ReadHeader, Decoded, W.Above, GoodAfter, AboveRaw, Header;
      StoredIsGood();
      ghost var raws := Raws();
      var f, hdr := file, headerEpoch;
      var tmp := Header(codec, hdr);
      var offset := HEADER_LEN;
      ghost var i := 0;
      ghost var prev: Option<nat> := None;
      NothingKept(codec, keep);
      while offset + RECORD_HEADER_LEN <= |f|
        invariant 0 <= i <= |raws| && HEADER_LEN <= offset <= |f|
        invariant f[offset..] == Frames(codec, raws[i..])
        invariant GoodAfter(codec, hdr, prev, raws[i..])
        invariant unchanged(this)
        invariant tmp == Header(codec, hdr) + Frames(codec, AboveRaw(raws[..i], keep))
        decreases |f| - offset
      {
        FramesLeft(codec, raws[i..]);
        FrontRecord(codec, hdr, prev, raws[i..]);
        ghost var raw := raws[i..][0];
        var b := f[offset..];
        var recordLen, seqNo := FromLe(b[0..4]), FromLe(b[8..16]);
        assert raws[..i + 1] == raws[..i] + [raw];
        AboveStep(raws[..i], raw, keep);
        if seqNo > keep {
          OneMoreFrame(codec, AboveRaw(raws[..i], keep), raw);
          tmp := tmp + b[..recordLen];
        } else {
          assert AboveRaw(raws[..i], keep) + [] == AboveRaw(raws[..i], keep);
        }
        assert raws[i..][1..] == raws[i + 1..];
        assert b[recordLen..] == f[offset + recordLen..];
        prev := Some(raw.seqNo);
        offset := offset + recordLen;
        i := i + 1;
      }
      FramesLeft(codec, raws[i..]);
      assert raws[..i] == raws;
      Replace(tmp, keep);
    }

    /** The rewritten file takes the old one's place and is scanned again. */
    method Replace(tmp: seq<Byte>, ghost keep: nat)
      requires Valid() && tmp == Header(codec, headerEpoch) + Frames(codec, AboveRaw(Raws(), keep))
      modifies this
      ensures Valid() && file == tmp && headerEpoch == old(headerEpoch)
      ensures View() == W.Prune(old(View()), keep)
    {
      hide Parse, Frame, Frames, Scan, ReadHeader, Decoded, W.Above, GoodAfter, AboveRaw, Header;
      StoredIsGood();
      ghost var raws := Raws();
      PrunedFile(codec, headerEpoch, raws, keep, tmp);
      AboveDecoded(codec, raws, keep);
      file := tmp;
      var end, count, last := ScanFile(codec, headerEpoch, tmp);
      WholeScanned(codec, headerEpoch, tmp, end);
      fileLen, len, lastSeq := end, count, last;
    }
  }

  // ---------------------------------------------------------------------------------------------
  // Lemmas for the methods
  // ---------------------------------------------------------------------------------------------

  lemma HeaderEpochFits(c: Codec, f: seq<Byte>)
    requires ReadHeader(c, f).Ok?
    ensures |f| >= HEADER_LEN && ReadHeader(c, f).value < Span(8)
  {
  }

  /** A header alone is a log without records. */
  lemma EmptyFile(c: Codec, epoch: nat)
    requires c.Sound() && epoch < Span(8)
    ensures |Header(c, epoch)| == HEADER_LEN && ReadHeader(c, Header(c, epoch)) == Ok(epoch)
    ensures Stored(c, epoch, Header(c, epoch)) == [] && Header(c, epoch)[HEADER_LEN..] == Frames(c, [])
  {
    hide Header, ReadHeader, Scan;
    ReadHeaderOfHeader(c, epoch, []);
    assert Header(c, epoch) + [] == Header(c, epoch);
    ScanOfLittle(c, epoch, None, []);
  }

  /** A file cut back to its scanned records scans to the same records. */
  lemma KeptFile(c: Codec, hdr: nat, f: seq<Byte>, g: seq<Byte>)
    requires c.Sound() && |f| >= HEADER_LEN && ReadHeader(c, f) == Ok(hdr)
    requires g == f[..HEADER_LEN] + Frames(c, Stored(c, hdr, f))
    ensures ReadHeader(c, g) == Ok(hdr) && Stored(c, hdr, g) == Stored(c, hdr, f)
    ensures g[HEADER_LEN..] == Frames(c, Stored(c, hdr, g))
  {
    hide ReadHeader, Frames, Scan;
    ScanIdempotent(c, hdr, None, f[HEADER_LEN..]);
    assert g[HEADER_LEN..] == Frames(c, Stored(c, hdr, f));
    assert g[..HEADER_LEN] == f[..HEADER_LEN];
    SameHeader(c, f, g);
  }

  lemma SameHeader(c: Codec, f: seq<Byte>, g: seq<Byte>)
    requires |f| >= HEADER_LEN && |g| >= HEADER_LEN && f[..HEADER_LEN] == g[..HEADER_LEN]
    ensures ReadHeader(c, f) == ReadHeader(c, g)
  {
    assert f[0..4] == f[..HEADER_LEN][0..4] && g[0..4] == g[..HEADER_LEN][0..4];
    assert f[4..6] == f[..HEADER_LEN][4..6] && g[4..6] == g[..HEADER_LEN][4..6];
    assert f[6..14] == f[..HEADER_LEN][6..14] && g[6..14] == g[..HEADER_LEN][6..14];
    assert f[0..14] == f[..HEADER_LEN][0..14] && g[0..14] == g[..HEADER_LEN][0..14];
    assert f[14..18] == f[..HEADER_LEN][14..18] && g[14..18] == g[..HEADER_LEN][14..18];
  }

  lemma OneFrame(c: Codec, r: Raw)
    ensures Frames(c, [r]) == Frame(c, r)
  {
    assert [r][1..] == [];
    assert Frames(c, [r]) == Frame(c, r) + [];
  }

  lemma OneMoreFrame(c: Codec, rs: seq<Raw>, r: Raw)
    ensures Frames(c, rs + [r]) == Frames(c, rs) + Frame(c, r)
  {
    FramesConcat(c, rs, [r]);
    OneFrame(c, r);
  }

  /** The file after one more frame scans to one more record. */
  lemma AppendOne(c: Codec, hdr: nat, rs: seq<Raw>, r: Raw)
    requires c.Sound() && GoodAfter(c, hdr, None, rs)
    requires Fits(r) && Acceptable(c, hdr, LastAfter(None, rs), r)
    ensures Scan(c, hdr, None, Frames(c, rs) + Frame(c, r)) == rs + [r]
    ensures Frames(c, rs + [r]) == Frames(c, rs) + Frame(c, r)
  {
    hide Scan, Parse, Frames, Frame;
    var last := LastAfter(None, rs);
    ScanOfFrames(c, hdr, None, rs, Frame(c, r));
    ScanOfFrame(c, hdr, last, r, []);
    ScanOfLittle(c, hdr, Some(r.seqNo), []);
    assert Frame(c, r) + [] == Frame(c, r);
    assert [r] + [] == [r];
    OneMoreFrame(c, rs, r);
  }

  /** The fields of a frame at the front of some bytes. */
  lemma FrameFields(c: Codec, r: Raw, rest: seq<Byte>)
    requires c.Sound() && Fits(r)
    ensures var b := Frame(c, r) + rest;
            && FromLe(b[0..4]) == FrameLen(r) && FromLe(b[4..8]) == c.crc(r.payload)
            && FromLe(b[8..16]) == r.seqNo && FromLe(b[16..24]) == r.epoch
            && b[24..FrameLen(r)] == r.payload
            && b[..FrameLen(r)] == Frame(c, r)
            && b[FrameLen(r)..] == rest
  {
    hide Le, FromLe, Span;
    var b := Frame(c, r) + rest;
    FromLeOfLe(FrameLen(r), 4);
    FromLeOfLe(c.crc(r.payload), 4);
    FromLeOfLe(r.seqNo, 8);
    FromLeOfLe(r.epoch, 8);
    assert b[0..4] == Le(FrameLen(r), 4);
    assert b[4..8] == Le(c.crc(r.payload), 4);
    assert b[8..16] == Le(r.seqNo, 8);
    assert b[16..24] == Le(r.epoch, 8);
  }

  /** The header fields of the first record of a good log. */
  lemma FrontRecord(c: Codec, hdr: nat, prev: Option<nat>, rs: seq<Raw>)
    requires c.Sound() && rs != [] && GoodAfter(c, hdr, prev, rs)
    ensures var b, r := Frames(c, rs), rs[0];
            && |b| >= FrameLen(r)
            && FromLe(b[0..4]) == FrameLen(r) && FromLe(b[4..8]) == c.crc(r.payload)
            && FromLe(b[8..16]) == r.seqNo && FromLe(b[16..24]) == r.epoch
            && b[24..FrameLen(r)] == r.payload
            && b[..FrameLen(r)] == Frame(c, r)
            && b[FrameLen(r)..] == Frames(c, rs[1..])
            && Acceptable(c, hdr, prev, r)
            && GoodAfter(c, hdr, Some(r.seqNo), rs[1..])
  {
    hide Le, FromLe, Span, Frame, Acceptable, Fits;
    FrameFields(c, rs[0], Frames(c, rs[1..]));
  }

  lemma FramesLeft(c: Codec, rs: seq<Raw>)
    ensures rs == [] ==> |Frames(c, rs)| == 0
    ensures rs != [] ==> |Frames(c, rs)| >= RECORD_HEADER_LEN
  {
  }

  lemma NothingKept(c: Codec, keep: nat)
    ensures Frames(c, AboveRaw([], keep)) == []
  {
  }

  lemma AppendDecoded(c: Codec, rs: seq<Raw>, r: Raw)
    requires Decodable(c, rs) && c.decode(r.payload).Some?
    ensures Decodable(c, rs + [r]) && Decoded(c, rs + [r]) == Decoded(c, rs) + [Decode(c, r)]
  {
  }

  lemma DecodedAt(c: Codec, rs: seq<Raw>, i: nat)
    requires Decodable(c, rs) && i < |rs|
    ensures rs[i..][0] == rs[i] && c.decode(rs[i].payload).Some?
    ensures |Decoded(c, rs)| == |rs| && Decoded(c, rs)[..i + 1] == Decoded(c, rs)[..i] + [Decode(c, rs[i])]
  {
  }

  /** A file that is a header and its own scanned frames is scanned to its end. */
  lemma WholeScanned(c: Codec, hdr: nat, f: seq<Byte>, end: nat)
    requires |f| >= HEADER_LEN && HEADER_LEN <= end <= |f|
    requires f[HEADER_LEN..end] == Frames(c, Stored(c, hdr, f)) == f[HEADER_LEN..]
    ensures end == |f|
  {
    assert |f[HEADER_LEN..end]| == end - HEADER_LEN;
    assert |f[HEADER_LEN..]| == |f| - HEADER_LEN;
  }

  lemma SelectEmptyRange(ds: seq<W.WalRecord>, from: nat, to: nat)
    requires from > to
    ensures W.Select(ds, from, to) == []
  {
  }

  /** Once a record is above the range, so are all later ones. */
  lemma RestAbove(c: Codec, hdr: nat, raws: seq<Raw>, i: nat, from: nat, to: nat)
    requires GoodAfter(c, hdr, None, raws) && Decodable(c, raws) && i < |raws| && raws[i].seqNo > to
    ensures W.Select(Decoded(c, raws), from, to) == W.Select(Decoded(c, raws)[..i], from, to)
  {
    hide GoodAfter, W.Select, Decoded;
    var ds := Decoded(c, raws);
    LaterAbove(c, hdr, raws, i, to);
    SelectNone(ds[i..], from, to);
    SelectConcat(ds[..i], ds[i..], from, to);
    assert ds == ds[..i] + ds[i..];
    assert W.Select(ds[..i], from, to) + [] == W.Select(ds[..i], from, to);
  }

  lemma LaterAbove(c: Codec, hdr: nat, raws: seq<Raw>, i: nat, to: nat)
    requires GoodAfter(c, hdr, None, raws) && Decodable(c, raws) && i < |raws| && raws[i].seqNo > to
    ensures forall d :: d in Decoded(c, raws)[i..] ==> d.seqNo > to
  {
    GoodIncreases(c, hdr, None, raws);
    hide GoodAfter, Acceptable;
    var ds := Decoded(c, raws);
    forall k | 0 <= k < |ds[i..]|
      ensures ds[i..][k].seqNo > to
    {
      assert ds[i..][k] == Decode(c, raws[i + k]);
      assert raws[i + k].seqNo >= raws[i].seqNo;
    }
  }

  /** The rewritten file scans back to the kept records. */
  lemma PrunedFile(c: Codec, hdr: nat, raws: seq<Raw>, keep: nat, tmp: seq<Byte>)
    requires c.Sound() && hdr < Span(8) && GoodAfter(c, hdr, None, raws)
    requires tmp == Header(c, hdr) + Frames(c, AboveRaw(raws, keep))
    ensures ReadHeader(c, tmp) == Ok(hdr)
    ensures Stored(c, hdr, tmp) == AboveRaw(raws, keep) && tmp[HEADER_LEN..] == Frames(c, Stored(c, hdr, tmp))
  {
    hide Scan, Parse, Frames, Frame, Header, ReadHeader, AboveRaw;
    var kept := AboveRaw(raws, keep);
    ReadHeaderOfHeader(c, hdr, Frames(c, kept));
    AboveGood(c, hdr, None, raws, keep);
    ScanOfFrames(c, hdr, None, kept, []);
    ScanOfLittle(c, hdr, LastAfter(None, kept), []);
    assert tmp[HEADER_LEN..] == Frames(c, kept);
    assert Frames(c, kept) + [] == Frames(c, kept);
    assert kept + [] == kept;
  }

  // ---------------------------------------------------------------------------------------------
  // A torn batch, reopened
  // ---------------------------------------------------------------------------------------------

  /** The records a batch of operations is written as. */
  function RawBatch(c: Codec, epoch: nat, last: nat, ops: seq<Operation>): seq<Raw>
    decreases |ops|
  {
    if ops == [] then [] else [Raw(last + 1, epoch, c.encode(ops[0]))] + RawBatch(c, epoch, last + 1, ops[1..])
  }

  /** Every frame of the batch fits its fields. */
  predicate BatchFits(c: Codec, epoch: nat, last: nat, ops: seq<Operation>) {
    && epoch < Span(8) && last + |ops| < Span(8)
    && forall i :: 0 <= i < |ops| ==> RECORD_HEADER_LEN + |c.encode(ops[i])| < Span(4)
  }

  lemma {:induction false} RawBatchGood(c: Codec, epoch: nat, prev: Option<nat>, last: nat, ops: seq<Operation>)
    requires c.Sound() && BatchFits(c, epoch, last, ops) && (prev.Some? ==> prev.value <= last)
    ensures GoodAfter(c, epoch, prev, RawBatch(c, epoch, last, ops))
    ensures |RawBatch(c, epoch, last, ops)| == |ops|
    decreases |ops|
  {
    if ops != [] {
      var r := Raw(last + 1, epoch, c.encode(ops[0]));
      var rest := RawBatch(c, epoch, last + 1, ops[1..]);
      assert forall i :: 0 <= i < |ops[1..]| ==> ops[1..][i] == ops[i + 1];
      assert RECORD_HEADER_LEN + |c.encode(ops[0])| < Span(4);
      RawBatchGood(c, epoch, Some(last + 1), last + 1, ops[1..]);
      assert ([r] + rest)[1..] == rest;
    }
  }

  lemma {:induction false} RawBatchPrefix(c: Codec, epoch: nat, last: nat, ops: seq<Operation>, i: nat)
    requires i <= |ops|
    ensures |RawBatch(c, epoch, last, ops)| == |ops|
    ensures RawBatch(c, epoch, last, ops)[..i] == RawBatch(c, epoch, last, ops[..i])
    decreases |ops|
  {
    if ops == [] {
      assert ops[..i] == [];
    } else {
      var r := Raw(last + 1, epoch, c.encode(ops[0]));
      RawBatchPrefix(c, epoch, last + 1, ops[1..], if i > 0 then i - 1 else 0);
      if i > 0 {
        assert ops[..i][1..] == ops[1..][..i - 1];
        assert ([r] + RawBatch(c, epoch, last + 1, ops[1..]))[..i] == [r] + RawBatch(c, epoch, last + 1, ops[1..])[..i - 1];
      } else {
        assert ops[..i] == [];
      }
    }
  }

  lemma {:induction false} RawBatchDecodes(c: Codec, l: W.Log, ops: seq<Operation>)
    requires c.Sound()
    ensures Decodable(c, RawBatch(c, l.epoch, l.lastSeq, ops))
    ensures W.AppendAll(l, ops) ==
            W.Log(l.epoch, l.records + Decoded(c, RawBatch(c, l.epoch, l.lastSeq, ops)), l.lastSeq + |ops|)
    decreases |ops|
  {
    if ops == [] {
      assert l.records + [] == l.records;
    } else {
      hide W.AppendAll, RawBatch, Decoded;
      var l1 := W.Append(l, ops[0]);
      var rest := RawBatch(c, l.epoch, l.lastSeq + 1, ops[1..]);
      RawBatchDecodes(c, l1, ops[1..]);
      W.AppendAllHead(l, ops);
      RawBatchHead(c, l.epoch, l.lastSeq, ops);
      OneDecoded(c, l, ops[0], rest);
    }
  }

  lemma OneDecoded(c: Codec, l: W.Log, op: Operation, rest: seq<Raw>)
    requires c.Sound() && Decodable(c, rest)
    ensures var r := Raw(l.lastSeq + 1, l.epoch, c.encode(op));
            && Decodable(c, [r] + rest)
            && l.records + Decoded(c, [r] + rest) == W.Append(l, op).records + Decoded(c, rest)
  {
    hide Decoded, Decodable;
    var r := Raw(l.lastSeq + 1, l.epoch, c.encode(op));
    assert c.decode(r.payload) == Some(op);
    DecodedHead(c, r, rest);
    Associate(l.records, [Decode(c, r)], Decoded(c, rest));
  }

  lemma Associate(a: seq<W.WalRecord>, b: seq<W.WalRecord>, c: seq<W.WalRecord>)
    ensures a + (b + c) == a + b + c
  {
  }

  lemma RawBatchHead(c: Codec, epoch: nat, last: nat, ops: seq<Operation>)
    requires ops != []
    ensures RawBatch(c, epoch, last, ops) ==
            [Raw(last + 1, epoch, c.encode(ops[0]))] + RawBatch(c, epoch, last + 1, ops[1..])
  {
  }

  lemma DecodedHead(c: Codec, r: Raw, rest: seq<Raw>)
    requires c.decode(r.payload).Some? && Decodable(c, rest)
    ensures Decodable(c, [r] + rest) && Decoded(c, [r] + rest) == [Decode(c, r)] + Decoded(c, rest)
  {
    assert ([r] + rest)[1..] == rest;
  }

  /**
   A crash that lets only the first j bytes of a batch through is, after reopening, exactly the log
   with the first whole operations of the batch appended: nothing is lost, nothing invented, and
   appends continue at the following number.  The log may be empty and continue at `startSeq`, as
   after a checkpoint that pruned it.
   */
  lemma TornBatchReopens(c: Codec, hdr: nat, olds: seq<Raw>, startSeq: Option<nat>, ops: seq<Operation>, j: nat)
    requires c.Sound() && hdr < Span(8) && GoodAfter(c, hdr, None, olds)
    ensures Decodable(c, olds)
    ensures var l := W.Open(hdr, Decoded(c, olds), startSeq);
            var batch := RawBatch(c, hdr, l.lastSeq, ops);
            BatchFits(c, hdr, l.lastSeq, ops) && j <= |Frames(c, batch)| ==>
              var k := Whole(batch, j);
              var f := Header(c, hdr) + Frames(c, olds) + Frames(c, batch)[..j];
              && k <= |ops|
              && ReadHeader(c, f) == Ok(hdr)
              && Decodable(c, Stored(c, hdr, f))
              && W.Open(hdr, Decoded(c, Stored(c, hdr, f)), startSeq) == W.AppendAll(l, ops[..k])
  {
    hide Scan, Parse, Frames, Frame, Header, ReadHeader, RawBatch, GoodAfter, BatchFits, Decoded, W.AppendAll, Whole, W.Open, Stored;
    GoodDecodes(c, hdr, None, olds);
    var l := W.Open(hdr, Decoded(c, olds), startSeq);
    var batch := RawBatch(c, hdr, l.lastSeq, ops);
    if BatchFits(c, hdr, l.lastSeq, ops) && j <= |Frames(c, batch)| {
      var k := Whole(batch, j);
      OpenLast(c, hdr, olds, startSeq);
      RawBatchPrefix(c, hdr, l.lastSeq, ops, 0);
      RawBatchPrefix(c, hdr, l.lastSeq, ops, k);
      TornStored(c, hdr, olds, l.lastSeq, ops, j);
      RawBatchDecodes(c, l, ops[..k]);
      DecodedConcat(c, olds, batch[..k]);
      OpenAppended(c, hdr, olds, startSeq, ops[..k]);
    }
  }

  /** Appends continue above every stored record. */
  lemma OpenLast(c: Codec, hdr: nat, olds: seq<Raw>, startSeq: Option<nat>)
    requires GoodAfter(c, hdr, None, olds) && Decodable(c, olds)
    ensures W.Open(hdr, Decoded(c, olds), startSeq).records == Decoded(c, olds)
    ensures W.Open(hdr, Decoded(c, olds), startSeq).epoch == hdr
    ensures olds != [] ==> W.Open(hdr, Decoded(c, olds), startSeq).lastSeq == LastOf(olds)
    ensures LastAfter(None, olds).Some? ==> LastAfter(None, olds).value <= W.Open(hdr, Decoded(c, olds), startSeq).lastSeq
  {
    hide GoodAfter;
  }

  /** What a scan of the torn file finds. */
  lemma TornStored(c: Codec, hdr: nat, olds: seq<Raw>, last: nat, ops: seq<Operation>, j: nat)
    requires c.Sound() && hdr < Span(8) && GoodAfter(c, hdr, None, olds) && BatchFits(c, hdr, last, ops)
    requires LastAfter(None, olds).Some? ==> LastAfter(None, olds).value <= last
    requires j <= |Frames(c, RawBatch(c, hdr, last, ops))|
    ensures var batch := RawBatch(c, hdr, last, ops);
            var f := Header(c, hdr) + Frames(c, olds) + Frames(c, batch)[..j];
            && ReadHeader(c, f) == Ok(hdr)
            && Stored(c, hdr, f) == olds + batch[..Whole(batch, j)]
  {
    hide Scan, Parse, Frames, Frame, Header, ReadHeader, RawBatch, GoodAfter, BatchFits, Whole;
    var batch := RawBatch(c, hdr, last, ops);
    RawBatchGood(c, hdr, LastAfter(None, olds), last, ops);
    GoodConcat(c, hdr, None, olds, batch);
    TornAppend(c, hdr, olds, batch, j);
    var tail := Frames(c, olds) + Frames(c, batch)[..j];
    var f := Header(c, hdr) + Frames(c, olds) + Frames(c, batch)[..j];
    assert f == Header(c, hdr) + tail;
    ReadHeaderOfHeader(c, hdr, tail);
    assert f[HEADER_LEN..] == tail;
  }

  /** Opening the log with some operations of a batch appended. */
  lemma OpenAppended(c: Codec, hdr: nat, olds: seq<Raw>, startSeq: Option<nat>, ops: seq<Operation>)
    requires Decodable(c, olds)
    requires var l := W.Open(hdr, Decoded(c, olds), startSeq); Decodable(c, RawBatch(c, hdr, l.lastSeq, ops))
    ensures var l := W.Open(hdr, Decoded(c, olds), startSeq);
            var ds := Decoded(c, olds) + Decoded(c, RawBatch(c, hdr, l.lastSeq, ops));
            W.Open(hdr, ds, startSeq) == W.Log(hdr, ds, l.lastSeq + |ops|)
  {
    hide Decoded, RawBatch, W.Open;
    var l := W.Open(hdr, Decoded(c, olds), startSeq);
    var batch := RawBatch(c, hdr, l.lastSeq, ops);
    LastOfBatch(c, hdr, l.lastSeq, ops);
    DecodedLast(c, batch);
    OpenGrown(hdr, Decoded(c, olds), Decoded(c, batch), startSeq);
  }

  /** Opening after more records were appended in sequence. */
  lemma OpenGrown(hdr: nat, a: seq<W.WalRecord>, b: seq<W.WalRecord>, startSeq: Option<nat>)
    requires b != [] ==> b[|b| - 1].seqNo == W.Open(hdr, a, startSeq).lastSeq + |b|
    ensures W.Open(hdr, a + b, startSeq) == W.Log(hdr, a + b, W.Open(hdr, a, startSeq).lastSeq + |b|)
  {
    if b == [] {
      assert a + b == a;
    } else {
      assert (a + b)[|a + b| - 1] == b[|b| - 1];
    }
  }

  lemma DecodedLast(c: Codec, rs: seq<Raw>)
    requires Decodable(c, rs)
    ensures |Decoded(c, rs)| == |rs|
    ensures rs != [] ==> Decoded(c, rs)[|rs| - 1].seqNo == LastOf(rs)
  {
  }

  lemma DecodedConcat(c: Codec, a: seq<Raw>, b: seq<Raw>)
    requires Decodable(c, a) && Decodable(c, b)
    ensures Decodable(c, a + b) && Decoded(c, a + b) == Decoded(c, a) + Decoded(c, b)
  {
  }

  lemma {:induction false} LastOfBatch(c: Codec, epoch: nat, last: nat, ops: seq<Operation>)
    ensures |RawBatch(c, epoch, last, ops)| == |ops|
    ensures ops != [] ==> LastOf(RawBatch(c, epoch, last, ops)) == last + |ops|
    decreases |ops|
  {
    if ops != [] {
      LastOfBatch(c, epoch, last + 1, ops[1..]);
    }
  }
}
