/**
 The bytes of the write-ahead log: header, record frames, and the scan that finds where a file
 stops being a log.  The checksum is an arbitrary function of the payload.
 */
module WalFormat {
  import opened Core
  import opened Bytes

  const HEADER_LEN := 18
  const RECORD_HEADER_LEN := 24
  const MAGIC: seq<Byte> := [0x52, 0x4B, 0x57, 0x31]
  const VERSION := 1

  /** A stored record before its payload is decoded. */
  datatype Raw = Raw(seqNo: nat, epoch: nat, payload: seq<Byte>)

  /** The checksum and the payload codec, both foreign code. */
  datatype Codec = Codec(crc: seq<Byte> -> nat, encode: Operation -> seq<Byte>, decode: seq<Byte> -> Option<Operation>)
  {
    ghost predicate Sound() {
      && (forall b :: crc(b) < Span(4))
      && (forall op :: decode(encode(op)) == Some(op))
    }
  }

  // ---------------------------------------------------------------------------------------------
  // Header
  // ---------------------------------------------------------------------------------------------

  function HeaderBody(epoch: nat): (b: seq<Byte>)
    ensures |b| == 14
  {
    MAGIC + Le(VERSION, 2) + Le(epoch, 8)
  }

  function Header(c: Codec, epoch: nat): (b: seq<Byte>)
    ensures |b| == HEADER_LEN
  {
    HeaderBody(epoch) + Le(c.crc(HeaderBody(epoch)), 4)
  }

  /** The header's epoch, or why the file is refused; a bad header is never truncated away. */
  function ReadHeader(c: Codec, f: seq<Byte>): Result<nat, string> {
    if |f| < HEADER_LEN then Err("truncated WAL header")
    else if f[0..4] != MAGIC then Err("bad magic")
    else if FromLe(f[4..6]) != VERSION then Err("unsupported WAL version")
    else if FromLe(f[14..18]) != c.crc(f[0..14]) then Err("header CRC mismatch")
    else Ok(FromLe(f[6..14]))
  }

  lemma ReadHeaderOfHeader(c: Codec, epoch: nat, rest: seq<Byte>)
    requires c.Sound() && epoch < Span(8)
    ensures ReadHeader(c, Header(c, epoch) + rest) == Ok(epoch)
  {
    var f := Header(c, epoch) + rest;
    Spans();
    FromLeOfLe(VERSION, 2);
    FromLeOfLe(epoch, 8);
    FromLeOfLe(c.crc(HeaderBody(epoch)), 4);
    assert f[0..4] == MAGIC;
    assert f[4..6] == Le(VERSION, 2);
    assert f[6..14] == Le(epoch, 8);
    assert f[0..14] == HeaderBody(epoch);
    assert f[14..18] == Le(c.crc(HeaderBody(epoch)), 4);
  }

  /** The bytes of a header: magic, version, epoch, and the checksum of those fourteen bytes. */
  lemma HeaderLayout(c: Codec, epoch: nat)
    ensures var f := Header(c, epoch);
            && f[0..6] == [0x52, 0x4B, 0x57, 0x31, 1, 0]
            && f[6..14] == Le(epoch, 8)
            && f[14..18] == Le(c.crc(f[0..14]), 4)
  {
    var f := Header(c, epoch);
    LeAt(VERSION, 2, 0);
    LeAt(VERSION, 2, 1);
    NoDigits(0);
    assert f[0..14] == HeaderBody(epoch);
    assert f[6..14] == Le(epoch, 8);
    assert f[14..18] == Le(c.crc(HeaderBody(epoch)), 4);
  }

  /** A file is accepted with an epoch exactly when it starts with the header written for that epoch. */
  lemma ReadHeaderIff(c: Codec, f: seq<Byte>, epoch: nat)
    requires c.Sound() && epoch < Span(8)
    ensures ReadHeader(c, f) == Ok(epoch) <==> Header(c, epoch) <= f
  {
    if Header(c, epoch) <= f {
      ReadHeaderOfHeader(c, epoch, f[HEADER_LEN..]);
      assert f == Header(c, epoch) + f[HEADER_LEN..];
    }
    if ReadHeader(c, f) == Ok(epoch) {
      LeOfFromLe(f[4..6]);
      LeOfFromLe(f[6..14]);
      LeOfFromLe(f[14..18]);
      assert f[0..14] == f[0..4] + f[4..6] + f[6..14];
      assert f[..18] == f[0..14] + f[14..18];
    }
  }

  // ---------------------------------------------------------------------------------------------
  // Records
  // ---------------------------------------------------------------------------------------------

  function FrameLen(r: Raw): nat {
    RECORD_HEADER_LEN + |r.payload|
  }

  function RecordHeader(c: Codec, r: Raw): (b: seq<Byte>)
    ensures |b| == RECORD_HEADER_LEN
  {
    Le(FrameLen(r), 4) + Le(c.crc(r.payload), 4) + Le(r.seqNo, 8) + Le(r.epoch, 8)
  }

  function Frame(c: Codec, r: Raw): (b: seq<Byte>)
    ensures |b| == FrameLen(r)
  {
    RecordHeader(c, r) + r.payload
  }

  function Frames(c: Codec, rs: seq<Raw>): seq<Byte> {
    if rs == [] then [] else Frame(c, rs[0]) + Frames(c, rs[1..])
  }

  /** The checks the scan makes on one record. */
  predicate Acceptable(c: Codec, hdr: nat, prev: Option<nat>, r: Raw) {
    && r.epoch >= hdr
    && (prev.Some? ==> r.seqNo > prev.value)
    && c.decode(r.payload).Some?
  }

  /** Numbers that fit their fields. */
  predicate Fits(r: Raw) {
    FrameLen(r) < Span(4) && r.seqNo < Span(8) && r.epoch < Span(8)
  }

  /** The record at the front of b, if there is a whole and acceptable one. */
  function Parse(c: Codec, hdr: nat, prev: Option<nat>, b: seq<Byte>): Option<Raw> {
    if |b| < RECORD_HEADER_LEN then None
    else
      var len := FromLe(b[0..4]);
      if len < RECORD_HEADER_LEN || len > |b| then None
      else
        var r := Raw(FromLe(b[8..16]), FromLe(b[16..24]), b[24..len]);
        if Acceptable(c, hdr, prev, r) && c.crc(r.payload) == FromLe(b[4..8]) then Some(r) else None
  }

  /** The records of b up to the first place where no acceptable record starts. */
  function Scan(c: Codec, hdr: nat, prev: Option<nat>, b: seq<Byte>): seq<Raw>
    decreases |b|
  {
    var p := Parse(c, hdr, prev, b);
    if p.None? then []
    else [p.value] + Scan(c, hdr, Some(p.value.seqNo), b[FrameLen(p.value)..])
  }

  /** A list of records a log file may hold after a record numbered prev. */
  ghost predicate GoodAfter(c: Codec, hdr: nat, prev: Option<nat>, rs: seq<Raw>)
    decreases |rs|
  {
    rs != [] ==>
      && Fits(rs[0])
      && Acceptable(c, hdr, prev, rs[0])
      && GoodAfter(c, hdr, Some(rs[0].seqNo), rs[1..])
  }

  /** The bytes of a record: its whole length, the payload's checksum, number, epoch, payload. */
  lemma FrameLayout(c: Codec, r: Raw)
    ensures var b := Frame(c, r);
            && |b| == 24 + |r.payload|
            && b[0..4] == Le(|b|, 4) && b[4..8] == Le(c.crc(r.payload), 4)
            && b[8..16] == Le(r.seqNo, 8) && b[16..24] == Le(r.epoch, 8) && b[24..] == r.payload
  {
    var b := Frame(c, r);
    assert b[0..4] == Le(FrameLen(r), 4);
    assert b[4..8] == Le(c.crc(r.payload), 4);
    assert b[8..16] == Le(r.seqNo, 8);
    assert b[16..24] == Le(r.epoch, 8);
    assert b[24..] == r.payload;
  }

  /**
   What a log may hold, record by record: numbers that fit, an epoch that is not below the header's,
   a payload that decodes, and strictly increasing numbers, all above prev.
   */
  ghost predicate Fenced(c: Codec, hdr: nat, prev: Option<nat>, rs: seq<Raw>) {
    && (forall i :: 0 <= i < |rs| ==> Fits(rs[i]) && hdr <= rs[i].epoch && c.decode(rs[i].payload).Some?)
    && (forall i, j :: 0 <= i < j < |rs| ==> rs[i].seqNo < rs[j].seqNo)
    && (prev.Some? ==> forall i :: 0 <= i < |rs| ==> prev.value < rs[i].seqNo)
  }

  lemma {:induction false} GoodIff(c: Codec, hdr: nat, prev: Option<nat>, rs: seq<Raw>)
    ensures GoodAfter(c, hdr, prev, rs) <==> Fenced(c, hdr, prev, rs)
    decreases |rs|
  {
    if rs != [] {
      GoodIff(c, hdr, Some(rs[0].seqNo), rs[1..]);
      FencedHead(c, hdr, prev, rs);
    }
  }

  lemma FencedHead(c: Codec, hdr: nat, prev: Option<nat>, rs: seq<Raw>)
    requires rs != []
    ensures Fenced(c, hdr, prev, rs) <==>
              && Fits(rs[0]) && hdr <= rs[0].epoch && c.decode(rs[0].payload).Some? && (prev.Some? ==> prev.value < rs[0].seqNo)
              && Fenced(c, hdr, Some(rs[0].seqNo), rs[1..])
  {
    assert forall i :: 0 < i < |rs| ==> rs[i] == rs[1..][i - 1];
    if Fenced(c, hdr, Some(rs[0].seqNo), rs[1..]) {
      assert forall i :: 0 <= i < |rs[1..]| ==> rs[1..][i] == rs[i + 1];
    }
  }

  /**
   Exactly which records a scan returns: the longest list of whole frames the bytes start with whose
   epochs, numbers and payloads are in order.
   */
  lemma ScanIsLongest(c: Codec, hdr: nat, b: seq<Byte>, rs: seq<Raw>)
    requires c.Sound()
    ensures Fenced(c, hdr, None, Scan(c, hdr, None, b)) && Frames(c, Scan(c, hdr, None, b)) <= b
    ensures Fenced(c, hdr, None, rs) && Frames(c, rs) <= b ==> rs <= Scan(c, hdr, None, b)
  {
    hide Scan, Frames, Fenced, GoodAfter;
    ScanSound(c, hdr, None, b);
    GoodIff(c, hdr, None, Scan(c, hdr, None, b));
    GoodIff(c, hdr, None, rs);
    if Fenced(c, hdr, None, rs) && Frames(c, rs) <= b {
      ScanMaximal(c, hdr, None, b, rs);
    }
  }

  // ---------------------------------------------------------------------------------------------
  // Parsing undoes framing, and framing undoes parsing
  // ---------------------------------------------------------------------------------------------

  lemma ParseOfFrame(c: Codec, hdr: nat, prev: Option<nat>, r: Raw, rest: seq<Byte>)
    requires c.Sound() && Fits(r) && Acceptable(c, hdr, prev, r)
    ensures Parse(c, hdr, prev, Frame(c, r) + rest) == Some(r)
  {
    var b := Frame(c, r) + rest;
    FromLeOfLe(FrameLen(r), 4);
    FromLeOfLe(c.crc(r.payload), 4);
    FromLeOfLe(r.seqNo, 8);
    FromLeOfLe(r.epoch, 8);
    assert b[0..4] == Le(FrameLen(r), 4);
    assert b[4..8] == Le(c.crc(r.payload), 4);
    assert b[8..16] == Le(r.seqNo, 8);
    assert b[16..24] == Le(r.epoch, 8);
    assert b[24..FrameLen(r)] == r.payload;
  }

  lemma FrameOfParse(c: Codec, hdr: nat, prev: Option<nat>, b: seq<Byte>)
    requires Parse(c, hdr, prev, b).Some?
    ensures var r := Parse(c, hdr, prev, b).value;
            Fits(r) && Acceptable(c, hdr, prev, r) && FrameLen(r) <= |b| && Frame(c, r) == b[..FrameLen(r)]
  {
    var r := Parse(c, hdr, prev, b).value;
    LeOfFromLe(b[0..4]);
    LeOfFromLe(b[4..8]);
    LeOfFromLe(b[8..16]);
    LeOfFromLe(b[16..24]);
    assert b[..FrameLen(r)] == b[0..4] + b[4..8] + b[8..16] + b[16..24] + b[24..FrameLen(r)];
  }

  /** What a scan returns is a good record list and its frames are a prefix of the bytes. */
  lemma {:induction false} ScanSound(c: Codec, hdr: nat, prev: Option<nat>, b: seq<Byte>)
    ensures var rs := Scan(c, hdr, prev, b);
            GoodAfter(c, hdr, prev, rs) && Frames(c, rs) <= b
    decreases |b|
  {
    var p := Parse(c, hdr, prev, b);
    if p.Some? {
      var n := FrameLen(p.value);
      FrameOfParse(c, hdr, prev, b);
      ScanSound(c, hdr, Some(p.value.seqNo), b[n..]);
      var rs := Scan(c, hdr, prev, b);
      assert rs[1..] == Scan(c, hdr, Some(p.value.seqNo), b[n..]);
      assert b == b[..n] + b[n..];
    }
  }

  /** The record number a scan of rs continues after. */
  function LastAfter(prev: Option<nat>, rs: seq<Raw>): Option<nat> {
    if rs == [] then prev else Some(rs[|rs| - 1].seqNo)
  }

  lemma ScanOfFrame(c: Codec, hdr: nat, prev: Option<nat>, r: Raw, tail: seq<Byte>)
    requires c.Sound() && Fits(r) && Acceptable(c, hdr, prev, r)
    ensures Scan(c, hdr, prev, Frame(c, r) + tail) == [r] + Scan(c, hdr, Some(r.seqNo), tail)
  {
    ParseOfFrame(c, hdr, prev, r, tail);
    hide Parse, Frame;
    assert (Frame(c, r) + tail)[FrameLen(r)..] == tail;
  }

  lemma ScanStep(c: Codec, hdr: nat, prev: Option<nat>, b: seq<Byte>)
    ensures Parse(c, hdr, prev, b).None? ==> Scan(c, hdr, prev, b) == []
    ensures Parse(c, hdr, prev, b).Some? ==>
              var r := Parse(c, hdr, prev, b).value;
              && Fits(r) && Acceptable(c, hdr, prev, r)
              && FrameLen(r) <= |b| && Frame(c, r) == b[..FrameLen(r)]
              && Scan(c, hdr, prev, b) == [r] + Scan(c, hdr, Some(r.seqNo), b[FrameLen(r)..])
  {
    if Parse(c, hdr, prev, b).Some? {
      FrameOfParse(c, hdr, prev, b);
    }
    hide Parse, Frame;
  }

  /** Too few bytes for a record header end the scan. */
  lemma ScanOfLittle(c: Codec, hdr: nat, prev: Option<nat>, b: seq<Byte>)
    requires |b| < RECORD_HEADER_LEN
    ensures Scan(c, hdr, prev, b) == []
  {
  }

  /** Scanning a good log followed by anything finds all its records, then goes on. */
  lemma {:induction false} ScanOfFrames(c: Codec, hdr: nat, prev: Option<nat>, rs: seq<Raw>, rest: seq<Byte>)
    requires c.Sound() && GoodAfter(c, hdr, prev, rs)
    ensures Scan(c, hdr, prev, Frames(c, rs) + rest) == rs + Scan(c, hdr, LastAfter(prev, rs), rest)
    decreases |rs|
  {
    hide Parse, Frame, Scan;
    if rs == [] {
      assert Frames(c, rs) + rest == rest;
    } else {
      var tail := Frames(c, rs[1..]) + rest;
      assert Frames(c, rs) + rest == Frame(c, rs[0]) + tail;
      ScanOfFrame(c, hdr, prev, rs[0], tail);
      ScanOfFrames(c, hdr, Some(rs[0].seqNo), rs[1..], rest);
      assert LastAfter(prev, rs) == LastAfter(Some(rs[0].seqNo), rs[1..]);
    }
  }

  /** The scan keeps the longest valid prefix: every good log that the bytes start with is part of it. */
  lemma ScanMaximal(c: Codec, hdr: nat, prev: Option<nat>, b: seq<Byte>, rs: seq<Raw>)
    requires c.Sound() && GoodAfter(c, hdr, prev, rs) && Frames(c, rs) <= b
    ensures rs <= Scan(c, hdr, prev, b)
  {
    hide Scan, Frames, GoodAfter;
    ScanOfFrames(c, hdr, prev, rs, b[|Frames(c, rs)|..]);
    assert b == Frames(c, rs) + b[|Frames(c, rs)|..];
  }

  /** Truncating a file to what the scan accepted and scanning again changes nothing. */
  lemma ScanIdempotent(c: Codec, hdr: nat, prev: Option<nat>, b: seq<Byte>)
    requires c.Sound()
    ensures var rs := Scan(c, hdr, prev, b); Scan(c, hdr, prev, Frames(c, rs)) == rs
  {
    var rs := Scan(c, hdr, prev, b);
    ScanSound(c, hdr, prev, b);
    ScanOfFrames(c, hdr, prev, rs, []);
    ScanOfLittle(c, hdr, LastAfter(prev, rs), []);
    hide Scan, Parse, Frames;
    assert Frames(c, rs) + [] == Frames(c, rs);
  }

  // ---------------------------------------------------------------------------------------------
  // Torn writes
  // ---------------------------------------------------------------------------------------------

  lemma {:induction false} FramesConcat(c: Codec, a: seq<Raw>, b: seq<Raw>)
    ensures Frames(c, a + b) == Frames(c, a) + Frames(c, b)
  {
    if a == [] {
      assert a + b == b;
    } else {
      assert (a + b)[1..] == a[1..] + b;
      FramesConcat(c, a[1..], b);
    }
  }

  lemma {:induction false} GoodConcat(c: Codec, hdr: nat, prev: Option<nat>, a: seq<Raw>, b: seq<Raw>)
    ensures GoodAfter(c, hdr, prev, a + b) <==> GoodAfter(c, hdr, prev, a) && GoodAfter(c, hdr, LastAfter(prev, a), b)
    decreases |a|
  {
    if a == [] {
      assert a + b == b;
    } else {
      assert (a + b)[1..] == a[1..] + b;
      GoodConcat(c, hdr, Some(a[0].seqNo), a[1..], b);
      assert LastAfter(prev, a) == LastAfter(Some(a[0].seqNo), a[1..]);
    }
  }

  /** The number of records whose frames fit whole into the first j bytes. */
  function Whole(rs: seq<Raw>, j: nat): (i: nat)
    ensures i <= |rs|
  {
    if rs == [] || FrameLen(rs[0]) > j then 0 else 1 + Whole(rs[1..], j - FrameLen(rs[0]))
  }

  /** A frame cut short is never taken for a record. */
  lemma TornFrame(c: Codec, hdr: nat, prev: Option<nat>, r: Raw, j: nat)
    requires Fits(r) && j < FrameLen(r)
    ensures Parse(c, hdr, prev, Frame(c, r)[..j]) == None
  {
    var b := Frame(c, r)[..j];
    if j >= RECORD_HEADER_LEN {
      FromLeOfLe(FrameLen(r), 4);
      assert b[0..4] == Le(FrameLen(r), 4);
    }
  }

  /** A batch cut inside or behind its first frame. */
  lemma CutFrames(c: Codec, batch: seq<Raw>, j: nat)
    requires batch != [] && j <= |Frames(c, batch)|
    ensures var n, rest := FrameLen(batch[0]), Frames(c, batch[1..]);
            && Frames(c, batch) == Frame(c, batch[0]) + rest
            && (j < n ==> Frames(c, batch)[..j] == Frame(c, batch[0])[..j])
            && (n <= j ==> j - n <= |rest| && Frames(c, batch)[..j] == Frame(c, batch[0]) + rest[..j - n])
  {
    hide Frame;
  }

  /** The whole records of a cut batch, head first. */
  lemma WholeStep(batch: seq<Raw>, j: nat)
    requires batch != [] && FrameLen(batch[0]) <= j
    ensures batch[..Whole(batch, j)] == [batch[0]] + batch[1..][..Whole(batch[1..], j - FrameLen(batch[0]))]
  {
  }

  /**
   Append is atomic under a torn write: of any byte prefix of a batch's frames, the scan recovers
   exactly the records written whole.
   */
  lemma {:induction false} TornWrite(c: Codec, hdr: nat, prev: Option<nat>, batch: seq<Raw>, j: nat)
    requires c.Sound() && GoodAfter(c, hdr, prev, batch) && j <= |Frames(c, batch)|
    ensures Scan(c, hdr, prev, Frames(c, batch)[..j]) == batch[..Whole(batch, j)]
    decreases |batch|
  {
    hide Scan, Parse, Frame, Acceptable, Fits, Codec.Sound;
    if batch == [] {
      ScanOfLittle(c, hdr, prev, []);
    } else {
      CutFrames(c, batch, j);
      hide Frames;
      var n := FrameLen(batch[0]);
      if j < n {
        TornFrame(c, hdr, prev, batch[0], j);
        ScanStep(c, hdr, prev, Frame(c, batch[0])[..j]);
      } else {
        ScanOfFrame(c, hdr, prev, batch[0], Frames(c, batch[1..])[..j - n]);
        TornWrite(c, hdr, Some(batch[0].seqNo), batch[1..], j - n);
        WholeStep(batch, j);
      }
    }
  }

  /** The same behind an existing log: the old records survive, plus the whole ones of the batch. */
  lemma TornAppend(c: Codec, hdr: nat, olds: seq<Raw>, batch: seq<Raw>, j: nat)
    requires c.Sound() && GoodAfter(c, hdr, None, olds + batch) && j <= |Frames(c, batch)|
    ensures Scan(c, hdr, None, Frames(c, olds) + Frames(c, batch)[..j]) == olds + batch[..Whole(batch, j)]
  {
    GoodConcat(c, hdr, None, olds, batch);
    ScanOfFrames(c, hdr, None, olds, Frames(c, batch)[..j]);
    TornWrite(c, hdr, LastAfter(None, olds), batch, j);
  }
}
