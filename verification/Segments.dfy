/**
 Segment files: a 32-byte header and row-major vector data.  A component is its 32-bit pattern.
 The checksum is an arbitrary function of the data block.
 */
module Segments {
  import opened Core
  import opened Bytes

  /** The bits of one f32. */
  type Bits = x: int | 0 <= x < 0x1_0000_0000

  type Vector = seq<Bits>

  const MAGIC: seq<Byte> := [0x52, 0x4B, 0x53, 0x47]
  const VERSION := 1
  const HEADER_SIZE := 32

  datatype SegmentError = ShortHeader | BadMagic | BadVersion | Truncated | Panicked | BadChecksum

  datatype SegmentHeader = SegmentHeader(dimension: nat, count: nat, checksum: nat)

  // ---------------------------------------------------------------------------------------------
  // Header
  // ---------------------------------------------------------------------------------------------

  predicate Fits(h: SegmentHeader) {
    h.dimension < Span(4) && h.count < Span(4) && h.checksum < Span(4)
  }

  function Zeros(n: nat): (b: seq<Byte>)
    ensures |b| == n
  {
    seq(n, _ => 0)
  }

  function Encode(h: SegmentHeader): (b: seq<Byte>)
    ensures |b| == HEADER_SIZE
  {
    MAGIC + Le(VERSION, 4) + Le(h.dimension, 4) + Le(h.count, 4) + Le(h.checksum, 4) + Zeros(12)
  }

  function Decode(b: seq<Byte>): (r: Result<SegmentHeader, SegmentError>)
    requires |b| == HEADER_SIZE
    ensures r.Ok? ==> Fits(r.value)
  {
    if b[0..4] != MAGIC then Err(BadMagic)
    else if FromLe(b[4..8]) != VERSION then Err(BadVersion)
    else Ok(SegmentHeader(FromLe(b[8..12]), FromLe(b[12..16]), FromLe(b[16..20])))
  }

  /** A header reads back as written. */
  lemma HeaderRoundTrip(h: SegmentHeader)
    requires Fits(h)
    ensures Decode(Encode(h)) == Ok(h)
  {
    hide Le, FromLe;
    Spans();
    FromLeOfLe(VERSION, 4);
    FromLeOfLe(h.dimension, 4);
    FromLeOfLe(h.count, 4);
    FromLeOfLe(h.checksum, 4);
    var b := Encode(h);
    assert b[0..4] == MAGIC;
    assert b[4..8] == Le(VERSION, 4);
    assert b[8..12] == Le(h.dimension, 4);
    assert b[12..16] == Le(h.count, 4);
    assert b[16..20] == Le(h.checksum, 4);
  }

  /** Which headers are refused, and as what. */
  lemma DecodeErrors(b: seq<Byte>)
    requires |b| == HEADER_SIZE
    ensures Decode(b) == Err(BadMagic) <==> b[0..4] != [0x52, 0x4B, 0x53, 0x47]
    ensures Decode(b) == Err(BadVersion) <==> b[0..4] == [0x52, 0x4B, 0x53, 0x47] && b[4..8] != Le(1, 4)
    ensures Decode(b).Err? ==> Decode(b) == Err(BadMagic) || Decode(b) == Err(BadVersion)
  {
    hide Le, FromLe;
    Spans();
    FromLeOfLe(VERSION, 4);
    LeOfFromLe(b[4..8]);
  }

  /** A header that decodes is written back unchanged, reserved bytes aside. */
  lemma DecodedHeaderIsWritten(b: seq<Byte>)
    requires |b| == HEADER_SIZE && Decode(b).Ok?
    ensures Encode(Decode(b).value)[..20] == b[..20]
  {
    hide Le, FromLe;
    LeOfFromLe(b[4..8]);
    LeOfFromLe(b[8..12]);
    LeOfFromLe(b[12..16]);
    LeOfFromLe(b[16..20]);
    assert b[..20] == b[0..4] + b[4..8] + b[8..12] + b[12..16] + b[16..20];
  }

  /** The bytes of a header: magic, version 1, dimension, count, checksum, twelve reserved zeros. */
  lemma HeaderLayout(h: SegmentHeader)
    ensures var b := Encode(h);
            && b[0..8] == [0x52, 0x4B, 0x53, 0x47, 1, 0, 0, 0]
            && b[8..12] == Le(h.dimension, 4) && b[12..16] == Le(h.count, 4) && b[16..20] == Le(h.checksum, 4)
            && forall i :: 20 <= i < 32 ==> b[i] == 0
  {
    Spans();
    LeAt(VERSION, 4, 0);
    LeAt(VERSION, 4, 1);
    LeAt(VERSION, 4, 2);
    LeAt(VERSION, 4, 3);
    NoDigits(0);
    NoDigits(1);
    NoDigits(2);
    hide Le;
    var b := Encode(h);
    assert b[4..8] == Le(VERSION, 4);
    assert b[8..12] == Le(h.dimension, 4);
    assert b[12..16] == Le(h.count, 4);
    assert b[16..20] == Le(h.checksum, 4);
  }

  // ---------------------------------------------------------------------------------------------
  // Vector data
  // ---------------------------------------------------------------------------------------------

  /** The bytes of a run of components. */
  function Cast(v: Vector): (b: seq<Byte>)
    ensures |b| == 4 * |v|
  {
    if v == [] then [] else Cast(v[..|v| - 1]) + Le(v[|v| - 1], 4)
  }

  /** Component i stands at byte 4 i, little-endian. */
  lemma {:induction false} CastAt(v: Vector, i: nat)
    requires i < |v|
    ensures Cast(v)[4 * i..4 * i + 4] == Le(v[i], 4)
    decreases |v|
  {
    hide Le;
    var n := |v| - 1;
    if i < n {
      CastAt(v[..n], i);
      assert Cast(v)[4 * i..4 * i + 4] == Cast(v[..n])[4 * i..4 * i + 4];
    }
  }

  /** The components of a run of bytes. */
  function Uncast(b: seq<Byte>): (v: Vector)
    requires |b| % 4 == 0
    ensures |v| == |b| / 4
  {
    if b == [] then [] else Spans(); Uncast(b[..|b| - 4]) + [FromLe(b[|b| - 4..])]
  }

  /** One more component is four more bytes. */
  lemma UncastStep(b: seq<Byte>, x: Bits)
    requires |b| % 4 == 0
    ensures Uncast(b + Le(x, 4)) == Uncast(b) + [x]
  {
    hide Le, FromLe, Span;
    var c := b + Le(x, 4);
    Spans();
    FromLeOfLe(x, 4);
    assert c[..|c| - 4] == b;
    assert c[|c| - 4..] == Le(x, 4);
  }

  lemma {:induction false} UncastOfCast(v: Vector)
    ensures Uncast(Cast(v)) == v
  {
    hide Le, Uncast;
    if v == [] {
      NothingCast();
    } else {
      UncastOfCast(v[..|v| - 1]);
      UncastStep(Cast(v[..|v| - 1]), v[|v| - 1]);
    }
  }

  lemma NothingCast()
    ensures Uncast([]) == []
  {
  }

  lemma {:induction false} CastConcat(v: Vector, w: Vector)
    ensures Cast(v + w) == Cast(v) + Cast(w)
  {
    if w == [] {
      assert v + w == v;
    } else {
      assert (v + w)[..|v + w| - 1] == v + w[..|w| - 1];
      CastConcat(v, w[..|w| - 1]);
    }
  }

  /** All vectors, row after row. */
  function Flatten(vs: seq<Vector>): Vector {
    if vs == [] then [] else Flatten(vs[..|vs| - 1]) + vs[|vs| - 1]
  }

  lemma {:induction false} FlattenConcat(vs: seq<Vector>, ws: seq<Vector>)
    ensures Flatten(vs + ws) == Flatten(vs) + Flatten(ws)
  {
    if ws == [] {
      assert vs + ws == vs;
    } else {
      assert (vs + ws)[..|vs + ws| - 1] == vs + ws[..|ws| - 1];
      FlattenConcat(vs, ws[..|ws| - 1]);
    }
  }

  /** Row i of the flattened data is the i-th vector. */
  lemma RowOfFlatten(vs: seq<Vector>, d: nat, i: nat)
    requires (forall k :: 0 <= k < |vs| ==> |vs[k]| == d) && i < |vs|
    ensures |Flatten(vs)| == |vs| * d && 0 <= i * d <= i * d + d <= |vs| * d
    ensures Flatten(vs)[i * d..i * d + d] == vs[i]
  {
    FlattenLength(vs, d);
    FlattenLength(vs[..i], d);
    assert vs == vs[..i] + [vs[i]] + vs[i + 1..];
    FlattenConcat(vs[..i] + [vs[i]], vs[i + 1..]);
    FlattenConcat(vs[..i], [vs[i]]);
    assert Flatten([vs[i]]) == vs[i] by {
      assert Flatten([vs[i]][..0]) == [];
    }
  }

  lemma {:induction false} FlattenLength(vs: seq<Vector>, d: nat)
    requires forall k :: 0 <= k < |vs| ==> |vs[k]| == d
    ensures |Flatten(vs)| == |vs| * d
  {
    if vs != [] {
      var n := |vs| - 1;
      FlattenLength(vs[..n], d);
      assert n * d + d == |vs| * d;
    }
  }

  // ---------------------------------------------------------------------------------------------
  // Files
  // ---------------------------------------------------------------------------------------------

  function DataLen(h: SegmentHeader): nat {
    h.count * h.dimension * 4
  }

  /** `usize` arithmetic of a 64-bit release build. */
  function Wrap(n: nat): (m: nat)
    ensures m <= n && (m == n <==> n < Span(8))
  {
    n % Span(8)
  }

  /**
   Opening a segment: the header, the length and the checksum are checked.  The length is computed
   with wrap-around; a data block that would end before it starts panics.
   */
  function OpenSegment(crc: seq<Byte> -> nat, f: seq<Byte>): Result<SegmentHeader, SegmentError> {
    if |f| < HEADER_SIZE then Err(ShortHeader)
    else
      var r := Decode(f[..HEADER_SIZE]);
      if r.Err? then r
      else
        var end := Wrap(HEADER_SIZE + Wrap(DataLen(r.value)));
        if end > |f| then Err(Truncated)
        else if end < HEADER_SIZE then Err(Panicked)
        else if crc(f[HEADER_SIZE..end]) != r.value.checksum then Err(BadChecksum)
        else r
  }

  /** The i-th vector of an opened segment; without its data block in the file the slice is out of bounds. */
  function GetVector(h: SegmentHeader, f: seq<Byte>, i: nat): (r: Option<Vector>)
    requires HEADER_SIZE + DataLen(h) <= |f|
    ensures r.Some? <==> i < h.count
  {
    if i >= h.count then None
    else
      RowInData(h, i);
      Some(Uncast(f[HEADER_SIZE + i * h.dimension * 4..HEADER_SIZE + i * h.dimension * 4 + h.dimension * 4]))
  }

  lemma RowInData(h: SegmentHeader, i: nat)
    requires i < h.count
    ensures 0 <= i * h.dimension * 4 && i * h.dimension * 4 + h.dimension * 4 <= DataLen(h)
  {
    assert (i + 1) * h.dimension <= h.count * h.dimension;
    assert (i + 1) * h.dimension == i * h.dimension + h.dimension;
  }

  /** What a writer holding vs leaves on disk. */
  function Written(crc: seq<Byte> -> nat, dimension: nat, vs: seq<Vector>): seq<Byte> {
    Encode(SegmentHeader(dimension, |vs|, crc(Cast(Flatten(vs))))) + Cast(Flatten(vs))
  }

  /** The numbers the writer stores fit their 32-bit fields, and the file fits in memory. */
  ghost predicate Storable(crc: seq<Byte> -> nat, dimension: nat, vs: seq<Vector>) {
    && dimension < Span(4)
    && |vs| < Span(4)
    && HEADER_SIZE + |vs| * dimension * 4 < Span(8)
    && (forall b :: crc(b) < Span(4))
    && (forall k :: 0 <= k < |vs| ==> |vs[k]| == dimension)
  }

  /** A written segment opens, even with bytes appended to it, and holds the pushed vectors in order. */
  lemma WrittenReopens(crc: seq<Byte> -> nat, dimension: nat, vs: seq<Vector>, rest: seq<Byte>)
    requires Storable(crc, dimension, vs)
    ensures var f := Written(crc, dimension, vs) + rest;
            && OpenSegment(crc, f) == Ok(SegmentHeader(dimension, |vs|, crc(Cast(Flatten(vs)))))
            && HEADER_SIZE + DataLen(OpenSegment(crc, f).value) <= |f|
            && (forall i :: 0 <= i < |vs| ==> GetVector(OpenSegment(crc, f).value, f, i) == Some(vs[i]))
            && (forall i :: |vs| <= i ==> GetVector(OpenSegment(crc, f).value, f, i) == None)
  {
    hide Encode, Decode, Cast, Uncast, Flatten;
    var h := SegmentHeader(dimension, |vs|, crc(Cast(Flatten(vs))));
    var data := Cast(Flatten(vs));
    var f := Written(crc, dimension, vs) + rest;
    HeaderRoundTrip(h);
    FlattenLength(vs, dimension);
    assert f[..HEADER_SIZE] == Encode(h);
    assert f[HEADER_SIZE..HEADER_SIZE + DataLen(h)] == data;
    forall i | 0 <= i < |vs|
      ensures GetVector(h, f, i) == Some(vs[i])
    {
      RowInData(h, i);
      RowBytes(vs, dimension, i);
      var at := i * dimension * 4;
      assert f[HEADER_SIZE + at..HEADER_SIZE + at + dimension * 4] == data[at..at + dimension * 4];
    }
  }

  /** The bytes of row i. */
  lemma RowBytes(vs: seq<Vector>, d: nat, i: nat)
    requires (forall k :: 0 <= k < |vs| ==> |vs[k]| == d) && i < |vs|
    ensures |Cast(Flatten(vs))| == |vs| * d * 4 && 0 <= i * d * 4 <= i * d * 4 + d * 4 <= |vs| * d * 4
    ensures Uncast(Cast(Flatten(vs))[i * d * 4..i * d * 4 + d * 4]) == vs[i]
  {
    hide Cast, Uncast, Flatten;
    RowOfFlatten(vs, d, i);
    var w := Flatten(vs);
    var p, q := i * d, i * d + d;
    assert w == w[..p] + w[p..q] + w[q..];
    CastConcat(w[..p] + w[p..q], w[q..]);
    CastConcat(w[..p], w[p..q]);
    assert Cast(w)[p * 4..q * 4] == Cast(w[p..q]);
    UncastOfCast(vs[i]);
  }

  /** Every strict prefix of a written segment is refused. */
  lemma StrictPrefixRefused(crc: seq<Byte> -> nat, dimension: nat, vs: seq<Vector>, n: nat)
    requires Storable(crc, dimension, vs) && n < |Written(crc, dimension, vs)|
    ensures OpenSegment(crc, Written(crc, dimension, vs)[..n]) ==
            Err(if n < HEADER_SIZE then ShortHeader else Truncated)
  {
    hide Encode, Decode, Cast, Flatten;
    if n >= HEADER_SIZE {
      var h := SegmentHeader(dimension, |vs|, crc(Cast(Flatten(vs))));
      HeaderRoundTrip(h);
      FlattenLength(vs, dimension);
      assert Written(crc, dimension, vs)[..n][..HEADER_SIZE] == Encode(h);
    }
  }

  /**
   Whatever bytes open, the file starts with the decoded header, up to its reserved bytes, and the
   checksum is that of the data block whose length was computed.
   */
  lemma OpenedIsChecked(crc: seq<Byte> -> nat, f: seq<Byte>)
    requires OpenSegment(crc, f).Ok?
    ensures var h := OpenSegment(crc, f).value;
            && HEADER_SIZE + Wrap(DataLen(h)) <= |f|
            && f[..20] == Encode(h)[..20]
            && crc(f[HEADER_SIZE..HEADER_SIZE + Wrap(DataLen(h))]) == h.checksum
  {
    hide Encode, Decode, DataLen;
    var h := OpenSegment(crc, f).value;
    DecodedHeaderIsWritten(f[..HEADER_SIZE]);
    assert f[..HEADER_SIZE][..20] == f[..20];
    NoSecondWrap(Wrap(DataLen(h)));
  }

  lemma NoSecondWrap(n: nat)
    requires n < Span(8)
    ensures Wrap(HEADER_SIZE + n) >= HEADER_SIZE ==> Wrap(HEADER_SIZE + n) == HEADER_SIZE + n
  {
    Spans();
  }

  /** An opened file holds the vectors its header promises exactly when their length did not wrap. */
  lemma OpenedHoldsDataIff(crc: seq<Byte> -> nat, f: seq<Byte>)
    requires OpenSegment(crc, f).Ok? && |f| < Span(8)
    ensures var h := OpenSegment(crc, f).value;
            HEADER_SIZE + DataLen(h) <= |f| <==> DataLen(h) < Span(8)
  {
    OpenedIsChecked(crc, f);
  }

  /** A header alone that promises 2^31 vectors of dimension 2^31 opens. */
  lemma WrappedHeaderOpens(crc: seq<Byte> -> nat)
    requires crc([]) < Span(4)
    ensures var h := SegmentHeader(0x8000_0000, 0x8000_0000, crc([]));
            && OpenSegment(crc, Encode(h)) == Ok(h)
            && HEADER_SIZE + DataLen(h) > |Encode(h)|
  {
    var h := SegmentHeader(0x8000_0000, 0x8000_0000, crc([]));
    Spans();
    HeaderRoundTrip(h);
    assert Encode(h)[..HEADER_SIZE] == Encode(h);
    assert Encode(h)[HEADER_SIZE..HEADER_SIZE] == [];
  }

  // ---------------------------------------------------------------------------------------------
  // The writer
  // ---------------------------------------------------------------------------------------------

  class SegmentWriter {
    const dimension: nat
    var vectors: Vector
    var count: nat
    /** The vectors pushed so far. */
    ghost var pushed: seq<Vector>

    ghost predicate Valid()
      reads this
    {
      && vectors == Flatten(pushed)
      && count == |pushed|
      && forall k :: 0 <= k < |pushed| ==> |pushed[k]| == dimension
    }

    constructor (dim: nat)
      ensures Valid() && dimension == dim && pushed == []
    {
      dimension := dim;
      vectors, count, pushed := [], 0, [];
    }

    method Push(v: Vector)
      requires Valid() && |v| == dimension
      modifies this
      ensures Valid() && pushed == old(pushed) + [v]
    {
      assert (pushed + [v])[..|pushed|] == pushed;
      vectors := vectors + v;
      count := count + 1;
      pushed := pushed + [v];
    }

    /** The file left behind and how many bytes it has; it reopens with the pushed vectors. */
    method Write(crc: seq<Byte> -> nat) returns (file: seq<Byte>, written: nat)
      requires Valid() && Storable(crc, dimension, pushed)
      ensures file == Written(crc, dimension, pushed) && written == |file|
      ensures OpenSegment(crc, file).Ok? && HEADER_SIZE + DataLen(OpenSegment(crc, file).value) <= |file|
      ensures forall i :: 0 <= i < |pushed| ==> GetVector(OpenSegment(crc, file).value, file, i) == Some(pushed[i])
    {
      hide Flatten, Cast, Encode, OpenSegment, GetVector;
      var dataBytes := |vectors| * 4;
      var header := SegmentHeader(dimension, count, crc(Cast(vectors)));
      file := Encode(header) + Cast(vectors);
      written := HEADER_SIZE + dataBytes;
      WrittenReopens(crc, dimension, pushed, []);
      assert Written(crc, dimension, pushed) + [] == file;
    }
  }
}
