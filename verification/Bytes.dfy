/** Bytes and little-endian integers. */
module Bytes {

  type Byte = x: int | 0 <= x < 256

  /** 256 to the w. */
  function Span(w: nat): (s: nat)
    ensures s >= 1
  {
    if w == 0 then 1 else 256 * Span(w - 1)
  }

  lemma Spans()
    ensures Span(2) == 0x1_0000 && Span(4) == 0x1_0000_0000 && Span(8) == 0x1_0000_0000_0000_0000
  {
    assert Span(1) == 256;
    assert Span(3) == 256 * Span(2);
    assert Span(5) == 256 * Span(4);
    assert Span(6) == 256 * Span(5);
    assert Span(7) == 256 * Span(6);
  }

  /** `to_le_bytes` of a w-byte integer. */
  function Le(n: nat, w: nat): (b: seq<Byte>)
    ensures |b| == w
  {
    if w == 0 then [] else [n % 256] + Le(n / 256, w - 1)
  }

  /** `from_le_bytes`. */
  function FromLe(b: seq<Byte>): (n: nat)
    ensures n < Span(|b|)
  {
    if b == [] then 0 else b[0] + 256 * FromLe(b[1..])
  }

  /** Digit i of n to base 256, digit 0 the least significant. */
  function Digit256(n: nat, i: nat): nat {
    if i == 0 then n % 256 else Digit256(n / 256, i - 1)
  }

  lemma NoDigits(i: nat)
    ensures Digit256(0, i) == 0
  {
  }

  /** Byte i of an integer is its digit i: the least significant byte comes first. */
  lemma {:induction false} LeAt(n: nat, w: nat, i: nat)
    requires i < w
    ensures Le(n, w)[i] == Digit256(n, i)
  {
    if i > 0 {
      LeAt(n / 256, w - 1, i - 1);
    }
  }

  lemma {:induction false} FromLeOfLe(n: nat, w: nat)
    requires n < Span(w)
    ensures FromLe(Le(n, w)) == n
  {
    if w > 0 {
      FromLeOfLe(n / 256, w - 1);
      assert Le(n, w)[1..] == Le(n / 256, w - 1);
    }
  }

  lemma {:induction false} LeOfFromLe(b: seq<Byte>)
    ensures Le(FromLe(b), |b|) == b
  {
    if b != [] {
      LeOfFromLe(b[1..]);
      assert FromLe(b) / 256 == FromLe(b[1..]);
    }
  }
}
