/** Rust's `i64 as f64`: rounding to the nearest binary64 value, ties to even. */
module Numbers {
  import opened Core

  const TWO_53 := 0x20_0000_0000_0000

  /** Distance between neighbouring binary64 values around n: doubles with every bit above 53. */
  function Spacing(n: nat): (u: nat)
    ensures u >= 1
  {
    if n < TWO_53 then 1 else 2 * Spacing(n / 2)
  }

  function RoundNat(n: nat): nat {
    var u := Spacing(n);
    var q, r := n / u, n % u;
    if 2 * r < u then q * u
    else if 2 * r > u then (q + 1) * u
    else if q % 2 == 0 then q * u else (q + 1) * u
  }

  function ToF64(i: I64): real {
    var n: int := i;
    if n >= 0 then RoundNat(n) as real else -(RoundNat(-n) as real)
  }

  /** m is q times u, no multiple of u is nearer to n, and of two equally near ones q is even. */
  ghost predicate NearestMultiple(n: int, u: int, m: int, q: int) {
    && m == q * u
    && 0 - u <= 2 * (n - m) <= u
    && (2 * (n - m) == u || 2 * (m - n) == u ==> q % 2 == 0)
  }

  lemma NextMultiple(q: int, u: int)
    ensures (q + 1) * u == q * u + u
  {
  }

  lemma DivMod(n: nat, u: nat)
    requires u >= 1
    ensures n == n / u * u + n % u && n % u < u
  {
  }

  lemma Nearby(n: int, u: int, q: int, r: int, m: int)
    requires u >= 1 && n == q * u + r && 0 <= r < u
    requires m == if 2 * r < u || (2 * r == u && q % 2 == 0) then q * u else (q + 1) * u
    ensures NearestMultiple(n, u, m, q) || NearestMultiple(n, u, m, q + 1)
  {
    NextMultiple(q, u);
  }

  /** The image is the nearest multiple of the spacing, and halfway between two the even one. */
  lemma RoundsToNearest(n: nat)
    ensures exists q: nat :: NearestMultiple(n, Spacing(n), RoundNat(n), q)
  {
    hide Spacing, NearestMultiple;
    var u := Spacing(n);
    DivMod(n, u);
    Nearby(n, u, n / u, n % u, RoundNat(n));
  }

  /** The spacing is the power of two that leaves 53 significant bits. */
  lemma {:induction false} SpacingLeaves53Bits(n: nat)
    ensures var u := Spacing(n);
            && (exists e: nat :: u == TwoTo(e))
            && n < TWO_53 * u
            && (u > 1 ==> 2 * n >= TWO_53 * u)
  {
    if n < TWO_53 {
      assert TwoTo(0) == 1;
    } else {
      SpacingLeaves53Bits(n / 2);
      var e: nat :| Spacing(n / 2) == TwoTo(e);
      assert Spacing(n) == TwoTo(e + 1);
    }
  }

  function TwoTo(e: nat): (p: nat)
    ensures p >= 1
  {
    if e == 0 then 1 else 2 * TwoTo(e - 1)
  }

  /** The sign does not change the rounding. */
  lemma NegationMirrors(i: I64)
    requires i > -0x8000_0000_0000_0000
    ensures ToF64(-i) == -ToF64(i)
    ensures i >= 0 ==> ToF64(i) == RoundNat(i) as real
  {
    assert RoundNat(0) == 0;
  }

  /** Integers of at most 53 bits convert exactly. */
  lemma ExactUpTo53Bits(i: I64)
    requires -TWO_53 <= i <= TWO_53
    ensures ToF64(i) == i as real
  {
    if i == TWO_53 || i == -TWO_53 {
      assert Spacing(TWO_53 / 2) == 1;
      assert Spacing(TWO_53) == 2;
    }
  }

  /** One more bit and two different integers share an image. */
  lemma FirstCollision()
    ensures ToF64(TWO_53) == ToF64(TWO_53 + 1)
  {
    assert Spacing(TWO_53 / 2) == 1;
    assert Spacing((TWO_53 + 1) / 2) == 1;
    assert Spacing(TWO_53) == 2;
    assert Spacing(TWO_53 + 1) == 2;
  }
}
