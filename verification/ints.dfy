/**
 * Fixed-width integers of the Rust source, its wrapping arithmetic, its
 * truncating division, and bitwise AND on the two's-complement pattern.
 * Dafny integers are unbounded; every width and every wrap-around that the
 * model relies on is spelled out here.
 */
module Ints {

  type u8 = x: int | 0 <= x < 0x100
  type i8 = x: int | -0x80 <= x < 0x80
  type u16 = x: int | 0 <= x < 0x1_0000
  type i16 = x: int | -0x8000 <= x < 0x8000
  type i32 = x: int | -0x8000_0000 <= x < 0x8000_0000

  /** A `usize` of a 64-bit target. */
  type usize = x: int | 0 <= x < 0x1_0000_0000_0000_0000

  const I32_MIN: i32 := -0x8000_0000
  const I32_MAX: i32 := 0x7FFF_FFFF

  /** 2^k. */
  function Pow2(k: nat): (r: nat)
    ensures r >= 1
  {
    if k == 0 then 1 else 2 * Pow2(k - 1)
  }

  /** The signed value of a 16-bit pattern (`u as i16`). */
  function ToI16(u: u16): (r: i16)
    ensures r % 0x1_0000 == u
  {
    if u < 0x8000 then u else u - 0x1_0000
  }

  /** The 16-bit pattern of a signed value (`v as u16`). */
  function FromI16(v: i16): (r: u16)
    ensures ToI16(r) == v
  {
    v % 0x1_0000
  }

  /** Two's-complement wrap-around of an i16 operation (release-mode `+`). */
  function WrapI16(v: int): (r: i16)
    ensures (r - v) % 0x1_0000 == 0
    ensures -0x8000 <= v < 0x8000 ==> r == v
  {
    ToI16(v % 0x1_0000)
  }

  /** Two's-complement wrap-around of an i32 operation (release-mode `+`, `-`, `*`). */
  function WrapI32(v: int): (r: i32)
    ensures (r - v) % 0x1_0000_0000 == 0
    ensures -0x8000_0000 <= v < 0x8000_0000 ==> r == v
  {
    var u := v % 0x1_0000_0000;
    if u < 0x8000_0000 then u else u - 0x1_0000_0000
  }

  /** Two's-complement wrap-around of a `usize` operation (release-mode `-`). */
  function WrapUsize(v: int): (r: usize)
    ensures (r - v) % 0x1_0000_0000_0000_0000 == 0
    ensures 0 <= v < 0x1_0000_0000_0000_0000 ==> r == v
    ensures -0x1_0000_0000_0000_0000 <= v < 0 ==> r == v + 0x1_0000_0000_0000_0000
  {
    v % 0x1_0000_0000_0000_0000
  }

  function Abs(v: int): nat { if v < 0 then -v else v }

  function Min(a: int, b: int): int { if a <= b then a else b }

  function Max(a: int, b: int): int { if a >= b then a else b }

  /** `a.max(lo).min(hi)`, in that order, as the source writes its clamps. */
  function MaxMin(a: int, lo: int, hi: int): (r: int)
    ensures lo <= hi ==> lo <= r <= hi
    ensures lo <= a <= hi ==> r == a
  {
    Min(Max(a, lo), hi)
  }

  /** `signum` of Rust's integer types. */
  function Signum(v: int): int { if v > 0 then 1 else if v < 0 then -1 else 0 }

  /**
   * Rust's `/` on integers: the quotient is truncated toward zero (Dafny's
   * own `/` is Euclidean and differs for negative operands).
   */
  function DivTrunc(a: int, b: int): (q: int)
    requires b != 0
    ensures a >= 0 && b > 0 ==> q == a / b
    ensures a < 0 && b > 0 ==> q == -((-a) / b)
  {
    var q := Abs(a) / Abs(b);
    if (a < 0) != (b < 0) then -q else q
  }

  /**
   * Rust's `>>` on a signed integer: an arithmetic shift, which rounds toward
   * minus infinity. Dafny's `/` by a positive divisor rounds the same way.
   */
  function Asr(a: int, k: nat): (r: int)
    ensures r * Pow2(k) <= a < r * Pow2(k) + Pow2(k)
  {
    a / Pow2(k)
  }

  /** Bitwise AND of two bit patterns, computed from the least significant bit up. */
  function And(a: nat, b: nat): (r: nat)
    ensures r <= a && r <= b
  {
    if a == 0 || b == 0 then 0 else 2 * And(a / 2, b / 2) + (a % 2) * (b % 2)
  }

  /** Masking with 2^k - 1 keeps the k low bits. */
  lemma {:induction false} AndLowMask(a: nat, k: nat)
    ensures And(a, Pow2(k) - 1) == a % Pow2(k)
  {
    if k == 0 {
    } else if a == 0 {
    } else {
      AndLowMask(a / 2, k - 1);
      var m := Pow2(k - 1);
      assert (Pow2(k) - 1) / 2 == m - 1 && (Pow2(k) - 1) % 2 == 1;
      ModHalf(a, m);
    }
  }

  lemma ModHalf(a: nat, m: nat)
    requires m >= 1
    ensures a % (2 * m) == 2 * ((a / 2) % m) + a % 2
  {
    var q := (a / 2) / m;
    var r := (a / 2) % m;
    assert a / 2 == q * m + r;
    assert a == 2 * (a / 2) + a % 2;
    assert a == q * (2 * m) + (2 * r + a % 2) by {
      assert 2 * (q * m) == q * (2 * m);
    }
    DivModUnique(a, 2 * m, q, 2 * r + a % 2);
  }

  /** Euclidean division is unique: a quotient and remainder in range are THE quotient and remainder. */
  lemma DivModUnique(a: int, d: int, q: int, r: int)
    requires d > 0 && 0 <= r < d && a == q * d + r
    ensures a / d == q && a % d == r
  {
    var q', r' := a / d, a % d;
    assert a == q' * d + r';
    assert (q - q') * d == r' - r by {
      assert q * d - q' * d == (q - q') * d;
    }
    if q - q' >= 1 {
      assert (q - q') * d >= d by { MulAtLeast(q - q', d); }
    } else if q - q' <= -1 {
      assert (q' - q) * d >= d by { MulAtLeast(q' - q, d); }
    }
  }

  lemma MulAtLeast(x: int, d: int)
    requires x >= 1 && d > 0
    ensures x * d >= d
  {
    assert x * d == (x - 1) * d + d;
  }

  /**
   * For an n-bit pattern `a`, masking with the bits k..n-1 gives zero exactly
   * when `a` fits in k bits: this is how a flag set with only bits 0..k-1
   * declared rejects any other bit.
   */
  lemma {:induction false} AndHighMaskZero(a: nat, n: nat, k: nat)
    requires k <= n && a < Pow2(n)
    ensures And(a, HighBits(n, k)) == 0 <==> a < Pow2(k)
  {
    if k == 0 {
      assert HighBits(n, 0) == Pow2(n) - 1;
      AndLowMask(a, n);
      DivModUnique(a, Pow2(n), 0, a);
    } else {
      var m := HighBits(n, k);
      assert Pow2(n) == 2 * Pow2(n - 1) && Pow2(k) == 2 * Pow2(k - 1);
      assert m == 2 * HighBits(n - 1, k - 1);
      if m == 0 {
        Pow2Monotone(k, n);
        AndZero(a);
      } else if a == 0 {
      } else {
        var h := HighBits(n - 1, k - 1);
        assert m / 2 == h && m % 2 == 0;
        assert And(a, m) == 2 * And(a / 2, h);
        HalfBelow(a, Pow2(n - 1));
        HalfBelow(a, Pow2(k - 1));
        AndHighMaskZero(a / 2, n - 1, k - 1);
      }
    }
  }

  lemma HalfBelow(a: nat, p: nat)
    ensures a < 2 * p <==> a / 2 < p
  {
  }

  /** The pattern with bits k..n-1 set: 2^n - 2^k. */
  function HighBits(n: nat, k: nat): nat
    requires k <= n
  {
    Pow2Monotone(k, n);
    Pow2(n) - Pow2(k)
  }

  lemma {:induction false} Pow2Monotone(j: nat, k: nat)
    requires j <= k
    ensures Pow2(j) <= Pow2(k)
    ensures j < k ==> Pow2(j) < Pow2(k)
  {
    if j < k { Pow2Monotone(j, k - 1); }
  }

  /** The AND of `a` with zero, which a flag set whose bits cover all 16 bits produces. */
  lemma AndZero(a: nat)
    ensures And(a, 0) == 0
  {
  }

  /** The powers of two the formats use: a nibble shift, 10 and 11 flag bits, 16-bit words. */
  lemma Pow2Values()
    ensures Pow2(4) == 0x10 && Pow2(10) == 0x400 && Pow2(11) == 0x800 && Pow2(16) == 0x1_0000
  {
    assert Pow2(2) == 4;
    assert Pow2(4) == 0x10;
    assert Pow2(6) == 0x40;
    assert Pow2(8) == 0x100;
    assert Pow2(10) == 0x400;
    assert Pow2(11) == 0x800;
    assert Pow2(13) == 0x2000;
    assert Pow2(16) == 0x1_0000;
  }
}
