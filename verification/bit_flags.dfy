/**
 * The `bitflags` crate's `from_bits` on a 16-bit flag set: the raw bits are
 * accepted exactly when no bit outside the declared flags is set, which the
 * decoder then `expect`s.
 */
module BitFlags {
  import opened Ints
  import opened Opt

  /** `from_bits` for a flag set whose declared flags together make `all`. */
  function FromBits(bits: u16, all: u16): Option<u16>
  {
    if And(bits, 0xFFFF - all) == 0 then Some(bits) else None
  }

  /** A flag set that declares all sixteen bits accepts every pattern. */
  lemma FromBitsTotal(bits: u16)
    ensures FromBits(bits, 0xFFFF) == Some(bits)
  {
    AndZero(bits);
  }

  /** A flag set that declares exactly bits 0..n-1 accepts a pattern iff it fits in n bits. */
  lemma FromBitsLow(bits: u16, all: u16, n: nat)
    requires n <= 16 && all + 1 == Pow2(n)
    ensures FromBits(bits, all).Some? <==> bits < Pow2(n)
  {
    Pow2Values();
    Pow2Monotone(n, 16);
    assert 0xFFFF - all == HighBits(16, n);
    AndHighMaskZero(bits, 16, n);
  }

  /**
   * `from_bits` on a flag set over `i16` (the wall flags): the test is on the
   * two's-complement pattern, so a negative value always has bit 15 set.
   */
  function FromBitsI16(bits: i16, all: u16): Option<i16>
  {
    if FromBits(FromI16(bits), all).Some? then Some(bits) else None
  }

  /** Ten declared bits: a signed pattern is accepted iff it lies in 0..1023. */
  lemma FromBitsI16Ten(bits: i16)
    ensures FromBitsI16(bits, 0x3FF).Some? <==> 0 <= bits < 0x400
  {
    Pow2Values();
    FromBitsLow(FromI16(bits), 0x3FF, 10);
  }
}
