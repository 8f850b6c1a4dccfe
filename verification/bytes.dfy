/**
 * Little-endian decoding of a byte stream, as the `byteorder` crate's
 * `ReadBytesExt` does it over a `std::io::Read`: the fixed-width readers used
 * by every record of the MAP format, their inverse encoders, and a reader
 * object that advances through a byte buffer.
 */
module Bytes {
  import opened Ints

  type byte = u8

  /** The decoder's failures: `map::Error` plus the panics of `expect` on flag bits. */
  datatype Error =
    | UnsupportedVersion(version: i32)
    | Io
    | Panic

  datatype Result<T> = Ok(value: T) | Err(error: Error) {
    predicate IsFailure() { Err? }

    function PropagateFailure<U>(): Result<U>
      requires Err?
    {
      Err(error)
    }

    function Extract(): T
      requires Ok?
    {
      value
    }
  }

  // ---- decoding at a byte offset -------------------------------------------

  function U8At(s: seq<byte>, i: nat): u8
    requires i + 1 <= |s|
  {
    s[i]
  }

  function I8At(s: seq<byte>, i: nat): i8
    requires i + 1 <= |s|
  {
    if s[i] < 0x80 then s[i] as int else s[i] as int - 0x100
  }

  function U16At(s: seq<byte>, i: nat): u16
    requires i + 2 <= |s|
  {
    s[i] as int + 0x100 * s[i + 1] as int
  }

  function I16At(s: seq<byte>, i: nat): i16
    requires i + 2 <= |s|
  {
    ToI16(U16At(s, i))
  }

  function U32At(s: seq<byte>, i: nat): (r: nat)
    requires i + 4 <= |s|
    ensures r < 0x1_0000_0000
  {
    s[i] as int + 0x100 * s[i + 1] as int + 0x1_0000 * s[i + 2] as int + 0x100_0000 * s[i + 3] as int
  }

  function I32At(s: seq<byte>, i: nat): i32
    requires i + 4 <= |s|
  {
    var u := U32At(s, i);
    if u < 0x8000_0000 then u else u - 0x1_0000_0000
  }

  // ---- encoding (the inverse of the readers) -------------------------------

  function LeU8(v: u8): (r: seq<byte>)
    ensures |r| == 1 && U8At(r, 0) == v
  {
    [v]
  }

  function LeI8(v: i8): (r: seq<byte>)
    ensures |r| == 1 && I8At(r, 0) == v
  {
    [v % 0x100]
  }

  function LeU16(v: u16): (r: seq<byte>)
    ensures |r| == 2 && U16At(r, 0) == v
  {
    [v % 0x100, v / 0x100]
  }

  function LeI16(v: i16): (r: seq<byte>)
    ensures |r| == 2 && I16At(r, 0) == v
  {
    LeU16(FromI16(v))
  }

  function LeU32(u: nat): (r: seq<byte>)
    requires u < 0x1_0000_0000
    ensures |r| == 4 && U32At(r, 0) == u
  {
    var q1 := u / 0x100;
    var q2 := q1 / 0x100;
    assert u == u % 0x100 + 0x100 * q1 && q1 == q1 % 0x100 + 0x100 * q2;
    assert q2 == q2 % 0x100 + 0x100 * (q2 / 0x100) && q2 / 0x100 < 0x100;
    [u % 0x100, q1 % 0x100, q2 % 0x100, q2 / 0x100]
  }

  function LeI32(v: i32): (r: seq<byte>)
    ensures |r| == 4 && I32At(r, 0) == v
  {
    LeU32(v % 0x1_0000_0000)
  }

  // ---- a value read from a window depends on that window only --------------

  lemma U16Window(s: seq<byte>, i: nat, t: seq<byte>, j: nat)
    requires i + 2 <= |s| && j + 2 <= |t| && s[i..i + 2] == t[j..j + 2]
    ensures U16At(s, i) == U16At(t, j) && I16At(s, i) == I16At(t, j)
  {
    assert s[i] == s[i..i + 2][0] && s[i + 1] == s[i..i + 2][1];
  }

  lemma U32Window(s: seq<byte>, i: nat, t: seq<byte>, j: nat)
    requires i + 4 <= |s| && j + 4 <= |t| && s[i..i + 4] == t[j..j + 4]
    ensures U32At(s, i) == U32At(t, j) && I32At(s, i) == I32At(t, j)
  {
    var w := s[i..i + 4];
    assert s[i] == w[0] && s[i + 1] == w[1] && s[i + 2] == w[2] && s[i + 3] == w[3];
  }

  // ---- the bytes are recovered from the value ------------------------------

  lemma I8Bytes(s: seq<byte>, i: nat)
    requires i + 1 <= |s|
    ensures LeI8(I8At(s, i)) == [s[i]]
  {
  }

  lemma U16Bytes(s: seq<byte>, i: nat)
    requires i + 2 <= |s|
    ensures LeU16(U16At(s, i)) == [s[i], s[i + 1]]
  {
  }

  lemma I16Bytes(s: seq<byte>, i: nat)
    requires i + 2 <= |s|
    ensures LeI16(I16At(s, i)) == [s[i], s[i + 1]]
  {
    U16Bytes(s, i);
  }

  lemma I32Bytes(s: seq<byte>, i: nat)
    requires i + 4 <= |s|
    ensures LeI32(I32At(s, i)) == [s[i], s[i + 1], s[i + 2], s[i + 3]]
  {
    var u := U32At(s, i);
    var hi2 := s[i + 2] as int + 0x100 * s[i + 3] as int;
    var hi1 := s[i + 1] as int + 0x100 * hi2;
    assert I32At(s, i) % 0x1_0000_0000 == u;
    DivModUnique(u, 0x100, hi1, s[i]);
    DivModUnique(hi1, 0x100, hi2, s[i + 1]);
    DivModUnique(hi2, 0x100, s[i + 3], s[i + 2]);
  }

  // ---- the reader ----------------------------------------------------------

  /**
   * A `Read` over an in-memory buffer (`std::io::Cursor<&[u8]>`). Every read
   * either consumes exactly its width or fails with `Io`; a failed read leaves
   * the cursor at the end of the buffer, as `Cursor::read_exact` does.
   */
  class Reader {
    const data: seq<byte>
    var pos: nat

    ghost predicate Valid()
      reads this
    {
      pos <= |data|
    }

    constructor (data: seq<byte>)
      ensures Valid() && this.data == data && pos == 0
    {
      this.data := data;
      pos := 0;
    }

    method ReadU8() returns (r: Result<u8>)
      requires Valid()
      modifies this
      ensures Valid()
      ensures r == if old(pos) + 1 <= |data| then Ok(U8At(data, old(pos))) else Err(Io)
      ensures pos == if old(pos) + 1 <= |data| then old(pos) + 1 else |data|
    {
      if pos + 1 > |data| {
        pos := |data|;
        return Err(Io);
      }
      r := Ok(U8At(data, pos));
      pos := pos + 1;
    }

    method ReadI8() returns (r: Result<i8>)
      requires Valid()
      modifies this
      ensures Valid()
      ensures r == if old(pos) + 1 <= |data| then Ok(I8At(data, old(pos))) else Err(Io)
      ensures pos == if old(pos) + 1 <= |data| then old(pos) + 1 else |data|
    {
      if pos + 1 > |data| {
        pos := |data|;
        return Err(Io);
      }
      r := Ok(I8At(data, pos));
      pos := pos + 1;
    }

    method ReadU16() returns (r: Result<u16>)
      requires Valid()
      modifies this
      ensures Valid()
      ensures r == if old(pos) + 2 <= |data| then Ok(U16At(data, old(pos))) else Err(Io)
      ensures pos == if old(pos) + 2 <= |data| then old(pos) + 2 else |data|
    {
      if pos + 2 > |data| {
        pos := |data|;
        return Err(Io);
      }
      r := Ok(U16At(data, pos));
      pos := pos + 2;
    }

    method ReadI16() returns (r: Result<i16>)
      requires Valid()
      modifies this
      ensures Valid()
      ensures r == if old(pos) + 2 <= |data| then Ok(I16At(data, old(pos))) else Err(Io)
      ensures pos == if old(pos) + 2 <= |data| then old(pos) + 2 else |data|
    {
      if pos + 2 > |data| {
        pos := |data|;
        return Err(Io);
      }
      r := Ok(I16At(data, pos));
      pos := pos + 2;
    }

    method ReadI32() returns (r: Result<i32>)
      requires Valid()
      modifies this
      ensures Valid()
      ensures r == if old(pos) + 4 <= |data| then Ok(I32At(data, old(pos))) else Err(Io)
      ensures pos == if old(pos) + 4 <= |data| then old(pos) + 4 else |data|
    {
      if pos + 4 > |data| {
        pos := |data|;
        return Err(Io);
      }
      r := Ok(I32At(data, pos));
      pos := pos + 4;
    }
  }
}
