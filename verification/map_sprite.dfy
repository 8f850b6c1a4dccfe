/**
 * `map/src/sprite.rs`: the 44-byte sprite record, the counted sprite list,
 * and the sprite type held in bits 4..5 of the sprite stat.
 */
module MapSprite {
  import opened Ints
  import opened Opt
  import opened Bytes
  import opened BitFlags
  import MapSector

  /** `SpriteStat`: every one of the sixteen bits is a declared flag or reserved. */
  const SPRITE_STAT_ALL: u16 :=
    0x0001 + 0x0002 + 0x0004 + 0x0008 + 0x0030 + 0x0040 + 0x0080 + 0x0100 + 0x0200 + 0x7C00 + 0x8000

  /** `SpriteStat::from_bits(..).expect(..)` never panics. */
  lemma SpriteStatTotal(bits: u16)
    ensures FromBits(bits, SPRITE_STAT_ALL) == Some(bits)
  {
    FromBitsTotal(bits);
  }

  datatype Sprite = Sprite(
    x: i32,
    y: i32,
    z: i32,
    spriteStat: u16,
    picnum: i16,
    shade: i8,
    pal: u8,
    clipDist: u8,
    filler: u8,
    xRepeat: u8,
    yRepeat: u8,
    xOffset: u8,
    yOffset: u8,
    sectnum: i16,
    statnum: i16,
    angle: i16,
    owner: i16,
    xVel: i16,
    yVel: i16,
    zVel: i16,
    lotag: i16,
    hitag: i16,
    extra: i16)

  const SPRITE_SIZE: nat := 44

  /** The sprite whose 44 bytes start at offset i. */
  function SpriteAt(s: seq<byte>, i: nat): Sprite
    requires i + SPRITE_SIZE <= |s|
  {
    Sprite(
      I32At(s, i), I32At(s, i + 4), I32At(s, i + 8), U16At(s, i + 12),
      I16At(s, i + 14), I8At(s, i + 16), U8At(s, i + 17), U8At(s, i + 18), U8At(s, i + 19),
      U8At(s, i + 20), U8At(s, i + 21), U8At(s, i + 22), U8At(s, i + 23),
      I16At(s, i + 24), I16At(s, i + 26), I16At(s, i + 28), I16At(s, i + 30),
      I16At(s, i + 32), I16At(s, i + 34), I16At(s, i + 36),
      I16At(s, i + 38), I16At(s, i + 40), I16At(s, i + 42))
  }

  /** `Sprite::from_reader` from offset i: only a short read can fail it. */
  function DecodeSprite(s: seq<byte>, i: nat): Result<Sprite>
  {
    if i + SPRITE_SIZE <= |s| then Ok(SpriteAt(s, i)) else Err(Io)
  }

  /** Byte k of a sprite record, split at byte 22 so that each half is a short case chain. */
  function SpriteByte(x: Sprite, k: nat): byte
    requires k < SPRITE_SIZE
  {
    if k < 22 then SpriteHeadByte(x, k) else SpriteTailByte(x, k)
  }

  function SpriteHeadByte(x: Sprite, k: nat): byte
    requires k < 22
  {
    if k < 4 then LeI32(x.x)[k]
    else if k < 8 then LeI32(x.y)[k - 4]
    else if k < 12 then LeI32(x.z)[k - 8]
    else if k < 14 then LeU16(x.spriteStat)[k - 12]
    else if k < 16 then LeI16(x.picnum)[k - 14]
    else if k == 16 then LeI8(x.shade)[0]
    else if k == 17 then x.pal
    else if k == 18 then x.clipDist
    else if k == 19 then x.filler
    else if k == 20 then x.xRepeat
    else x.yRepeat
  }

  function SpriteTailByte(x: Sprite, k: nat): byte
    requires 22 <= k < SPRITE_SIZE
  {
    if k == 22 then x.xOffset
    else if k == 23 then x.yOffset
    else if k < 26 then LeI16(x.sectnum)[k - 24]
    else if k < 28 then LeI16(x.statnum)[k - 26]
    else if k < 30 then LeI16(x.angle)[k - 28]
    else if k < 32 then LeI16(x.owner)[k - 30]
    else if k < 34 then LeI16(x.xVel)[k - 32]
    else if k < 36 then LeI16(x.yVel)[k - 34]
    else if k < 38 then LeI16(x.zVel)[k - 36]
    else if k < 40 then LeI16(x.lotag)[k - 38]
    else if k < 42 then LeI16(x.hitag)[k - 40]
    else LeI16(x.extra)[k - 42]
  }

  /** The 44 bytes a sprite is stored as. */
  function EncodeSprite(x: Sprite): (r: seq<byte>)
    ensures |r| == SPRITE_SIZE
  {
    seq(SPRITE_SIZE, k requires 0 <= k < SPRITE_SIZE => SpriteByte(x, k))
  }

  /** Decoding an encoded sprite gives it back. */
  lemma SpriteRoundTrip(x: Sprite)
    ensures DecodeSprite(EncodeSprite(x), 0) == Ok(x)
  {
    SpriteOfBytes(x);
  }

  lemma SpriteOfBytes(x: Sprite)
    ensures |EncodeSprite(x)| == 44 && SpriteAt(EncodeSprite(x), 0) == x
  {
    SpriteOfBytesHead(x);
    SpriteOfBytesMiddle(x);
    SpriteOfBytesTail(x);
  }

  lemma SpriteOfBytesHead(x: Sprite)
    ensures var d := SpriteAt(EncodeSprite(x), 0);
      && d.x == x.x && d.y == x.y && d.z == x.z && d.spriteStat == x.spriteStat
      && d.picnum == x.picnum && d.shade == x.shade && d.pal == x.pal && d.clipDist == x.clipDist
      && d.filler == x.filler && d.xRepeat == x.xRepeat && d.yRepeat == x.yRepeat
  {
  }

  lemma SpriteOfBytesMiddle(x: Sprite)
    ensures var d := SpriteAt(EncodeSprite(x), 0);
      && d.xOffset == x.xOffset && d.yOffset == x.yOffset
      && d.sectnum == x.sectnum && d.statnum == x.statnum && d.angle == x.angle && d.owner == x.owner
  {
  }

  lemma SpriteOfBytesTail(x: Sprite)
    ensures var d := SpriteAt(EncodeSprite(x), 0);
      && d.xVel == x.xVel && d.yVel == x.yVel && d.zVel == x.zVel
      && d.lotag == x.lotag && d.hitag == x.hitag && d.extra == x.extra
  {
  }

  /** Re-encoding a decoded sprite gives its bytes. */
  lemma SpriteBytes(s: seq<byte>, i: nat)
    requires i + SPRITE_SIZE <= |s|
    ensures EncodeSprite(SpriteAt(s, i)) == s[i..i + SPRITE_SIZE]
  {
    var x := SpriteAt(s, i);
    I32Bytes(s, i); I32Bytes(s, i + 4); I32Bytes(s, i + 8); U16Bytes(s, i + 12);
    I16Bytes(s, i + 14); I8Bytes(s, i + 16);
    I16Bytes(s, i + 24); I16Bytes(s, i + 26); I16Bytes(s, i + 28); I16Bytes(s, i + 30);
    I16Bytes(s, i + 32); I16Bytes(s, i + 34); I16Bytes(s, i + 36);
    I16Bytes(s, i + 38); I16Bytes(s, i + 40); I16Bytes(s, i + 42);
    forall k | 0 <= k < SPRITE_SIZE
      ensures SpriteByte(x, k) == s[i + k]
    {
    }
  }

  /** Texture and sizing fields, bytes 14..23 of a sprite. */
  function LookAt(s: seq<byte>, i: nat): (i16, i8, u8, u8, u8, u8, u8, u8, u8)
    requires i + 10 <= |s|
  {
    (I16At(s, i), I8At(s, i + 2), U8At(s, i + 3), U8At(s, i + 4), U8At(s, i + 5),
     U8At(s, i + 6), U8At(s, i + 7), U8At(s, i + 8), U8At(s, i + 9))
  }

  /** Sector, status, angle, owner and velocity fields, bytes 24..37 of a sprite. */
  function StateAt(s: seq<byte>, i: nat): (i16, i16, i16, i16, i16, i16, i16)
    requires i + 14 <= |s|
  {
    (I16At(s, i), I16At(s, i + 2), I16At(s, i + 4), I16At(s, i + 6),
     I16At(s, i + 8), I16At(s, i + 10), I16At(s, i + 12))
  }

  /** Reads picnum, shade, pal, clip_dist, filler, x/y repeat and x/y offset. */
  method ReadLook(r: Reader) returns (res: Result<(i16, i8, u8, u8, u8, u8, u8, u8, u8)>)
    requires r.Valid()
    modifies r
    ensures r.Valid()
    ensures res == if old(r.pos) + 10 <= |r.data| then Ok(LookAt(r.data, old(r.pos))) else Err(Io)
    ensures res.Ok? ==> r.pos == old(r.pos) + 10
  {
    var picnum :- r.ReadI16();
    var shade :- r.ReadI8();
    var pal :- r.ReadU8();
    var clipDist :- r.ReadU8();
    var filler :- r.ReadU8();
    var xRepeat :- r.ReadU8();
    var yRepeat :- r.ReadU8();
    var xOffset :- r.ReadU8();
    var yOffset :- r.ReadU8();
    res := Ok((picnum, shade, pal, clipDist, filler, xRepeat, yRepeat, xOffset, yOffset));
  }

  /** Reads sectnum, statnum, angle, owner and the three velocities. */
  method ReadState(r: Reader) returns (res: Result<(i16, i16, i16, i16, i16, i16, i16)>)
    requires r.Valid()
    modifies r
    ensures r.Valid()
    ensures res == if old(r.pos) + 14 <= |r.data| then Ok(StateAt(r.data, old(r.pos))) else Err(Io)
    ensures res.Ok? ==> r.pos == old(r.pos) + 14
  {
    var sectnum :- r.ReadI16();
    var statnum :- r.ReadI16();
    var angle :- r.ReadI16();
    var owner :- r.ReadI16();
    var xVel :- r.ReadI16();
    var yVel :- r.ReadI16();
    var zVel :- r.ReadI16();
    res := Ok((sectnum, statnum, angle, owner, xVel, yVel, zVel));
  }

  /** `Sprite::from_reader`: 23 little-endian reads in declaration order. */
  method ReadSprite(r: Reader) returns (res: Result<Sprite>)
    requires r.Valid()
    modifies r
    ensures r.Valid()
    ensures res == DecodeSprite(r.data, old(r.pos))
    ensures res.Ok? ==> r.pos == old(r.pos) + SPRITE_SIZE
  {
    var x :- r.ReadI32();
    var y :- r.ReadI32();
    var z :- r.ReadI32();
    var statBits :- r.ReadU16();
    SpriteStatTotal(statBits);
    var spriteStat := FromBits(statBits, SPRITE_STAT_ALL).value;
    var look :- ReadLook(r);
    var state :- ReadState(r);
    var tags :- MapSector.ReadTags(r);
    res := Ok(Sprite(
      x, y, z, spriteStat, look.0, look.1, look.2, look.3, look.4, look.5, look.6, look.7, look.8,
      state.0, state.1, state.2, state.3, state.4, state.5, state.6, tags.0, tags.1, tags.2));
  }

  // ---- the sprite list -----------------------------------------------------

  /** A `u16` count at offset i followed by that many sprites, or `Io` if they do not all fit. */
  function SpriteListAt(s: seq<byte>, i: nat): Result<seq<Sprite>>
  {
    if |s| < i + 2 then Err(Io)
    else
      var n := U16At(s, i);
      if i + 2 + SPRITE_SIZE * n <= |s|
      then Ok(seq(n, k requires 0 <= k < n => SpriteAt(s, i + 2 + SPRITE_SIZE * k)))
      else Err(Io)
  }

  /** The module-level `from_reader`: the count, then that many sprites; one short record fails the list. */
  method ReadSprites(r: Reader) returns (res: Result<seq<Sprite>>)
    requires r.Valid()
    modifies r
    ensures r.Valid()
    ensures res == SpriteListAt(r.data, old(r.pos))
    ensures res.Ok? ==> r.pos == old(r.pos) + 2 + SPRITE_SIZE * |res.value|
  {
    ghost var start := r.pos;
    var n :- r.ReadU16();
    var sprites: seq<Sprite> := [];
    var k := 0;
    while k < n
      invariant 0 <= k <= n && r.Valid()
      invariant r.pos == start + 2 + SPRITE_SIZE * k <= |r.data|
      invariant sprites == seq(k, j requires 0 <= j < k => SpriteAt(r.data, start + 2 + SPRITE_SIZE * j))
    {
      var sprite :- ReadSprite(r);
      sprites := sprites + [sprite];
      k := k + 1;
    }
    res := Ok(sprites);
  }

  /** A successful list has exactly the counted number of sprites, all read from within the data. */
  lemma SpriteListCount(s: seq<byte>, i: nat)
    requires SpriteListAt(s, i).Ok?
    ensures i + 2 <= |s|
    ensures |SpriteListAt(s, i).value| == U16At(s, i)
    ensures i + 2 + SPRITE_SIZE * U16At(s, i) <= |s|
  {
  }

  // ---- sprite type ---------------------------------------------------------

  datatype SpriteType = Face | Wall | Floor

  /** The `#[repr(u16)]` discriminant of each type: its two bits shifted to bits 4..5. */
  function Discriminant(t: SpriteType): u16
  {
    match t
    case Face => 0x00
    case Wall => 0x10
    case Floor => 0x20
  }

  /** `(bits >> 4) & 0b11`. */
  function TypeBits(stat: u16): nat
  {
    And(stat / 0x10, 0x3)
  }

  /** The type bits are bits 4..5 of the stat, and nothing else of it. */
  lemma TypeBitsAreBits4To5(stat: u16)
    ensures TypeBits(stat) == (stat / 0x10) % 4
  {
    assert Pow2(2) == 4;
    AndLowMask(stat / 0x10, 2);
  }

  /** `std::mem::transmute::<u16, SpriteType>`: the type whose discriminant is v, if there is one. */
  function Transmute(v: nat): Option<SpriteType>
  {
    if v == 0x00 then Some(Face)
    else if v == 0x10 then Some(Wall)
    else if v == 0x20 then Some(Floor)
    else None
  }

  /** What `sprite_type` does as written: a type, undefined behaviour (an invalid transmute), or a panic. */
  datatype TypeOutcome = Typed(t: SpriteType) | Undefined | Panicked

  /** `sprite_type` as written: 0, 1 and 2 are transmuted directly, 3 panics. */
  function SpriteTypeAsWritten(stat: u16): TypeOutcome
  {
    var b := TypeBits(stat);
    if b <= 2 then
      match Transmute(b)
      case Some(t) => Typed(t)
      case None => Undefined
    else Panicked
  }

  /** As written, only a face sprite is typed: a wall sprite (stat 0x10) transmutes the invalid value 1. */
  lemma SpriteTypeAsWrittenWallSprite()
    ensures TypeBits(0x10) == 1
    ensures SpriteTypeAsWritten(0x10) == Undefined
  {
    TypeBitsAreBits4To5(0x10);
  }

  /** As written, the outcome is a type exactly when the type bits are 0, and that type is `Face`. */
  lemma SpriteTypeAsWrittenOnlyFace(stat: u16)
    ensures SpriteTypeAsWritten(stat).Typed? <==> TypeBits(stat) == 0
    ensures SpriteTypeAsWritten(stat).Typed? ==> SpriteTypeAsWritten(stat).t == Face
  {
    TypeBitsAreBits4To5(stat);
  }

  /**
   * `sprite_type` as intended: the two type bits select Face, Wall or Floor,
   * whose discriminant is those bits back in place; the value 0b11 panics.
   */
  function TypeOf(stat: u16): (r: Result<SpriteType>)
    ensures r.Err? <==> (stat / 0x10) % 4 == 3
    ensures r.Err? ==> r.error == Panic
    ensures r.Ok? ==> Discriminant(r.value) == 0x10 * ((stat / 0x10) % 4)
  {
    TypeBitsAreBits4To5(stat);
    match TypeBits(stat)
    case 0 => Ok(Face)
    case 1 => Ok(Wall)
    case 2 => Ok(Floor)
    case _ => Err(Panic)
  }

  /** The intended type depends only on bits 4..5: changing any other bit keeps it. */
  lemma TypeOfOnlyBits4To5(a: u16, b: u16)
    requires (a / 0x10) % 4 == (b / 0x10) % 4
    ensures TypeOf(a) == TypeOf(b)
  {
    TypeBitsAreBits4To5(a);
    TypeBitsAreBits4To5(b);
  }
}
