/**
 * `map/src/sector.rs`: the 40-byte sector record, the 32-byte wall record,
 * the counted record lists, and the iterator that walks one sector's walls
 * along their `point2` links.
 */
module MapSector {
  import opened Ints
  import opened Opt
  import opened Bytes
  import opened BitFlags
  import opened WallLoop

  // ---- flag sets -----------------------------------------------------------

  /** `SectorStat`: seven flags in bits 0..6 and `RESERVED` covering bits 7..15. */
  const SECTOR_STAT_FLAGS: u16 := 0x007F
  const SECTOR_STAT_RESERVED: u16 := 0xFF80
  const SECTOR_STAT_ALL: u16 := SECTOR_STAT_FLAGS + SECTOR_STAT_RESERVED

  /** `WallStat`: ten flags in bits 0..9 and `RESERVED` covering bits 10..15. */
  const WALL_STAT_FLAGS: u16 := 0x03FF
  const WALL_STAT_RESERVED: u16 := 0xFC00
  const WALL_STAT_ALL: u16 := WALL_STAT_FLAGS + WALL_STAT_RESERVED

  /** Both flag sets declare every bit, so `from_bits(..).expect(..)` cannot panic. */
  lemma StatsTotal(bits: u16)
    ensures FromBits(bits, SECTOR_STAT_ALL) == Some(bits)
    ensures FromBits(bits, WALL_STAT_ALL) == Some(bits)
  {
    FromBitsTotal(bits);
  }

  // ---- records -------------------------------------------------------------

  datatype Sector = Sector(
    wallptr: u16,
    wallnum: u16,
    ceilingZ: i32,
    floorZ: i32,
    ceilingStat: u16,
    floorStat: u16,
    ceilingPicnum: i16,
    ceilingHeinum: i16,
    ceilingShade: i8,
    ceilingPal: u8,
    ceilingXPanning: u8,
    ceilingYPanning: u8,
    floorPicnum: i16,
    floorHeinum: i16,
    floorShade: i8,
    floorPal: u8,
    floorXPanning: u8,
    floorYPanning: u8,
    visibility: u8,
    filler: u8,
    lotag: i16,
    hitag: i16,
    extra: i16)

  datatype Wall = Wall(
    x: i32,
    y: i32,
    point2: i16,
    nextWall: i16,
    nextSector: i16,
    wallStat: u16,
    picnum: i16,
    overPicnum: i16,
    shade: i8,
    pal: u8,
    xRepeat: u8,
    yRepeat: u8,
    xPanning: u8,
    yPanning: u8,
    lotag: i16,
    hitag: i16,
    extra: i16)

  const SECTOR_SIZE: nat := 40
  const WALL_SIZE: nat := 32

  /** The sector whose 40 bytes start at offset i: every field little-endian at its fixed offset. */
  function SectorAt(s: seq<byte>, i: nat): Sector
    requires i + SECTOR_SIZE <= |s|
  {
    Sector(
      U16At(s, i), U16At(s, i + 2), I32At(s, i + 4), I32At(s, i + 8),
      U16At(s, i + 12), U16At(s, i + 14),
      I16At(s, i + 16), I16At(s, i + 18), I8At(s, i + 20), U8At(s, i + 21), U8At(s, i + 22), U8At(s, i + 23),
      I16At(s, i + 24), I16At(s, i + 26), I8At(s, i + 28), U8At(s, i + 29), U8At(s, i + 30), U8At(s, i + 31),
      U8At(s, i + 32), U8At(s, i + 33), I16At(s, i + 34), I16At(s, i + 36), I16At(s, i + 38))
  }

  /** The wall whose 32 bytes start at offset i. */
  function WallAt(s: seq<byte>, i: nat): Wall
    requires i + WALL_SIZE <= |s|
  {
    Wall(
      I32At(s, i), I32At(s, i + 4), I16At(s, i + 8), I16At(s, i + 10), I16At(s, i + 12),
      U16At(s, i + 14), I16At(s, i + 16), I16At(s, i + 18), I8At(s, i + 20), U8At(s, i + 21),
      U8At(s, i + 22), U8At(s, i + 23), U8At(s, i + 24), U8At(s, i + 25),
      I16At(s, i + 26), I16At(s, i + 28), I16At(s, i + 30))
  }

  /**
   * `Sector::from_reader` from offset i. The two stat reads go through
   * `SectorStat::from_bits(..).expect(..)`, which `StatsTotal` shows always
   * succeeds, so the only failure is a short read.
   */
  function DecodeSector(s: seq<byte>, i: nat): Result<Sector>
  {
    if i + SECTOR_SIZE <= |s| then Ok(SectorAt(s, i)) else Err(Io)
  }

  /** `Wall::from_reader` from offset i; its stat goes through `WallStat::from_bits(..).expect(..)` likewise. */
  function DecodeWall(s: seq<byte>, i: nat): Result<Wall>
  {
    if i + WALL_SIZE <= |s| then Ok(WallAt(s, i)) else Err(Io)
  }

  // ---- encoding: the records are exactly their bytes -----------------------

  function SectorByte(x: Sector, k: nat): byte
    requires k < SECTOR_SIZE
  {
    if k < 2 then LeU16(x.wallptr)[k]
    else if k < 4 then LeU16(x.wallnum)[k - 2]
    else if k < 8 then LeI32(x.ceilingZ)[k - 4]
    else if k < 12 then LeI32(x.floorZ)[k - 8]
    else if k < 14 then LeU16(x.ceilingStat)[k - 12]
    else if k < 16 then LeU16(x.floorStat)[k - 14]
    else if k < 18 then LeI16(x.ceilingPicnum)[k - 16]
    else if k < 20 then LeI16(x.ceilingHeinum)[k - 18]
    else if k == 20 then LeI8(x.ceilingShade)[0]
    else if k == 21 then x.ceilingPal
    else if k == 22 then x.ceilingXPanning
    else if k == 23 then x.ceilingYPanning
    else if k < 26 then LeI16(x.floorPicnum)[k - 24]
    else if k < 28 then LeI16(x.floorHeinum)[k - 26]
    else if k == 28 then LeI8(x.floorShade)[0]
    else if k == 29 then x.floorPal
    else if k == 30 then x.floorXPanning
    else if k == 31 then x.floorYPanning
    else if k == 32 then x.visibility
    else if k == 33 then x.filler
    else if k < 36 then LeI16(x.lotag)[k - 34]
    else if k < 38 then LeI16(x.hitag)[k - 36]
    else LeI16(x.extra)[k - 38]
  }

  /** The 40 bytes a sector is stored as. */
  function EncodeSector(x: Sector): (r: seq<byte>)
    ensures |r| == SECTOR_SIZE
  {
    seq(SECTOR_SIZE, k requires 0 <= k < SECTOR_SIZE => SectorByte(x, k))
  }

  function WallByte(x: Wall, k: nat): byte
    requires k < WALL_SIZE
  {
    if k < 4 then LeI32(x.x)[k]
    else if k < 8 then LeI32(x.y)[k - 4]
    else if k < 10 then LeI16(x.point2)[k - 8]
    else if k < 12 then LeI16(x.nextWall)[k - 10]
    else if k < 14 then LeI16(x.nextSector)[k - 12]
    else if k < 16 then LeU16(x.wallStat)[k - 14]
    else if k < 18 then LeI16(x.picnum)[k - 16]
    else if k < 20 then LeI16(x.overPicnum)[k - 18]
    else if k == 20 then LeI8(x.shade)[0]
    else if k == 21 then x.pal
    else if k == 22 then x.xRepeat
    else if k == 23 then x.yRepeat
    else if k == 24 then x.xPanning
    else if k == 25 then x.yPanning
    else if k < 28 then LeI16(x.lotag)[k - 26]
    else if k < 30 then LeI16(x.hitag)[k - 28]
    else LeI16(x.extra)[k - 30]
  }

  /** The 32 bytes a wall is stored as. */
  function EncodeWall(x: Wall): (r: seq<byte>)
    ensures |r| == WALL_SIZE
  {
    seq(WALL_SIZE, k requires 0 <= k < WALL_SIZE => WallByte(x, k))
  }

  /** Decoding an encoded sector gives it back. */
  lemma SectorRoundTrip(x: Sector)
    ensures DecodeSector(EncodeSector(x), 0) == Ok(x)
  {
    SectorOfBytes(x);
  }

  lemma SectorOfBytes(x: Sector)
    ensures |EncodeSector(x)| == 40 && SectorAt(EncodeSector(x), 0) == x
  {
    SectorOfBytesHead(x);
    SectorOfBytesTail(x);
  }

  lemma SectorOfBytesHead(x: Sector)
    ensures var d := SectorAt(EncodeSector(x), 0);
      && d.wallptr == x.wallptr && d.wallnum == x.wallnum && d.ceilingZ == x.ceilingZ
      && d.floorZ == x.floorZ && d.ceilingStat == x.ceilingStat && d.floorStat == x.floorStat
      && d.ceilingPicnum == x.ceilingPicnum && d.ceilingHeinum == x.ceilingHeinum
      && d.ceilingShade == x.ceilingShade && d.ceilingPal == x.ceilingPal
      && d.ceilingXPanning == x.ceilingXPanning && d.ceilingYPanning == x.ceilingYPanning
  {
  }

  lemma SectorOfBytesTail(x: Sector)
    ensures var d := SectorAt(EncodeSector(x), 0);
      && d.floorPicnum == x.floorPicnum && d.floorHeinum == x.floorHeinum
      && d.floorShade == x.floorShade && d.floorPal == x.floorPal
      && d.floorXPanning == x.floorXPanning && d.floorYPanning == x.floorYPanning
      && d.visibility == x.visibility && d.filler == x.filler
      && d.lotag == x.lotag && d.hitag == x.hitag && d.extra == x.extra
  {
  }

  /** Every byte of a sector record is a field byte: re-encoding a decoded sector gives its bytes. */
  lemma SectorBytes(s: seq<byte>, i: nat)
    requires i + SECTOR_SIZE <= |s|
    ensures EncodeSector(SectorAt(s, i)) == s[i..i + SECTOR_SIZE]
  {
    var x := SectorAt(s, i);
    U16Bytes(s, i); U16Bytes(s, i + 2); I32Bytes(s, i + 4); I32Bytes(s, i + 8);
    U16Bytes(s, i + 12); U16Bytes(s, i + 14); I16Bytes(s, i + 16); I16Bytes(s, i + 18); I8Bytes(s, i + 20);
    I16Bytes(s, i + 24); I16Bytes(s, i + 26); I8Bytes(s, i + 28);
    I16Bytes(s, i + 34); I16Bytes(s, i + 36); I16Bytes(s, i + 38);
    forall k | 0 <= k < SECTOR_SIZE
      ensures SectorByte(x, k) == s[i + k]
    {
    }
  }

  /** Decoding an encoded wall gives it back. */
  lemma WallRoundTrip(x: Wall)
    ensures DecodeWall(EncodeWall(x), 0) == Ok(x)
  {
    WallOfBytesHead(x);
    WallOfBytesTail(x);
  }

  lemma WallOfBytesHead(x: Wall)
    ensures var d := WallAt(EncodeWall(x), 0);
      && d.x == x.x && d.y == x.y && d.point2 == x.point2 && d.nextWall == x.nextWall
      && d.nextSector == x.nextSector && d.wallStat == x.wallStat
      && d.picnum == x.picnum && d.overPicnum == x.overPicnum
  {
  }

  lemma WallOfBytesTail(x: Wall)
    ensures var d := WallAt(EncodeWall(x), 0);
      && d.shade == x.shade && d.pal == x.pal && d.xRepeat == x.xRepeat && d.yRepeat == x.yRepeat
      && d.xPanning == x.xPanning && d.yPanning == x.yPanning
      && d.lotag == x.lotag && d.hitag == x.hitag && d.extra == x.extra
  {
  }

  /** Re-encoding a decoded wall gives its bytes. */
  lemma WallBytes(s: seq<byte>, i: nat)
    requires i + WALL_SIZE <= |s|
    ensures EncodeWall(WallAt(s, i)) == s[i..i + WALL_SIZE]
  {
    var x := WallAt(s, i);
    I32Bytes(s, i); I32Bytes(s, i + 4); I16Bytes(s, i + 8); I16Bytes(s, i + 10); I16Bytes(s, i + 12);
    U16Bytes(s, i + 14); I16Bytes(s, i + 16); I16Bytes(s, i + 18); I8Bytes(s, i + 20);
    I16Bytes(s, i + 26); I16Bytes(s, i + 28); I16Bytes(s, i + 30);
    forall k | 0 <= k < WALL_SIZE
      ensures WallByte(x, k) == s[i + k]
    {
    }
  }

  /** A record read at offset i depends on its own bytes only. */
  lemma RecordsLocal(s: seq<byte>, t: seq<byte>, i: nat)
    requires i <= |t| <= |s| && t == s[..|t|]
    ensures i + SECTOR_SIZE <= |t| ==> SectorAt(t, i) == SectorAt(s, i)
    ensures i + WALL_SIZE <= |t| ==> WallAt(t, i) == WallAt(s, i)
  {
  }

  // ---- reading records from a reader ---------------------------------------

  function SurfaceAt(s: seq<byte>, i: nat): (i16, i16, i8, u8, u8, u8)
    requires i + 8 <= |s|
  {
    (I16At(s, i), I16At(s, i + 2), I8At(s, i + 4), U8At(s, i + 5), U8At(s, i + 6), U8At(s, i + 7))
  }

  function TagsAt(s: seq<byte>, i: nat): (i16, i16, i16)
    requires i + 6 <= |s|
  {
    (I16At(s, i), I16At(s, i + 2), I16At(s, i + 4))
  }

  /**
   * The texturing fields that the ceiling and the floor share, in this order:
   * picnum, heinum, shade, pal, x panning, y panning (8 bytes).
   */
  method ReadSurface(r: Reader) returns (res: Result<(i16, i16, i8, u8, u8, u8)>)
    requires r.Valid()
    modifies r
    ensures r.Valid()
    ensures res == if old(r.pos) + 8 <= |r.data| then Ok(SurfaceAt(r.data, old(r.pos))) else Err(Io)
    ensures res.Ok? ==> r.pos == old(r.pos) + 8
  {
    var picnum :- r.ReadI16();
    var heinum :- r.ReadI16();
    var shade :- r.ReadI8();
    var pal :- r.ReadU8();
    var xPanning :- r.ReadU8();
    var yPanning :- r.ReadU8();
    res := Ok((picnum, heinum, shade, pal, xPanning, yPanning));
  }

  /** The fields that open a sector record: first wall, wall count, ceiling and floor heights (12 bytes). */
  function SectorHeadAt(s: seq<byte>, i: nat): (u16, u16, i32, i32)
    requires i + 12 <= |s|
  {
    (U16At(s, i), U16At(s, i + 2), I32At(s, i + 4), I32At(s, i + 8))
  }

  method ReadSectorHead(r: Reader) returns (res: Result<(u16, u16, i32, i32)>)
    requires r.Valid()
    modifies r
    ensures r.Valid()
    ensures res == if old(r.pos) + 12 <= |r.data| then Ok(SectorHeadAt(r.data, old(r.pos))) else Err(Io)
    ensures res.Ok? ==> r.pos == old(r.pos) + 12
  {
    var wallptr :- r.ReadU16();
    var wallnum :- r.ReadU16();
    var ceilingZ :- r.ReadI32();
    var floorZ :- r.ReadI32();
    res := Ok((wallptr, wallnum, ceilingZ, floorZ));
  }

  /** The placement fields that open a wall record: x, y, point2, next wall, next sector (14 bytes). */
  function WallHeadAt(s: seq<byte>, i: nat): (i32, i32, i16, i16, i16)
    requires i + 14 <= |s|
  {
    (I32At(s, i), I32At(s, i + 4), I16At(s, i + 8), I16At(s, i + 10), I16At(s, i + 12))
  }

  /** The texturing fields after a wall's stat: picnum, over picnum, shade, pal, repeats, pannings (10 bytes). */
  function WallLookAt(s: seq<byte>, i: nat): (i16, i16, i8, u8, u8, u8, u8, u8)
    requires i + 10 <= |s|
  {
    (I16At(s, i), I16At(s, i + 2), I8At(s, i + 4), U8At(s, i + 5),
     U8At(s, i + 6), U8At(s, i + 7), U8At(s, i + 8), U8At(s, i + 9))
  }

  method ReadWallHead(r: Reader) returns (res: Result<(i32, i32, i16, i16, i16)>)
    requires r.Valid()
    modifies r
    ensures r.Valid()
    ensures res == if old(r.pos) + 14 <= |r.data| then Ok(WallHeadAt(r.data, old(r.pos))) else Err(Io)
    ensures res.Ok? ==> r.pos == old(r.pos) + 14
  {
    var x :- r.ReadI32();
    var y :- r.ReadI32();
    var point2 :- r.ReadI16();
    var nextWall :- r.ReadI16();
    var nextSector :- r.ReadI16();
    res := Ok((x, y, point2, nextWall, nextSector));
  }

  method ReadWallLook(r: Reader) returns (res: Result<(i16, i16, i8, u8, u8, u8, u8, u8)>)
    requires r.Valid()
    modifies r
    ensures r.Valid()
    ensures res == if old(r.pos) + 10 <= |r.data| then Ok(WallLookAt(r.data, old(r.pos))) else Err(Io)
    ensures res.Ok? ==> r.pos == old(r.pos) + 10
  {
    var picnum :- r.ReadI16();
    var overPicnum :- r.ReadI16();
    var shade :- r.ReadI8();
    var pal :- r.ReadU8();
    var xRepeat :- r.ReadU8();
    var yRepeat :- r.ReadU8();
    var xPanning :- r.ReadU8();
    var yPanning :- r.ReadU8();
    res := Ok((picnum, overPicnum, shade, pal, xRepeat, yRepeat, xPanning, yPanning));
  }

  /** The game-specific tags that close every record: lotag, hitag, extra (6 bytes). */
  method ReadTags(r: Reader) returns (res: Result<(i16, i16, i16)>)
    requires r.Valid()
    modifies r
    ensures r.Valid()
    ensures res == if old(r.pos) + 6 <= |r.data| then Ok(TagsAt(r.data, old(r.pos))) else Err(Io)
    ensures res.Ok? ==> r.pos == old(r.pos) + 6
  {
    var lotag :- r.ReadI16();
    var hitag :- r.ReadI16();
    var extra :- r.ReadI16();
    res := Ok((lotag, hitag, extra));
  }

  /** `Sector::from_reader`: 23 little-endian reads in declaration order. */
  method ReadSector(r: Reader) returns (res: Result<Sector>)
    requires r.Valid()
    modifies r
    ensures r.Valid()
    ensures res == DecodeSector(r.data, old(r.pos))
    ensures res.Ok? ==> r.pos == old(r.pos) + SECTOR_SIZE
  {
    var head :- ReadSectorHead(r);
    var ceilingBits :- r.ReadU16();
    StatsTotal(ceilingBits);
    var ceilingStat := FromBits(ceilingBits, SECTOR_STAT_ALL).value;
    var floorBits :- r.ReadU16();
    StatsTotal(floorBits);
    var floorStat := FromBits(floorBits, SECTOR_STAT_ALL).value;
    var ceiling :- ReadSurface(r);
    var floor :- ReadSurface(r);
    var visibility :- r.ReadU8();
    var filler :- r.ReadU8();
    var tags :- ReadTags(r);
    res := Ok(Sector(
      head.0, head.1, head.2, head.3, ceilingStat, floorStat,
      ceiling.0, ceiling.1, ceiling.2, ceiling.3, ceiling.4, ceiling.5,
      floor.0, floor.1, floor.2, floor.3, floor.4, floor.5,
      visibility, filler, tags.0, tags.1, tags.2));
  }

  /** `Wall::from_reader`: 17 little-endian reads in declaration order. */
  method ReadWall(r: Reader) returns (res: Result<Wall>)
    requires r.Valid()
    modifies r
    ensures r.Valid()
    ensures res == DecodeWall(r.data, old(r.pos))
    ensures res.Ok? ==> r.pos == old(r.pos) + WALL_SIZE
  {
    var head :- ReadWallHead(r);
    var statBits :- r.ReadU16();
    StatsTotal(statBits);
    var wallStat := FromBits(statBits, WALL_STAT_ALL).value;
    var look :- ReadWallLook(r);
    var tags :- ReadTags(r);
    res := Ok(Wall(
      head.0, head.1, head.2, head.3, head.4, wallStat,
      look.0, look.1, look.2, look.3, look.4, look.5, look.6, look.7,
      tags.0, tags.1, tags.2));
  }

  // ---- counted lists -------------------------------------------------------

  /** n sectors stored back to back from offset i, or `Io` when they do not all fit. */
  function SectorsAt(s: seq<byte>, i: nat, n: nat): Result<seq<Sector>>
  {
    if i + SECTOR_SIZE * n <= |s|
    then Ok(seq(n, k requires 0 <= k < n => SectorAt(s, i + SECTOR_SIZE * k)))
    else Err(Io)
  }

  /** n walls stored back to back from offset i, or `Io` when they do not all fit. */
  function WallsAt(s: seq<byte>, i: nat, n: nat): Result<seq<Wall>>
  {
    if i + WALL_SIZE * n <= |s|
    then Ok(seq(n, k requires 0 <= k < n => WallAt(s, i + WALL_SIZE * k)))
    else Err(Io)
  }

  /** A `u16` count at offset i followed by that many sectors. */
  function SectorListAt(s: seq<byte>, i: nat): Result<seq<Sector>>
  {
    if |s| < i + 2 then Err(Io) else SectorsAt(s, i + 2, U16At(s, i))
  }

  /** A `u16` count at offset i followed by that many walls. */
  function WallListAt(s: seq<byte>, i: nat): Result<seq<Wall>>
  {
    if |s| < i + 2 then Err(Io) else WallsAt(s, i + 2, U16At(s, i))
  }

  /** `read_sectors`: the count, then that many sectors pushed in order; a short record fails the list. */
  method ReadSectors(r: Reader) returns (res: Result<seq<Sector>>)
    requires r.Valid()
    modifies r
    ensures r.Valid()
    ensures res == SectorListAt(r.data, old(r.pos))
    ensures res.Ok? ==> r.pos == old(r.pos) + 2 + SECTOR_SIZE * |res.value|
  {
    ghost var start := r.pos;
    var n :- r.ReadU16();
    var sectors: seq<Sector> := [];
    var k := 0;
    while k < n
      invariant 0 <= k <= n && r.Valid()
      invariant r.pos == start + 2 + SECTOR_SIZE * k <= |r.data|
      invariant sectors == seq(k, j requires 0 <= j < k => SectorAt(r.data, start + 2 + SECTOR_SIZE * j))
    {
      var sector :- ReadSector(r);
      sectors := sectors + [sector];
      k := k + 1;
    }
    res := Ok(sectors);
  }

  /** `read_walls`: the count, then that many walls pushed in order. */
  method ReadWalls(r: Reader) returns (res: Result<seq<Wall>>)
    requires r.Valid()
    modifies r
    ensures r.Valid()
    ensures res == WallListAt(r.data, old(r.pos))
    ensures res.Ok? ==> r.pos == old(r.pos) + 2 + WALL_SIZE * |res.value|
  {
    ghost var start := r.pos;
    var n :- r.ReadU16();
    var walls: seq<Wall> := [];
    var k := 0;
    while k < n
      invariant 0 <= k <= n && r.Valid()
      invariant r.pos == start + 2 + WALL_SIZE * k <= |r.data|
      invariant walls == seq(k, j requires 0 <= j < k => WallAt(r.data, start + 2 + WALL_SIZE * j))
    {
      var wall :- ReadWall(r);
      walls := walls + [wall];
      k := k + 1;
    }
    res := Ok(walls);
  }

  // ---- the decoded level and its wall loops --------------------------------

  /** `Sectors`: the sector and wall tables in file order. */
  datatype Sectors = Sectors(sectors: seq<Sector>, walls: seq<Wall>)

  /** The sector list at offset i followed by the wall list right after it. */
  function TablesAt(s: seq<byte>, i: nat): Result<Sectors>
  {
    var sectors :- SectorListAt(s, i);
    var walls :- WallListAt(s, i + 2 + SECTOR_SIZE * |sectors|);
    Ok(Sectors(sectors, walls))
  }

  /** `Sectors::from_reader`: the sector list, then the wall list. */
  method ReadSectorsAndWalls(r: Reader) returns (res: Result<Sectors>)
    requires r.Valid()
    modifies r
    ensures r.Valid()
    ensures res == TablesAt(r.data, old(r.pos))
    ensures res.Ok? ==>
      r.pos == old(r.pos) + 2 + SECTOR_SIZE * |res.value.sectors| + 2 + WALL_SIZE * |res.value.walls|
  {
    var sectors :- ReadSectors(r);
    var walls :- ReadWalls(r);
    res := Ok(Sectors(sectors, walls));
  }

  /** The `point2` link of every wall, the table the wall loops are walked on. */
  function Links(walls: seq<Wall>): (links: seq<int>)
    ensures |links| == |walls|
    ensures forall i :: 0 <= i < |walls| ==> links[i] == walls[i].point2
  {
    seq(|walls|, i requires 0 <= i < |walls| => walls[i].point2 as int)
  }

  /**
   * What the walls iterator of a sector whose loop is closed yields, in order:
   * the k-th wall of the loop (as a `SectorId`, i.e. wrapped to `i16`), that
   * wall, and the wall its `point2` names.
   */
  function LoopItems(walls: seq<Wall>, first: nat, n: nat): (items: seq<(i16, Wall, Wall)>)
    requires Closes(Links(walls), first, n)
    ensures |items| == n
  {
    seq(n, k requires 0 <= k < n => LoopItem(walls, first, n, k))
  }

  /** The k-th item of a closed loop. */
  function LoopItem(walls: seq<Wall>, first: nat, n: nat, k: nat): (i16, Wall, Wall)
    requires Closes(Links(walls), first, n) && k < n
  {
    var links := Links(walls);
    var c := Nth(links, first, k);
    var p := Nth(links, first, k + 1);
    assert 0 <= Nth(links, first, 0) < |walls|;
    assert k + 1 < n ==> 0 <= p < |walls|;
    (WrapI16(c), walls[c], walls[p])
  }

  /**
   * Each item's right wall is the next item's left wall, and the last right
   * wall is the first left wall: the yielded walls form a closed polygon.
   */
  lemma LoopItemsChain(walls: seq<Wall>, first: nat, n: nat)
    requires Closes(Links(walls), first, n)
    ensures var items := LoopItems(walls, first, n);
      && (forall k :: 0 <= k < n - 1 ==> items[k].2 == items[k + 1].1)
      && items[n - 1].2 == items[0].1
  {
  }

  /** No wall is yielded twice: the item ids are pairwise distinct. */
  lemma LoopItemsDistinct(walls: seq<Wall>, first: nat, n: nat, i: nat, j: nat)
    requires Closes(Links(walls), first, n) && |walls| <= 0x1_0000
    requires i < j < n
    ensures LoopItems(walls, first, n)[i].0 != LoopItems(walls, first, n)[j].0
  {
    var links := Links(walls);
    ClosedLoopDistinct(links, first, n, i, j);
    WrapI16Injective(Nth(links, first, i), Nth(links, first, j));
  }

  /** Casting a wall index below 2^16 to `i16` loses nothing. */
  lemma WrapI16Injective(a: nat, b: nat)
    requires a < 0x1_0000 && b < 0x1_0000 && a != b
    ensures WrapI16(a) != WrapI16(b)
  {
  }

  /**
   * `SectorWalls`: an iterator over one sector's walls that follows `point2`
   * from the sector's `wallptr`. `len` is the sector's `wallnum`, `index` the
   * number of items yielded so far.
   */
  class SectorWalls {
    const len: usize
    var index: nat
    const first: nat
    const walls: seq<Wall>
    var curr: Option<nat>

    /** `Sectors::sector_walls`: the iterator before its first item. */
    constructor (walls: seq<Wall>, sector: Sector)
      ensures Fresh(walls, sector)
    {
      len := sector.wallnum;
      index := 0;
      first := sector.wallptr;
      this.walls := walls;
      curr := Some(sector.wallptr);
    }

    /** The state `sector_walls` creates. */
    ghost predicate Fresh(walls: seq<Wall>, sector: Sector)
      reads this
    {
      len == sector.wallnum && index == 0 && first == sector.wallptr
      && this.walls == walls && curr == Some(first)
    }

    /** `next` does not index out of bounds: the current wall and its `point2` are in the table. */
    ghost predicate CanStep()
      reads this
    {
      curr.Some? ==> curr.value < |walls| && 0 <= walls[curr.value].point2 < |walls|
    }

    /**
     * `next`: yields `(curr, walls[curr], walls[point2])`, counts the item and
     * moves to `point2`, or ends when `point2` is back at the first wall. An
     * exhausted iterator stays exhausted.
     */
    method Next() returns (item: Option<(i16, Wall, Wall)>)
      requires CanStep()
      modifies this
      ensures old(curr).None? ==> item.None? && curr.None? && index == old(index)
      ensures old(curr).Some? ==>
        var c := old(curr).value;
        var p := walls[c].point2 as nat;
        && item == Some((WrapI16(c), walls[c], walls[p]))
        && index == old(index) + 1
        && curr == if p == first then None else Some(p)
    {
      if curr.None? {
        return None;
      }
      var c := curr.value;
      var left := walls[c];
      var p := left.point2 as nat;
      var right := walls[p];
      index := index + 1;
      curr := if p == first then None else Some(p);
      item := Some((WrapI16(c), left, right));
    }

    /**
     * `size_hint`: `len - index` items are announced, as a lower and an exact
     * upper bound; once more than `len` items were yielded the `usize`
     * subtraction wraps around.
     */
    method SizeHint() returns (lower: usize, upper: Option<usize>)
      ensures lower == WrapUsize(len - index) && upper == Some(lower)
      ensures index <= len ==> lower + index == len
      ensures len < index <= len + 0x1_0000_0000_0000_0000 ==> lower == 0x1_0000_0000_0000_0000 - (index - len)
    {
      lower := WrapUsize(len - index);
      upper := Some(lower);
    }
  }

  /**
   * `Sectors::get`: nothing for a negative id or one past the table; otherwise
   * the sector and a fresh iterator over its walls.
   */
  method Get(secs: Sectors, id: i16) returns (r: Option<(Sector, SectorWalls)>)
    ensures r.None? <==> !(0 <= id < |secs.sectors|)
    ensures r.Some? ==>
      && r.value.0 == secs.sectors[id]
      && fresh(r.value.1)
      && r.value.1.Fresh(secs.walls, secs.sectors[id])
  {
    if id < 0 || id as nat >= |secs.sectors| {
      return None;
    }
    var it := new SectorWalls(secs.walls, secs.sectors[id]);
    r := Some((secs.sectors[id], it));
  }

  /** One step of the loop seen from the iterator: the k-th item, and where `point2` leads next. */
  lemma LoopItemStep(walls: seq<Wall>, first: nat, n: nat, k: nat)
    requires Closes(Links(walls), first, n) && k < n
    ensures var c := Nth(Links(walls), first, k);
      && 0 <= c < |walls| && 0 <= walls[c].point2 < |walls|
      && LoopItems(walls, first, n)[k] == (WrapI16(c), walls[c], walls[walls[c].point2 as nat])
      && (walls[c].point2 == first <==> k + 1 == n)
      && (k + 1 < n ==> walls[c].point2 == Nth(Links(walls), first, k + 1))
  {
    var links := Links(walls);
    assert Nth(links, first, k + 1) == links[Nth(links, first, k)];
    assert 0 <= Nth(links, first, 0) < |walls|;
  }

  /**
   * `size_hint` against the loop: after k of the n items of a closed loop,
   * the hint is the number of items still to come exactly when `wallnum` is
   * the loop's length; otherwise it is off (and wraps once k passes `wallnum`).
   */
  lemma SizeHintCounts(walls: seq<Wall>, first: nat, n: nat, len: usize, k: nat)
    requires Closes(Links(walls), first, n) && k <= n && n < 0x1_0000_0000_0000_0000
    ensures |LoopItems(walls, first, n)[k..]| == n - k
    ensures WrapUsize(len - k) == n - k <==> len == n
  {
    if len < k {
      assert WrapUsize(len - k) == len - k + 0x1_0000_0000_0000_0000 > n - k;
    }
  }

  /**
   * A `for` loop over a fresh iterator of a sector whose `point2` walk comes
   * back to `wallptr` after n walls: exactly the n items of `LoopItems`
   * (whatever `wallnum` says), after which the iterator is exhausted.
   */
  method Drain(it: SectorWalls, ghost n: nat) returns (items: seq<(i16, Wall, Wall)>)
    requires it.index == 0 && it.curr == Some(it.first)
    requires Closes(Links(it.walls), it.first, n)
    modifies it
    ensures items == LoopItems(it.walls, it.first, n)
    ensures it.curr.None? && it.index == n
  {
    ghost var all := LoopItems(it.walls, it.first, n);
    items := [];
    while true
      invariant it.index == |items| <= n
      invariant forall j :: 0 <= j < |items| ==> items[j] == all[j]
      invariant |items| < n ==> it.curr == Some(Nth(Links(it.walls), it.first, |items|))
      invariant |items| == n ==> it.curr.None?
      decreases n - |items|
    {
      if |items| < n {
        LoopItemStep(it.walls, it.first, n, |items|);
      }
      var item := it.Next();
      if item.None? {
        break;
      }
      items := items + [item.value];
    }
  }
}
