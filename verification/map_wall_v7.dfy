/**
 * `map/src/v7/wall.rs`: the 30-byte wall record of the version-7 layout and
 * the `Walls` iterator that follows either the in-sector link or the global
 * link until it meets a link of 0.
 */
module MapWallV7 {
  import opened Ints
  import opened Opt
  import opened Bytes
  import opened BitFlags
  import MapSector

  /** `WallFlags` (over `i16`): bits 0..9. */
  const WALL_FLAGS_ALL: u16 :=
    0x001 + 0x002 + 0x004 + 0x008 + 0x010 + 0x020 + 0x040 + 0x080 + 0x100 + 0x200

  datatype Wall = Wall(
    x: i32,
    y: i32,
    nextInSector: i16,
    next: i16,
    cstat: i16,
    picnum: i16,
    picnumOver: i16,
    shade: i8,
    pal: u8,
    xRepeat: u8,
    yRepeat: u8,
    xPanning: u8,
    yPanning: u8,
    lotag: i16,
    hitag: i16,
    extra: i16)

  const WALL_SIZE: nat := 30

  function WallAt(s: seq<byte>, i: nat): Wall
    requires i + WALL_SIZE <= |s|
  {
    Wall(
      I32At(s, i), I32At(s, i + 4), I16At(s, i + 8), I16At(s, i + 10), I16At(s, i + 12),
      I16At(s, i + 14), I16At(s, i + 16), I8At(s, i + 18), U8At(s, i + 19),
      U8At(s, i + 20), U8At(s, i + 21), U8At(s, i + 22), U8At(s, i + 23),
      I16At(s, i + 24), I16At(s, i + 26), I16At(s, i + 28))
  }

  /** `Wall::from_reader` from offset i: `Io` on a short read, a panic on an undeclared cstat bit. */
  function DecodeWall(s: seq<byte>, i: nat): Result<Wall>
  {
    if |s| < i + 14 then Err(Io)
    else if FromBitsI16(I16At(s, i + 12), WALL_FLAGS_ALL).None? then Err(Panic)
    else if |s| < i + WALL_SIZE then Err(Io)
    else Ok(WallAt(s, i))
  }

  /** Decoding fails with a panic exactly when a cstat outside 0..=1023 has been read. */
  lemma DecodeWallOutcome(s: seq<byte>, i: nat)
    ensures DecodeWall(s, i).Err? && DecodeWall(s, i).error == Panic
      <==> i + 14 <= |s| && !(0 <= I16At(s, i + 12) < 0x400)
    ensures DecodeWall(s, i).Ok?
      <==> i + WALL_SIZE <= |s| && 0 <= I16At(s, i + 12) < 0x400
    ensures DecodeWall(s, i).Ok? ==> DecodeWall(s, i).value == WallAt(s, i)
  {
    if i + 14 <= |s| {
      FromBitsI16Ten(I16At(s, i + 12));
    }
  }

  function WallByte(x: Wall, k: nat): byte
    requires k < WALL_SIZE
  {
    if k < 4 then LeI32(x.x)[k]
    else if k < 8 then LeI32(x.y)[k - 4]
    else if k < 10 then LeI16(x.nextInSector)[k - 8]
    else if k < 12 then LeI16(x.next)[k - 10]
    else if k < 14 then LeI16(x.cstat)[k - 12]
    else if k < 16 then LeI16(x.picnum)[k - 14]
    else if k < 18 then LeI16(x.picnumOver)[k - 16]
    else if k == 18 then LeI8(x.shade)[0]
    else if k == 19 then x.pal
    else if k == 20 then x.xRepeat
    else if k == 21 then x.yRepeat
    else if k == 22 then x.xPanning
    else if k == 23 then x.yPanning
    else if k < 26 then LeI16(x.lotag)[k - 24]
    else if k < 28 then LeI16(x.hitag)[k - 26]
    else LeI16(x.extra)[k - 28]
  }

  /** The 30 bytes a wall is stored as. */
  function EncodeWall(x: Wall): (r: seq<byte>)
    ensures |r| == WALL_SIZE
  {
    seq(WALL_SIZE, k requires 0 <= k < WALL_SIZE => WallByte(x, k))
  }

  lemma WallOfBytesHead(x: Wall)
    ensures var d := WallAt(EncodeWall(x), 0);
      && d.x == x.x && d.y == x.y && d.nextInSector == x.nextInSector && d.next == x.next
      && d.cstat == x.cstat && d.picnum == x.picnum && d.picnumOver == x.picnumOver
  {
  }

  lemma WallOfBytesTail(x: Wall)
    ensures var d := WallAt(EncodeWall(x), 0);
      && d.shade == x.shade && d.pal == x.pal && d.xRepeat == x.xRepeat && d.yRepeat == x.yRepeat
      && d.xPanning == x.xPanning && d.yPanning == x.yPanning
      && d.lotag == x.lotag && d.hitag == x.hitag && d.extra == x.extra
  {
  }

  /** A wall whose cstat holds only declared flags decodes back from its bytes. */
  lemma WallRoundTrip(x: Wall)
    requires 0 <= x.cstat < 0x400
    ensures DecodeWall(EncodeWall(x), 0) == Ok(x)
  {
    WallOfBytesHead(x);
    WallOfBytesTail(x);
    DecodeWallOutcome(EncodeWall(x), 0);
  }

  /** Re-encoding a decoded wall gives its bytes. */
  lemma WallBytes(s: seq<byte>, i: nat)
    requires i + WALL_SIZE <= |s|
    ensures EncodeWall(WallAt(s, i)) == s[i..i + WALL_SIZE]
  {
    var x := WallAt(s, i);
    I32Bytes(s, i); I32Bytes(s, i + 4); I16Bytes(s, i + 8); I16Bytes(s, i + 10); I16Bytes(s, i + 12);
    I16Bytes(s, i + 14); I16Bytes(s, i + 16); I8Bytes(s, i + 18);
    I16Bytes(s, i + 24); I16Bytes(s, i + 26); I16Bytes(s, i + 28);
    forall k | 0 <= k < WALL_SIZE
      ensures WallByte(x, k) == s[i + k]
    {
    }
  }

  /** `Wall::from_reader` of the version-7 layout. */
  method ReadWall(r: Reader) returns (res: Result<Wall>)
    requires r.Valid()
    modifies r
    ensures r.Valid()
    ensures res == DecodeWall(r.data, old(r.pos))
    ensures res.Ok? ==> r.pos == old(r.pos) + WALL_SIZE
  {
    var x :- r.ReadI32();
    var y :- r.ReadI32();
    var nextInSector :- r.ReadI16();
    var next :- r.ReadI16();
    var bits :- r.ReadI16();
    var cstat := FromBitsI16(bits, WALL_FLAGS_ALL);
    if cstat.None? {
      return Err(Panic);
    }
    var look :- MapSector.ReadWallLook(r);
    var tags :- MapSector.ReadTags(r);
    res := Ok(Wall(
      x, y, nextInSector, next, cstat.value,
      look.0, look.1, look.2, look.3, look.4, look.5, look.6, look.7,
      tags.0, tags.1, tags.2));
  }

  // ---- the link-following iterator -----------------------------------------

  const USIZE_MODULUS: nat := 0x1_0000_0000_0000_0000

  /** `n as usize` for an `i16` on a 64-bit target: sign extension, so -1 is `usize::MAX`. */
  function AsUsize(n: i16): (r: nat)
    ensures r < USIZE_MODULUS
    ensures (r - n as int) % USIZE_MODULUS == 0
    ensures n >= 0 ==> r == n as int
  {
    if n < 0 then n as int + USIZE_MODULUS else n as int
  }

  /** The link `next` follows: `next_in_sector` when restricted to one sector, `next` otherwise. */
  function Link(w: Wall, sameSector: bool): i16
  {
    if sameSector then w.nextInSector else w.next
  }

  /** The position after following a link: `NonZeroI16::new(link).map(|n| n.get() as usize)`. */
  function Follow(link: i16): (curr: Option<nat>)
    ensures curr.None? <==> link == 0
    ensures curr.Some? && link > 0 ==> curr.value == link as int
  {
    if link == 0 then None else Some(AsUsize(link))
  }

  /**
   * A link of -1 (the "none" value of the format) does not end the walk: it
   * moves to `usize::MAX`, which is out of range for any wall table of a
   * MAP file, so the following call indexes out of bounds.
   */
  lemma MinusOneDoesNotEnd(walls: seq<Wall>)
    requires |walls| <= 0x1_0000
    ensures Follow(-1).Some? && Follow(-1).value >= |walls|
  {
  }

  /** `Walls`: the wall table, which link to follow, and the current position. */
  class Walls {
    const sameSector: bool
    const walls: seq<Wall>
    var curr: Option<nat>

    constructor (walls: seq<Wall>, sameSector: bool, start: Option<nat>)
      ensures this.walls == walls && this.sameSector == sameSector && curr == start
    {
      this.sameSector := sameSector;
      this.walls := walls;
      curr := start;
    }

    /**
     * `next`: yields `walls[curr]` and follows its link; `None` once the
     * position is gone, forever after. An out-of-range position is the
     * index panic of `self.walls[curr]`.
     */
    method Next() returns (res: Result<Option<Wall>>)
      modifies this
      ensures old(curr).None? ==> res == Ok(None) && curr.None?
      ensures old(curr).Some? && old(curr).value >= |walls| ==> res == Err(Panic)
      ensures old(curr).Some? && old(curr).value < |walls| ==>
        var w := walls[old(curr).value];
        res == Ok(Some(w)) && curr == Follow(Link(w, sameSector))
    {
      if curr.None? {
        return Ok(None);
      }
      var c := curr.value;
      if c >= |walls| {
        return Err(Panic);
      }
      var wall := walls[c];
      var next := if sameSector then wall.nextInSector else wall.next;
      curr := Follow(next);
      res := Ok(Some(wall));
    }
  }

  /** The walls yielded by the first n calls of `next` from position `curr`, or a panic. */
  function Walk(walls: seq<Wall>, sameSector: bool, curr: Option<nat>, n: nat): Result<seq<Wall>>
    decreases n
  {
    if n == 0 || curr.None? then Ok([])
    else if curr.value >= |walls| then Err(Panic)
    else
      var w := walls[curr.value];
      var rest :- Walk(walls, sameSector, Follow(Link(w, sameSector)), n - 1);
      Ok([w] + rest)
  }

  /** A walk never yields more than it was asked for, and yields less only when it met a 0 link. */
  lemma {:induction false} WalkLength(walls: seq<Wall>, sameSector: bool, curr: Option<nat>, n: nat)
    ensures Walk(walls, sameSector, curr, n).Ok? ==> |Walk(walls, sameSector, curr, n).value| <= n
    ensures Walk(walls, sameSector, curr, n).Ok? && |Walk(walls, sameSector, curr, n).value| < n ==>
      exists k :: 0 <= k <= n && WalkEnd(walls, sameSector, curr, k).None?
    decreases n
  {
    if n == 0 || curr.None? {
      if curr.None? {
        assert WalkEnd(walls, sameSector, curr, 0).None?;
      }
    } else if curr.value < |walls| {
      var w := walls[curr.value];
      var next := Follow(Link(w, sameSector));
      WalkLength(walls, sameSector, next, n - 1);
      var r := Walk(walls, sameSector, curr, n);
      if r.Ok? && |r.value| < n {
        var k :| 0 <= k <= n - 1 && WalkEnd(walls, sameSector, next, k).None?;
        assert WalkEnd(walls, sameSector, curr, k + 1) == WalkEnd(walls, sameSector, next, k);
      }
    }
  }

  /** The position after k in-range steps from curr (`None` once a 0 link was followed). */
  function WalkEnd(walls: seq<Wall>, sameSector: bool, curr: Option<nat>, k: nat): Option<nat>
    decreases k
  {
    if k == 0 || curr.None? || curr.value >= |walls| then curr
    else WalkEnd(walls, sameSector, Follow(Link(walls[curr.value], sameSector)), k - 1)
  }
}
