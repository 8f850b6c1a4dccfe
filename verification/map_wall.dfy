/**
 * `map/src/wall.rs`: the 32-byte wall record whose stat is a signed 16-bit
 * flag set with only bits 0..9 declared, and the iterator over a sector's
 * walls that yields (left, right) pairs.
 */
module MapWall {
  import opened Ints
  import opened Opt
  import opened Bytes
  import opened BitFlags
  import opened WallLoop
  import MapSector

  /** `WallStat` (over `i16`): the ten flags of bits 0..9 and nothing else. */
  const WALL_STAT_ALL: u16 :=
    0x001 + 0x002 + 0x004 + 0x008 + 0x010 + 0x020 + 0x040 + 0x080 + 0x100 + 0x200

  /** `WallStat::from_bits` accepts exactly the stats 0..=1023; negative ones have bit 15 set. */
  lemma WallStatAccepts(bits: i16)
    ensures FromBitsI16(bits, WALL_STAT_ALL).Some? <==> 0 <= bits < 0x400
  {
    FromBitsI16Ten(bits);
  }

  datatype Wall = Wall(
    x: i32,
    y: i32,
    point2: i16,
    next: i16,
    wallStat: i16,
    nextSector: i16,
    picnum: i16,
    picnumOver: i16,
    shade: i8,
    pal: u8,
    xRepeat: u8,
    yRepeat: u8,
    xPanning: u8,
    yPanning: u8,
    lotag: i16,
    hitag: i16,
    extra: i16)

  const WALL_SIZE: nat := 32

  /** The wall whose 32 bytes start at offset i; next_sector precedes the stat in the file. */
  function WallAt(s: seq<byte>, i: nat): Wall
    requires i + WALL_SIZE <= |s|
  {
    Wall(
      I32At(s, i), I32At(s, i + 4), I16At(s, i + 8), I16At(s, i + 10),
      I16At(s, i + 14), I16At(s, i + 12),
      I16At(s, i + 16), I16At(s, i + 18), I8At(s, i + 20), U8At(s, i + 21),
      U8At(s, i + 22), U8At(s, i + 23), U8At(s, i + 24), U8At(s, i + 25),
      I16At(s, i + 26), I16At(s, i + 28), I16At(s, i + 30))
  }

  /**
   * `Wall::from_reader` from offset i: `Io` on a short read, and a panic from
   * `expect` as soon as a stat with any of bits 10..15 set has been read.
   */
  function DecodeWall(s: seq<byte>, i: nat): Result<Wall>
  {
    if |s| < i + 16 then Err(Io)
    else if FromBitsI16(I16At(s, i + 14), WALL_STAT_ALL).None? then Err(Panic)
    else if |s| < i + WALL_SIZE then Err(Io)
    else Ok(WallAt(s, i))
  }

  /** The three outcomes of decoding a wall, in terms of the stat value itself. */
  lemma DecodeWallOutcome(s: seq<byte>, i: nat)
    ensures DecodeWall(s, i).Err? && DecodeWall(s, i).error == Panic
      <==> i + 16 <= |s| && !(0 <= I16At(s, i + 14) < 0x400)
    ensures DecodeWall(s, i).Ok?
      <==> i + WALL_SIZE <= |s| && 0 <= I16At(s, i + 14) < 0x400
    ensures DecodeWall(s, i).Ok? ==> DecodeWall(s, i).value == WallAt(s, i)
  {
    if i + 16 <= |s| {
      WallStatAccepts(I16At(s, i + 14));
    }
  }

  function WallByte(x: Wall, k: nat): byte
    requires k < WALL_SIZE
  {
    if k < 4 then LeI32(x.x)[k]
    else if k < 8 then LeI32(x.y)[k - 4]
    else if k < 10 then LeI16(x.point2)[k - 8]
    else if k < 12 then LeI16(x.next)[k - 10]
    else if k < 14 then LeI16(x.nextSector)[k - 12]
    else if k < 16 then LeI16(x.wallStat)[k - 14]
    else if k < 18 then LeI16(x.picnum)[k - 16]
    else if k < 20 then LeI16(x.picnumOver)[k - 18]
    else if k == 20 then LeI8(x.shade)[0]
    else if k == 21 then x.pal
    else if k == 22 then x.xRepeat
    else if k == 23 then x.yRepeat
    else if k == 24 then x.xPanning
    else if k == 25 then x.yPanning
    else if k < 28 then LeI16(x.lotag)[k - 26]
    else if k < 30 then LeI16(x.hitag)[k - 28]
    else LeI16(x.extra)[k - 30]
  }

  /** The 32 bytes a wall is stored as. */
  function EncodeWall(x: Wall): (r: seq<byte>)
    ensures |r| == WALL_SIZE
  {
    seq(WALL_SIZE, k requires 0 <= k < WALL_SIZE => WallByte(x, k))
  }

  lemma WallOfBytes(x: Wall)
    ensures |EncodeWall(x)| == 32 && WallAt(EncodeWall(x), 0) == x
  {
    WallOfBytesHead(x);
    WallOfBytesTail(x);
  }

  lemma WallOfBytesHead(x: Wall)
    ensures var d := WallAt(EncodeWall(x), 0);
      && d.x == x.x && d.y == x.y && d.point2 == x.point2 && d.next == x.next
      && d.wallStat == x.wallStat && d.nextSector == x.nextSector
      && d.picnum == x.picnum && d.picnumOver == x.picnumOver
  {
  }

  lemma WallOfBytesTail(x: Wall)
    ensures var d := WallAt(EncodeWall(x), 0);
      && d.shade == x.shade && d.pal == x.pal && d.xRepeat == x.xRepeat && d.yRepeat == x.yRepeat
      && d.xPanning == x.xPanning && d.yPanning == x.yPanning
      && d.lotag == x.lotag && d.hitag == x.hitag && d.extra == x.extra
  {
  }

  /** A wall with a declared stat decodes back from its bytes. */
  lemma WallRoundTrip(x: Wall)
    requires 0 <= x.wallStat < 0x400
    ensures DecodeWall(EncodeWall(x), 0) == Ok(x)
  {
    WallOfBytes(x);
    DecodeWallOutcome(EncodeWall(x), 0);
  }

  /** Re-encoding a decoded wall gives its bytes. */
  lemma WallBytes(s: seq<byte>, i: nat)
    requires i + WALL_SIZE <= |s|
    ensures EncodeWall(WallAt(s, i)) == s[i..i + WALL_SIZE]
  {
    var x := WallAt(s, i);
    I32Bytes(s, i); I32Bytes(s, i + 4); I16Bytes(s, i + 8); I16Bytes(s, i + 10); I16Bytes(s, i + 12);
    I16Bytes(s, i + 14); I16Bytes(s, i + 16); I16Bytes(s, i + 18); I8Bytes(s, i + 20);
    I16Bytes(s, i + 26); I16Bytes(s, i + 28); I16Bytes(s, i + 30);
    forall k | 0 <= k < WALL_SIZE
      ensures WallByte(x, k) == s[i + k]
    {
    }
  }

  /** `Wall::from_reader` (the layout compiled with the `v7` feature). */
  method ReadWall(r: Reader) returns (res: Result<Wall>)
    requires r.Valid()
    modifies r
    ensures r.Valid()
    ensures res == DecodeWall(r.data, old(r.pos))
    ensures res.Ok? ==> r.pos == old(r.pos) + WALL_SIZE
  {
    var head :- MapSector.ReadWallHead(r);
    var statBits :- r.ReadI16();
    var stat := FromBitsI16(statBits, WALL_STAT_ALL);
    if stat.None? {
      return Err(Panic);
    }
    var look :- MapSector.ReadWallLook(r);
    var tags :- MapSector.ReadTags(r);
    res := Ok(Wall(
      head.0, head.1, head.2, head.3, stat.value, head.4,
      look.0, look.1, look.2, look.3, look.4, look.5, look.6, look.7,
      tags.0, tags.1, tags.2));
  }

  // ---- the (left, right) iterator ------------------------------------------

  /** The `point2` link of every wall. */
  function Links(walls: seq<Wall>): (links: seq<int>)
    ensures |links| == |walls|
    ensures forall i :: 0 <= i < |walls| ==> links[i] == walls[i].point2
  {
    seq(|walls|, i requires 0 <= i < |walls| => walls[i].point2 as int)
  }

  /** The k-th (left, right) pair of a closed loop. */
  function LoopPair(walls: seq<Wall>, first: nat, n: nat, k: nat): (Wall, Wall)
    requires Closes(Links(walls), first, n) && k < n
  {
    var links := Links(walls);
    var c := Nth(links, first, k);
    var p := Nth(links, first, k + 1);
    assert 0 <= Nth(links, first, 0) < |walls|;
    assert k + 1 < n ==> 0 <= p < |walls|;
    (walls[c], walls[p])
  }

  /** All pairs of a closed loop, in iteration order. */
  function LoopPairs(walls: seq<Wall>, first: nat, n: nat): (pairs: seq<(Wall, Wall)>)
    requires Closes(Links(walls), first, n)
    ensures |pairs| == n
  {
    seq(n, k requires 0 <= k < n => LoopPair(walls, first, n, k))
  }

  /** Consecutive pairs share a wall, and the last pair ends at the first pair's left wall. */
  lemma LoopPairsChain(walls: seq<Wall>, first: nat, n: nat)
    requires Closes(Links(walls), first, n)
    ensures var pairs := LoopPairs(walls, first, n);
      && (forall k :: 0 <= k < n - 1 ==> pairs[k].1 == pairs[k + 1].0)
      && pairs[n - 1].1 == pairs[0].0
  {
  }

  lemma LoopPairStep(walls: seq<Wall>, first: nat, n: nat, k: nat)
    requires Closes(Links(walls), first, n) && k < n
    ensures var c := Nth(Links(walls), first, k);
      && 0 <= c < |walls| && 0 <= walls[c].point2 < |walls|
      && LoopPairs(walls, first, n)[k] == (walls[c], walls[walls[c].point2 as nat])
      && (walls[c].point2 == first <==> k + 1 == n)
      && (k + 1 < n ==> walls[c].point2 == Nth(Links(walls), first, k + 1))
  {
    var links := Links(walls);
    assert Nth(links, first, k + 1) == links[Nth(links, first, k)];
    assert 0 <= Nth(links, first, 0) < |walls|;
  }

  /** `SectorWalls` of `wall.rs`: same walk as in `sector.rs`, yielding (left, right). */
  class SectorWalls {
    const len: usize
    var index: nat
    const first: nat
    const walls: seq<Wall>
    var curr: Option<nat>

    constructor (walls: seq<Wall>, first: nat, len: usize)
      ensures this.walls == walls && this.first == first && this.len == len
      ensures index == 0 && curr == Some(first)
    {
      this.len := len;
      index := 0;
      this.first := first;
      this.walls := walls;
      curr := Some(first);
    }

    ghost predicate CanStep()
      reads this
    {
      curr.Some? ==> curr.value < |walls| && 0 <= walls[curr.value].point2 < |walls|
    }

    /** `next`: yields `(walls[curr], walls[point2])`, moves on (or ends back at `first`), then counts the item. */
    method Next() returns (item: Option<(Wall, Wall)>)
      requires CanStep()
      modifies this
      ensures old(curr).None? ==> item.None? && curr.None? && index == old(index)
      ensures old(curr).Some? ==>
        var c := old(curr).value;
        var p := walls[c].point2 as nat;
        && item == Some((walls[c], walls[p]))
        && index == old(index) + 1
        && curr == if p == first then None else Some(p)
    {
      if curr.None? {
        return None;
      }
      var c := curr.value;
      var left := walls[c];
      var p := left.point2 as nat;
      var right := walls[p];
      curr := if p == first then None else Some(p);
      index := index + 1;
      item := Some((left, right));
    }

    /** `size_hint`: `len - index`, wrapping around once more than `len` items were yielded. */
    method SizeHint() returns (lower: usize, upper: Option<usize>)
      ensures lower == WrapUsize(len - index) && upper == Some(lower)
      ensures index <= len ==> lower + index == len
      ensures len < index <= len + 0x1_0000_0000_0000_0000 ==> lower == 0x1_0000_0000_0000_0000 - (index - len)
    {
      lower := WrapUsize(len - index);
      upper := Some(lower);
    }
  }

  /** The hint after k of the n pairs is the number still to come exactly when `len` is n. */
  lemma SizeHintCounts(walls: seq<Wall>, first: nat, n: nat, len: usize, k: nat)
    requires Closes(Links(walls), first, n) && k <= n && n < 0x1_0000_0000_0000_0000
    ensures |LoopPairs(walls, first, n)[k..]| == n - k
    ensures WrapUsize(len - k) == n - k <==> len == n
  {
    if len < k {
      assert WrapUsize(len - k) == len - k + 0x1_0000_0000_0000_0000 > n - k;
    }
  }

  /** A `for` loop over a fresh iterator whose walk is back at `first` after n walls: the n pairs. */
  method Drain(it: SectorWalls, ghost n: nat) returns (pairs: seq<(Wall, Wall)>)
    requires it.index == 0 && it.curr == Some(it.first)
    requires Closes(Links(it.walls), it.first, n)
    modifies it
    ensures pairs == LoopPairs(it.walls, it.first, n)
    ensures it.curr.None? && it.index == n
  {
    ghost var all := LoopPairs(it.walls, it.first, n);
    pairs := [];
    while true
      invariant it.index == |pairs| <= n
      invariant pairs == all[..|pairs|]
      invariant |pairs| < n ==> it.curr == Some(Nth(Links(it.walls), it.first, |pairs|))
      invariant |pairs| == n ==> it.curr.None?
      decreases n - |pairs|
    {
      if |pairs| < n {
        LoopPairStep(it.walls, it.first, n, |pairs|);
      }
      var item := it.Next();
      if item.None? {
        break;
      }
      pairs := pairs + [item.value];
    }
  }
}
