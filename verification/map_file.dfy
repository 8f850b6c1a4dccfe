/**
 * `map/src/lib.rs`: a whole MAP file from the reader position: the version,
 * the player start, then the sector table and the wall table.
 */
module MapFile {
  import opened Ints
  import opened Bytes
  import opened MapSector
  import MapPlayer

  /** `Map`: the version, the player start as flat fields, and the two tables. */
  datatype Map = Map(
    version: i32,
    posX: i32,
    posY: i32,
    posZ: i32,
    angle: i16,
    sector: i16,
    sectors: Sectors)

  /** version, x, y, z, angle and sector. */
  const HEADER_SIZE: nat := 20

  /** `read_version` from offset i: only 7, 8 and 9 are accepted. */
  function VersionAt(s: seq<byte>, i: nat): (r: Result<i32>)
    ensures r.Ok? <==> i + 4 <= |s| && 7 <= I32At(s, i) <= 9
    ensures r.Ok? ==> r.value == I32At(s, i)
    ensures r.Err? ==> r.error == if i + 4 <= |s| then UnsupportedVersion(I32At(s, i)) else Io
  {
    if |s| < i + 4 then Err(Io)
    else
      var v := I32At(s, i);
      if v == 7 || v == 8 || v == 9 then Ok(v) else Err(UnsupportedVersion(v))
  }

  method ReadVersion(r: Reader) returns (res: Result<i32>)
    requires r.Valid()
    modifies r
    ensures r.Valid()
    ensures res == VersionAt(r.data, old(r.pos))
    ensures res.Ok? ==> r.pos == old(r.pos) + 4
  {
    var version :- r.ReadI32();
    if version == 7 || version == 8 || version == 9 {
      res := Ok(version);
    } else {
      res := Err(UnsupportedVersion(version));
    }
  }

  /** The player start that follows the version: x, y, z, angle, sector (16 bytes). */
  function PositionAt(s: seq<byte>, i: nat): (i32, i32, i32, i16, i16)
    requires i + 16 <= |s|
  {
    (I32At(s, i), I32At(s, i + 4), I32At(s, i + 8), I16At(s, i + 12), I16At(s, i + 14))
  }

  method ReadPosition(r: Reader) returns (res: Result<(i32, i32, i32, i16, i16)>)
    requires r.Valid()
    modifies r
    ensures r.Valid()
    ensures res == if old(r.pos) + 16 <= |r.data| then Ok(PositionAt(r.data, old(r.pos))) else Err(Io)
    ensures res.Ok? ==> r.pos == old(r.pos) + 16
  {
    var posX :- r.ReadI32();
    var posY :- r.ReadI32();
    var posZ :- r.ReadI32();
    var angle :- r.ReadI16();
    var sector :- r.ReadI16();
    res := Ok((posX, posY, posZ, angle, sector));
  }

  /** `Map::from_reader` from offset i. */
  function ParseAt(s: seq<byte>, i: nat): Result<Map>
  {
    var version :- VersionAt(s, i);
    if |s| < i + HEADER_SIZE then Err(Io)
    else
      var tables :- TablesAt(s, i + HEADER_SIZE);
      var pos := PositionAt(s, i + 4);
      Ok(Map(version, pos.0, pos.1, pos.2, pos.3, pos.4, tables))
  }

  /** The bytes a map occupies in its file. */
  function MapSize(m: Map): nat
  {
    HEADER_SIZE + 2 + SECTOR_SIZE * |m.sectors.sectors| + 2 + WALL_SIZE * |m.sectors.walls|
  }

  /** `Map::from_reader`: version, position, angle, sector, the sector list, the wall list. */
  method ReadMap(r: Reader) returns (res: Result<Map>)
    requires r.Valid()
    modifies r
    ensures r.Valid()
    ensures res == ParseAt(r.data, old(r.pos))
    ensures res.Ok? ==> r.pos == old(r.pos) + MapSize(res.value)
  {
    var version :- ReadVersion(r);
    var pos :- ReadPosition(r);
    var sectors :- ReadSectors(r);
    var walls :- ReadWalls(r);
    res := Ok(Map(version, pos.0, pos.1, pos.2, pos.3, pos.4, Sectors(sectors, walls)));
  }

  /**
   * The two ways a parse fails: an unsupported version (as soon as four bytes
   * were there to read it), otherwise a short read; a flag panic cannot
   * happen because every 16-bit stat is a valid flag set.
   */
  lemma ParseErrors(s: seq<byte>, i: nat)
    ensures ParseAt(s, i).Err? ==>
      ParseAt(s, i).error == Io || ParseAt(s, i).error == UnsupportedVersion(I32At(s, i))
    ensures ParseAt(s, i).Err? && ParseAt(s, i).error.UnsupportedVersion? <==>
      i + 4 <= |s| && !(7 <= I32At(s, i) <= 9)
    ensures |s| < i + HEADER_SIZE + 4 ==> ParseAt(s, i).Err?
  {
  }

  /**
   * A parsed map: a supported version, the header fields at their offsets,
   * each table as long as the `u16` count in front of it, and every record
   * decoded at its place.
   */
  lemma ParseShape(s: seq<byte>, i: nat)
    requires ParseAt(s, i).Ok?
    ensures var m := ParseAt(s, i).value;
      var ns := |m.sectors.sectors|;
      var nw := |m.sectors.walls|;
      var walls := i + HEADER_SIZE + 2 + SECTOR_SIZE * ns;
      && 7 <= m.version <= 9
      && i + MapSize(m) <= |s|
      && ns == U16At(s, i + HEADER_SIZE)
      && nw == U16At(s, walls)
      && (forall k :: 0 <= k < ns ==>
            m.sectors.sectors[k] == SectorAt(s, i + HEADER_SIZE + 2 + SECTOR_SIZE * k))
      && (forall k :: 0 <= k < nw ==> m.sectors.walls[k] == WallAt(s, walls + 2 + WALL_SIZE * k))
  {
  }

  /** The header after the version is a player record: x, y, z, angle, sector. */
  lemma HeaderIsPlayer(s: seq<byte>, i: nat)
    requires ParseAt(s, i).Ok?
    ensures var m := ParseAt(s, i).value;
      MapPlayer.PlayerAt(s, i + 4) == MapPlayer.Player(m.posX, m.posY, m.posZ, m.angle, m.sector)
  {
  }

  lemma {:induction false} SectorsPrefix(p: seq<byte>, s: seq<byte>, i: nat, n: nat)
    requires |p| <= |s| && p == s[..|p|] && i + SECTOR_SIZE * n <= |p|
    ensures SectorsAt(p, i, n) == SectorsAt(s, i, n)
  {
    var a := SectorsAt(p, i, n).value;
    var b := SectorsAt(s, i, n).value;
    forall k | 0 <= k < n
      ensures a[k] == b[k]
    {
      assert SECTOR_SIZE * k + SECTOR_SIZE <= SECTOR_SIZE * n;
      RecordsLocal(s, p, i + SECTOR_SIZE * k);
    }
    assert a == b;
  }

  lemma {:induction false} WallsPrefix(p: seq<byte>, s: seq<byte>, i: nat, n: nat)
    requires |p| <= |s| && p == s[..|p|] && i + WALL_SIZE * n <= |p|
    ensures WallsAt(p, i, n) == WallsAt(s, i, n)
  {
    var a := WallsAt(p, i, n).value;
    var b := WallsAt(s, i, n).value;
    forall k | 0 <= k < n
      ensures a[k] == b[k]
    {
      assert WALL_SIZE * k + WALL_SIZE <= WALL_SIZE * n;
      RecordsLocal(s, p, i + WALL_SIZE * k);
    }
    assert a == b;
  }

  /**
   * Parsing reads nothing past the last wall record: a parse of s equals the
   * parse of any prefix p of s that still holds the whole map.
   */
  lemma ParsePrefix(p: seq<byte>, s: seq<byte>, i: nat)
    requires |p| <= |s| && p == s[..|p|]
    requires ParseAt(s, i).Ok? && i + MapSize(ParseAt(s, i).value) <= |p|
    ensures ParseAt(p, i) == ParseAt(s, i)
  {
    var m := ParseAt(s, i).value;
    ParseShape(s, i);
    var j := i + HEADER_SIZE;
    var ns := |m.sectors.sectors|;
    SectorsPrefix(p, s, j + 2, ns);
    WallsPrefix(p, s, j + 2 + SECTOR_SIZE * ns + 2, |m.sectors.walls|);
  }

  /** Bytes after the map never matter: any two inputs that agree on the map's bytes parse alike. */
  lemma TrailingBytesIgnored(s: seq<byte>, t: seq<byte>, i: nat)
    requires ParseAt(s, i).Ok?
    requires var n := i + MapSize(ParseAt(s, i).value); n <= |t| && n <= |s| && t[..n] == s[..n]
    ensures ParseAt(t, i) == ParseAt(s, i)
  {
    var n := i + MapSize(ParseAt(s, i).value);
    ParseShape(s, i);
    var p := s[..n];
    ParsePrefix(p, s, i);
    assert |p| <= |t| && p == t[..|p|];
    ParseExtend(p, t, i);
  }

  /** A prefix that already parses fixes the parse of every extension. */
  lemma ParseExtend(p: seq<byte>, s: seq<byte>, i: nat)
    requires |p| <= |s| && p == s[..|p|] && ParseAt(p, i).Ok?
    ensures ParseAt(s, i) == ParseAt(p, i)
  {
    var m := ParseAt(p, i).value;
    ParseShape(p, i);
    var j := i + HEADER_SIZE;
    var ns := |m.sectors.sectors|;
    SectorsPrefix(p, s, j + 2, ns);
    WallsPrefix(p, s, j + 2 + SECTOR_SIZE * ns + 2, |m.sectors.walls|);
  }
}
