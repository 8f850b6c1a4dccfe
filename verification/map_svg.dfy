/**
 * `map/examples/map_svg.rs`: a top-down SVG drawing of a map. The bounding
 * box of all wall points becomes the `viewBox`; each sector becomes a closed
 * path through its wall loop, highlighted when it is the player's sector;
 * the player and every sprite become circles. Every coordinate is moved by
 * the box's minimum corner so that the drawing starts at the origin.
 *
 * The SVG document is a value: a view box and the list of nodes added to
 * it, in order. `i32` subtraction wraps around as in a release build.
 */
module MapSvg {
  import opened Ints
  import opened WallLoop
  import opened MapSector
  import MapSprite
  import MapFile

  // ---- bounds --------------------------------------------------------------

  /** `([min_x, min_y], [max_x, max_y])`. */
  datatype Bounds = Bounds(minX: i32, minY: i32, maxX: i32, maxY: i32)

  /** The fold's start: an empty box, every minimum above every maximum. */
  const EMPTY_BOUNDS := Bounds(I32_MAX, I32_MAX, I32_MIN, I32_MIN)

  /** The point (x, y) lies in the box. */
  predicate Contains(b: Bounds, x: int, y: int)
  {
    b.minX <= x <= b.maxX && b.minY <= y <= b.maxY
  }

  /** One step of the fold: the box grown to take in a wall's point. */
  function Include(b: Bounds, w: Wall): (r: Bounds)
    ensures Contains(r, w.x, w.y)
    ensures forall x, y :: Contains(b, x, y) ==> Contains(r, x, y)
    ensures r.minX == b.minX || r.minX == w.x
    ensures r.minY == b.minY || r.minY == w.y
    ensures r.maxX == b.maxX || r.maxX == w.x
    ensures r.maxY == b.maxY || r.maxY == w.y
  {
    Bounds(Min(b.minX, w.x), Min(b.minY, w.y), Max(b.maxX, w.x), Max(b.maxY, w.y))
  }

  /**
   * The fold over the walls, left to right: the result holds every wall's
   * point, never shrinks the start box, and each of its sides is the start
   * box's or some wall's coordinate.
   */
  function FoldBounds(acc: Bounds, ws: seq<Wall>): (b: Bounds)
    ensures forall w :: w in ws ==> Contains(b, w.x, w.y)
    ensures b.minX <= acc.minX && b.minY <= acc.minY && b.maxX >= acc.maxX && b.maxY >= acc.maxY
    ensures b.minX == acc.minX || exists w :: w in ws && b.minX == w.x
    ensures b.minY == acc.minY || exists w :: w in ws && b.minY == w.y
    ensures b.maxX == acc.maxX || exists w :: w in ws && b.maxX == w.x
    ensures b.maxY == acc.maxY || exists w :: w in ws && b.maxY == w.y
    decreases |ws|
  {
    if ws == [] then acc
    else
      var b := FoldBounds(Include(acc, ws[0]), ws[1..]);
      assert forall w :: w in ws[1..] ==> w in ws;
      assert ws[0] in ws;
      b
  }

  /**
   * `compute_bounds`: the smallest box holding every wall's point. Each side
   * is attained by some wall; with no walls it is the fold's start box.
   */
  function ComputeBounds(walls: seq<Wall>): (b: Bounds)
    ensures walls == [] ==> b == EMPTY_BOUNDS
    ensures forall w :: w in walls ==> Contains(b, w.x, w.y)
    ensures walls != [] ==>
      && (exists w :: w in walls && w.x == b.minX)
      && (exists w :: w in walls && w.y == b.minY)
      && (exists w :: w in walls && w.x == b.maxX)
      && (exists w :: w in walls && w.y == b.maxY)
  {
    var b := FoldBounds(EMPTY_BOUNDS, walls);
    if walls == [] then b
    else
      // A side still at its start value is reached by every wall, so some wall attains it.
      assert walls[0] in walls;
      assert b.minX == I32_MAX ==> walls[0].x == b.minX;
      assert b.minY == I32_MAX ==> walls[0].y == b.minY;
      assert b.maxX == I32_MIN ==> walls[0].x == b.maxX;
      assert b.maxY == I32_MIN ==> walls[0].y == b.maxY;
      b
  }

  /** The box's extent fits in `i32`: moving a point inside it by its minimum corner does not wrap. */
  predicate Fits(b: Bounds)
  {
    b.maxX - b.minX <= I32_MAX && b.maxY - b.minY <= I32_MAX
  }

  // ---- the document ----------------------------------------------------------

  /** `path::Data` commands. */
  datatype Cmd = MoveTo(x: i32, y: i32) | LineTo(x: i32, y: i32) | Close

  /** The nodes the drawing adds: a sector's path, or a circle. */
  datatype Node =
    | Path(fill: string, stroke: string, strokeWidth: nat, d: seq<Cmd>)
    | Circle(cx: i32, cy: i32, r: nat, fill: string)

  /** `viewBox` (x, y, width, height) and the nodes in the order they were added. */
  datatype Document = Document(viewBox: (int, int, i32, i32), nodes: seq<Node>)

  const PLAYER_SECTOR_FILL := "#ffaaaa"
  const SECTOR_FILL := "white"

  /** `v - m` in `i32`. */
  function Shift(v: i32, m: i32): i32
  {
    WrapI32(v - m)
  }

  /** Inside a box that fits, moving by the minimum lands in [0, extent] and does not wrap. */
  lemma ShiftInside(v: i32, lo: i32, hi: i32)
    requires lo <= v <= hi && hi - lo <= I32_MAX
    ensures Shift(v, lo) == v - lo && Shift(hi, lo) == hi - lo
    ensures 0 <= Shift(v, lo) <= Shift(hi, lo)
  {
  }

  /**
   * Every sector's `point2` walk comes back to its `wallptr` without leaving
   * the wall table. Otherwise the sector's walls iterator either indexes
   * outside the table (a panic) or never ends.
   */
  ghost predicate LoopsClose(secs: Sectors)
  {
    forall i :: 0 <= i < |secs.sectors| ==> IsLoop(Links(secs.walls), secs.sectors[i].wallptr as int)
  }

  /**
   * The items the walls iterator of sector i yields: one per wall of the
   * loop through `wallptr`, however many walls `wallnum` counts.
   */
  function SectorItems(secs: Sectors, i: nat): (items: seq<(i16, Wall, Wall)>)
    requires i < |secs.sectors| && LoopsClose(secs)
    ensures Closes(Links(secs.walls), secs.sectors[i].wallptr as int, |items|)
    ensures items == LoopItems(secs.walls, secs.sectors[i].wallptr as int, |items|)
  {
    var first := secs.sectors[i].wallptr as int;
    LoopItems(secs.walls, first, LoopLength(Links(secs.walls), first))
  }

  /** The path data: a move to the first item's left wall, a line to every item's right wall, close. */
  function PathData(items: seq<(i16, Wall, Wall)>, b: Bounds): (d: seq<Cmd>)
    ensures |d| == |items| + (if |items| > 0 then 2 else 1)
  {
    (if |items| > 0 then [MoveTo(Shift(items[0].1.x, b.minX), Shift(items[0].1.y, b.minY))] else [])
    + seq(|items|, k requires 0 <= k < |items| =>
        LineTo(Shift(items[k].2.x, b.minX), Shift(items[k].2.y, b.minY)))
    + [Close]
  }

  /** `sector_to_path`: the sector's outline, filled when it is the player's sector. */
  function SectorToPath(playerSector: i16, secs: Sectors, b: Bounds, sector: nat): (p: Node)
    requires sector < |secs.sectors| && LoopsClose(secs)
    ensures p.Path? && p.stroke == "black" && p.strokeWidth == 32
    ensures |p.d| == |SectorItems(secs, sector)| + 2
    ensures p.fill == PLAYER_SECTOR_FILL <==> playerSector == WrapI16(sector)
  {
    var fill := if playerSector == WrapI16(sector) then PLAYER_SECTOR_FILL else SECTOR_FILL;
    Path(fill, "black", 32, PathData(SectorItems(secs, sector), b))
  }

  /** The starting position's circle. */
  function PlayerCircle(m: MapFile.Map, b: Bounds): (c: Node)
  {
    Circle(Shift(m.posX, b.minX), Shift(m.posY, b.minY), 512, "red")
  }

  /** A sprite's circle, its y moved by the box's minimum y. */
  function SpriteCircle(s: MapSprite.Sprite, b: Bounds): (c: Node)
  {
    Circle(Shift(s.x, b.minX), Shift(s.y, b.minY), 128, "blue")
  }

  /** A sprite's circle as the example writes it: its y is moved by the box's minimum x. */
  function SpriteCircleAsWritten(s: MapSprite.Sprite, b: Bounds): (c: Node)
  {
    Circle(Shift(s.x, b.minX), Shift(s.y, b.minX), 128, "blue")
  }

  /** One path per sector, in table order. */
  function SectorPaths(playerSector: i16, secs: Sectors, b: Bounds): (ps: seq<Node>)
    requires LoopsClose(secs)
    ensures |ps| == |secs.sectors|
    ensures forall i :: 0 <= i < |ps| ==> ps[i] == SectorToPath(playerSector, secs, b, i) && ps[i].Path?
  {
    seq(|secs.sectors|, i requires 0 <= i < |secs.sectors| => SectorToPath(playerSector, secs, b, i))
  }

  /** One circle per sprite, in list order. */
  function SpriteCircles(sprites: seq<MapSprite.Sprite>, b: Bounds): (cs: seq<Node>)
    ensures |cs| == |sprites|
    ensures forall j :: 0 <= j < |cs| ==> cs[j] == SpriteCircle(sprites[j], b) && cs[j].Circle?
  {
    seq(|sprites|, j requires 0 <= j < |sprites| => SpriteCircle(sprites[j], b))
  }

  /**
   * `create_document`: the view box of the walls' bounds, one path per
   * sector in table order, the player's circle, then one circle per sprite.
   */
  function CreateDocument(m: MapFile.Map, sprites: seq<MapSprite.Sprite>): (doc: Document)
    requires LoopsClose(m.sectors)
    ensures var b := ComputeBounds(m.sectors.walls);
      var n := |m.sectors.sectors|;
      && doc.viewBox == (0, 0, Shift(b.maxX, b.minX), Shift(b.maxY, b.minY))
      && |doc.nodes| == n + 1 + |sprites|
      && (forall i :: 0 <= i < n ==> doc.nodes[i] == SectorToPath(m.sector, m.sectors, b, i))
      && doc.nodes[n] == PlayerCircle(m, b)
      && (forall j :: 0 <= j < |sprites| ==> doc.nodes[n + 1 + j] == SpriteCircle(sprites[j], b))
    ensures forall i :: 0 <= i < |doc.nodes| ==> (doc.nodes[i].Path? <==> i < |m.sectors.sectors|)
  {
    var b := ComputeBounds(m.sectors.walls);
    var ps := SectorPaths(m.sector, m.sectors, b);
    var cs := SpriteCircles(sprites, b);
    var nodes := ps + [PlayerCircle(m, b)] + cs;
    assert forall i :: |ps| < i < |nodes| ==> nodes[i] == cs[i - |ps| - 1];
    Document((0, 0, Shift(b.maxX, b.minX), Shift(b.maxY, b.minY)), nodes)
  }

  /**
   * `create_document` as the example writes it: the same view box, paths and
   * player circle, but every sprite circle is `SpriteCircleAsWritten`.
   */
  function CreateDocumentAsWritten(m: MapFile.Map, sprites: seq<MapSprite.Sprite>): (doc: Document)
    requires LoopsClose(m.sectors)
    ensures var fixed := CreateDocument(m, sprites);
      var b := ComputeBounds(m.sectors.walls);
      var n := |m.sectors.sectors|;
      && doc.viewBox == fixed.viewBox && |doc.nodes| == |fixed.nodes|
      && doc.nodes[..n + 1] == fixed.nodes[..n + 1]
      && (forall j :: 0 <= j < |sprites| ==> doc.nodes[n + 1 + j] == SpriteCircleAsWritten(sprites[j], b))
  {
    var b := ComputeBounds(m.sectors.walls);
    var ps := SectorPaths(m.sector, m.sectors, b);
    var cs := seq(|sprites|, j requires 0 <= j < |sprites| => SpriteCircleAsWritten(sprites[j], b));
    var nodes := ps + [PlayerCircle(m, b)] + cs;
    assert forall i :: |ps| < i < |nodes| ==> nodes[i] == cs[i - |ps| - 1];
    Document((0, 0, Shift(b.maxX, b.minX), Shift(b.maxY, b.minY)), nodes)
  }

  /**
   * The two documents differ exactly in the sprite circles whose y moved by
   * `min_x` lands elsewhere than when moved by `min_y`.
   */
  lemma AsWrittenDiffersOnlyInSprites(m: MapFile.Map, sprites: seq<MapSprite.Sprite>, j: nat)
    requires LoopsClose(m.sectors) && j < |sprites|
    ensures var b := ComputeBounds(m.sectors.walls);
      var n := |m.sectors.sectors|;
      (CreateDocumentAsWritten(m, sprites).nodes[n + 1 + j] == CreateDocument(m, sprites).nodes[n + 1 + j]
       <==> Shift(sprites[j].y, b.minX) == Shift(sprites[j].y, b.minY))
  {
  }

  // ---- properties ------------------------------------------------------------

  /** (x, y) lies in a view box of the given width and height. */
  predicate InView(w: int, h: int, x: int, y: int)
  {
    0 <= x <= w && 0 <= y <= h
  }

  /** Every point a node draws at lies in the view box. */
  predicate NodeInView(node: Node, w: int, h: int)
  {
    match node
    case Path(_, _, _, d) =>
      forall k :: 0 <= k < |d| ==> (d[k].MoveTo? || d[k].LineTo?) ==> InView(w, h, d[k].x, d[k].y)
    case Circle(cx, cy, _, _) => InView(w, h, cx, cy)
  }

  /**
   * The path traces the sector's wall loop as a closed polygon: it moves to
   * the first wall, then draws a line to each next wall in loop order, the
   * last line ending where the path began, and closes.
   */
  lemma PathTracesLoop(playerSector: i16, secs: Sectors, b: Bounds, sector: nat)
    requires sector < |secs.sectors| && LoopsClose(secs)
    ensures var d := SectorToPath(playerSector, secs, b, sector).d;
      var items := SectorItems(secs, sector);
      var n := |items|;
      && d[0] == MoveTo(Shift(items[0].1.x, b.minX), Shift(items[0].1.y, b.minY))
      && (forall k :: 1 <= k < n ==>
            d[k] == LineTo(Shift(items[k].1.x, b.minX), Shift(items[k].1.y, b.minY)))
      && d[n] == LineTo(d[0].x, d[0].y)
      && d[n + 1] == Close
  {
    var items := SectorItems(secs, sector);
    var n := |items|;
    var d := PathData(items, b);
    assert SectorToPath(playerSector, secs, b, sector).d == d;
    LoopItemsChain(secs.walls, secs.sectors[sector].wallptr as int, n);
    forall k | 1 <= k < n
      ensures d[k] == LineTo(Shift(items[k].1.x, b.minX), Shift(items[k].1.y, b.minY))
    {
      assert d[k] == LineTo(Shift(items[k - 1].2.x, b.minX), Shift(items[k - 1].2.y, b.minY));
    }
    assert d[n] == LineTo(Shift(items[n - 1].2.x, b.minX), Shift(items[n - 1].2.y, b.minY));
  }

  /** Every wall a sector's iterator yields is a wall of the table. */
  lemma ItemsAreWalls(secs: Sectors, sector: nat)
    requires sector < |secs.sectors| && LoopsClose(secs)
    ensures forall k :: 0 <= k < |SectorItems(secs, sector)| ==>
      SectorItems(secs, sector)[k].1 in secs.walls && SectorItems(secs, sector)[k].2 in secs.walls
  {
    var s := secs.sectors[sector];
    var items := SectorItems(secs, sector);
    forall k | 0 <= k < |items|
      ensures items[k].1 in secs.walls && items[k].2 in secs.walls
    {
      LoopItemStep(secs.walls, s.wallptr as int, |items|, k);
    }
  }

  /** A point in a box that fits lands, once moved, in that box's view. */
  lemma MovedInView(b: Bounds, x: i32, y: i32)
    requires Fits(b) && Contains(b, x, y)
    ensures InView(Shift(b.maxX, b.minX), Shift(b.maxY, b.minY), Shift(x, b.minX), Shift(y, b.minY))
  {
    ShiftInside(x, b.minX, b.maxX);
    ShiftInside(y, b.minY, b.maxY);
  }

  /** Every point of every sector's path lies in the view box, when the box fits. */
  lemma PathInView(playerSector: i16, secs: Sectors, sector: nat)
    requires sector < |secs.sectors| && LoopsClose(secs)
    requires Fits(ComputeBounds(secs.walls))
    ensures var b := ComputeBounds(secs.walls);
      NodeInView(SectorToPath(playerSector, secs, b, sector), Shift(b.maxX, b.minX), Shift(b.maxY, b.minY))
  {
    var b := ComputeBounds(secs.walls);
    var items := SectorItems(secs, sector);
    ItemsAreWalls(secs, sector);
    PathDataInView(items, b);
  }

  /** The path through items whose walls all lie in a box that fits stays in that box's view. */
  lemma PathDataInView(items: seq<(i16, Wall, Wall)>, b: Bounds)
    requires Fits(b)
    requires forall k :: 0 <= k < |items| ==> Contains(b, items[k].1.x, items[k].1.y) && Contains(b, items[k].2.x, items[k].2.y)
    ensures NodeInView(Path(SECTOR_FILL, "black", 32, PathData(items, b)), Shift(b.maxX, b.minX), Shift(b.maxY, b.minY))
  {
    var d := PathData(items, b);
    forall k | 0 <= k < |d| && (d[k].MoveTo? || d[k].LineTo?)
      ensures InView(Shift(b.maxX, b.minX), Shift(b.maxY, b.minY), d[k].x, d[k].y)
    {
      var w := if k == 0 then items[0].1 else items[k - 1].2;
      MovedInView(b, w.x, w.y);
    }
  }

  /**
   * Everything the document draws lies in its view box: when the walls' box
   * fits in `i32` and the player and every sprite stand inside it, every
   * path point and circle centre is in [0, width] x [0, height].
   */
  lemma DocumentInView(m: MapFile.Map, sprites: seq<MapSprite.Sprite>)
    requires LoopsClose(m.sectors)
    requires var b := ComputeBounds(m.sectors.walls);
      && Fits(b)
      && Contains(b, m.posX, m.posY)
      && forall s :: s in sprites ==> Contains(b, s.x, s.y)
    ensures var doc := CreateDocument(m, sprites);
      forall i :: 0 <= i < |doc.nodes| ==> NodeInView(doc.nodes[i], doc.viewBox.2, doc.viewBox.3)
  {
    var b := ComputeBounds(m.sectors.walls);
    var doc := CreateDocument(m, sprites);
    var n := |m.sectors.sectors|;
    forall i | 0 <= i < |doc.nodes|
      ensures NodeInView(doc.nodes[i], doc.viewBox.2, doc.viewBox.3)
    {
      if i < n {
        PathInView(m.sector, m.sectors, i);
      } else if i == n {
        MovedInView(b, m.posX, m.posY);
      } else {
        var s := sprites[i - n - 1];
        MovedInView(b, s.x, s.y);
      }
    }
  }

  /**
   * Exactly the player's sector is highlighted: in a map of at most 2^15
   * sectors, path i is filled iff i is the player's sector.
   */
  lemma HighlightsPlayerSector(m: MapFile.Map, sprites: seq<MapSprite.Sprite>, i: nat)
    requires LoopsClose(m.sectors) && |m.sectors.sectors| <= 0x8000
    requires i < |m.sectors.sectors|
    ensures CreateDocument(m, sprites).nodes[i].fill == PLAYER_SECTOR_FILL <==> m.sector as int == i
  {
  }

  /**
   * The sprite circle as written leaves the view box: walls spanning
   * x in [0, 10] and y in [1000, 2000], a sprite at (5, 1500) inside them,
   * and the circle's y is 1500, beyond the height 1000.
   */
  lemma SpriteCircleAsWrittenOutside()
    ensures var b := Bounds(0, 1000, 10, 2000);
      var s := MapSprite.Sprite(5, 1500, 0, 0, 0, 0, 0, 0, 0, 0, 0, 0, 0, 0, 0, 0, 0, 0, 0, 0, 0, 0, 0);
      && Fits(b) && Contains(b, s.x, s.y)
      && !NodeInView(SpriteCircleAsWritten(s, b), Shift(b.maxX, b.minX), Shift(b.maxY, b.minY))
      && NodeInView(SpriteCircle(s, b), Shift(b.maxX, b.minX), Shift(b.maxY, b.minY))
  {
  }

  /** The corrected sprite circle is centred on the sprite, moved by the box's minimum corner. */
  lemma SpriteCircleCentred(s: MapSprite.Sprite, b: Bounds)
    requires Fits(b) && Contains(b, s.x, s.y)
    ensures SpriteCircle(s, b).cx == s.x - b.minX && SpriteCircle(s, b).cy == s.y - b.minY
    ensures NodeInView(SpriteCircle(s, b), Shift(b.maxX, b.minX), Shift(b.maxY, b.minY))
  {
    MovedInView(b, s.x, s.y);
  }
}
