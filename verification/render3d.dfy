/**
 * The integer part of `render/src/d3.rs`: the per-column spans of a
 * projected wall, the coverage-clipped line fill, the solid and portal wall
 * painters, and the portal queue of `Renderer::render`. The projection of a
 * wall into screen space is floating point and comes in as a given
 * `Geometry` of screen points.
 */
module Render3d {
  import opened Ints
  import opened Algo
  import opened Frame

  const BLACK_COLOR: u32 := 0x000000
  const WALL_COLOR: u32 := 0x888888
  const CEILING_COLOR: u32 := 0x444444
  const FLOOR_COLOR: u32 := 0x0000ff
  const PORTAL_FRAME_COLOR: u32 := 0xaa00aa

  /** A screen point `[x, y]`, an `[i32; 2]`. */
  datatype Point = Point(x: i32, y: i32)

  /** A segment `[p0, p1]`; the renderer only draws vertical ones. */
  datatype Segment = Segment(p0: Point, p1: Point)

  /** The eight projected corners of a wall: the outer quad and the inner (portal) quad. */
  datatype Geometry = Geometry(
    topLeft: Point,
    topRight: Point,
    bottomLeft: Point,
    bottomRight: Point,
    innerTopLeft: Point,
    innerTopRight: Point,
    innerBottomLeft: Point,
    innerBottomRight: Point)

  /** One column of a wall: its index in the clamped range, the full span and the portal span. */
  datatype Line = Line(i: nat, wall: Segment, portal: Segment)

  /** `v.max(0).min(WIDTH)`. */
  function ClampX(v: int): (r: int)
    ensures 0 <= r <= WIDTH
  {
    MaxMin(v, 0, WIDTH)
  }

  /** `v.max(0).min(HEIGHT)`. */
  function ClampY(v: int): (r: int)
    ensures 0 <= r <= HEIGHT
  {
    MaxMin(v, 0, HEIGHT)
  }

  /**
   * `a.y + n * (b.y - a.y) / d` in `i32`: each step wraps around, and the
   * division truncates toward zero.
   */
  function Lerp(a: Point, b: Point, n: i32, d: i32): i32
    requires d != 0
  {
    WrapI32(a.y + WrapI32(DivTrunc(WrapI32(n * WrapI32(b.y - a.y)), d)))
  }

  /** The item `wall_lines_iter` maps column x (the i-th of the clamped range) to. */
  function LineAt(g: Geometry, x: int, i: nat): (l: Line)
    requires 0 < g.topRight.x - g.topLeft.x && 0 <= x <= WIDTH
    ensures GoodLine(l) && LineX(l) == x && l.i == i
  {
    var d := WrapI32(g.topRight.x - g.topLeft.x);
    assert d != 0 by {
      var v := g.topRight.x - g.topLeft.x;
      assert 0 < v < 0x1_0000_0000 && (d - v) % 0x1_0000_0000 == 0;
    }
    var n := WrapI32(x - g.topLeft.x);
    var midY0 := ClampY(Lerp(g.topLeft, g.topRight, n, d));
    var midY1 := ClampY(Lerp(g.bottomLeft, g.bottomRight, n, d));
    var topY0 := ClampY(Lerp(g.innerTopLeft, g.innerTopRight, n, d));
    var topY1 := ClampY(Lerp(g.innerBottomLeft, g.innerBottomRight, n, d));
    Line(i,
      Segment(Point(x, midY0), Point(x, midY1)),
      Segment(Point(x, Max(topY0, midY0)), Point(x, Min(topY1, midY1))))
  }

  /** The columns of `x..x1` that the window contains, in increasing order. */
  function Columns(window: Interval, x: int, x1: int): (cs: seq<int>)
    ensures forall k :: 0 <= k < |cs| ==> x <= cs[k] < x1 && Contains(window, cs[k])
    decreases x1 - x
  {
    if x >= x1 then []
    else (if Contains(window, x) then [x] else []) + Columns(window, x + 1, x1)
  }

  /** Each column of the range that the window contains is listed, once, in increasing order. */
  lemma {:induction false} ColumnsExact(window: Interval, x: int, x1: int)
    ensures var cs := Columns(window, x, x1);
      && (forall j, k :: 0 <= j < k < |cs| ==> cs[j] < cs[k])
      && (forall c :: x <= c < x1 && Contains(window, c) ==> c in cs)
    decreases x1 - x
  {
    if x < x1 {
      ColumnsExact(window, x + 1, x1);
      var rest := Columns(window, x + 1, x1);
      var head := if Contains(window, x) then [x] else [];
      assert Columns(window, x, x1) == head + rest;
    }
  }

  /** The clamped column range `[x0, x1)` of a wall. */
  function X0(g: Geometry): int { ClampX(g.topLeft.x) }
  function X1(g: Geometry): int { ClampX(g.topRight.x) }

  /** The item `wall_lines_iter` yields for column i of the clamped range. */
  function ColumnLine(g: Geometry, i: int): (l: Line)
    requires X0(g) <= i < X1(g)
    ensures GoodLine(l) && LineX(l) == i && l.i == i - X0(g)
  {
    assert g.topRight.x - g.topLeft.x > 0;
    LineAt(g, i, i - X0(g))
  }

  /**
   * `wall_lines_iter`: `(x0..x1).enumerate().filter(..).map(..)`. Every item
   * lies in the clamped range and the window; its index counts every column
   * of that range, filtered or not, so it is 0 only at the clamped left
   * edge; every y is clamped to `[0, HEIGHT]`, and the portal span lies
   * inside the wall span.
   */
  function WallLines(g: Geometry, window: Interval): (ls: seq<Line>)
    ensures forall k :: 0 <= k < |ls| ==>
      && GoodLine(ls[k]) && X0(g) <= LineX(ls[k]) < X1(g) && Contains(window, LineX(ls[k]))
      && ls[k].i == LineX(ls[k]) - X0(g)
  {
    LinesOf(g, Columns(window, X0(g), X1(g)))
  }

  /** The items of the columns `cs`, in order. */
  function LinesOf(g: Geometry, cs: seq<int>): (ls: seq<Line>)
    requires forall k :: 0 <= k < |cs| ==> X0(g) <= cs[k] < X1(g)
    ensures |ls| == |cs|
    ensures forall k :: 0 <= k < |ls| ==> GoodLine(ls[k]) && LineX(ls[k]) == cs[k] && ls[k].i == cs[k] - X0(g)
    decreases |cs|
  {
    if cs == [] then [] else [ColumnLine(g, cs[0])] + LinesOf(g, cs[1..])
  }

  /** Item k of `LinesOf` is the item of column `cs[k]`. */
  lemma {:induction false} LinesOfByColumn(g: Geometry, cs: seq<int>)
    requires forall k :: 0 <= k < |cs| ==> X0(g) <= cs[k] < X1(g)
    ensures forall k :: 0 <= k < |cs| ==> LinesOf(g, cs)[k] == ColumnLine(g, cs[k])
    decreases |cs|
  {
    if cs != [] {
      LinesOfByColumn(g, cs[1..]);
      var ls := LinesOf(g, cs);
      forall k | 0 <= k < |cs|
        ensures ls[k] == ColumnLine(g, cs[k])
      {
        if k > 0 {
          assert ls[k] == LinesOf(g, cs[1..])[k - 1];
        }
      }
    }
  }

  function LineX(l: Line): int { l.wall.p0.x }

  /** A well-formed column item: every point on column x, every y in `[0, HEIGHT]`, the portal inside the wall span. */
  predicate GoodLine(l: Line)
  {
    && l.wall.p1.x == l.wall.p0.x && l.portal.p0.x == l.wall.p0.x && l.portal.p1.x == l.wall.p0.x
    && 0 <= l.wall.p0.y <= HEIGHT && 0 <= l.wall.p1.y <= HEIGHT
    && 0 <= l.portal.p0.y <= HEIGHT && 0 <= l.portal.p1.y <= HEIGHT
    && l.portal.p0.y >= l.wall.p0.y && l.portal.p1.y <= l.wall.p1.y
  }

  /** Item k of `wall_lines_iter` is on the k-th kept column. */
  lemma WallLinesColumns(g: Geometry, window: Interval)
    ensures var cs := Columns(window, X0(g), X1(g));
      var ls := WallLines(g, window);
      |ls| == |cs| && forall k :: 0 <= k < |ls| ==> LineX(ls[k]) == cs[k]
  {
  }

  /** The items go strictly left to right, so no column is visited twice. */
  lemma WallLinesIncreasing(g: Geometry, window: Interval)
    ensures var ls := WallLines(g, window);
      forall j, k :: 0 <= j < k < |ls| ==> LineX(ls[j]) < LineX(ls[k])
  {
    WallLinesColumns(g, window);
    ColumnsExact(window, X0(g), X1(g));
  }

  /** Two given items in order. */
  lemma WallLinesOrdered(g: Geometry, window: Interval, a: nat, b: nat)
    requires a < b < |WallLines(g, window)|
    ensures LineX(WallLines(g, window)[a]) < LineX(WallLines(g, window)[b])
  {
    WallLinesIncreasing(g, window);
  }

  /** Every column of the clamped range that the window contains is visited. */
  lemma WallLinesComplete(g: Geometry, window: Interval)
    ensures var ls := WallLines(g, window);
      forall c :: X0(g) <= c < X1(g) && Contains(window, c) ==>
        exists k :: 0 <= k < |ls| && LineX(ls[k]) == c
  {
    var cs := Columns(window, X0(g), X1(g));
    var ls := WallLines(g, window);
    WallLinesColumns(g, window);
    ColumnsExact(window, X0(g), X1(g));
    forall c | X0(g) <= c < X1(g) && Contains(window, c)
      ensures exists k :: 0 <= k < |ls| && LineX(ls[k]) == c
    {
      var k :| 0 <= k < |cs| && cs[k] == c;
      assert LineX(ls[k]) == c;
    }
  }

  /** Column i gets an item of the wall: it is in the clamped range and the window. */
  predicate OnWall(g: Geometry, window: Interval, i: int)
  {
    X0(g) <= i < X1(g) && Contains(window, i)
  }

  /** Item k is the item of its own column, which is on the wall. */
  lemma WallLineAt(g: Geometry, window: Interval, k: nat)
    requires k < |WallLines(g, window)|
    ensures var l := WallLines(g, window)[k];
      OnWall(g, window, LineX(l)) && l == ColumnLine(g, LineX(l))
  {
    LinesOfByColumn(g, Columns(window, X0(g), X1(g)));
  }

  /** No on-wall column lies left of the first item. */
  lemma WallLinesStart(g: Geometry, window: Interval)
    ensures var ls := WallLines(g, window);
      forall i :: OnWall(g, window, i) ==> i >= Bound(ls, 0, X1(g))
  {
    var ls := WallLines(g, window);
    WallLinesIncreasing(g, window);
    WallLinesComplete(g, window);
    forall i | OnWall(g, window, i)
      ensures i >= Bound(ls, 0, X1(g))
    {
      var m :| 0 <= m < |ls| && LineX(ls[m]) == i;
      assert m == 0 || LineX(ls[0]) < LineX(ls[m]);
    }
  }

  /** After item k the drawn on-wall columns are those before it plus its own. */
  lemma BoundStep(g: Geometry, window: Interval, k: nat)
    requires k < |WallLines(g, window)|
    ensures var ls := WallLines(g, window);
      forall i :: OnWall(g, window, i) ==>
        (i < Bound(ls, k + 1, X1(g)) <==> i < Bound(ls, k, X1(g)) || i == LineX(ls[k]))
  {
    var ls := WallLines(g, window);
    WallLinesIncreasing(g, window);
    WallLinesComplete(g, window);
    forall i | OnWall(g, window, i)
      ensures i < Bound(ls, k + 1, X1(g)) <==> i < Bound(ls, k, X1(g)) || i == LineX(ls[k])
    {
      var m :| 0 <= m < |ls| && LineX(ls[m]) == i;
      if m < k {
        assert LineX(ls[m]) < LineX(ls[k]);
      } else if m > k + 1 {
        assert LineX(ls[k + 1]) < LineX(ls[m]);
      }
      if k + 1 < |ls| {
        assert LineX(ls[k]) < LineX(ls[k + 1]);
      }
    }
  }

  /** A wall seen edge-on or from behind (`top_right.x <= top_left.x`) yields no column at all. */
  lemma BackFacingHasNoLines(g: Geometry, window: Interval)
    requires g.topRight.x <= g.topLeft.x
    ensures WallLines(g, window) == []
  {
  }

  /** `algo::interval(l, r)`: the interval `[l, r)`, or `EMPTY` when it holds nothing. */
  function Span(l: int, r: int): (iv: Interval)
    requires I32_MIN <= l && r <= I32_MAX
    ensures forall p :: Holds(iv, p) <==> l <= p < r
  {
    if l < r then New(l, r) else EMPTY
  }

  /** The colour row j of a solid column ends with (the five lines of a solid column cover every row). */
  function SolidPixel(l: Line, j: int): u32
  {
    var y0 := l.wall.p0.y;
    var y1 := l.wall.p1.y;
    if j >= y1 then FLOOR_COLOR
    else if j < y0 then CEILING_COLOR
    else if j == y0 || j == y1 - 1 then BLACK_COLOR
    else if l.i == 0 then BLACK_COLOR
    else WALL_COLOR
  }

  /** The colour row j of a portal column ends with; `under` is what it showed before, which the portal opening keeps. */
  function PortalPixel(l: Line, hasTop: bool, hasBottom: bool, j: int, under: u32): u32
  {
    var w0 := l.wall.p0.y;
    var w1 := l.wall.p1.y;
    var p0 := l.portal.p0.y;
    var p1 := l.portal.p1.y;
    if j >= w1 then FLOOR_COLOR
    else if j < w0 then CEILING_COLOR
    else if hasBottom && j == w1 - 1 then BLACK_COLOR
    else if hasBottom && p1 <= j < w1 then (if l.i == 0 then BLACK_COLOR else PORTAL_FRAME_COLOR)
    else if hasTop && j == w0 then BLACK_COLOR
    else if hasTop && w0 <= j < p0 then (if l.i == 0 then BLACK_COLOR else WALL_COLOR)
    else if j == p0 || j == p1 - 1 then BLACK_COLOR
    else under
  }

  /** The first column not yet drawn after k items. */
  ghost function Bound(ls: seq<Line>, k: nat, x1: int): int
  {
    if k < |ls| then LineX(ls[k]) else x1
  }

  /** `top_left.y < inner_top_left.y`: the neighbour's ceiling is lower, so an upper frame shows. */
  predicate HasTop(g: Geometry) { g.topLeft.y < g.innerTopLeft.y }

  /** `bottom_left.y > inner_bottom_left.y`: the neighbour's floor is higher, so a lower frame shows. */
  predicate HasBottom(g: Geometry) { g.bottomLeft.y > g.innerBottomLeft.y }

  /** A solid column's coverage after drawing: nothing is left. */
  function UsedUp(column: Interval): (r: Interval)
    ensures IsEmpty(r)
  {
    if IsEmpty(column) then column else EMPTY
  }

  /** A portal column's coverage after drawing: narrowed to the rows strictly inside the portal. */
  function PortalCut(column: Interval, l: Line): Interval
    requires GoodLine(l)
  {
    Narrowed(column, Span(l.portal.p0.y + 1, l.portal.p1.y - 1))
  }

  /** What `coverage.intersect` is given for item k's column: `EMPTY` on a solid wall, the portal's inner rows otherwise. */
  function CutBy(l: Line, solid: bool): Interval
    requires GoodLine(l)
  {
    if solid then EMPTY else Span(l.portal.p0.y + 1, l.portal.p1.y - 1)
  }

  /** The coverage a column keeps once a wall has drawn it: used up by a solid wall, cut to a portal otherwise. */
  function CutColumn(g: Geometry, i: int, column: Interval, solid: bool): Interval
    requires X0(g) <= i < X1(g)
  {
    Narrowed(column, CutBy(ColumnLine(g, i), solid))
  }

  /** The coverage after a wall has drawn its on-wall columns left of `bound`. */
  ghost function CutColumns(g: Geometry, window: Interval, cols: seq<Interval>, bound: int, solid: bool): (r: seq<Interval>)
    ensures |r| == |cols|
    ensures forall i :: 0 <= i < |cols| ==>
      r[i] == if OnWall(g, window, i) && i < bound then CutColumn(g, i, cols[i], solid) else cols[i]
  {
    seq(|cols|, i requires 0 <= i < |cols| =>
      if OnWall(g, window, i) && i < bound then CutColumn(g, i, cols[i], solid) else cols[i])
  }

  /** Narrowing a column by its item's cut gives the column's `CutColumn`. */
  lemma CutByItem(g: Geometry, window: Interval, column: Interval, k: nat, solid: bool)
    requires k < |WallLines(g, window)|
    ensures var l := WallLines(g, window)[k];
      X0(g) <= LineX(l) < X1(g) && Narrowed(column, CutBy(l, solid)) == CutColumn(g, LineX(l), column, solid)
  {
    WallLineAt(g, window, k);
  }

  /** Drawing item k extends the cut columns by its own column. */
  lemma CutColumnsStep(g: Geometry, window: Interval, cols: seq<Interval>, k: nat, solid: bool)
    requires k < |WallLines(g, window)| && |cols| == WIDTH
    ensures var ls := WallLines(g, window);
      var x := LineX(ls[k]);
      var before := CutColumns(g, window, cols, Bound(ls, k, X1(g)), solid);
      && before[x] == cols[x]
      && before[x := CutColumn(g, x, cols[x], solid)] == CutColumns(g, window, cols, Bound(ls, k + 1, X1(g)), solid)
  {
    var ls := WallLines(g, window);
    var x := LineX(ls[k]);
    var b0, b1 := Bound(ls, k, X1(g)), Bound(ls, k + 1, X1(g));
    var before := CutColumns(g, window, cols, b0, solid);
    var after := CutColumns(g, window, cols, b1, solid);
    var updated := before[x := CutColumn(g, x, cols[x], solid)];
    BoundStep(g, window, k);
    assert OnWall(g, window, x) && b0 == x < b1;
    forall i | 0 <= i < |cols|
      ensures updated[i] == after[i]
    {
      if i != x {
        assert updated[i] == before[i];
        assert OnWall(g, window, i) ==> (i < b0 <==> i < b1);
      }
    }
    assert updated == after;
  }

  /** The coverage columns hold exactly `cols`. */
  ghost predicate ColumnsAre(columns: array<Interval>, cols: seq<Interval>)
    reads columns
  {
    columns.Length == |cols| && forall i :: 0 <= i < |cols| ==> columns[i] == cols[i]
  }

  /** After k items, `(pl, pr)` is `(WIDTH, 0)` or spans the first item's column to just past the last one's. */
  ghost predicate Spanned(ls: seq<Line>, k: nat, pl: int, pr: int)
    requires k <= |ls|
  {
    if k == 0 then pl == WIDTH && pr == 0 else pl == LineX(ls[0]) && pr == LineX(ls[k - 1]) + 1
  }

  /**
   * Once every item is drawn, the span holds exactly the on-wall columns:
   * they run without a gap from the first item's column to the last's, and
   * there are none when there was no item.
   */
  lemma DrawnSpan(g: Geometry, window: Interval, pl: int, pr: int)
    requires Spanned(WallLines(g, window), |WallLines(g, window)|, pl, pr)
    ensures |WallLines(g, window)| == 0 ==> forall p :: !OnWall(g, window, p)
    ensures |WallLines(g, window)| > 0 ==> 0 <= pl < pr <= WIDTH
    ensures |WallLines(g, window)| > 0 ==> forall p :: pl <= p < pr <==> OnWall(g, window, p)
  {
    var ls := WallLines(g, window);
    WallLinesComplete(g, window);
    WallLinesIncreasing(g, window);
    SpanOfColumns(g, window, ls, pl, pr);
  }

  /** The span of items listed in increasing column order, one per on-wall column. */
  lemma SpanOfColumns(g: Geometry, window: Interval, ls: seq<Line>, pl: int, pr: int)
    requires forall k :: 0 <= k < |ls| ==> OnWall(g, window, LineX(ls[k]))
    requires forall j, k :: 0 <= j < k < |ls| ==> LineX(ls[j]) < LineX(ls[k])
    requires forall c :: X0(g) <= c < X1(g) && Contains(window, c) ==> exists k :: 0 <= k < |ls| && LineX(ls[k]) == c
    requires Spanned(ls, |ls|, pl, pr)
    ensures |ls| == 0 ==> forall p :: !OnWall(g, window, p)
    ensures |ls| > 0 ==> 0 <= pl < pr <= WIDTH
    ensures |ls| > 0 ==> forall p :: pl <= p < pr <==> OnWall(g, window, p)
  {
    if |ls| > 0 {
      forall p | OnWall(g, window, p)
        ensures pl <= p < pr
      {
        var k :| 0 <= k < |ls| && LineX(ls[k]) == p;
        assert k == 0 || LineX(ls[0]) < LineX(ls[k]);
        assert k == |ls| - 1 || LineX(ls[k]) < LineX(ls[|ls| - 1]);
      }
    }
  }

  /** `pl = pl.min(x); pr = pr.max(x + 1)` keeps the span in step with the items drawn. */
  lemma SpannedStep(g: Geometry, window: Interval, k: nat, pl: int, pr: int)
    requires k < |WallLines(g, window)| && Spanned(WallLines(g, window), k, pl, pr)
    ensures var ls := WallLines(g, window);
      Spanned(ls, k + 1, Min(pl, LineX(ls[k])), Max(pr, LineX(ls[k]) + 1))
  {
    if k > 0 {
      WallLinesOrdered(g, window, 0, k);
      WallLinesOrdered(g, window, k - 1, k);
    }
  }

  /** A frame-sized grid of pixels. */
  ghost predicate IsGrid(p: seq<seq<u32>>)
  {
    |p| == HEIGHT && forall j :: 0 <= j < HEIGHT ==> |p[j]| == WIDTH
  }

  /** The frame's pixels, row by row. */
  ghost function Pixels(frame: array2<u32>): (p: seq<seq<u32>>)
    requires IsFrame(frame)
    reads frame
    ensures IsGrid(p)
    ensures forall j, i :: 0 <= j < HEIGHT && 0 <= i < WIDTH ==> p[j][i] == frame[j, i]
  {
    seq(HEIGHT, j requires 0 <= j < HEIGHT reads frame =>
      seq(WIDTH, i requires 0 <= i < WIDTH reads frame => frame[j, i]))
  }

  /** What pixel (j, i) of an on-wall column shows once drawn over `under`: the solid or the portal column's colour. */
  function WallPixel(g: Geometry, i: int, j: int, under: u32, solid: bool): u32
    requires X0(g) <= i < X1(g)
  {
    if solid then SolidPixel(ColumnLine(g, i), j)
    else PortalPixel(ColumnLine(g, i), HasTop(g), HasBottom(g), j, under)
  }

  /**
   * The frame once a wall has drawn its on-wall columns left of `bound`,
   * over the pixels `under` and the coverage `cols` it started from.
   */
  ghost predicate WallDrawn(frame: array2<u32>, g: Geometry, window: Interval, cols: seq<Interval>, under: seq<seq<u32>>, bound: int, solid: bool)
    requires IsFrame(frame) && |cols| == WIDTH && IsGrid(under)
    reads frame
  {
    forall j, i :: 0 <= j < HEIGHT && 0 <= i < WIDTH ==>
      frame[j, i] ==
        if OnWall(g, window, i) && i < bound && Holds(cols[i], j)
        then WallPixel(g, i, j, under[j][i], solid) else under[j][i]
  }

  /** A wall of the sector being drawn, already projected: its `next_sector` and its screen corners. */
  datatype ProjectedWall = ProjectedWall(nextSector: i16, geometry: Geometry)

  /** Every portal of the scene leads to a sector of the scene (the source does not check this). */
  predicate SceneLinks(scene: seq<seq<ProjectedWall>>)
  {
    forall s, w :: 0 <= s < |scene| && 0 <= w < |scene[s]| ==>
      scene[s][w].nextSector == -1 || 0 <= scene[s][w].nextSector < |scene|
  }

  /** A queued (sector, window): a sector of the scene and a non-empty window inside the frame. */
  predicate QueueEntry(scene: seq<seq<ProjectedWall>>, e: (int, Interval))
  {
    0 <= e.0 < |scene| && !IsEmpty(e.1) && 0 <= e.1.left && e.1.right <= WIDTH
  }

  /**
   * The columns `render_portal_wall` draws, as one interval: exactly the
   * on-wall columns, or `EMPTY` when there are none.
   */
  function DrawnInterval(g: Geometry, window: Interval): (r: Interval)
    ensures forall p :: Holds(r, p) <==> OnWall(g, window, p)
    ensures r == EMPTY || !IsEmpty(r)
  {
    var lo := Max(X0(g), window.left);
    var hi := Min(X1(g), window.right + 1);
    if IsEmpty(window) || hi <= lo then EMPTY else Interval(lo, hi)
  }

  /** Two intervals holding the same columns, each `EMPTY` or non-empty, are the same interval. */
  lemma SameHolds(a: Interval, b: Interval)
    requires forall p :: Holds(a, p) <==> Holds(b, p)
    requires (a == EMPTY || !IsEmpty(a)) && (b == EMPTY || !IsEmpty(b))
    ensures a == b
  {
    assert Holds(a, b.left) == Holds(b, b.left);
    if !IsEmpty(a) {
      assert Holds(a, a.left) && Holds(a, a.right - 1);
      assert Holds(b, b.left) && Holds(b, b.right - 1);
    }
  }

  /**
   * What one wall of a sector drawn in `window` queues: a portal whose drawn
   * columns meet the window queues the sector behind it with the overlap; a
   * solid wall, or a portal with no such column, queues nothing.
   */
  function PushOf(wall: ProjectedWall, window: Interval): seq<(int, Interval)>
  {
    if wall.nextSector == -1 then []
    else
      var clip := Intersect(DrawnInterval(wall.geometry, window), window);
      if IsEmpty(clip) then [] else [(wall.nextSector as int, clip)]
  }

  /** What `render_sector` queues for a sector's walls drawn in `window`, in wall order. */
  function Pushes(walls: seq<ProjectedWall>, window: Interval): (ps: seq<(int, Interval)>)
    ensures |ps| <= |walls|
  {
    if walls == [] then [] else Pushes(walls[..|walls| - 1], window) + PushOf(walls[|walls| - 1], window)
  }

  /** The walls before w + 1 queue what the walls before w queue, then what wall w queues. */
  lemma PushesSnoc(walls: seq<ProjectedWall>, window: Interval, w: nat)
    requires w < |walls|
    ensures Pushes(walls[..w + 1], window) == Pushes(walls[..w], window) + PushOf(walls[w], window)
  {
    assert walls[..w + 1][..w] == walls[..w];
  }

  /**
   * A wall queues an entry exactly when it is a portal with an on-wall
   * column before the window's right end; the entry names the portal's
   * sector and holds exactly those columns. The window's right end itself,
   * which `contains` accepts and the portal draws, is never queued:
   * `intersect` treats the window as half-open.
   */
  lemma PushOfColumns(wall: ProjectedWall, window: Interval)
    ensures PushOf(wall, window) != [] <==>
      wall.nextSector != -1 && exists p :: OnWall(wall.geometry, window, p) && p < window.right
    ensures PushOf(wall, window) != [] ==>
      && PushOf(wall, window) == [(wall.nextSector as int, PushOf(wall, window)[0].1)]
      && forall p :: Holds(PushOf(wall, window)[0].1, p) <==> OnWall(wall.geometry, window, p) && p < window.right
  {
    var drawn := DrawnInterval(wall.geometry, window);
    var clip := Intersect(drawn, window);
    IntersectIsOverlap(drawn, window);
    assert forall p :: Holds(clip, p) <==> OnWall(wall.geometry, window, p) && p < window.right;
    if wall.nextSector != -1 && !IsEmpty(clip) {
      assert Holds(clip, clip.left);
    }
  }

  /** In a scene whose portals lead to its sectors, every entry a sector queues is a well-formed queue entry. */
  lemma {:induction false} PushesAreEntries(scene: seq<seq<ProjectedWall>>, walls: seq<ProjectedWall>, window: Interval)
    requires SceneLinks(scene)
    requires forall w :: 0 <= w < |walls| ==> walls[w].nextSector == -1 || 0 <= walls[w].nextSector < |scene|
    ensures forall e :: e in Pushes(walls, window) ==> QueueEntry(scene, e)
  {
    if walls != [] {
      var last := walls[|walls| - 1];
      PushesAreEntries(scene, walls[..|walls| - 1], window);
      var drawn := DrawnInterval(last.geometry, window);
      IntersectIsOverlap(drawn, window);
      assert X1(last.geometry) <= WIDTH;
    }
  }

  /** A queue of well-formed entries. */
  predicate QueueOk(scene: seq<seq<ProjectedWall>>, q: seq<(int, Interval)>)
  {
    forall e :: e in q ==> QueueEntry(scene, e)
  }

  /** One pass of `render`'s loop on the queue: the back entry is popped and its sector's walls queue theirs. */
  function PopPush(scene: seq<seq<ProjectedWall>>, q: seq<(int, Interval)>): (q': seq<(int, Interval)>)
    requires SceneLinks(scene) && QueueOk(scene, q) && q != []
    ensures QueueOk(scene, q')
  {
    var (sector, window) := q[|q| - 1];
    assert QueueEntry(scene, q[|q| - 1]);
    PushesAreEntries(scene, scene[sector], window);
    q[..|q| - 1] + Pushes(scene[sector], window)
  }

  /** The queue after k passes of `render`'s loop from q (passes stop once it runs dry). */
  function QueueAfter(scene: seq<seq<ProjectedWall>>, q: seq<(int, Interval)>, k: nat): (q': seq<(int, Interval)>)
    requires SceneLinks(scene) && QueueOk(scene, q)
    ensures QueueOk(scene, q')
    decreases k
  {
    if k == 0 || q == [] then q else QueueAfter(scene, PopPush(scene, q), k - 1)
  }

  /** `trace` lists the entries popped by the first passes from q: entry i is the back of the queue after i passes. */
  ghost predicate Popped(scene: seq<seq<ProjectedWall>>, q: seq<(int, Interval)>, trace: seq<(int, Interval)>)
    requires SceneLinks(scene) && QueueOk(scene, q)
  {
    forall i :: 0 <= i < |trace| ==>
      var qi := QueueAfter(scene, q, i);
      qi != [] && trace[i] == qi[|qi| - 1]
  }

  /** Popping the back of the queue after the passes of `trace` extends it by one pass. */
  lemma PoppedStep(scene: seq<seq<ProjectedWall>>, q: seq<(int, Interval)>, trace: seq<(int, Interval)>, e: (int, Interval))
    requires SceneLinks(scene) && QueueOk(scene, q) && Popped(scene, q, trace)
    requires var qk := QueueAfter(scene, q, |trace|); qk != [] && e == qk[|qk| - 1]
    ensures Popped(scene, q, trace + [e])
  {
    var t := trace + [e];
    forall i | 0 <= i < |t|
      ensures var qi := QueueAfter(scene, q, i); qi != [] && t[i] == qi[|qi| - 1]
    {
      if i < |trace| {
        assert t[i] == trace[i];
      }
    }
  }

  /** Pass k + 1 of `render`'s loop works on the queue pass k left. */
  lemma {:induction false} QueueAfterStep(scene: seq<seq<ProjectedWall>>, q: seq<(int, Interval)>, k: nat)
    requires SceneLinks(scene) && QueueOk(scene, q) && QueueAfter(scene, q, k) != []
    ensures QueueAfter(scene, q, k + 1) == PopPush(scene, QueueAfter(scene, q, k))
    decreases k
  {
    if k > 0 {
      QueueAfterStep(scene, PopPush(scene, q), k - 1);
    }
  }

  /** `Renderer`: the pixel coverage and the queue of (sector, window) still to draw. */
  class Renderer {
    const coverage: Coverage
    var queue: seq<(int, Interval)>

    ghost predicate Valid()
      reads this, coverage, coverage.columns
    {
      coverage.Valid() && coverage.width == WIDTH && coverage.height == HEIGHT as i32
    }

    /** `Renderer::new`: full-frame coverage and an empty queue. */
    constructor ()
      ensures Valid() && fresh(coverage) && fresh(coverage.columns) && queue == []
      ensures coverage.empty == 0
    {
      coverage := new Coverage(WIDTH, HEIGHT as i32);
      queue := [];
    }

    /**
     * `render_line`: paints the vertical segment, but only on the rows the
     * column's coverage still holds; every other pixel stays as it was.
     */
    method RenderLine(seg: Segment, color: u32, frame: array2<u32>)
      requires Valid() && IsFrame(frame)
      requires seg.p0.x == seg.p1.x && 0 <= seg.p0.x < WIDTH
      requires I32_MIN <= seg.p0.y && seg.p1.y <= I32_MAX
      modifies frame
      ensures forall j, i :: 0 <= j < HEIGHT && 0 <= i < WIDTH ==>
        frame[j, i] ==
          if i == seg.p0.x && Holds(coverage.columns[i], j) && seg.p0.y <= j < seg.p1.y
          then color else old(frame[j, i])
    {
      var x := seg.p0.x;
      var iv := Intersect(coverage.Column(x), Span(seg.p0.y, seg.p1.y));
      IntersectInColumn(coverage.columns[x], Span(seg.p0.y, seg.p1.y), HEIGHT);
      forall j | 0 <= j < HEIGHT
        ensures Holds(iv, j) <==> Holds(coverage.columns[x], j) && seg.p0.y <= j < seg.p1.y
      {
        IntersectHolds(coverage.columns[x], Span(seg.p0.y, seg.p1.y), j);
      }
      if !IsEmpty(iv) {
        var y := iv.left;
        while y < iv.right
          invariant iv.left <= y <= iv.right
          invariant forall j, i :: 0 <= j < HEIGHT && 0 <= i < WIDTH ==>
            frame[j, i] == if i == x && iv.left <= j < y then color else old(frame[j, i])
        {
          frame[y, x] := color;
          y := y + 1;
        }
      }
      assert forall j, i :: 0 <= j < HEIGHT && 0 <= i < WIDTH ==>
        frame[j, i] == if i == x && Holds(iv, j) then color else old(frame[j, i]);
    }

    /** The five lines of one solid-wall column: wall, its two black ends, ceiling, floor. */
    method DrawSolidColumn(l: Line, frame: array2<u32>)
      requires Valid() && IsFrame(frame) && GoodLine(l) && 0 <= LineX(l) < WIDTH
      modifies frame
      ensures forall j, i :: 0 <= j < HEIGHT && 0 <= i < WIDTH ==>
        frame[j, i] ==
          if i == LineX(l) && Holds(coverage.columns[i], j) then SolidPixel(l, j) else old(frame[j, i])
    {
      var wall := l.wall;
      var color := if l.i == 0 then BLACK_COLOR else WALL_COLOR;
      RenderLine(wall, color, frame);
      RenderLine(Segment(Point(wall.p1.x, wall.p1.y - 1), wall.p1), BLACK_COLOR, frame);
      RenderLine(Segment(wall.p0, Point(wall.p0.x, wall.p0.y + 1)), BLACK_COLOR, frame);
      RenderLine(Segment(Point(wall.p0.x, 0), wall.p0), CEILING_COLOR, frame);
      RenderLine(Segment(wall.p1, Point(wall.p1.x, HEIGHT)), FLOOR_COLOR, frame);
    }

    /**
     * The lines of one portal column: the portal's two black ends, the upper
     * and lower frames it has, ceiling and floor, in that order; rows inside
     * the portal keep what they showed.
     */
    method DrawPortalColumn(l: Line, hasTop: bool, hasBottom: bool, frame: array2<u32>)
      requires Valid() && IsFrame(frame) && GoodLine(l) && 0 <= LineX(l) < WIDTH
      modifies frame
      ensures forall j, i :: 0 <= j < HEIGHT && 0 <= i < WIDTH ==>
        frame[j, i] ==
          if i == LineX(l) && Holds(coverage.columns[i], j)
          then PortalPixel(l, hasTop, hasBottom, j, old(frame[j, i])) else old(frame[j, i])
    {
      var wall := l.wall;
      var portal := l.portal;
      RenderLine(Segment(Point(portal.p1.x, portal.p1.y - 1), portal.p1), BLACK_COLOR, frame);
      RenderLine(Segment(portal.p0, Point(portal.p0.x, portal.p0.y + 1)), BLACK_COLOR, frame);
      if hasTop || hasBottom {
        if hasTop {
          var color := if l.i == 0 then BLACK_COLOR else WALL_COLOR;
          RenderLine(Segment(wall.p0, portal.p0), color, frame);
          RenderLine(Segment(wall.p0, Point(wall.p0.x, wall.p0.y + 1)), BLACK_COLOR, frame);
        }
        if hasBottom {
          var color := if l.i == 0 then BLACK_COLOR else PORTAL_FRAME_COLOR;
          RenderLine(Segment(portal.p1, wall.p1), color, frame);
          RenderLine(Segment(Point(wall.p1.x, wall.p1.y - 1), wall.p1), BLACK_COLOR, frame);
        }
      }
      RenderLine(Segment(Point(wall.p0.x, 0), wall.p0), CEILING_COLOR, frame);
      RenderLine(Segment(wall.p1, Point(wall.p1.x, HEIGHT)), FLOOR_COLOR, frame);
    }

    /**
     * The drawing half of one pass of the loop of `render_solid_wall`
     * (`solid`) or `render_portal_wall`: item k's column is painted.
     */
    method DrawStep(g: Geometry, window: Interval, k: nat, solid: bool,
                    ghost cols: seq<Interval>, ghost under: seq<seq<u32>>, frame: array2<u32>)
      requires Valid() && IsFrame(frame) && k < |WallLines(g, window)| && |cols| == WIDTH && IsGrid(under)
      requires ColumnsAre(coverage.columns, CutColumns(g, window, cols, Bound(WallLines(g, window), k, X1(g)), solid))
      requires WallDrawn(frame, g, window, cols, under, Bound(WallLines(g, window), k, X1(g)), solid)
      modifies frame
      ensures WallDrawn(frame, g, window, cols, under, Bound(WallLines(g, window), k + 1, X1(g)), solid)
    {
      var ls := WallLines(g, window);
      var l := ls[k];
      var x := LineX(l);
      WallLineAt(g, window, k);
      BoundStep(g, window, k);
      CutColumnsStep(g, window, cols, k, solid);
      assert coverage.columns[x] == cols[x];
      if solid {
        DrawSolidColumn(l, frame);
      } else {
        DrawPortalColumn(l, HasTop(g), HasBottom(g), frame);
      }
      forall j, i | 0 <= j < HEIGHT && 0 <= i < WIDTH
        ensures frame[j, i] ==
          if OnWall(g, window, i) && i < Bound(ls, k + 1, X1(g)) && Holds(cols[i], j)
          then WallPixel(g, i, j, under[j][i], solid) else under[j][i]
      {
        if i != x {
          assert frame[j, i] == old(frame[j, i]);
        }
      }
    }

    /**
     * The coverage half of one pass: item k's column is used up
     * (`coverage.intersect(x, EMPTY)`) or cut to the rows strictly inside
     * the portal.
     */
    method CutStep(g: Geometry, window: Interval, k: nat, solid: bool, ghost cols: seq<Interval>)
      requires Valid() && k < |WallLines(g, window)| && |cols| == WIDTH
      requires ColumnsAre(coverage.columns, CutColumns(g, window, cols, Bound(WallLines(g, window), k, X1(g)), solid))
      modifies coverage, coverage.columns
      ensures Valid()
      ensures ColumnsAre(coverage.columns, CutColumns(g, window, cols, Bound(WallLines(g, window), k + 1, X1(g)), solid))
    {
      var ls := WallLines(g, window);
      var l := ls[k];
      var x := LineX(l);
      CutColumnsStep(g, window, cols, k, solid);
      CutByItem(g, window, cols[x], k, solid);
      ghost var before := CutColumns(g, window, cols, Bound(ls, k, X1(g)), solid);
      assert coverage.columns[..] == before;
      var iv := CutBy(l, solid);
      var _ := coverage.IntersectColumn(x, iv);
    }

    /** One pass of the loop of `render_solid_wall` (`solid`) or `render_portal_wall`: item k is painted, then cut. */
    method WallStep(g: Geometry, window: Interval, k: nat, solid: bool,
                    ghost cols: seq<Interval>, ghost under: seq<seq<u32>>, frame: array2<u32>)
      requires Valid() && IsFrame(frame) && k < |WallLines(g, window)| && |cols| == WIDTH && IsGrid(under)
      requires ColumnsAre(coverage.columns, CutColumns(g, window, cols, Bound(WallLines(g, window), k, X1(g)), solid))
      requires WallDrawn(frame, g, window, cols, under, Bound(WallLines(g, window), k, X1(g)), solid)
      modifies frame, coverage, coverage.columns
      ensures Valid()
      ensures ColumnsAre(coverage.columns, CutColumns(g, window, cols, Bound(WallLines(g, window), k + 1, X1(g)), solid))
      ensures WallDrawn(frame, g, window, cols, under, Bound(WallLines(g, window), k + 1, X1(g)), solid)
    {
      DrawStep(g, window, k, solid, cols, under, frame);
      CutStep(g, window, k, solid, cols);
    }

    /** Once every item is drawn, the cut columns and drawn pixels are those of every on-wall column. */
    lemma WallDone(g: Geometry, window: Interval, solid: bool, cols: seq<Interval>, under: seq<seq<u32>>, frame: array2<u32>)
      requires IsFrame(frame) && |cols| == WIDTH && IsGrid(under)
      requires WallDrawn(frame, g, window, cols, under, Bound(WallLines(g, window), |WallLines(g, window)|, X1(g)), solid)
      ensures forall i :: 0 <= i < WIDTH ==>
        CutColumns(g, window, cols, Bound(WallLines(g, window), |WallLines(g, window)|, X1(g)), solid)[i] ==
          if OnWall(g, window, i) then CutColumn(g, i, cols[i], solid) else cols[i]
      ensures forall j, i :: 0 <= j < HEIGHT && 0 <= i < WIDTH ==>
        frame[j, i] ==
          if OnWall(g, window, i) && Holds(cols[i], j) then WallPixel(g, i, j, under[j][i], solid) else under[j][i]
    {
    }

    /**
     * `render_solid_wall`: every on-wall column is painted on the rows its
     * coverage still held, then its coverage is used up; no other pixel and
     * no other column changes.
     */
    method RenderSolidWall(g: Geometry, window: Interval, frame: array2<u32>)
      requires Valid() && IsFrame(frame)
      modifies frame, coverage, coverage.columns
      ensures Valid()
      ensures forall i :: 0 <= i < WIDTH ==>
        coverage.columns[i] ==
          if OnWall(g, window, i) then UsedUp(old(coverage.columns[i])) else old(coverage.columns[i])
      ensures forall j, i :: 0 <= j < HEIGHT && 0 <= i < WIDTH ==>
        frame[j, i] ==
          if OnWall(g, window, i) && Holds(old(coverage.columns[i]), j)
          then SolidPixel(ColumnLine(g, i), j) else old(frame[j, i])
    {
      var ls := WallLines(g, window);
      WallLinesStart(g, window);
      ghost var cols := coverage.columns[..];
      ghost var under := Pixels(frame);
      for k := 0 to |ls|
        invariant Valid()
        invariant ColumnsAre(coverage.columns, CutColumns(g, window, cols, Bound(ls, k, X1(g)), true))
        invariant WallDrawn(frame, g, window, cols, under, Bound(ls, k, X1(g)), true)
      {
        WallStep(g, window, k, true, cols, under, frame);
      }
      WallDone(g, window, true, cols, under, frame);
    }

    /**
     * One pass of the loop of `render_portal_wall`: item k is painted and
     * cut, and its column joins the span drawn so far.
     */
    method PortalStep(g: Geometry, window: Interval, k: nat, pl: int, pr: int,
                      ghost cols: seq<Interval>, ghost under: seq<seq<u32>>, frame: array2<u32>)
      returns (pl': int, pr': int)
      requires Valid() && IsFrame(frame) && k < |WallLines(g, window)| && |cols| == WIDTH && IsGrid(under)
      requires Spanned(WallLines(g, window), k, pl, pr)
      requires ColumnsAre(coverage.columns, CutColumns(g, window, cols, Bound(WallLines(g, window), k, X1(g)), false))
      requires WallDrawn(frame, g, window, cols, under, Bound(WallLines(g, window), k, X1(g)), false)
      modifies frame, coverage, coverage.columns
      ensures Valid()
      ensures Spanned(WallLines(g, window), k + 1, pl', pr')
      ensures ColumnsAre(coverage.columns, CutColumns(g, window, cols, Bound(WallLines(g, window), k + 1, X1(g)), false))
      ensures WallDrawn(frame, g, window, cols, under, Bound(WallLines(g, window), k + 1, X1(g)), false)
    {
      var x := LineX(WallLines(g, window)[k]);
      SpannedStep(g, window, k, pl, pr);
      WallStep(g, window, k, false, cols, under, frame);
      pl', pr' := Min(pl, x), Max(pr, x + 1);
    }

    /** Once every item of a portal wall is drawn, each on-wall column is cut to the portal and painted as one. */
    lemma PortalDone(g: Geometry, window: Interval, cols: seq<Interval>, under: seq<seq<u32>>, frame: array2<u32>)
      requires Valid() && IsFrame(frame) && |cols| == WIDTH && IsGrid(under)
      requires ColumnsAre(coverage.columns, CutColumns(g, window, cols, Bound(WallLines(g, window), |WallLines(g, window)|, X1(g)), false))
      requires WallDrawn(frame, g, window, cols, under, Bound(WallLines(g, window), |WallLines(g, window)|, X1(g)), false)
      ensures forall i :: 0 <= i < WIDTH ==>
        coverage.columns[i] == if OnWall(g, window, i) then PortalCut(cols[i], ColumnLine(g, i)) else cols[i]
      ensures forall j, i :: 0 <= j < HEIGHT && 0 <= i < WIDTH ==>
        frame[j, i] ==
          if OnWall(g, window, i) && Holds(cols[i], j)
          then PortalPixel(ColumnLine(g, i), HasTop(g), HasBottom(g), j, under[j][i]) else under[j][i]
    {
      WallDone(g, window, false, cols, under, frame);
    }

    /**
     * `render_portal_wall`: every on-wall column is painted (the upper frame
     * only when the neighbour's ceiling is lower, the lower frame only when
     * its floor is higher) on the rows its coverage still held, and its
     * coverage is cut to the rows strictly inside the portal; the result is
     * the range of columns drawn, `[first, last + 1)`, or `EMPTY` when none was.
     */
    method RenderPortalWall(g: Geometry, window: Interval, frame: array2<u32>) returns (r: Interval)
      requires Valid() && IsFrame(frame)
      modifies frame, coverage, coverage.columns
      ensures Valid()
      ensures forall p :: Holds(r, p) <==> OnWall(g, window, p)
      ensures r == EMPTY || !IsEmpty(r)
      ensures forall i :: 0 <= i < WIDTH ==>
        coverage.columns[i] ==
          if OnWall(g, window, i) then PortalCut(old(coverage.columns[i]), ColumnLine(g, i))
          else old(coverage.columns[i])
      ensures forall j, i :: 0 <= j < HEIGHT && 0 <= i < WIDTH ==>
        frame[j, i] ==
          if OnWall(g, window, i) && Holds(old(coverage.columns[i]), j)
          then PortalPixel(ColumnLine(g, i), HasTop(g), HasBottom(g), j, old(frame[j, i])) else old(frame[j, i])
    {
      var ls := WallLines(g, window);
      WallLinesStart(g, window);
      var drawn := false;
      var pl: int, pr: int := WIDTH, 0;
      ghost var cols := coverage.columns[..];
      ghost var under := Pixels(frame);
      for k := 0 to |ls|
        invariant Valid()
        invariant drawn == (k > 0)
        invariant Spanned(ls, k, pl, pr)
        invariant ColumnsAre(coverage.columns, CutColumns(g, window, cols, Bound(ls, k, X1(g)), false))
        invariant WallDrawn(frame, g, window, cols, under, Bound(ls, k, X1(g)), false)
      {
        pl, pr := PortalStep(g, window, k, pl, pr, cols, under, frame);
        drawn := true;
      }
      PortalDone(g, window, cols, under, frame);
      DrawnSpan(g, window, pl, pr);
      if drawn {
        r := Span(pl, pr);
      } else {
        r := EMPTY;
      }
    }


    /**
     * One pass of the loop of `render`: the walls of `sector` are drawn in
     * order, solid or as portals, and every portal whose drawn columns meet
     * the window queues the sector behind it with that overlap, in wall
     * order at the back of the queue.
     */
    method RenderSector(scene: seq<seq<ProjectedWall>>, sector: int, window: Interval, frame: array2<u32>)
      requires Valid() && IsFrame(frame)
      requires SceneLinks(scene) && QueueEntry(scene, (sector, window))
      modifies this, frame, coverage, coverage.columns
      ensures Valid()
      ensures queue == old(queue) + Pushes(scene[sector], window)
    {
      var walls := scene[sector];
      for w := 0 to |walls|
        invariant Valid()
        invariant queue == old(queue) + Pushes(walls[..w], window)
      {
        PushesSnoc(walls, window, w);
        RenderWall(walls[w], window, frame);
      }
      assert walls[..|walls|] == walls;
    }

    /** One wall of `render_sector`'s loop: drawn solid or as a portal, queueing what `PushOf` says. */
    method RenderWall(wall: ProjectedWall, window: Interval, frame: array2<u32>)
      requires Valid() && IsFrame(frame)
      modifies this, frame, coverage, coverage.columns
      ensures Valid()
      ensures queue == old(queue) + PushOf(wall, window)
    {
      if wall.nextSector == -1 {
        RenderSolidWall(wall.geometry, window, frame);
      } else {
        var drawn := RenderPortalWall(wall.geometry, window, frame);
        SameHolds(drawn, DrawnInterval(wall.geometry, window));
        var clip := Intersect(drawn, window);
        if !IsEmpty(clip) {
          queue := queue + [(wall.nextSector as int, clip)];
        }
      }
    }

    /** One pass of `render`'s loop: the back entry is popped and its sector drawn, leaving `PopPush`'s queue. */
    method Pass(scene: seq<seq<ProjectedWall>>, frame: array2<u32>) returns (popped: (int, Interval))
      requires Valid() && IsFrame(frame)
      requires SceneLinks(scene) && QueueOk(scene, queue) && queue != []
      modifies this, frame, coverage, coverage.columns
      ensures Valid()
      ensures popped == old(queue)[|old(queue)| - 1]
      ensures queue == PopPush(scene, old(queue))
    {
      var (sector, window) := queue[|queue| - 1];
      popped := (sector, window);
      assert QueueEntry(scene, popped);
      queue := queue[..|queue| - 1];
      RenderSector(scene, sector, window, frame);
    }

    /**
     * `render`: the coverage is reset, the player's sector is queued with
     * the whole frame width, and entries are popped from the back of the
     * queue, each popped sector being drawn by `render_sector`. The
     * traversal stops when the queue runs dry or the coverage is full;
     * `fuel` bounds the number of passes. After `steps` passes the queue is
     * the one the pop-and-queue schedule gives from the seed, and `trace`
     * lists the entries popped, each the back of the queue at its pass.
     */
    method Render(scene: seq<seq<ProjectedWall>>, playerSector: int, frame: array2<u32>, fuel: nat)
      returns (steps: nat, ghost trace: seq<(int, Interval)>)
      requires Valid() && IsFrame(frame)
      requires 0 <= playerSector < |scene| && SceneLinks(scene)
      modifies this, frame, coverage, coverage.columns
      ensures Valid() && steps <= fuel && |trace| == steps
      ensures QueueOk(scene, [(playerSector, Span(0, WIDTH))])
      ensures queue == QueueAfter(scene, [(playerSector, Span(0, WIDTH))], steps)
      ensures Popped(scene, [(playerSector, Span(0, WIDTH))], trace)
      ensures steps < fuel ==> queue == [] || coverage.IsFull()
    {
      coverage.Clear();
      var seed := [(playerSector, Span(0, WIDTH))];
      assert QueueEntry(scene, seed[0]);
      queue := seed;
      steps := 0;
      trace := [];
      while queue != [] && steps < fuel
        invariant Valid() && steps <= fuel && |trace| == steps
        invariant queue == QueueAfter(scene, seed, steps)
        invariant Popped(scene, seed, trace)
        decreases fuel - steps
      {
        QueueAfterStep(scene, seed, steps);
        var popped := Pass(scene, frame);
        PoppedStep(scene, seed, trace, popped);
        trace := trace + [popped];
        steps := steps + 1;
        if coverage.IsFull() {
          break;
        }
      }
    }
  }
}
