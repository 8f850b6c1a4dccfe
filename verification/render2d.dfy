/**
 * `render/src/d2.rs`: the 2D map renderer. Its floating-point view, clip
 * and viewport transforms and the embedded-graphics drawing calls are not
 * modelled; what is modelled is the flag dispatch of `render` and the
 * depth-bounded portal traversal of `render_sector`, with the drawing calls
 * recorded, in order, as events of a log.
 *
 * A level is given as, for every sector, the `next_sector` of each wall its
 * walls iterator yields, in iteration order.
 */
module Render2d {
  import opened Ints

  const MAX_SECTOR_RENDER_DEPTH: nat := 32

  /** The `Flags` bits. */
  const PLAYER: bv8 := 0x01
  const AXIS: bv8 := 0x02
  const SECTOR: bv8 := 0x04
  const CLIP: bv8 := 0x08
  const ALL_FLAGS: bv8 := 0x0F

  /** `Flags::contains`: every bit of `f` is set. */
  predicate Has(flags: bv8, f: bv8)
  {
    flags & f == f
  }

  /** The `next_sector` of every wall of every sector, in iteration order. */
  type Level = seq<seq<i16>>

  /** Every portal leads to a sector of the level (`get(..).unwrap()` panics otherwise). */
  predicate LevelLinks(level: Level)
  {
    forall s, w :: 0 <= s < |level| && 0 <= w < |level[s]| ==>
      level[s][w] == -1 || 0 <= level[s][w] < |level|
  }

  /**
   * A drawing call: the axis layer, `render_wall` on wall `wall` of `sector`
   * with the colour and stroke width it strokes with, or the player layer.
   */
  datatype Event = AxisDrawn | WallDrawn(sector: int, wall: nat, style: (Color, nat)) | PlayerDrawn

  /** The colours `render_wall` strokes with. */
  datatype Color = Green | Red

  /**
   * The style of `render_wall`: green for a solid wall, red for a portal;
   * a stroke of 3 for the player's sector and 1 for any other.
   */
  function WallStyle(playerSector: int, sector: int, nextSector: i16): (style: (Color, nat))
    ensures style.0 == Green <==> nextSector == -1
    ensures style.1 == 3 <==> playerSector == sector
    ensures style.1 == 1 <==> playerSector != sector
  {
    (if nextSector == -1 then Green else Red, if playerSector == sector then 3 else 1)
  }

  /** Wall `w` of sector p is a portal into sector s. */
  ghost predicate PortalTo(level: Level, p: int, s: int)
  {
    0 <= p < |level| && exists w :: 0 <= w < |level[p]| && level[p][w] as int == s
  }

  /** Sector s is reached from `root` through exactly d portals. */
  ghost predicate Reaches(level: Level, root: int, s: int, d: nat)
    decreases d
  {
    if d == 0 then s == root
    else exists p :: PortalTo(level, p, s) && Reaches(level, root, p, d - 1)
  }

  /**
   * The invariant of `visited_depth`: it holds sectors of the level, each
   * depth is below the bound, `root` has depth 0, and every other sector was
   * entered through a portal of a sector one level shallower.
   */
  ghost predicate Visited(level: Level, root: int, depth: map<int, nat>)
  {
    && (forall s :: s in depth ==> 0 <= s < |level| && depth[s] < MAX_SECTOR_RENDER_DEPTH)
    && root in depth && depth[root] == 0
    && (forall s {:trigger Entered(depth, s)} :: Entered(depth, s) && s != root ==> HasParent(level, depth, s))
  }

  /**
   * Sector s has been visited. Kept apart from `s in depth` so that the
   * parent found for one sector does not in turn ask for its own parent.
   */
  predicate Entered(depth: map<int, nat>, s: int)
  {
    s in depth
  }

  /** Some visited sector one level shallower than s has a portal into s. */
  ghost predicate HasParent(level: Level, depth: map<int, nat>, s: int)
    requires s in depth
  {
    exists p :: p in depth && depth[p] + 1 == depth[s] && PortalTo(level, p, s)
  }

  /** `depth` keeps every entry of `before` as it was. */
  ghost predicate Extends(before: map<int, nat>, depth: map<int, nat>)
  {
    forall s :: s in before ==> s in depth && depth[s] == before[s]
  }

  /** The walls of sector s drawn in `log`, in order. */
  function OwnDraws(log: seq<Event>, s: int): (ws: seq<nat>)
    ensures |ws| <= |log|
  {
    if log == [] then []
    else (if log[0].WallDrawn? && log[0].sector == s then [log[0].wall] else []) + OwnDraws(log[1..], s)
  }

  /** `0, 1, …, n - 1`. */
  function Range(n: nat): (r: seq<nat>)
    ensures |r| == n && forall i :: 0 <= i < n ==> r[i] == i
  {
    seq(n, i requires 0 <= i => i)
  }

  lemma {:induction false} OwnDrawsAppend(a: seq<Event>, b: seq<Event>, s: int)
    ensures OwnDraws(a + b, s) == OwnDraws(a, s) + OwnDraws(b, s)
  {
    if a == [] {
      assert a + b == b;
    } else {
      assert (a + b)[1..] == a[1..] + b;
      OwnDrawsAppend(a[1..], b, s);
    }
  }

  lemma {:induction false} OwnDrawsNone(log: seq<Event>, s: int)
    requires forall e :: e in log ==> e.WallDrawn? && e.sector != s
    ensures OwnDraws(log, s) == []
  {
    if log != [] {
      assert log[0] in log;
      OwnDrawsNone(log[1..], s);
    }
  }

  /** Depth is distance: every visited sector is reached from the root through exactly its depth in portals. */
  lemma {:induction false} DepthIsPortalCount(level: Level, root: int, depth: map<int, nat>, s: int)
    requires Visited(level, root, depth) && s in depth
    ensures Reaches(level, root, s, depth[s])
    decreases depth[s]
  {
    if s != root {
      assert Entered(depth, s);
      var p :| p in depth && depth[p] + 1 == depth[s] && PortalTo(level, p, s);
      DepthIsPortalCount(level, root, depth, p);
    }
  }

  /** Only the root has depth 0. */
  lemma OnlyRootAtDepthZero(level: Level, root: int, depth: map<int, nat>, s: int)
    requires Visited(level, root, depth) && s in depth && depth[s] == 0
    ensures s == root
  {
    assert Entered(depth, s);
  }

  /** Adding a child entered through a portal of a visited sector keeps the invariant. */
  lemma VisitChild(level: Level, root: int, depth: map<int, nat>, parent: int, w: nat)
    requires Visited(level, root, depth) && parent in depth && w < |level[parent]|
    requires LevelLinks(level)
    requires level[parent][w] != -1 && level[parent][w] as int !in depth
    requires depth[parent] + 1 < MAX_SECTOR_RENDER_DEPTH
    ensures var child := level[parent][w] as int;
      Visited(level, root, depth[child := depth[parent] + 1])
  {
    var child := level[parent][w] as int;
    var d := depth[child := depth[parent] + 1];
    assert PortalTo(level, parent, child);
    forall s | s in d && s != root
      ensures HasParent(level, d, s)
    {
      if s != child {
        assert Entered(depth, s);
        var p :| p in depth && depth[p] + 1 == depth[s] && PortalTo(level, p, s);
        assert p in d && d[p] + 1 == d[s];
      } else {
        assert parent in d && d[parent] + 1 == d[s];
      }
    }
  }

  /**
   * Sector s is visited, and each of its walls before w that is a portal,
   * when the depth bound still allows a child of s, leads to a visited
   * sector.
   */
  ghost predicate Followed(level: Level, depth: map<int, nat>, s: int, w: nat)
  {
    && s in depth && 0 <= s < |level|
    && forall v :: 0 <= v < w && v < |level[s]| && level[s][v] != -1 && depth[s] + 1 < MAX_SECTOR_RENDER_DEPTH ==>
         level[s][v] as int in depth
  }

  /** Every portal of sector s below the depth bound leads to a visited sector. */
  ghost predicate PortalsFollowed(level: Level, depth: map<int, nat>, s: int)
  {
    0 <= s < |level| && Followed(level, depth, s, |level[s]|)
  }

  /** In `log`, wall v of `sector` is drawn once the n walls of sector c have all been drawn. */
  ghost predicate DrawnAfter(log: seq<Event>, sector: int, v: nat, c: int, n: nat)
  {
    exists k :: 0 <= k < |log| && log[k].WallDrawn? && log[k].sector == sector && log[k].wall == v
      && OwnDraws(log[..k], c) == Range(n)
  }

  /**
   * When wall v of `sector` is a portal into a sector first visited since
   * `before`, that neighbour is drawn in full before the portal wall is.
   */
  ghost predicate NeighbourFirst(level: Level, sector: int, v: nat, before: map<int, nat>, depth: map<int, nat>, log: seq<Event>)
  {
    0 <= sector < |level| && v < |level[sector]| && LevelLinks(level) ==>
      var c := level[sector][v] as int;
      c != -1 && c in depth && c !in before ==> DrawnAfter(log, sector, v, c, |level[c]|)
  }

  /** A wall event of a wall of the level, carrying the style `render_wall` gives that wall. */
  ghost predicate Styled(level: Level, playerSector: int, e: Event)
  {
    && e.WallDrawn? && 0 <= e.sector < |level| && e.wall < |level[e.sector]|
    && e.style == WallStyle(playerSector, e.sector, level[e.sector][e.wall])
  }

  /**
   * What the events since a `render_sector` call began promise once the
   * walls of `sector` before w are done: every event is a styled wall of
   * `sector` or of a sector visited since `before`; the first w walls of
   * `sector` are drawn in order, their portals followed, and each drawn
   * after the neighbour it first led into; every sector visited since
   * `before` is drawn in full with its portals followed.
   */
  ghost predicate Progress(level: Level, playerSector: int, sector: int, before: map<int, nat>, depth: map<int, nat>,
                           log: seq<Event>, w: nat)
  {
    && (forall e :: e in log ==>
          e.WallDrawn? && Styled(level, playerSector, e) && e.sector in depth && (e.sector == sector || e.sector !in before))
    && OwnDraws(log, sector) == Range(w)
    && Followed(level, depth, sector, w)
    && (forall v :: 0 <= v < w ==> NeighbourFirst(level, sector, v, before, depth, log))
    && (forall s :: s in depth && s !in before ==> PortalsFollowed(level, depth, s) && OwnDraws(log, s) == Range(|level[s]|))
  }

  /**
   * What the sector layer of `render` leaves: every visited sector is
   * reachable at its depth; every drawn event is a styled wall of a visited
   * sector; every visited sector has each wall drawn exactly once, in
   * order, and each portal below the depth bound followed; and a portal of
   * the player's sector into another sector is drawn after that sector.
   */
  ghost predicate SectorLayer(level: Level, playerSector: int, depth: map<int, nat>, drawn: seq<Event>)
    requires LevelLinks(level) && 0 <= playerSector < |level|
  {
    && Visited(level, playerSector, depth)
    && (forall e :: e in drawn ==> e.WallDrawn? && Styled(level, playerSector, e) && e.sector in depth)
    && (forall s :: s in depth ==> PortalsFollowed(level, depth, s))
    && (forall s :: s in depth ==> OwnDraws(drawn, s) == Range(|level[s]|))
    && (forall w :: 0 <= w < |level[playerSector]| ==>
          NeighbourFirst(level, playerSector, w, map[playerSector := 0], depth, drawn))
  }

  /** Appending to the log keeps a wall drawn after a neighbour. */
  lemma DrawnAfterKept(log: seq<Event>, more: seq<Event>, sector: int, v: nat, c: int, n: nat)
    requires DrawnAfter(log, sector, v, c, n)
    ensures DrawnAfter(log + more, sector, v, c, n)
  {
    var k :| 0 <= k < |log| && log[k].WallDrawn? && log[k].sector == sector && log[k].wall == v
      && OwnDraws(log[..k], c) == Range(n);
    assert (log + more)[..k] == log[..k];
    assert (log + more)[k] == log[k];
  }

  /** Drawing wall w of `sector`, its portal followed, moves the progress on by one wall. */
  lemma DrawWallStep(level: Level, playerSector: int, sector: int, before: map<int, nat>, depth: map<int, nat>,
                     log: seq<Event>, w: nat)
    requires LevelLinks(level) && 0 <= sector < |level| && w < |level[sector]|
    requires sector in before && Extends(before, depth)
    requires Progress(level, playerSector, sector, before, depth, log, w)
    requires level[sector][w] != -1 && depth[sector] + 1 < MAX_SECTOR_RENDER_DEPTH ==> level[sector][w] as int in depth
    ensures Progress(level, playerSector, sector, before, depth,
                     log + [WallDrawn(sector, w, WallStyle(playerSector, sector, level[sector][w]))], w + 1)
  {
    var e := WallDrawn(sector, w, WallStyle(playerSector, sector, level[sector][w]));
    var log' := log + [e];
    assert OwnDraws([e], sector) == [w];
    OwnDrawsAppend(log, [e], sector);
    assert Range(w) + [w] == Range(w + 1);
    forall s | s in depth && s !in before
      ensures OwnDraws(log', s) == Range(|level[s]|)
    {
      OwnDrawsAppend(log, [e], s);
      assert OwnDraws([e], s) == [];
    }
    forall v | 0 <= v < w + 1
      ensures NeighbourFirst(level, sector, v, before, depth, log')
    {
      var c := level[sector][v] as int;
      if c != -1 && c in depth && c !in before {
        if v < w {
          assert NeighbourFirst(level, sector, v, before, depth, log);
          DrawnAfterKept(log, [e], sector, v, c, |level[c]|);
        } else {
          assert log'[|log|] == e && log'[..|log|] == log;
        }
      }
    }
  }

  /**
   * Traversing a child entered from `sector` (drawing `sub`, and only
   * sectors newly visited, each in full) keeps the progress of `sector`
   * where it was.
   */
  lemma ChildDrawn(level: Level, playerSector: int, sector: int, before: map<int, nat>, depth0: map<int, nat>,
                   depth: map<int, nat>, prefix: seq<Event>, sub: seq<Event>, w: nat)
    requires LevelLinks(level) && 0 <= sector < |level| && w < |level[sector]|
    requires sector in before && Extends(before, depth0) && Extends(depth0, depth)
    requires depth0[sector] + 1 < MAX_SECTOR_RENDER_DEPTH
    requires Progress(level, playerSector, sector, before, depth0, prefix, w)
    requires forall e :: e in sub ==> e.WallDrawn? && Styled(level, playerSector, e) && e.sector in depth && e.sector !in depth0
    requires forall s :: s in depth && s !in depth0 ==> PortalsFollowed(level, depth, s) && OwnDraws(sub, s) == Range(|level[s]|)
    ensures Progress(level, playerSector, sector, before, depth, prefix + sub, w)
  {
    OwnDrawsNone(sub, sector);
    OwnDrawsAppend(prefix, sub, sector);
    forall s | s in depth && s !in before
      ensures PortalsFollowed(level, depth, s) && OwnDraws(prefix + sub, s) == Range(|level[s]|)
    {
      OwnDrawsAppend(prefix, sub, s);
      if s in depth0 {
        OwnDrawsNone(sub, s);
      } else {
        OwnDrawsNone(prefix, s);
      }
    }
    forall v | 0 <= v < w
      ensures NeighbourFirst(level, sector, v, before, depth, prefix + sub)
    {
      var c := level[sector][v] as int;
      if c != -1 && c in depth && c !in before {
        assert c in depth0;
        assert NeighbourFirst(level, sector, v, before, depth0, prefix);
        DrawnAfterKept(prefix, sub, sector, v, c, |level[c]|);
      }
    }
  }

  /** `Renderer`: the flags, the visited depths and the log of drawing calls (standing for the frame). */
  class Renderer {
    var flags: bv8
    var visitedDepth: map<int, nat>
    var events: seq<Event>

    /** `Renderer::new`: every flag set, nothing visited, nothing drawn. */
    constructor ()
      ensures flags == ALL_FLAGS && visitedDepth == map[] && events == []
      ensures Has(flags, PLAYER) && Has(flags, AXIS) && Has(flags, SECTOR) && Has(flags, CLIP)
    {
      flags := ALL_FLAGS;
      visitedDepth := map[];
      events := [];
    }

    /**
     * `render`: the axis layer, then (after clearing `visited_depth` and
     * giving the player's sector depth 0) the sector traversal from the
     * player's sector, then the player layer, each only when its flag is
     * set. With the sector layer: every visited sector has every wall drawn
     * exactly once, in order, with the style of its kind and sector; every
     * portal of a visited sector below the depth bound leads to a visited
     * sector; and a portal of the player's sector into another sector is
     * drawn after that sector is drawn in full.
     */
    method Render(level: Level, playerSector: int) returns (ghost drawn: seq<Event>)
      requires LevelLinks(level)
      requires Has(flags, SECTOR) ==> 0 <= playerSector < |level|
      modifies this
      ensures flags == old(flags)
      ensures events == old(events) + (if Has(flags, AXIS) then [AxisDrawn] else []) + drawn
                        + (if Has(flags, PLAYER) then [PlayerDrawn] else [])
      ensures Has(flags, SECTOR) ==> SectorLayer(level, playerSector, visitedDepth, drawn)
      ensures !Has(flags, SECTOR) ==> drawn == [] && visitedDepth == old(visitedDepth)
    {
      ghost var axis := if Has(flags, AXIS) then [AxisDrawn] else [];
      ghost var player := if Has(flags, PLAYER) then [PlayerDrawn] else [];
      if Has(flags, AXIS) {
        events := events + [AxisDrawn];
      }
      assert events == old(events) + axis;
      drawn := [];
      if Has(flags, SECTOR) {
        drawn := RenderSectors(level, playerSector);
      }
      assert events == old(events) + axis + drawn;
      if Has(flags, PLAYER) {
        events := events + [PlayerDrawn];
      }
      assert events == old(events) + axis + drawn + player;
    }

    /** The sector layer of `render`: `visited_depth` restarts from the player's sector, which is traversed. */
    method RenderSectors(level: Level, playerSector: int) returns (ghost drawn: seq<Event>)
      requires LevelLinks(level) && 0 <= playerSector < |level|
      modifies this
      ensures flags == old(flags)
      ensures events == old(events) + drawn
      ensures SectorLayer(level, playerSector, visitedDepth, drawn)
    {
      visitedDepth := map[playerSector := 0];
      assert Visited(level, playerSector, visitedDepth) by {
        assert forall s :: Entered(visitedDepth, s) ==> s == playerSector;
      }
      RenderSector(level, playerSector, playerSector);
      drawn := events[|old(events)|..];
      assert events == old(events) + drawn;
    }

    /**
     * `render_sector`: for each wall of `sector` in order, a portal to a
     * sector not yet visited whose depth would stay below
     * `MAX_SECTOR_RENDER_DEPTH` is recorded at the parent's depth + 1 and
     * traversed first; then the wall itself is drawn, styled for the
     * player's sector `root`. Each newly visited sector (and `sector`
     * itself) has all its walls drawn exactly once, in order, and all its
     * portals below the bound followed; every drawn wall belongs to one of
     * them; a portal of `sector` into a newly visited sector is drawn after
     * that sector; earlier depths are kept.
     */
    method RenderSector(level: Level, root: int, sector: int)
      requires LevelLinks(level) && Visited(level, root, visitedDepth) && sector in visitedDepth
      modifies this
      ensures flags == old(flags)
      ensures Visited(level, root, visitedDepth) && Extends(old(visitedDepth), visitedDepth)
      ensures |old(events)| <= |events| && events[..|old(events)|] == old(events)
      ensures forall e :: e in events[|old(events)|..] ==>
        && e.WallDrawn? && Styled(level, root, e) && e.sector in visitedDepth
        && (e.sector == sector || e.sector !in old(visitedDepth))
      ensures forall s :: s in visitedDepth && (s == sector || s !in old(visitedDepth)) ==>
        PortalsFollowed(level, visitedDepth, s) && OwnDraws(events[|old(events)|..], s) == Range(|level[s]|)
      ensures forall w :: 0 <= w < |level[sector]| ==>
        NeighbourFirst(level, sector, w, old(visitedDepth), visitedDepth, events[|old(events)|..])
      decreases MAX_SECTOR_RENDER_DEPTH - visitedDepth[sector]
    {
      ghost var before := visitedDepth;
      ghost var log0 := events;
      assert events[|log0|..] == [];
      for w := 0 to |level[sector]|
        invariant flags == old(flags)
        invariant SectorSoFar(level, root, sector, log0, before, w)
      {
        SectorStep(level, root, sector, w, log0, before);
      }
    }

    /** The state of `render_sector` after the walls of `sector` before w, with the events since `log0`. */
    ghost predicate SectorSoFar(level: Level, root: int, sector: int, log0: seq<Event>, before: map<int, nat>, w: nat)
      reads this
    {
      && Visited(level, root, visitedDepth) && Extends(before, visitedDepth) && sector in before
      && |log0| <= |events| && events[..|log0|] == log0
      && Progress(level, root, sector, before, visitedDepth, events[|log0|..], w)
    }

    /**
     * One pass of the loop of `render_sector`: wall w's portal is followed
     * when its sector is unvisited and the child depth stays below the
     * bound, then the wall is drawn.
     */
    method SectorStep(level: Level, root: int, sector: int, w: nat, ghost log0: seq<Event>, ghost before: map<int, nat>)
      requires LevelLinks(level) && 0 <= sector < |level| && w < |level[sector]|
      requires SectorSoFar(level, root, sector, log0, before, w)
      modifies this
      ensures flags == old(flags)
      ensures SectorSoFar(level, root, sector, log0, before, w + 1)
      decreases MAX_SECTOR_RENDER_DEPTH - visitedDepth[sector], 1
    {
      var childDepth := visitedDepth[sector] + 1;
      var next := level[sector][w];
      if next != -1 && next as int !in visitedDepth && childDepth < MAX_SECTOR_RENDER_DEPTH {
        VisitChild(level, root, visitedDepth, sector, w);
        ghost var depth0 := visitedDepth;
        visitedDepth := visitedDepth[next as int := childDepth];
        EnterChild(level, root, sector, next as int, log0, before, depth0, w);
      }
      DrawWall(level, root, sector, w, log0, before);
    }

    /** `render_wall` on wall w of `sector`, whose portal has been followed: the progress moves on by one wall. */
    method DrawWall(level: Level, root: int, sector: int, w: nat, ghost log0: seq<Event>, ghost before: map<int, nat>)
      requires LevelLinks(level) && 0 <= sector < |level| && w < |level[sector]|
      requires SectorSoFar(level, root, sector, log0, before, w)
      requires level[sector][w] != -1 && visitedDepth[sector] + 1 < MAX_SECTOR_RENDER_DEPTH ==>
        level[sector][w] as int in visitedDepth
      modifies this
      ensures flags == old(flags) && visitedDepth == old(visitedDepth)
      ensures events == old(events) + [WallDrawn(sector, w, WallStyle(root, sector, level[sector][w]))]
      ensures SectorSoFar(level, root, sector, log0, before, w + 1)
    {
      ghost var mid := events[|log0|..];
      var e := WallDrawn(sector, w, WallStyle(root, sector, level[sector][w]));
      events := events + [e];
      assert events[|log0|..] == mid + [e];
      DrawWallStep(level, root, sector, before, visitedDepth, mid, w);
    }

    /**
     * The recursive call of one pass of `render_sector`'s loop: `child`, just
     * recorded, is traversed, and the loop's invariant survives it.
     */
    method EnterChild(level: Level, root: int, sector: int, child: int,
                      ghost log0: seq<Event>, ghost before: map<int, nat>, ghost depth0: map<int, nat>, w: nat)
      requires LevelLinks(level) && Visited(level, root, visitedDepth) && 0 <= sector < |level| && w < |level[sector]|
      requires sector in before && Extends(before, depth0) && sector in depth0
      requires depth0[sector] + 1 < MAX_SECTOR_RENDER_DEPTH
      requires child !in depth0 && visitedDepth == depth0[child := depth0[sector] + 1]
      requires |log0| <= |events| && events[..|log0|] == log0
      requires Progress(level, root, sector, before, depth0, events[|log0|..], w)
      modifies this
      ensures flags == old(flags) && Extends(old(visitedDepth), visitedDepth)
      ensures SectorSoFar(level, root, sector, log0, before, w)
      decreases MAX_SECTOR_RENDER_DEPTH - visitedDepth[sector], 0
    {
      ghost var prefix := events[|log0|..];
      RenderSector(level, root, child);
      ghost var sub := events[|old(events)|..];
      assert events[|log0|..] == prefix + sub;
      ChildDrawn(level, root, sector, before, depth0, visitedDepth, prefix, sub, w);
    }
  }
}
