# build-map: a Dafny model of the Build MAP decoder and its renderers

This project models the core of `germangb/build`, a Rust reader and renderer
for maps of the Build engine (the engine of Duke Nukem 3D):

- **The MAP decoder** (`map/src`). A file is a little-endian stream: a
  version (7, 8 or 9), the player start, a `u16`-counted table of 40-byte
  sectors and a `u16`-counted table of 32-byte walls. The model decodes each
  record from a byte sequence, re-encodes it, and proves the round trips.
  It also proves that the stat bitflags accept every pattern, that the error
  cases are exactly `Io` and `UnsupportedVersion`, and that parsing reads
  nothing past the last wall. It covers the version-7 wall layout, the sprite
  records and the sprite list. It models the iterators over a sector's walls:
  the loop that follows `point2` in `sector.rs` and `wall.rs`, and the
  link-following walk of `v7/wall.rs`.
- **The 3D renderer** (`render/src/d3.rs`, `d3/algo.rs`, `frame.rs`). This
  covers the integer intervals and the per-column coverage buffer, the
  columns a projected wall covers, and the painting of solid walls and portal
  walls into a 320x200 frame. Each painted pixel is cut from the coverage.
  The portal queue is processed last-in-first-out and stops once the frame is
  covered.
- **The 2D renderer** (`render/src/d2.rs`). This is the depth-bounded
  traversal of sectors through portal walls. It is depth first: the visited
  map keeps the depth at which a sector was first reached, which need not
  be its smallest. The wall styles are chosen by the flags. Drawing becomes
  an event log.
- **The controller** (`render/src/controller.rs`). This covers velocity
  ramps and decay, eye-height easing, the option toggles, and the player
  update. The update tries each wall of the player's sector, crosses into
  the first neighbour whose portal the move passes through, and otherwise
  moves freely.
- **The SVG example** (`map/examples/map_svg.rs`). This covers the bounding
  box of the walls, one closed path per sector with the player's sector
  highlighted, the player circle and the sprite circles.

Each source file becomes one Dafny module. Pure decoding, geometry and
traversal logic are functions and lemmas. The objects that the source
mutates are classes with `modifies` frames: the byte reader, the sector-wall
iterators, the coverage buffer, the frame and the 3D and 2D renderers. Rust's
fixed-width integers are modelled explicitly (`ints.dfy`). Arithmetic that can
overflow is given release-build semantics: two's-complement wrap-around, as
`WrapI16`, `WrapI32` and `WrapUsize` state. A debug build would panic instead.

Where the source would panic on a malformed map, the model states the absence
of the panic as a precondition, for example a wall link that leaves the wall
table (`SceneLinks`, `LevelLinks`). Following `point2` from a sector's first
wall either comes back to it, or indexes outside the wall table (a panic),
or runs forever; the loop preconditions `LoopsClose` and `PlayerLoop` require
it to come back, after however many walls, whatever `wallnum` says.

## Model

| member | source | states |
|---|---|---|
| Bytes.LeU16 | map/src/lib.rs:77 | a `u16` is two bytes whose little-endian reading gives it back |
| Bytes.LeI16 | map/src/lib.rs:56-57 | an `i16` is two bytes whose little-endian two's-complement reading gives it back |
| Bytes.LeI32 | map/src/lib.rs:53-55 | an `i32` is four bytes whose little-endian two's-complement reading gives it back |
| Bytes.I32Bytes | map/src/lib.rs:53-55 | re-encoding the `i32` read at an offset gives back exactly the four bytes there |
| Bytes.I16Bytes | map/src/lib.rs:56-57 | re-encoding the `i16` read at an offset gives back exactly the two bytes there |
| Bytes.U16Bytes | map/src/lib.rs:77 | re-encoding the `u16` read at an offset gives back exactly the two bytes there |
| Bytes.Reader.ReadI32 | map/src/lib.rs:53-55 | `read_i32::<LE>` consumes four bytes and yields their value, or fails with `Io` and leaves the cursor at the end |
| Bytes.Reader.ReadI16 | map/src/lib.rs:56-57 | `read_i16::<LE>` consumes two bytes and yields their value, or fails with `Io` |
| Bytes.Reader.ReadU16 | map/src/lib.rs:77 | `read_u16::<LE>` consumes two bytes and yields their value, or fails with `Io` |
| Bytes.Reader.ReadU8 | map/src/sector.rs:165-167 | `read_u8` consumes one byte and yields it, or fails with `Io` |
| Bytes.Reader.ReadI8 | map/src/sector.rs:164 | `read_i8` consumes one byte and yields it as two's complement, or fails with `Io` |
| MapFile.VersionAt | map/src/lib.rs:69-74 | the version is accepted exactly when it is 7, 8 or 9; any other value gives `UnsupportedVersion` carrying it, and a short read gives `Io` |
| MapFile.ReadVersion | map/src/lib.rs:69-74 | `read_version` returns what `VersionAt` says of the bytes at the cursor and advances four bytes on success |
| MapFile.ReadPosition | map/src/lib.rs:53-57 | the start position, angle and sector are the 16 bytes after the version, or `Io` when they are not all there |
| MapFile.ReadMap | map/src/lib.rs:50-63 | `from_reader` returns the parse of the bytes at the cursor and, on success, has consumed exactly the map's bytes |
| MapFile.ParseErrors | map/src/lib.rs:50-74 | a parse fails only with `Io` or `UnsupportedVersion`; it is `UnsupportedVersion` exactly when four version bytes are there and the value is not 7–9; too short an input always fails |
| MapFile.ParseShape | map/src/lib.rs:50-92 | a parsed map has a supported version, each table as long as the `u16` count in front of it, and every sector and wall decoded at its own offset |
| MapFile.HeaderIsPlayer | map/src/player.rs:21-29 | the header bytes after the version are a player record: x, y, z, angle and sector as `Player::from_reader` reads them |
| MapFile.ParsePrefix | map/src/lib.rs:50-63 | parsing reads nothing past the last wall: any prefix that still holds the whole map parses the same |
| MapFile.TrailingBytesIgnored | map/src/lib.rs:50-63 | two inputs that agree on the map's bytes parse alike, whatever follows |
| MapFile.ParseExtend | map/src/lib.rs:50-63 | once a prefix parses, every extension of it parses to the same map |
| MapPlayer.EncodePlayer | map/src/player.rs:21-29 | a player record is 16 bytes |
| MapPlayer.PlayerRoundTrip | map/src/player.rs:21-29 | decoding an encoded player gives the same player |
| MapPlayer.PlayerBytes | map/src/player.rs:21-29 | re-encoding a decoded player gives back its 16 bytes: no byte is ignored |
| MapPlayer.ReadPlayer | map/src/player.rs:21-29 | `Player::from_reader` reads x, y, z, angle and sector little-endian, advancing 16 bytes, or fails with `Io` |
| MapPlayer.MaskedAngleMod | map/src/player.rs:42-43 | `angle & 0x7ff` is the angle's Euclidean remainder modulo 2048, negative angles included |
| MapPlayer.MaskedAngleRange | map/src/player.rs:38-43 | every masked angle lies in 0..=2047 |
| MapPlayer.MaskedAngleTurn | map/src/player.rs:38-43 | angles 2048 apart mask to the same value |
| MapSector.StatsTotal | map/src/sector.rs:7-39 | `from_bits` accepts every 16-bit pattern for both `SectorStat` and `WallStat` (the reserved bits complete the set), so the `expect`s never panic |
| MapSector.EncodeSector | map/src/sector.rs:152-180 | a sector record is 40 bytes |
| MapSector.SectorRoundTrip | map/src/sector.rs:152-180 | decoding an encoded sector gives the same sector |
| MapSector.SectorBytes | map/src/sector.rs:152-180 | re-encoding a decoded sector gives back its 40 bytes |
| MapSector.EncodeWall | map/src/sector.rs:127-148 | a wall record is 32 bytes |
| MapSector.WallRoundTrip | map/src/sector.rs:127-148 | decoding an encoded wall gives the same wall |
| MapSector.WallBytes | map/src/sector.rs:127-148 | re-encoding a decoded wall gives back its 32 bytes |
| MapSector.ReadSector | map/src/sector.rs:152-180 | `Sector::from_reader` reads the fields in file order and returns the record at the cursor, advancing 40 bytes, or `Io` |
| MapSector.ReadWall | map/src/sector.rs:127-148 | `Wall::from_reader` reads the fields in file order and returns the record at the cursor, advancing 32 bytes, or `Io` |
| MapSector.ReadSectors | map/src/sector.rs:196-201 | a `u16` count and then that many sector records, each at its offset; the cursor ends after the last one |
| MapSector.ReadWalls | map/src/sector.rs:203-208 | a `u16` count and then that many wall records, each at its offset; the cursor ends after the last one |
| MapSector.ReadSectorsAndWalls | map/src/sector.rs:190-194 | the sector table and then the wall table right after it |
| MapSector.Links | map/src/sector.rs:93-95 | the `point2` link of wall i is entry i of the link table |
| WallLoop.ClosesUnique | map/src/sector.rs:265-269 | the `point2` walk from a first wall returns to it first after one number of steps only, so a loop has one length |
| WallLoop.LoopLength | map/src/sector.rs:260-271 | following `point2` until the walk is back at the first wall, as `next` does, counts exactly the loop's walls |
| WallLoop.ClosedLoopDistinct | map/src/sector.rs:260-271 | the walls a loop visits before returning are pairwise distinct |
| WallLoop.ClosedLoopPeriodic | map/src/sector.rs:260-271 | after a loop's length in further steps the walk is at the same wall again |
| MapSector.LoopItems | map/src/sector.rs:257-272 | a closed wall loop of n walls yields exactly n items |
| MapSector.LoopItemsChain | map/src/sector.rs:257-272 | each item's right wall is the next item's left wall, and the last right wall is the first left wall: the walls form a closed polygon |
| MapSector.LoopItemsDistinct | map/src/sector.rs:257-272 | in a table of at most 2^16 walls no wall id is yielded twice |
| MapSector.LoopItemStep | map/src/sector.rs:258-272 | the k-th item is the current wall and its `point2` wall, and the walk ends exactly when `point2` is back at the first wall |
| MapSector.SectorWalls.constructor | map/src/sector.rs:234-245 | `sector_walls` starts at the sector's `wallptr` with nothing yielded |
| MapSector.SectorWalls.Next | map/src/sector.rs:258-272 | `next` yields (current id, current wall, its `point2` wall), counts it and moves on, or ends when `point2` is the first wall; an ended iterator stays ended |
| MapSector.SectorWalls.SizeHint | map/src/sector.rs:273-276 | the hint is `len - index` as a `usize`: exactly the items counted down from `len` while `index <= len`, wrapping around to 2^64 minus the excess once more were yielded; lower and upper bound agree |
| MapSector.Get | map/src/sector.rs:211-221 | nothing for a negative id or one past the table; otherwise the sector and a fresh iterator over its walls |
| MapSector.Drain | map/src/sector.rs:257-279 | iterating a sector whose `point2` walk comes back to `wallptr` after n walls yields exactly the n items of that loop, whatever `wallnum` says, and leaves the iterator exhausted with `index == n` |
| MapSector.SizeHintCounts | map/src/sector.rs:273-276 | after k of a loop's n items, the items left are n - k, and the hint equals that exactly when `wallnum` is the loop's length |
| BitFlags.FromBitsTotal | map/src/sector.rs:7-19 | `from_bits` over a flag set whose bits cover all 16 accepts every pattern unchanged |
| BitFlags.FromBitsLow | map/src/sector.rs:7-39 | `from_bits` accepts a pattern exactly when it has no bit outside the defined flags |
| BitFlags.FromBitsI16Ten | map/src/wall.rs:4-20 | for an `i16` set of ten flags, `from_bits` accepts exactly 0..0x400; every negative pattern is refused |
| MapWall.WallStatAccepts | map/src/wall.rs:4-20 | the wall stat flags accept exactly the values 0..0x400 |
| MapWall.DecodeWallOutcome | map/src/wall.rs:58-80 | the decode panics exactly when the stat field is readable and outside 0..0x400, succeeds exactly when all 32 bytes are there and the stat is valid, and otherwise fails with `Io` |
| MapWall.EncodeWall | map/src/wall.rs:58-80 | a wall record is 32 bytes |
| MapWall.WallOfBytes | map/src/wall.rs:58-80 | the fields read back from an encoded wall are the wall's |
| MapWall.WallRoundTrip | map/src/wall.rs:58-80 | a wall with a valid stat decodes back from its encoding |
| MapWall.WallBytes | map/src/wall.rs:58-80 | re-encoding the wall at an offset gives back its 32 bytes |
| MapWall.ReadWall | map/src/wall.rs:58-80 | `from_reader` returns what `DecodeWall` says of the bytes at the cursor and advances 32 bytes on success |
| MapWall.Links | map/src/wall.rs:28-30 | the `point2` link of wall i is entry i of the link table |
| MapWall.LoopPairs | map/src/wall.rs:92-109 | a closed wall loop of n walls yields exactly n pairs |
| MapWall.LoopPairsChain | map/src/wall.rs:92-109 | each pair's right wall is the next pair's left wall, and the last right wall is the first left wall |
| MapWall.LoopPairStep | map/src/wall.rs:95-109 | the k-th pair is the current wall and its `point2` wall, and the walk ends exactly when `point2` is the first wall |
| MapWall.SectorWalls.constructor | map/src/wall.rs:83-90 | the iterator starts at `first` with nothing yielded |
| MapWall.SectorWalls.Next | map/src/wall.rs:95-109 | `next` yields (current wall, its `point2` wall), counts it and moves on, or ends when `point2` is the first wall |
| MapWall.SectorWalls.SizeHint | map/src/wall.rs:111-114 | the hint is `len - index` as a `usize`, exact while `index <= len` and wrapped around past it |
| MapWall.Drain | map/src/wall.rs:92-117 | iterating a loop that comes back to `first` after n walls yields exactly its n pairs, whatever `len` says, and exhausts the iterator |
| MapWall.SizeHintCounts | map/src/wall.rs:111-114 | after k of a loop's n pairs, the hint is the number left exactly when `len` is the loop's length |
| MapWallV7.DecodeWallOutcome | map/src/v7/wall.rs:58-78 | the decode panics exactly when the `cstat` field is readable and outside 0..0x400, succeeds exactly when all 30 bytes are there and `cstat` is valid, and otherwise fails with `Io` |
| MapWallV7.EncodeWall | map/src/v7/wall.rs:58-78 | a version-7 wall record is 30 bytes: it has no `next_sector` |
| MapWallV7.WallRoundTrip | map/src/v7/wall.rs:58-78 | a wall with valid flags decodes back from its encoding |
| MapWallV7.WallBytes | map/src/v7/wall.rs:58-78 | re-encoding the wall at an offset gives back its 30 bytes |
| MapWallV7.ReadWall | map/src/v7/wall.rs:58-78 | `from_reader` returns what `DecodeWall` says of the bytes at the cursor and advances 30 bytes on success |
| MapWallV7.AsUsize | map/src/v7/wall.rs:100 | `n.get() as usize` is the link modulo 2^64: a non-negative link unchanged, a negative one wrapped |
| MapWallV7.Follow | map/src/v7/wall.rs:100 | a zero link ends the walk (`NonZeroI16::new` gives `None`); any other link is followed |
| MapWallV7.MinusOneDoesNotEnd | map/src/v7/wall.rs:31-33 | the "-1 if none" link of the field comment does not end the walk: it is followed to an index past every table of at most 2^16 walls |
| MapWallV7.Walls.constructor | map/src/v7/wall.rs:81-87 | the iterator holds the table, the link kind and the start |
| MapWallV7.Walls.Next | map/src/v7/wall.rs:92-105 | `next` yields the current wall and moves to its `next_in_sector` or `next` link; it panics on an index past the table and stays ended once ended |
| MapWallV7.WalkLength | map/src/v7/wall.rs:92-105 | a walk of n steps that yields fewer than n walls has reached its end |
| MapSprite.SpriteStatTotal | map/src/sprite.rs:5-24 | `from_bits` accepts every 16-bit sprite stat (the reserved bits and `INVISIBLE` complete the set), so the `expect` never panics |
| MapSprite.EncodeSprite | map/src/sprite.rs:89-118 | a sprite record is 44 bytes |
| MapSprite.SpriteRoundTrip | map/src/sprite.rs:89-118 | decoding an encoded sprite gives the same sprite |
| MapSprite.SpriteBytes | map/src/sprite.rs:89-118 | re-encoding the sprite at an offset gives back its 44 bytes |
| MapSprite.ReadSprite | map/src/sprite.rs:89-118 | `Sprite::from_reader` reads the fields in file order, returning the record at the cursor and advancing 44 bytes, or `Io` |
| MapSprite.ReadSprites | map/src/sprite.rs:131-136 | a `u16` count, then that many sprite records; the cursor ends after the last one |
| MapSprite.SpriteListCount | map/src/sprite.rs:131-136 | a parsed list is as long as its count, and all its records were in the input |
| MapSprite.TypeBitsAreBits4To5 | map/src/sprite.rs:122 | `(bits >> 4) & 0b11` is bits 4..5 of the stat |
| MapSprite.SpriteTypeAsWrittenWallSprite | map/src/sprite.rs:121-128 | as written, a wall sprite (stat 0x10) gives type bits 1, and transmuting 1 is not a valid `SpriteType` |
| MapSprite.SpriteTypeAsWrittenOnlyFace | map/src/sprite.rs:121-128 | as written, the result is a valid type exactly when the bits are 0, and it is then `Face` |
| MapSprite.TypeOf | map/src/sprite.rs:26-37 | corrected `sprite_type`: it panics exactly on bits 0b11; otherwise the type's discriminant is the two bits back in place (0x00, 0x10, 0x20) |
| MapSprite.TypeOfOnlyBits4To5 | map/src/sprite.rs:121-128 | the type depends only on bits 4..5 of the stat |
| Algo.New | render/src/d3/algo.rs:16-19 | `Interval::new` keeps both bounds and is empty exactly when they are equal; its `assert!` is the precondition `l <= r` |
| Algo.IntersectIsOverlap | render/src/d3/algo.rs:26-32 | `intersect` is the overlap `[max left, min right]` of two non-empty intervals, or `EMPTY` when either is empty or they do not overlap |
| Algo.IntersectCommutes | render/src/d3/algo.rs:26-32 | `a.intersect(b) == b.intersect(a)`, the symmetry the swap on line 28 relies on |
| Algo.IntersectHolds | render/src/d3/algo.rs:26-32 | a point `left <= p < right` lies in the intersection exactly when it lies in both operands |
| Algo.IntersectContains | render/src/d3/algo.rs:21-32 | what `contains` finds in the intersection it finds in both operands; the only points of both that the intersection loses are a shared end point where the two merely touch |
| Algo.IntersectEmpty | render/src/d3/algo.rs:6-36 | `EMPTY` is empty, an empty operand gives `EMPTY`, and an empty intersection is always `EMPTY` |
| Algo.IntersectInColumn | render/src/d3/algo.rs:59-70 | intersecting a column interval within `[0, height]` keeps it within `[0, height]` |
| Algo.CountEmpty | render/src/d3/algo.rs:45-46 | the count of empty columns is at most the number of columns |
| Algo.CountEmptyUpdate | render/src/d3/algo.rs:59-70 | replacing one column changes the empty count by the change in that column's emptiness |
| Algo.CountEmptyAll | render/src/d3/algo.rs:76-80 | the count equals the number of columns exactly when every column is empty |
| Algo.CountEmptyNone | render/src/d3/algo.rs:50-57 | with no empty column the count is zero |
| Algo.Coverage.constructor | render/src/d3/algo.rs:50-57 | `Coverage::new`: every column is `[0, height]` and the empty count is zero |
| Algo.Coverage.Column | render/src/d3/algo.rs:72-74 | every column stays inside `[0, height]` |
| Algo.Coverage.FullIffAllEmpty | render/src/d3/algo.rs:76-80 | for a positive height `is_full` holds exactly when every column is empty: the `empty` counter is exact |
| Algo.Coverage.IntersectColumn | render/src/d3/algo.rs:59-70 | an empty column returns `EMPTY` and changes nothing; otherwise the column becomes its intersection with the argument, which is returned, and the counter grows by one exactly when it became empty |
| Algo.Coverage.Clear | render/src/d3/algo.rs:83-89 | `clear` resets every column to `[0, height]` and the counter to zero |
| Frame.PackUnpack | render/src/frame.rs:20-21 | a packed colour fits in 24 bits and gives back r, g and b from bits 16..23, 8..15 and 0..7 |
| Frame.PackInjective | render/src/frame.rs:20-21 | different colours pack to different pixels |
| Frame.DrawPixel | render/src/frame.rs:18-24 | `draw_pixel` writes the packed colour at (x, y) when the point is on the 320x200 frame and changes no other pixel; off-frame points change nothing |
| Render3d.ClampX | render/src/d3.rs:301-302 | `.max(0).min(WIDTH)` lands in `[0, WIDTH]` |
| Render3d.ClampY | render/src/d3.rs:316-319 | `.max(0).min(HEIGHT)` lands in `[0, HEIGHT]` |
| Render3d.LineAt | render/src/d3.rs:306-322 | the item for column x is a vertical line at x whose spans run top to bottom, with the given enumeration index |
| Render3d.Columns | render/src/d3.rs:303-305 | the columns `x0..x1` kept by the filter all lie in the range and in the window |
| Render3d.ColumnsExact | render/src/d3.rs:303-305 | the kept columns are strictly increasing and every column of the range inside the window is kept |
| Render3d.ColumnLine | render/src/d3.rs:303-322 | the item for column i is a vertical line at i whose enumeration index is `i - x0`, the index before filtering |
| Render3d.WallLines | render/src/d3.rs:296-324 | every item lies at a column of the clamped range that the window contains, and carries the index `x - x0` |
| Render3d.LinesOf | render/src/d3.rs:303-322 | one item per kept column, in order, each at its own column |
| Render3d.WallLinesColumns | render/src/d3.rs:296-324 | the items are exactly the kept columns, one each, in order |
| Render3d.WallLinesIncreasing | render/src/d3.rs:303-305 | the items go strictly left to right |
| Render3d.WallLinesOrdered | render/src/d3.rs:303-305 | item a lies left of item b whenever a comes first |
| Render3d.WallLinesComplete | render/src/d3.rs:296-305 | every column of the clamped range that the window contains has an item |
| Render3d.WallLineAt | render/src/d3.rs:296-324 | item k lies on the wall and is the line of its own column |
| Render3d.BackFacingHasNoLines | render/src/d3.rs:300-303 | a wall whose right edge is not right of its left edge yields no items, so nothing divides by `d == 0` |
| Render3d.Span | render/src/d3.rs:191-198 | `algo::interval(l, r)` holds exactly the rows `l <= p < r`, and is `EMPTY` when there are none |
| Render3d.UsedUp | render/src/d3.rs:142-144 | a column a solid wall has drawn is used up |
| Render3d.CutColumns | render/src/d3.rs:131-196 | after the items left of a bound, each on-wall column left of it is cut and every other column is unchanged |
| Render3d.CutColumnsStep | render/src/d3.rs:144-192 | drawing item k cuts exactly its column and moves the bound past it |
| Render3d.SpannedStep | render/src/d3.rs:193-194 | `min(x)` / `max(x + 1)` keep the portal span equal to the first to the last drawn column |
| Render3d.DrawnSpan | render/src/d3.rs:193-201 | once every item is drawn, the span `[min x, max x + 1)` holds exactly the on-wall columns, which run without a gap; when no item was drawn no column is on the wall |
| Render3d.DrawnInterval | render/src/d3.rs:161-201 | the interval `render_portal_wall` returns, in closed form: it holds exactly the on-wall columns and is `EMPTY` or non-empty |
| Render3d.SameHolds | render/src/d3/algo.rs:21-35 | two intervals that hold the same columns, each `EMPTY` or non-empty, are equal, so the returned interval is the closed form |
| Render3d.Pushes | render/src/d3.rs:105-117 | a sector queues at most one entry per wall |
| Render3d.PushOfColumns | render/src/d3.rs:109-116 | a wall queues an entry exactly when it is a portal with an on-wall column left of the window's right end; the entry names the portal's sector and holds exactly those columns (the window's right end, drawn because `contains` is closed, is never queued because `intersect` is half-open) |
| Render3d.PushesAreEntries | render/src/d3.rs:105-117 | in a scene whose portals lead to its sectors, every queued entry names a sector of the scene with a non-empty window inside the frame |
| Render3d.PopPush | render/src/d3.rs:94-117 | one pass of the loop pops the back entry and appends what its sector's walls queue; the queue stays well-formed |
| Render3d.QueueAfter | render/src/d3.rs:91-122 | k passes from a well-formed queue leave a well-formed queue |
| Render3d.QueueAfterStep | render/src/d3.rs:94-122 | pass k + 1 pops from the queue that pass k left |
| Render3d.Renderer.constructor | render/src/d3.rs:74-81 | full-frame coverage and an empty queue |
| Render3d.Renderer.RenderLine | render/src/d3.rs:204-215 | `render_line` paints exactly the rows of the segment that the column's coverage still holds, and no other pixel |
| Render3d.Renderer.DrawSolidColumn | render/src/d3.rs:131-141 | the five lines of a solid column leave every still-covered row of that column with the ceiling, black edge, wall or floor colour of `SolidPixel`, and change no other pixel |
| Render3d.Renderer.DrawPortalColumn | render/src/d3.rs:162-187 | the lines of a portal column leave every still-covered row with the ceiling, frame, edge or floor colour of `PortalPixel`, rows inside the portal keep what they showed, and no other pixel changes |
| Render3d.Renderer.DrawStep | render/src/d3.rs:131-187 | drawing item k extends the drawn region by exactly its column |
| Render3d.Renderer.CutStep | render/src/d3.rs:144-192 | cutting item k's column extends the cut region by exactly that column |
| Render3d.Renderer.WallStep | render/src/d3.rs:131-192 | one pass of either wall loop: item k's column is painted on the rows its coverage held, then cut, and the drawn and cut regions extend by exactly that column |
| Render3d.Renderer.WallDone | render/src/d3.rs:131-196 | after every item, each on-wall column is cut and painted, and every other column and pixel is as before |
| Render3d.Renderer.RenderSolidWall | render/src/d3.rs:125-146 | every on-wall column is used up and its formerly covered rows get the solid colours; every other column and pixel is unchanged |
| Render3d.Renderer.RenderPortalWall | render/src/d3.rs:148-202 | every on-wall column is cut to the rows strictly inside the portal and painted with the portal colours, and nothing else changes; the result holds exactly the drawn (on-wall) columns and is `EMPTY` when nothing was drawn |
| Render3d.Renderer.PortalStep | render/src/d3.rs:161-195 | one pass of the portal loop: item k is painted and cut, and the span grows to take in its column |
| Render3d.Renderer.PortalDone | render/src/d3.rs:161-196 | after every item, each on-wall column is cut to the portal's inner rows and painted as a portal column; every other column and pixel is as before |
| Render3d.Renderer.RenderSector | render/src/d3.rs:98-117 | each wall of the sector is drawn in order, solid or as a portal, and the queue gains exactly, at its back and in wall order, the entries `Pushes` gives: each portal whose drawn columns meet the window, with the overlap |
| Render3d.Renderer.RenderWall | render/src/d3.rs:106-116 | one wall: the queue gains the portal's entry as `PushOf` gives it, or nothing for a solid wall or a portal drawn outside the window |
| Render3d.Renderer.Pass | render/src/d3.rs:94-117 | `pop_back` takes the last entry, and after its sector is drawn the queue is `PopPush` of the old one |
| Render3d.Renderer.Render | render/src/d3.rs:84-123 | after `reset` and queueing the player's sector with the full width, pass i pops the back of the queue the pop-and-queue schedule reaches after i passes; the final queue is that schedule's after the passes made; the loop ends early only once the queue is empty or the coverage is full |
| Render2d.WallStyle | render/src/d2.rs:106-108 | green exactly for a solid wall (`next_sector == -1`), red for a portal; a stroke of 3 exactly in the player's sector and 1 elsewhere; `Render` and `RenderSector` put this style on every wall they draw |
| Render2d.DepthIsPortalCount | render/src/d2.rs:81-94 | the depth recorded for a visited sector is the number of portals on a path from the player's sector to it |
| Render2d.OnlyRootAtDepthZero | render/src/d2.rs:72-73 | only the player's sector is visited at depth 0 |
| Render2d.VisitChild | render/src/d2.rs:84-89 | entering an unvisited neighbour through a portal below the depth limit keeps every visited sector reachable at its recorded depth |
| Render2d.OwnDrawsAppend | render/src/d2.rs:83-93 | the walls drawn for a sector in two consecutive stretches of the log are those of the first followed by those of the second |
| Render2d.OwnDrawsNone | render/src/d2.rs:83-93 | a stretch of the log that draws only other sectors' walls draws none of this one's |
| Render2d.DrawnAfterKept | render/src/d2.rs:89-92 | a wall drawn after a neighbour sector was completed stays so when more is drawn |
| Render2d.DrawWallStep | render/src/d2.rs:92 | drawing wall w, styled, after walls 0..w of a sector, once its portal has been followed, has drawn walls 0..w+1 of it and keeps every earlier promise |
| Render2d.ChildDrawn | render/src/d2.rs:89-90 | a nested `render_sector` that draws only newly visited sectors, each completely, leaves the parent's progress unchanged |
| Render2d.Renderer.constructor | render/src/d2.rs:55-62 | every flag is set and nothing is visited |
| Render2d.Renderer.Render | render/src/d2.rs:65-79 | the axis is drawn first when `AXIS` is set and the player last when `PLAYER` is set; with `SECTOR`, every wall drawn in between belongs to a visited sector and carries `WallStyle`; every visited sector is reachable from the player's at its depth, has its walls drawn once each in iteration order, and every portal of it below the depth bound leads to a visited sector; a portal of the player's sector into a neighbour is drawn after that neighbour is drawn in full; without `SECTOR` nothing is drawn or visited |
| Render2d.Renderer.RenderSectors | render/src/d2.rs:71-74 | the sector layer alone: the traversal from the player's sector at depth 0 with the same promises |
| Render2d.Renderer.RenderSector | render/src/d2.rs:81-94 | the visited map only grows, keeps its earlier depths and stays reachable; the log only grows, and every new event is a styled wall of this sector or of a sector first visited now; each of those sectors has all its walls drawn once, in order, and all its portals below the depth bound followed; a portal into a newly visited sector is drawn after that sector is drawn in full |
| Render2d.Renderer.SectorStep | render/src/d2.rs:83-93 | one wall of the loop: descend into an unvisited neighbour below the depth limit, then draw the wall |
| Render2d.Renderer.DrawWall | render/src/d2.rs:92 | `render_wall` appends exactly one event: wall w of the sector with its `WallStyle`, and nothing else changes |
| Render2d.Renderer.EnterChild | render/src/d2.rs:89-90 | recording the neighbour's depth and rendering it completes the neighbour's walls and keeps the parent's progress |
| Controller.Decay | render/src/controller.rs:84-103 | without input a velocity moves one step toward zero and never past it |
| Controller.Ramp | render/src/controller.rs:78-104 | with the negative key held the velocity drops by the step (`+step` then `-2·step`), with only the positive key it rises by the step, and with neither it decays |
| Controller.NextOptsExact | render/src/controller.rs:76-109 | `update_opts` ramps each velocity and clamps forwards and sideways to ±`max_speed` and rotation to ±8; no wrap-around happens inside those bounds |
| Controller.NextOptsSteps | render/src/controller.rs:78-108 | a released axis decays by exactly one toward zero without changing sign; LOOK_LEFT wins over LOOK_RIGHT and turns by 2 up to the ±8 clamp |
| Controller.EaseStepBetween | render/src/controller.rs:71 | the eye height moves halfway toward its target and never overshoots; it reaches the target exactly from the target or one above, and from one below it stalls |
| Controller.WalkZExact | render/src/controller.rs:67-71 | when `target - z` fits in an `i32`, the wrapping walk step is the exact easing step |
| Controller.FlyZInSector | render/src/controller.rs:62-65 | in fly mode the height ends between ceiling and floor (the ceiling wins for an inverted sector), and holding UP and DOWN together leaves it unchanged |
| Controller.ExactTests | render/src/controller.rs:151-168 | without wrap-around, both versions of the crossing test are the sign test on exact cross products, and they differ only in the sign of `num1` |
| Controller.IntersectAsWrittenMissesCrossing | render/src/controller.rs:161-167 | counterexample: the wall from (0,0) to (0,10) and the move from (-1,5) to (1,5) meet halfway along both, yet the test as written answers false |
| Controller.IntersectAsWrittenLooksBack | render/src/controller.rs:161-167 | as written, the test detects a crossing of the move reflected through the start point: it fires exactly when moving from P to 2P − T would cross the wall |
| Controller.CrossesIffMeet | render/src/controller.rs:151-168 | corrected test, for a move not parallel to the wall and without wrap-around: it holds exactly when the move's segment (start excluded) and the wall's segment (left end excluded) meet |
| Controller.FirstHit | render/src/controller.rs:141-146 | the loop stops at the first portal wall the move crosses: every earlier wall is missed, and none is found only when all are missed |
| Controller.FirstHitStep | render/src/controller.rs:141-146 | one iteration: a crossed wall is the answer, a missed one defers to the rest |
| Controller.SectorAfterMove | render/src/controller.rs:138-146 | the sector after a move is the player's own when no portal is crossed, and otherwise the (valid) `next_sector` of the first crossed portal |
| Controller.LoopStep | render/src/controller.rs:136-141 | one step of the player sector's wall iterator: the next wall is the `point2` link, and it is back at the first wall exactly after the last item |
| Controller.UpdatePlayer | render/src/controller.rs:113-149 | the angle turns by `rotate` (wrapping), the position moves by the displacement (wrapping), the sector becomes the `next_sector` of the first crossed portal wall or stays, and nothing else changes |
| Controller.RampSpeed | render/src/controller.rs:87-95 | the forwards or sideways step of `update_opts` in wrapping `i32` arithmetic |
| Controller.RampRotate | render/src/controller.rs:78-86 | the rotation step of `update_opts` in wrapping `i16` arithmetic |
| Controller.InputController.constructor | render/src/controller.rs:40-49 | max speed 32, walk mode, zero velocities, and the eye height is the player's height above the floor of the player's sector |
| Controller.InputController.UpdateOptions | render/src/controller.rs:76-109 | the velocities become `NextOpts` of the old ones and nothing else changes; they stay within the clamps |
| Controller.InputController.UpdateEyeHeight | render/src/controller.rs:60-73 | only the height changes: clamped flying in fly mode, one easing step toward floor + eye height (less half of it when crouching) otherwise |
| Controller.InputController.Update | render/src/controller.rs:53-57 | the velocities become `NextOpts` of the old ones; then the angle turns by the new rotation, the position moves by the displacement (wrapping), the sector becomes the one behind the first portal the move crosses (else unchanged, always a sector of the map), and the height takes one fly or walk step in that sector; nothing else changes |
| MapSvg.Include | map/examples/map_svg.rs:102-105 | one fold step grows the box to take in the wall's point, keeps every point it held, and moves each side only to the wall's coordinate |
| MapSvg.FoldBounds | map/examples/map_svg.rs:100-106 | the fold's result holds every wall's point, never shrinks the start box, and each side is the start value or some wall's coordinate |
| MapSvg.ComputeBounds | map/examples/map_svg.rs:99-107 | `compute_bounds` is the smallest box around all wall points: it holds each of them and each side is attained by a wall; with no walls it is `([i32::MAX; 2], [i32::MIN; 2])` |
| MapSvg.ShiftInside | map/examples/map_svg.rs:61-87 | moving a coordinate inside a box that fits in `i32` by the minimum does not wrap and lands in `[0, extent]` |
| MapSvg.SectorItems | map/examples/map_svg.rs:78 | a sector's iterator yields the items of the loop through `wallptr`, one per wall of the loop up to the first return to `wallptr`, however many walls `wallnum` counts |
| MapSvg.PathData | map/examples/map_svg.rs:80-88 | the path has one command per item plus the move and the close |
| MapSvg.SectorToPath | map/examples/map_svg.rs:77-96 | a black path of width 32 with one line per wall of the loop plus the move and the close, filled `#ffaaaa` exactly when the player's sector id is this one |
| MapSvg.CreateDocument | map/examples/map_svg.rs:44-75 | the view box is `(0, 0, max x - min x, max y - min y)` of the walls' bounds; node i is sector i's path for every sector, then the player's circle, then each sprite's circle in list order; exactly the first nodes are paths |
| MapSvg.CreateDocumentAsWritten | map/examples/map_svg.rs:44-75 | the document as the example writes it: the same view box, paths and player circle, with every sprite circle moved by the minimum `x` in `y` |
| MapSvg.AsWrittenDiffersOnlyInSprites | map/examples/map_svg.rs:70 | a sprite's circle in the written document agrees with the corrected one exactly when moving its `y` by the minimum `x` and by the minimum `y` give the same coordinate |
| MapSvg.PathTracesLoop | map/examples/map_svg.rs:80-88 | the path moves to the first wall, draws a line to each next wall of the loop in order, ends its last line where it began, and closes |
| MapSvg.ItemsAreWalls | map/examples/map_svg.rs:78-87 | every point the path visits is a wall of the map, so it lies in the computed bounds |
| MapSvg.MovedInView | map/examples/map_svg.rs:50-62 | a point inside a box that fits lands, moved, inside the view box |
| MapSvg.PathInView | map/examples/map_svg.rs:50-96 | every point of every sector's path lies in the view box when the box fits in `i32` |
| MapSvg.PathDataInView | map/examples/map_svg.rs:77-96 | a path through walls that all lie in a box that fits in `i32` stays inside that box's view |
| MapSvg.DocumentInView | map/examples/map_svg.rs:44-75 | with the corrected sprite circle, every path point and circle centre lies in `[0, width] x [0, height]` when the box fits and the player and sprites stand inside it |
| MapSvg.HighlightsPlayerSector | map/examples/map_svg.rs:90 | in a map of at most 2^15 sectors, exactly the player's sector is highlighted |
| MapSvg.SpriteCircleAsWrittenOutside | map/examples/map_svg.rs:66-74 | counterexample: walls spanning x 0..10 and y 1000..2000 and a sprite at (5, 1500) inside them; as written its circle has `cy` 1500, outside the height 1000, while the corrected circle is inside |
| MapSvg.SpriteCircleCentred | map/examples/map_svg.rs:66-74 | the corrected sprite circle sits at the sprite's position minus the box's minimum corner, inside the view box |

## Left out

- Floating-point projection and clipping in `render/src/d3.rs:217-398` are left out: `project_wall`, `wall_to_glm`, the view and clip transforms, `clip_x`, `clip_y` and the viewport. The renderer receives each wall's projected screen geometry as an input.
- Floating-point view, clip and viewport code in `render/src/d2.rs:129-212` is left out. The early return of `render_wall` for walls outside the clip is not modelled: the event records every call.
- The sort of walls by floating-point depth in `render/src/d3.rs:104` is left out. Walls are taken in the order given.
- The drawing done by `render_axis`, `render_player` and the `embedded_graphics` primitives is left out; each becomes an event in the 2D log.
- The controller's trigonometric displacement (`sin` and `cos` of the angle) is left out: the displacement is an input to the player update. The elapsed `Duration` is unused by the source and is not modelled.
- Integer overflow follows release builds (wrap-around). A debug build's overflow panic is not modelled.
- `Render3d.Renderer.Render`: it carries a fuel bound on the number of queue pops, because a portal can queue a sector again and the source's loop is not shown to terminate. Its contract states the queue pass by pass and the entries popped; the pixels and the coverage are stated wall by wall (`RenderSolidWall`, `RenderPortalWall`), not for a whole traversal, and the early stop is stated only as the condition under which the loop ends before the fuel runs out.
- `Render3d.Renderer.RenderSector`: its contract states the queue it leaves, exactly. The pixels it paints and the coverage it cuts are stated per wall by `RenderSolidWall` and `RenderPortalWall`, not composed over the sector.
- `Render3d.Lerp`: `i32::MIN / -1`, which panics in Rust even in a release build, is modelled as a wrap. It needs a width `d` that wraps to -1, which only a wall from `x == i32::MIN` to `x == i32::MAX` gives.
- `Controller.Hit` uses the corrected crossing test `Crosses` in place of `intrsect_movement_with_wall` as written at `render/src/controller.rs:161-167`. As written, the test fires for a portal that the move reflected through its start would cross (`IntersectAsWrittenLooksBack`), not for one the move crosses.
- `Controller.FirstHit` and `Controller.FirstHitStep` find the first portal `Crosses` accepts, not the first the test as written at `render/src/controller.rs:142` accepts.
- `Controller.SectorAfterMove` and `Controller.UpdatePlayer` choose the new sector with `Crosses`; with the test as written the player changes sector on the portals `IntersectAsWrittenLooksBack` describes.
- `Controller.InputController.Update` inherits the corrected sector choice of `Controller.UpdatePlayer`.
- `MapSvg.CreateDocument` uses the corrected sprite circle in place of the one at `map/examples/map_svg.rs:70`; the document as written is `CreateDocumentAsWritten`, which differs from it only in the sprite circles (`AsWrittenDiffersOnlyInSprites`).
- `render/src/d3.rs` calls `algo::interval`, `algo::intersect`, `is_some`, `get_column`, `Coverage::new()` and `coverage.reset`, none of which `render/src/d3/algo.rs` declares. They are modelled by `Span`, `Intersect`, `!IsEmpty`, the `columns` field, `Clear` and `IntersectColumn`, following what the call sites need.
- `render/src/*` and `map/examples/map_svg.rs` use `map.player`, `map.sprites` and the private `map.sectors`, which the `Map` of `map/src/lib.rs` does not have. The model uses the `Map`'s own position, angle and sector fields, and the sprite list is a parameter of `CreateDocument`. The `usize` passed to `Sectors::get` is modelled by direct indexing.
- The `main` of `map/examples/map_svg.rs` is left out: opening the file, choosing the map and writing the SVG are I/O.
- The floating-point conversion in `Angle::to_radians` is left out. Only its integer mask `angle & 0x7ff` is modelled.
- `size_hint` of the version-7 `Walls` iterator is `todo!()` in the source and is not modelled.
- `Map::from_reader` reads no sprite list, and neither does the model. The sprite list reader is modelled on its own.
- Where the source would panic on malformed links (an out-of-range `point2`, `nextsector` or player sector), the operations require that the map is free of them (`SceneLinks`, `LevelLinks`). A sector loop that never returns to its first wall, which panics or never ends, is excluded by `LoopsClose` and `PlayerLoop`; a loop of any length is allowed.

## Findings

| source | as written | input that shows it | evidently intended | confidence | as-written member | corrected member |
|---|---|---|---|---|---|---|
| map/src/sprite.rs:121-128 | `sprite_type` transmutes the raw bits 4..5, shifted down to 0, 1 or 2, into `SpriteType`, whose discriminants are 0x00, 0x10 and 0x20 | a sprite with stat 0x10 (a wall sprite): the bits give 1, which is no `SpriteType` | compare the masked, unshifted bits against the discriminants, giving `Wall` for 0x10 and `Floor` for 0x20 | not executed | MapSprite.SpriteTypeAsWrittenWallSprite | MapSprite.TypeOf |
| render/src/controller.rs:162 | the numerator for the move's parameter has the opposite sign to the one the cross-product solution needs | wall (0,0)–(0,10), move from (-1,5) to (1,5): the segments cross at their midpoints, yet the test answers false | for a move not parallel to the wall, both fractions in `(0, 1]` (the move's start and the wall's left end excluded) exactly when the segments meet | not executed | Controller.IntersectAsWrittenMissesCrossing | Controller.CrossesIffMeet |
| map/examples/map_svg.rs:70 | a sprite circle's `cy` is the sprite's `y` minus the minimum `x` | walls spanning x 0..10 and y 1000..2000, sprite at (5, 1500): `cy` is 1500, outside the 1000-high view box | `cy` is `y` minus the minimum `y` | not executed | MapSvg.SpriteCircleAsWrittenOutside | MapSvg.SpriteCircleCentred |
