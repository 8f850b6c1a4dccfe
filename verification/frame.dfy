/**
 * `render/src/frame.rs`: the 320x200 frame of packed RGB pixels, indexed
 * `[y][x]`, and its bounds-checked pixel writer.
 */
module Frame {
  import opened Ints

  const WIDTH: nat := 320
  const HEIGHT: nat := 200

  type u32 = x: int | 0 <= x < 0x1_0000_0000

  /** A frame: `HEIGHT` rows of `WIDTH` pixels. */
  predicate IsFrame(frame: array2<u32>)
  {
    frame.Length0 == HEIGHT && frame.Length1 == WIDTH
  }

  /** An `Rgb888` colour. */
  datatype Rgb = Rgb(r: u8, g: u8, b: u8)

  /** `r << 16 | g << 8 | b`; the three fields do not overlap, so the ORs are sums. */
  function Pack(c: Rgb): (v: u32)
  {
    c.r * 0x1_0000 + c.g * 0x100 + c.b
  }

  /** A packed colour fits in 24 bits and gives its channels back by shifting and masking. */
  lemma PackUnpack(c: Rgb)
    ensures Pack(c) < 0x100_0000
    ensures (Pack(c) / 0x1_0000) % 0x100 == c.r
    ensures (Pack(c) / 0x100) % 0x100 == c.g
    ensures Pack(c) % 0x100 == c.b
  {
    var v := Pack(c);
    DivModUnique(v, 0x100, c.r * 0x100 + c.g, c.b);
    DivModUnique(v, 0x1_0000, c.r, c.g * 0x100 + c.b);
    DivModUnique(c.r * 0x100 + c.g, 0x100, c.r, c.g);
    DivModUnique(c.r, 0x100, 0, c.r);
  }

  /** Different colours pack to different pixels. */
  lemma PackInjective(c: Rgb, d: Rgb)
    requires Pack(c) == Pack(d)
    ensures c == d
  {
    PackUnpack(c);
    PackUnpack(d);
  }

  /** Whether (x, y) lies on the frame. */
  predicate OnFrame(x: int, y: int)
  {
    0 <= x < WIDTH && 0 <= y < HEIGHT
  }

  /**
   * `EGFrame::draw_pixel`: the one cell `[y][x]` takes the packed colour if
   * the point is on the frame; nothing else changes. It always returns
   * `Ok(())` (the error type is `Infallible`), so no result is modelled.
   */
  method DrawPixel(frame: array2<u32>, x: i32, y: i32, color: Rgb)
    requires IsFrame(frame)
    modifies frame
    ensures forall j, i :: 0 <= j < HEIGHT && 0 <= i < WIDTH ==>
      frame[j, i] == if OnFrame(x, y) && j == y && i == x then Pack(color) else old(frame[j, i])
  {
    if x >= 0 && x < WIDTH as i32 && y >= 0 && y < HEIGHT as i32 {
      frame[y, x] := Pack(color);
    }
  }
}
