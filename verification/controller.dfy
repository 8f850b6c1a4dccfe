/**
 * `render/src/controller.rs`: the player controller. Velocities ramp up
 * with input, decay by one toward zero without it, and are clamped; the
 * eye height eases toward its target or, in fly mode, is clamped to the
 * sector; a move switches the player into the sector behind the first
 * portal wall the move crosses.
 *
 * Integer arithmetic wraps around as in a release build (`WrapI32`,
 * `WrapI16`); a debug build would panic where the model wraps. Wrapping
 * every intermediate result of a `+`, `-`, `*` expression is the same as
 * wrapping its exact value once (arithmetic modulo 2^32), which is how the
 * expressions are written here. The trigonometric displacement of a move is
 * an input.
 */
module Controller {
  import opened Ints
  import opened Opt
  import opened WallLoop
  import opened MapSector
  import opened MapFile

  // ---- input ---------------------------------------------------------------

  /** The `Input` bits. */
  const FORWARDS: bv16 := 0x001
  const BACKWARDS: bv16 := 0x002
  const RIGHT: bv16 := 0x004
  const LEFT: bv16 := 0x008
  const UP: bv16 := 0x010
  const DOWN: bv16 := 0x020
  const LOOK_RIGHT: bv16 := 0x040
  const LOOK_LEFT: bv16 := 0x080
  const CROUCH: bv16 := 0x100

  /** `Input::contains`. */
  predicate Pressed(input: bv16, key: bv16)
  {
    input & key == key
  }

  // ---- update_opts -----------------------------------------------------------

  /** `UpdateOpts`: forwards and sideways velocity and rotation velocity. */
  datatype UpdateOpts = UpdateOpts(forwards: i32, sideways: i32, rotate: i16)

  /** One step toward zero: what each axis does without input. */
  function Decay(v: int): (r: int)
    ensures Abs(r) == Max(Abs(v) - 1, 0)
    ensures v >= 0 ==> 0 <= r <= v
    ensures v <= 0 ==> v <= r <= 0
  {
    if v > 0 then v - 1 else if v < 0 then v + 1 else v
  }

  /**
   * One axis of `update_opts` before the clamp: with either key of the axis
   * pressed, `+step`, then `-2·step` when the negative key is among them;
   * with neither, one step toward zero.
   */
  function Ramp(v: int, positive: bool, negative: bool, step: int): (r: int)
    ensures negative ==> r == v - step
    ensures positive && !negative ==> r == v + step
    ensures !positive && !negative ==> r == Decay(v)
  {
    if positive || negative then
      var up := v + step;
      if negative then up - 2 * step else up
    else Decay(v)
  }

  /** What `update_opts` leaves: each axis ramped (wrapping), then clamped. */
  function NextOpts(o: UpdateOpts, input: bv16, maxSpeed: i32): UpdateOpts
  {
    var rotate := WrapI16(Ramp(o.rotate, Pressed(input, LOOK_RIGHT), Pressed(input, LOOK_LEFT), 2));
    var forwards := WrapI32(Ramp(o.forwards, Pressed(input, FORWARDS), Pressed(input, BACKWARDS), 6));
    var sideways := WrapI32(Ramp(o.sideways, Pressed(input, RIGHT), Pressed(input, LEFT), 6));
    var low := WrapI32(-(maxSpeed as int));
    UpdateOpts(MaxMin(forwards, low, maxSpeed), MaxMin(sideways, low, maxSpeed), MaxMin(rotate, -8, 8))
  }

  /** The velocities a controller with speed limit `maxSpeed` keeps: within the clamps. */
  predicate Bounded(o: UpdateOpts, maxSpeed: int)
  {
    && -maxSpeed <= o.forwards <= maxSpeed
    && -maxSpeed <= o.sideways <= maxSpeed
    && -8 <= o.rotate <= 8
  }

  /**
   * With a speed limit in `0..=i32::MAX - 6` the clamped velocities never
   * wrap: each axis is its exact ramp, clamped, and the result is bounded
   * again, so the controller stays in this state for ever.
   */
  lemma NextOptsExact(o: UpdateOpts, input: bv16, maxSpeed: i32)
    requires 0 <= maxSpeed <= I32_MAX - 6 && Bounded(o, maxSpeed)
    ensures var n := NextOpts(o, input, maxSpeed);
      && n.rotate == MaxMin(Ramp(o.rotate, Pressed(input, LOOK_RIGHT), Pressed(input, LOOK_LEFT), 2), -8, 8)
      && n.forwards == MaxMin(Ramp(o.forwards, Pressed(input, FORWARDS), Pressed(input, BACKWARDS), 6), -maxSpeed, maxSpeed)
      && n.sideways == MaxMin(Ramp(o.sideways, Pressed(input, RIGHT), Pressed(input, LEFT), 6), -maxSpeed, maxSpeed)
      && Bounded(n, maxSpeed)
  {
  }

  /**
   * Within the clamps, an axis without input moves one step toward zero
   * and never crosses it; with look input, rotation changes by +2 (right
   * alone) or −2 (left pressed), unless the clamp stops it.
   */
  lemma NextOptsSteps(o: UpdateOpts, input: bv16, maxSpeed: i32)
    requires 0 <= maxSpeed <= I32_MAX - 6 && Bounded(o, maxSpeed)
    ensures var n := NextOpts(o, input, maxSpeed);
      && (!Pressed(input, FORWARDS) && !Pressed(input, BACKWARDS) ==>
            Abs(n.forwards) == Max(Abs(o.forwards) - 1, 0) && n.forwards * o.forwards >= 0)
      && (!Pressed(input, RIGHT) && !Pressed(input, LEFT) ==>
            Abs(n.sideways) == Max(Abs(o.sideways) - 1, 0) && n.sideways * o.sideways >= 0)
      && (!Pressed(input, LOOK_RIGHT) && !Pressed(input, LOOK_LEFT) ==>
            Abs(n.rotate) == Max(Abs(o.rotate) - 1, 0) && n.rotate * o.rotate >= 0)
      && (Pressed(input, LOOK_LEFT) ==> n.rotate == Max(o.rotate - 2, -8))
      && (Pressed(input, LOOK_RIGHT) && !Pressed(input, LOOK_LEFT) ==> n.rotate == Min(o.rotate + 2, 8))
  {
    NextOptsExact(o, input, maxSpeed);
  }

  // ---- eye height ------------------------------------------------------------

  /** `(target - z) >> 1` added to z: half the way to the target, rounded toward minus infinity. */
  function EaseStep(z: int, target: int): int
  {
    z + Asr(target - z, 1)
  }

  /**
   * The easing never overshoots: the new height lies between the old one
   * and the target, and it reaches the target exactly when it was there or
   * one unit above; from one unit below it does not move.
   */
  lemma EaseStepBetween(z: int, target: int)
    ensures Min(z, target) <= EaseStep(z, target) <= Max(z, target)
    ensures EaseStep(z, target) == target <==> target - z == 0 || target - z == -1
    ensures target - z == 1 ==> EaseStep(z, target) == z
    ensures Abs(target - EaseStep(z, target)) <= Abs(target - z)
  {
    assert Pow2(1) == 2;
  }

  /** Where the walk mode aims: eye height above the floor, half of it less when crouching (`/` truncates). */
  function Target(floorZ: i32, eyeHeight: i32, crouch: bool): i32
  {
    var target := WrapI32(floorZ + eyeHeight);
    if crouch then WrapI32(target - DivTrunc(eyeHeight, 2)) else target
  }

  /** `update_eye_height` in walk mode: one easing step, with wrapping arithmetic. */
  function WalkZ(z: i32, target: i32): i32
  {
    WrapI32(z + Asr(WrapI32(target - z), 1))
  }

  /** When `target - z` fits in an `i32`, the walk step is the exact easing step. */
  lemma WalkZExact(z: i32, target: i32)
    requires I32_MIN <= target - z <= I32_MAX
    ensures WalkZ(z, target) == EaseStep(z, target)
  {
    EaseStepBetween(z, target);
  }

  /** `update_eye_height` in fly mode: UP raises by 500, DOWN lowers by 500, then `min(floor).max(ceiling)`. */
  function FlyZ(z: i32, up: bool, down: bool, ceilingZ: i32, floorZ: i32): i32
  {
    var z1 := if up then WrapI32(z - 500) else z;
    var z2 := if down then WrapI32(z1 + 500) else z1;
    Max(Min(z2, floorZ), ceilingZ)
  }

  /**
   * Flying keeps the eye within the sector (ceiling above, floor below, z
   * growing downward); with an inverted sector the ceiling wins. Pressing
   * both keys leaves a height away from the wrap-around bounds unchanged.
   */
  lemma FlyZInSector(z: i32, up: bool, down: bool, ceilingZ: i32, floorZ: i32)
    ensures ceilingZ <= floorZ ==> ceilingZ <= FlyZ(z, up, down, ceilingZ, floorZ) <= floorZ
    ensures ceilingZ > floorZ ==> FlyZ(z, up, down, ceilingZ, floorZ) == ceilingZ
    ensures I32_MIN + 500 <= z && ceilingZ <= z <= floorZ ==> FlyZ(z, true, true, ceilingZ, floorZ) == z
  {
  }

  // ---- crossing a wall -------------------------------------------------------

  /** The 2D cross product `a.x·b.y − b.x·a.y` of a = (a0, a1) and b = (b0, b1). */
  function Cross(a0: int, a1: int, b0: int, b1: int): int
  {
    a0 * b1 - b0 * a1
  }

  /** Rust's `i32::abs`, which wraps `i32::MIN` onto itself. */
  function Abs32(v: i32): i32
  {
    WrapI32(Abs(v))
  }

  /**
   * The sign test shared by both versions: `|num0| <= |den|`,
   * `|num1| <= |den|` and both numerators with the sign of `den`.
   */
  predicate SignTest(num0: i32, num1: i32, den: i32)
  {
    && Abs32(num0) <= Abs32(den)
    && Abs32(num1) <= Abs32(den)
    && Signum(num0) == Signum(den)
    && Signum(num1) == Signum(den)
  }

  /**
   * `intrsect_movement_with_wall` as written: with w = P − L, e = R − L and
   * d = T − P, `num0 = w×d`, `num1 = e×w` and `den = e×d`.
   */
  predicate IntersectAsWritten(l: Wall, r: Wall, px: i32, py: i32, tx: i32, ty: i32)
  {
    var num0 := WrapI32(Cross(px - l.x, py - l.y, tx - px, ty - py));
    var num1 := WrapI32(Cross(r.x - l.x, r.y - l.y, px - l.x, py - l.y));
    var den := WrapI32(Cross(r.x - l.x, r.y - l.y, tx - px, ty - py));
    SignTest(num0, num1, den)
  }

  /**
   * The crossing test with the movement numerator the other way round,
   * `num1 = w×e`, so that `num1 / den` is the fraction of the move at
   * which it meets the wall's line.
   */
  predicate Crosses(l: Wall, r: Wall, px: i32, py: i32, tx: i32, ty: i32)
  {
    var num0 := WrapI32(Cross(px - l.x, py - l.y, tx - px, ty - py));
    var num1 := WrapI32(Cross(px - l.x, py - l.y, r.x - l.x, r.y - l.y));
    var den := WrapI32(Cross(r.x - l.x, r.y - l.y, tx - px, ty - py));
    SignTest(num0, num1, den)
  }

  /** The three cross products fit in an `i32` other than `i32::MIN` (no wrap-around anywhere). */
  predicate NoWrap(l: Wall, r: Wall, px: i32, py: i32, tx: i32, ty: i32)
  {
    && -I32_MAX <= Cross(px - l.x, py - l.y, tx - px, ty - py) <= I32_MAX
    && -I32_MAX <= Cross(px - l.x, py - l.y, r.x - l.x, r.y - l.y) <= I32_MAX
    && -I32_MAX <= Cross(r.x - l.x, r.y - l.y, tx - px, ty - py) <= I32_MAX
  }

  /** The sign test on exact integers. */
  predicate ExactSignTest(num0: int, num1: int, den: int)
  {
    && Abs(num0) <= Abs(den)
    && Abs(num1) <= Abs(den)
    && Signum(num0) == Signum(den)
    && Signum(num1) == Signum(den)
  }

  /** Swapping the factors of a cross product negates it. */
  lemma CrossAnti(a0: int, a1: int, b0: int, b1: int)
    ensures Cross(b0, b1, a0, a1) == -Cross(a0, a1, b0, b1)
  {
  }

  /** Negating one factor of a cross product negates it. */
  lemma CrossNeg(a0: int, a1: int, b0: int, b1: int)
    ensures Cross(a0, a1, -b0, -b1) == -Cross(a0, a1, b0, b1)
  {
  }

  /**
   * Without wrap-around both tests are the sign test on the exact cross
   * products; the one as written has the movement numerator negated.
   */
  lemma ExactTests(l: Wall, r: Wall, px: i32, py: i32, tx: i32, ty: i32)
    requires NoWrap(l, r, px, py, tx, ty)
    ensures var num0 := Cross(px - l.x, py - l.y, tx - px, ty - py);
      var num1 := Cross(px - l.x, py - l.y, r.x - l.x, r.y - l.y);
      var den := Cross(r.x - l.x, r.y - l.y, tx - px, ty - py);
      && (Crosses(l, r, px, py, tx, ty) <==> ExactSignTest(num0, num1, den))
      && (IntersectAsWritten(l, r, px, py, tx, ty) <==> ExactSignTest(num0, -num1, den))
  {
    CrossAnti(px - l.x, py - l.y, r.x - l.x, r.y - l.y);
  }

  /** A cross product of integers, taken in the reals. */
  lemma RealCross(a0: int, a1: int, b0: int, b1: int)
    ensures Cross(a0, a1, b0, b1) as real == RCross(a0 as real, a1 as real, b0 as real, b1 as real)
  {
    assert (a0 * b1) as real == a0 as real * b1 as real;
    assert (b0 * a1) as real == b0 as real * a1 as real;
  }

  /** The cross product on reals. */
  function RCross(a0: real, a1: real, b0: real, b1: real): real
  {
    a0 * b1 - b0 * a1
  }

  /**
   * Solving `w + s·d = u·e` for a move d not parallel to the wall e (Cramer's
   * rule): `s = (w×e)/(e×d)` and `u = (w×d)/(e×d)` satisfy it.
   */
  lemma SolveMeet(wx: real, wy: real, ex: real, ey: real, dx: real, dy: real)
    requires RCross(ex, ey, dx, dy) != 0.0
    ensures var den := RCross(ex, ey, dx, dy);
      var s := RCross(wx, wy, ex, ey) / den;
      var u := RCross(wx, wy, dx, dy) / den;
      wx + s * dx == u * ex && wy + s * dy == u * ey
  {
    var den := RCross(ex, ey, dx, dy);
    var n1 := RCross(wx, wy, ex, ey);
    var n0 := RCross(wx, wy, dx, dy);
    var s := n1 / den;
    var u := n0 / den;
    assert s * den == n1;
    assert u * den == n0;
    assert wx * den + n1 * dx == n0 * ex;
    assert wy * den + n1 * dy == n0 * ey;
    CancelFactor(wx + s * dx, u * ex, den);
    CancelFactor(wy + s * dy, u * ey, den);
  }

  /** A non-zero factor cancels. */
  lemma CancelFactor(a: real, b: real, f: real)
    requires f != 0.0 && a * f == b * f
    ensures a == b
  {
    assert (a - b) * f == 0.0;
  }

  /** Where `w + s·d = u·e`, the cross products are the fractions times `e×d`. */
  lemma MeetRatios(wx: real, wy: real, ex: real, ey: real, dx: real, dy: real, s: real, u: real)
    requires wx + s * dx == u * ex && wy + s * dy == u * ey
    ensures RCross(wx, wy, dx, dy) == u * RCross(ex, ey, dx, dy)
    ensures RCross(wx, wy, ex, ey) == s * RCross(ex, ey, dx, dy)
  {
    assert wx == u * ex - s * dx;
    assert wy == u * ey - s * dy;
  }

  /** A numerator passes the sign test against a non-zero `den` exactly when its fraction is in `(0, 1]`. */
  lemma FractionTest(num: int, den: int, f: real)
    requires den != 0 && num as real == f * den as real
    ensures (Abs(num) <= Abs(den) && Signum(num) == Signum(den)) <==> 0.0 < f <= 1.0
  {
    if den > 0 {
      ScaledSign(num, den, f);
      ScaledSign(den - num, den, 1.0 - f);
    } else {
      ScaledSign(-num, -den, f);
      ScaledSign(num - den, -den, 1.0 - f);
    }
  }

  /** Scaling by a positive `d` keeps the sign: `n = g·d` is positive exactly when `g` is, and non-negative exactly when `g` is. */
  lemma ScaledSign(n: int, d: int, g: real)
    requires d > 0 && n as real == g * d as real
    ensures n > 0 <==> g > 0.0
    ensures n >= 0 <==> g >= 0.0
  {
    if g > 0.0 {
      assert g * d as real > 0.0;
    } else {
      assert g * d as real <= 0.0;
    }
    if g < 0.0 {
      assert g * d as real < 0.0;
    }
  }

  /** The move from P to T and the wall from L to R meet at fraction s of the move and u of the wall. */
  ghost predicate MeetAt(l: Wall, r: Wall, px: i32, py: i32, tx: i32, ty: i32, s: real, u: real)
  {
    && px as real + s * (tx - px) as real == l.x as real + u * (r.x - l.x) as real
    && py as real + s * (ty - py) as real == l.y as real + u * (r.y - l.y) as real
  }

  /**
   * For a move and a wall that are not parallel and whose products do not
   * wrap, the corrected test holds exactly when the move meets the wall
   * past its start (fraction in `(0, 1]`) and the wall past its left end
   * (fraction in `(0, 1]`).
   */
  lemma CrossesIffMeet(l: Wall, r: Wall, px: i32, py: i32, tx: i32, ty: i32)
    requires NoWrap(l, r, px, py, tx, ty)
    requires Cross(r.x - l.x, r.y - l.y, tx - px, ty - py) != 0
    ensures Crosses(l, r, px, py, tx, ty) <==>
      exists s: real, u: real :: 0.0 < s <= 1.0 && 0.0 < u <= 1.0 && MeetAt(l, r, px, py, tx, ty, s, u)
  {
    ExactTests(l, r, px, py, tx, ty);
    ExactIffMeet(l, r, px, py, tx, ty);
  }

  /** The sign test on the exact cross products holds exactly when the move and the wall meet at fractions in `(0, 1]`. */
  lemma ExactIffMeet(l: Wall, r: Wall, px: i32, py: i32, tx: i32, ty: i32)
    requires Cross(r.x - l.x, r.y - l.y, tx - px, ty - py) != 0
    ensures ExactSignTest(Cross(px - l.x, py - l.y, tx - px, ty - py), Cross(px - l.x, py - l.y, r.x - l.x, r.y - l.y),
                          Cross(r.x - l.x, r.y - l.y, tx - px, ty - py)) <==>
      exists s: real, u: real :: 0.0 < s <= 1.0 && 0.0 < u <= 1.0 && MeetAt(l, r, px, py, tx, ty, s, u)
  {
    var num0 := Cross(px - l.x, py - l.y, tx - px, ty - py);
    var num1 := Cross(px - l.x, py - l.y, r.x - l.x, r.y - l.y);
    var den := Cross(r.x - l.x, r.y - l.y, tx - px, ty - py);
    if ExactSignTest(num0, num1, den) {
      var s, u := TestGivesMeet(l, r, px, py, tx, ty);
    }
    if exists s: real, u: real :: 0.0 < s <= 1.0 && 0.0 < u <= 1.0 && MeetAt(l, r, px, py, tx, ty, s, u) {
      var s, u :| 0.0 < s <= 1.0 && 0.0 < u <= 1.0 && MeetAt(l, r, px, py, tx, ty, s, u);
      MeetGivesTest(l, r, px, py, tx, ty, s, u);
    }
  }

  /** Numerators passing the sign test give fractions in `(0, 1]` at which the move and the wall meet. */
  lemma TestGivesMeet(l: Wall, r: Wall, px: i32, py: i32, tx: i32, ty: i32) returns (s: real, u: real)
    requires Cross(r.x - l.x, r.y - l.y, tx - px, ty - py) != 0
    requires ExactSignTest(Cross(px - l.x, py - l.y, tx - px, ty - py), Cross(px - l.x, py - l.y, r.x - l.x, r.y - l.y),
                           Cross(r.x - l.x, r.y - l.y, tx - px, ty - py))
    ensures 0.0 < s <= 1.0 && 0.0 < u <= 1.0 && MeetAt(l, r, px, py, tx, ty, s, u)
  {
    RealCross(px - l.x, py - l.y, tx - px, ty - py);
    RealCross(px - l.x, py - l.y, r.x - l.x, r.y - l.y);
    RealCross(r.x - l.x, r.y - l.y, tx - px, ty - py);
    s, u := FractionsMeet((px - l.x) as real, (py - l.y) as real, (r.x - l.x) as real, (r.y - l.y) as real,
                          (tx - px) as real, (ty - py) as real,
                          Cross(px - l.x, py - l.y, tx - px, ty - py), Cross(px - l.x, py - l.y, r.x - l.x, r.y - l.y),
                          Cross(r.x - l.x, r.y - l.y, tx - px, ty - py));
    MeetAtIff(l, r, px, py, tx, ty, s, u);
  }

  /** Fractions in `(0, 1]` at which the move and the wall meet make the numerators pass the sign test. */
  lemma MeetGivesTest(l: Wall, r: Wall, px: i32, py: i32, tx: i32, ty: i32, s: real, u: real)
    requires Cross(r.x - l.x, r.y - l.y, tx - px, ty - py) != 0
    requires 0.0 < s <= 1.0 && 0.0 < u <= 1.0 && MeetAt(l, r, px, py, tx, ty, s, u)
    ensures ExactSignTest(Cross(px - l.x, py - l.y, tx - px, ty - py), Cross(px - l.x, py - l.y, r.x - l.x, r.y - l.y),
                          Cross(r.x - l.x, r.y - l.y, tx - px, ty - py))
  {
    RealCross(px - l.x, py - l.y, tx - px, ty - py);
    RealCross(px - l.x, py - l.y, r.x - l.x, r.y - l.y);
    RealCross(r.x - l.x, r.y - l.y, tx - px, ty - py);
    MeetAtIff(l, r, px, py, tx, ty, s, u);
    MeetPasses((px - l.x) as real, (py - l.y) as real, (r.x - l.x) as real, (r.y - l.y) as real,
               (tx - px) as real, (ty - py) as real,
               Cross(px - l.x, py - l.y, tx - px, ty - py), Cross(px - l.x, py - l.y, r.x - l.x, r.y - l.y),
               Cross(r.x - l.x, r.y - l.y, tx - px, ty - py), s, u);
  }

  /** `MeetAt` in terms of w = P − L, e = R − L and d = T − P: `w + s·d = u·e`. */
  lemma MeetAtIff(l: Wall, r: Wall, px: i32, py: i32, tx: i32, ty: i32, s: real, u: real)
    ensures MeetAt(l, r, px, py, tx, ty, s, u) <==>
      && (px - l.x) as real + s * (tx - px) as real == u * (r.x - l.x) as real
      && (py - l.y) as real + s * (ty - py) as real == u * (r.y - l.y) as real
  {
  }

  /** Numerators passing the sign test give the meeting fractions, both in `(0, 1]`. */
  lemma FractionsMeet(wx: real, wy: real, ex: real, ey: real, dx: real, dy: real, num0: int, num1: int, den: int)
    returns (s: real, u: real)
    requires num0 as real == RCross(wx, wy, dx, dy) && num1 as real == RCross(wx, wy, ex, ey)
    requires den as real == RCross(ex, ey, dx, dy) && den != 0
    requires ExactSignTest(num0, num1, den)
    ensures 0.0 < s <= 1.0 && 0.0 < u <= 1.0 && wx + s * dx == u * ex && wy + s * dy == u * ey
  {
    s := num1 as real / den as real;
    u := num0 as real / den as real;
    SolveMeet(wx, wy, ex, ey, dx, dy);
    FractionTest(num0, den, u);
    FractionTest(num1, den, s);
  }

  /** Meeting fractions in `(0, 1]` make the numerators pass the sign test. */
  lemma MeetPasses(wx: real, wy: real, ex: real, ey: real, dx: real, dy: real, num0: int, num1: int, den: int, s: real, u: real)
    requires num0 as real == RCross(wx, wy, dx, dy) && num1 as real == RCross(wx, wy, ex, ey)
    requires den as real == RCross(ex, ey, dx, dy) && den != 0
    requires 0.0 < s <= 1.0 && 0.0 < u <= 1.0 && wx + s * dx == u * ex && wy + s * dy == u * ey
    ensures ExactSignTest(num0, num1, den)
  {
    MeetRatios(wx, wy, ex, ey, dx, dy, s, u);
    FractionTest(num0, den, u);
    FractionTest(num1, den, s);
  }

  /**
   * The test as written misses a plain crossing: moving from (−1, 5) to
   * (1, 5) crosses the wall from (0, 0) to (0, 10) halfway, which the
   * corrected test sees and the written one does not (its `num1` has the
   * opposite sign, so it looks for the wall behind the start of the move).
   */
  lemma IntersectAsWrittenMissesCrossing(l: Wall, r: Wall)
    requires l.x == 0 && l.y == 0 && r.x == 0 && r.y == 10
    ensures !IntersectAsWritten(l, r, -1, 5, 1, 5)
    ensures Crosses(l, r, -1, 5, 1, 5)
    ensures MeetAt(l, r, -1, 5, 1, 5, 0.5, 0.5)
  {
  }

  /**
   * Without wrap-around, the test as written is the corrected test applied
   * to the move reflected through its start: it looks for the wall in the
   * step the player would have taken backwards.
   */
  lemma IntersectAsWrittenLooksBack(l: Wall, r: Wall, px: i32, py: i32, tx: i32, ty: i32)
    requires NoWrap(l, r, px, py, tx, ty)
    requires I32_MIN <= 2 * px - tx <= I32_MAX && I32_MIN <= 2 * py - ty <= I32_MAX
    ensures IntersectAsWritten(l, r, px, py, tx, ty) <==> Crosses(l, r, px, py, 2 * px - tx, 2 * py - ty)
  {
    var bx: i32, bY: i32 := 2 * px - tx, 2 * py - ty;
    assert bx - px == -(tx - px) && bY - py == -(ty - py);
    CrossNeg(px - l.x, py - l.y, tx - px, ty - py);
    CrossNeg(r.x - l.x, r.y - l.y, tx - px, ty - py);
    ExactTests(l, r, px, py, tx, ty);
    ExactTests(l, r, px, py, bx, bY);
  }

  // ---- update_player -----------------------------------------------------------

  /** Wall item k of a sector's loop stops the move: a portal whose wall the move crosses. */
  predicate Hit(item: (i16, Wall, Wall), px: i32, py: i32, tx: i32, ty: i32)
  {
    item.1.nextSector != -1 && Crosses(item.1, item.2, px, py, tx, ty)
  }

  /** The first item from `from` on that stops the move, if any. */
  function FirstHit(items: seq<(i16, Wall, Wall)>, px: i32, py: i32, tx: i32, ty: i32, from: nat): (k: Option<nat>)
    ensures k.Some? ==>
      && from <= k.value < |items| && Hit(items[k.value], px, py, tx, ty)
      && forall j :: from <= j < k.value ==> !Hit(items[j], px, py, tx, ty)
    ensures k.None? ==> forall j :: from <= j < |items| ==> !Hit(items[j], px, py, tx, ty)
    decreases |items| - from
  {
    if from >= |items| then None
    else if Hit(items[from], px, py, tx, ty) then Some(from)
    else FirstHit(items, px, py, tx, ty, from + 1)
  }

  /** Either item k stops the move and is the first hit from k on, or the first hit from k is the first from k + 1. */
  lemma FirstHitStep(items: seq<(i16, Wall, Wall)>, px: i32, py: i32, tx: i32, ty: i32, k: nat)
    requires k < |items|
    ensures Hit(items[k], px, py, tx, ty) ==> FirstHit(items, px, py, tx, ty, k) == Some(k)
    ensures !Hit(items[k], px, py, tx, ty) ==> FirstHit(items, px, py, tx, ty, k) == FirstHit(items, px, py, tx, ty, k + 1)
  {
  }

  /**
   * One step of the walls iterator on a loop that closes after n walls:
   * the k-th wall's `point2` is the (k+1)-th wall, back at the first wall
   * exactly after the last one, and the k-th item is built from them.
   */
  lemma LoopStep(walls: seq<Wall>, first: nat, n: nat, k: nat)
    requires Closes(Links(walls), first, n) && k < n
    ensures var c := Nth(Links(walls), first, k);
      var p := walls[c].point2 as int;
      && p == Nth(Links(walls), first, k + 1)
      && 0 <= p < |walls|
      && (p == first <==> k + 1 == n)
      && LoopItems(walls, first, n)[k] == (WrapI16(c), walls[c], walls[p])
  {
    var links := Links(walls);
    assert 0 <= Nth(links, first, 0) < |links|;
    if k + 1 < n {
      assert Nth(links, first, k + 1) != first;
    }
  }

  /** The sector of the map the player stands in, and that sector's wall loop closes after n walls. */
  ghost predicate PlayerLoop(m: Map, n: nat)
  {
    0 <= m.sector < |m.sectors.sectors|
    && Closes(Links(m.sectors.walls), m.sectors.sectors[m.sector].wallptr as int, n)
  }

  /** The items of the player's sector's wall loop, in iteration order. */
  function PlayerWalls(m: Map, n: nat): seq<(i16, Wall, Wall)>
    requires PlayerLoop(m, n)
  {
    LoopItems(m.sectors.walls, m.sectors.sectors[m.sector].wallptr as int, n)
  }

  /**
   * The sector a move from the player's position to (tx, ty) ends in: the
   * one behind the first portal of the player's sector that the move
   * crosses, or the player's own sector when it crosses none.
   */
  function SectorAfterMove(m: Map, n: nat, tx: i32, ty: i32): (s: i16)
    requires PlayerLoop(m, n)
    ensures var hit := FirstHit(PlayerWalls(m, n), m.posX, m.posY, tx, ty, 0);
      && (hit.None? ==> s == m.sector)
      && (hit.Some? ==> s == PlayerWalls(m, n)[hit.value].1.nextSector && s != -1)
  {
    var hit := FirstHit(PlayerWalls(m, n), m.posX, m.posY, tx, ty, 0);
    if hit.Some? then PlayerWalls(m, n)[hit.value].1.nextSector else m.sector
  }

  /**
   * `update_player`, given the displacement `(dx, dy)` the trigonometry
   * yields (zero when neither velocity is set): the angle turns by the
   * rotation, the player moves into the sector behind the first portal wall
   * of the current sector that the move crosses (at most one switch; solid
   * walls and later portals are ignored), and the full displacement is
   * added to the position whatever walls lie in the way.
   */
  method UpdatePlayer(m: Map, opts: UpdateOpts, dx: i32, dy: i32, ghost n: nat) returns (r: Map)
    requires PlayerLoop(m, n)
    requires opts.forwards == 0 && opts.sideways == 0 ==> dx == 0 && dy == 0
    ensures r.angle == WrapI16(m.angle + opts.rotate)
    ensures r.posX == WrapI32(m.posX + dx) && r.posY == WrapI32(m.posY + dy)
    ensures r.sector == SectorAfterMove(m, n, WrapI32(m.posX + dx), WrapI32(m.posY + dy))
    ensures r == m.(angle := r.angle, sector := r.sector, posX := r.posX, posY := r.posY)
  {
    var angle := m.angle;
    if opts.rotate != 0 {
      angle := WrapI16(angle + opts.rotate);
    }
    var px, py := m.posX, m.posY;
    var tx, ty := WrapI32(px + dx), WrapI32(py + dy);
    var walls := m.sectors.walls;
    var first := m.sectors.sectors[m.sector].wallptr as int;
    ghost var links := Links(walls);
    ghost var items := PlayerWalls(m, n);
    var sector := m.sector;
    // The walls iterator of the sector: from `first` along `point2` until it is back at `first`.
    var c := first;
    var done := false;
    ghost var k := 0;
    while !done
      invariant 0 <= k <= n
      invariant !done ==> k < n && c == Nth(links, first, k)
      invariant done ==> k == n
      invariant FirstHit(items, px, py, tx, ty, 0) == FirstHit(items, px, py, tx, ty, k)
      decreases n - k
    {
      var left := walls[c];
      var p := left.point2 as int;
      LoopStep(walls, first, n, k);
      var right := walls[p];
      FirstHitStep(items, px, py, tx, ty, k);
      if left.nextSector != -1 && Crosses(left, right, px, py, tx, ty) {
        sector := left.nextSector;
        break;
      }
      k := k + 1;
      if p == first {
        done := true;
      } else {
        c := p;
      }
    }
    r := m.(angle := angle, sector := sector, posX := tx, posY := ty);
  }

  /** Values equal modulo 2^32 wrap to the same `i32`. */
  lemma WrapI32Residue(x: int, y: int)
    requires (x - y) % 0x1_0000_0000 == 0
    ensures WrapI32(x) == WrapI32(y)
  {
    var q := (x - y) / 0x1_0000_0000;
    assert x == y + 0x1_0000_0000 * q;
    assert x % 0x1_0000_0000 == y % 0x1_0000_0000;
  }

  /** Values equal modulo 2^16 wrap to the same `i16`. */
  lemma WrapI16Residue(x: int, y: int)
    requires (x - y) % 0x1_0000 == 0
    ensures WrapI16(x) == WrapI16(y)
  {
    var q := (x - y) / 0x1_0000;
    assert x == y + 0x1_0000 * q;
    assert x % 0x1_0000 == y % 0x1_0000;
  }

  /**
   * One velocity block of `update_opts` (`forwards`, `sideways`): `+= 6`,
   * then `-= 12` when the negative key is pressed, both wrapping; without
   * either key, one step toward zero.
   */
  method RampSpeed(v: i32, positive: bool, negative: bool) returns (r: i32)
    ensures r == WrapI32(Ramp(v, positive, negative, 6))
  {
    r := v;
    if positive || negative {
      r := WrapI32(r + 6);
      if negative {
        WrapI32Residue(r - 12, v - 6);
        r := WrapI32(r - 12);
      }
    } else {
      if r > 0 { r := r - 1; }
      if r < 0 { r := r + 1; }
    }
  }

  /** The rotation block of `update_opts`: `+= 2`, then `-= 4` when looking left, wrapping as `i16`. */
  method RampRotate(v: i16, positive: bool, negative: bool) returns (r: i16)
    ensures r == WrapI16(Ramp(v, positive, negative, 2))
  {
    r := v;
    if positive || negative {
      r := WrapI16(r + 2);
      if negative {
        WrapI16Residue(r - 4, v - 2);
        r := WrapI16(r - 4);
      }
    } else {
      if r > 0 { r := r - 1; }
      if r < 0 { r := r + 1; }
    }
  }

  // ---- the controller ----------------------------------------------------------

  /** `InputController`: the speed limit, fly mode, the eye height and the velocities. */
  class InputController {
    var maxSpeed: i32
    var fly: bool
    var eyeHeight: i32
    var opts: UpdateOpts

    /**
     * `InputController::new`: speed limit 32, walking, resting velocities,
     * and the eye height the player starts at above the floor of its
     * sector (the sector must exist: `get(..).unwrap()`).
     */
    constructor (m: Map)
      requires 0 <= m.sector < |m.sectors.sectors|
      ensures maxSpeed == 32 && !fly && opts == UpdateOpts(0, 0, 0)
      ensures eyeHeight == WrapI32(m.posZ - m.sectors.sectors[m.sector].floorZ)
      ensures Bounded(opts, maxSpeed)
    {
      eyeHeight := WrapI32(m.posZ - m.sectors.sectors[m.sector].floorZ);
      maxSpeed := 32;
      fly := false;
      opts := UpdateOpts(0, 0, 0);
    }

    /**
     * `update_opts`: rotation ramps by 2, forwards and sideways by 6, each
     * decaying toward zero without its keys, then forwards and sideways are
     * clamped to `±max_speed` and rotation to `±8`.
     */
    method UpdateOptions(input: bv16)
      modifies this
      ensures opts == NextOpts(old(opts), input, maxSpeed)
      ensures maxSpeed == old(maxSpeed) && fly == old(fly) && eyeHeight == old(eyeHeight)
      ensures 0 <= maxSpeed ==> Bounded(opts, maxSpeed)
    {
      var rotate := RampRotate(opts.rotate, Pressed(input, LOOK_RIGHT), Pressed(input, LOOK_LEFT));
      var forwards := RampSpeed(opts.forwards, Pressed(input, FORWARDS), Pressed(input, BACKWARDS));
      var sideways := RampSpeed(opts.sideways, Pressed(input, RIGHT), Pressed(input, LEFT));
      var low := WrapI32(-(maxSpeed as int));
      forwards := Min(Max(forwards, low), maxSpeed);
      sideways := Min(Max(sideways, low), maxSpeed);
      rotate := Min(Max(rotate, -8), 8);
      opts := UpdateOpts(forwards, sideways, rotate);
    }

    /**
     * `update_eye_height`, in the player's (possibly new) sector: flying
     * moves by ∓500 on UP/DOWN and clamps to the sector; walking eases
     * halfway toward the target height.
     */
    method UpdateEyeHeight(input: bv16, m: Map) returns (r: Map)
      requires 0 <= m.sector < |m.sectors.sectors|
      ensures var sector := m.sectors.sectors[m.sector];
        r.posZ == if fly then FlyZ(m.posZ, Pressed(input, UP), Pressed(input, DOWN), sector.ceilingZ, sector.floorZ)
                  else WalkZ(m.posZ, Target(sector.floorZ, eyeHeight, Pressed(input, CROUCH)))
      ensures r == m.(posZ := r.posZ)
    {
      var sector := m.sectors.sectors[m.sector];
      var z := m.posZ;
      if fly {
        if Pressed(input, UP) { z := WrapI32(z - 500); }
        if Pressed(input, DOWN) { z := WrapI32(z + 500); }
        z := Max(Min(z, sector.floorZ), sector.ceilingZ);
        assert z == FlyZ(m.posZ, Pressed(input, UP), Pressed(input, DOWN), sector.ceilingZ, sector.floorZ);
      } else {
        var target := WrapI32(sector.floorZ + eyeHeight);
        if Pressed(input, CROUCH) {
          target := WrapI32(target - DivTrunc(eyeHeight, 2));
        }
        assert target == Target(sector.floorZ, eyeHeight, Pressed(input, CROUCH));
        z := WalkZ(z, target);
      }
      r := m.(posZ := z);
    }

    /** `update`: velocities, then the move (and sector switch), then the eye height in the sector reached. */
    method Update(input: bv16, dx: i32, dy: i32, m: Map, ghost n: nat) returns (r: Map)
      requires PlayerLoop(m, n)
      requires NextOpts(opts, input, maxSpeed).forwards == 0 && NextOpts(opts, input, maxSpeed).sideways == 0 ==>
        dx == 0 && dy == 0
      requires forall k :: 0 <= k < n ==> -1 <= PlayerWalls(m, n)[k].1.nextSector < |m.sectors.sectors|
      modifies this
      ensures opts == NextOpts(old(opts), input, maxSpeed)
      ensures maxSpeed == old(maxSpeed) && fly == old(fly) && eyeHeight == old(eyeHeight)
      ensures 0 <= r.sector < |r.sectors.sectors|
      ensures r.angle == WrapI16(m.angle + opts.rotate)
      ensures r.posX == WrapI32(m.posX + dx) && r.posY == WrapI32(m.posY + dy)
      ensures r.sector == SectorAfterMove(m, n, r.posX, r.posY)
      ensures var sector := m.sectors.sectors[r.sector];
        r.posZ == if fly then FlyZ(m.posZ, Pressed(input, UP), Pressed(input, DOWN), sector.ceilingZ, sector.floorZ)
                  else WalkZ(m.posZ, Target(sector.floorZ, eyeHeight, Pressed(input, CROUCH)))
      ensures r == m.(angle := r.angle, sector := r.sector, posX := r.posX, posY := r.posY, posZ := r.posZ)
    {
      UpdateOptions(input);
      var moved := UpdatePlayer(m, opts, dx, dy, n);
      r := UpdateEyeHeight(input, moved);
    }
  }
}
