/**
 * `map/src/player.rs`: the 16-byte player start record and the integer part
 * of `Angle::to_radians`, the 11-bit mask `angle & 0x7ff`.
 */
module MapPlayer {
  import opened Ints
  import opened Bytes

  /** Starting position, orientation (a Build angle) and sector of the player. */
  datatype Player = Player(posX: i32, posY: i32, posZ: i32, angle: i16, sector: i16)

  const PLAYER_SIZE: nat := 16

  /** The player record whose 16 bytes start at offset i. */
  function PlayerAt(s: seq<byte>, i: nat): Player
    requires i + PLAYER_SIZE <= |s|
  {
    Player(I32At(s, i), I32At(s, i + 4), I32At(s, i + 8), I16At(s, i + 12), I16At(s, i + 14))
  }

  /** `Player::from_reader` from offset i: a short read fails with `Io`. */
  function DecodePlayer(s: seq<byte>, i: nat): Result<Player>
  {
    if i + PLAYER_SIZE <= |s| then Ok(PlayerAt(s, i)) else Err(Io)
  }

  /** The 16 bytes a player record is stored as. */
  function EncodePlayer(p: Player): (r: seq<byte>)
    ensures |r| == PLAYER_SIZE
  {
    LeI32(p.posX) + LeI32(p.posY) + LeI32(p.posZ) + LeI16(p.angle) + LeI16(p.sector)
  }

  /** Decoding an encoded player gives it back. */
  lemma PlayerRoundTrip(p: Player)
    ensures DecodePlayer(EncodePlayer(p), 0) == Ok(p)
  {
    var e := EncodePlayer(p);
    U32Window(e, 0, LeI32(p.posX), 0);
    U32Window(e, 4, LeI32(p.posY), 0);
    U32Window(e, 8, LeI32(p.posZ), 0);
    U16Window(e, 12, LeI16(p.angle), 0);
    U16Window(e, 14, LeI16(p.sector), 0);
  }

  /** Re-encoding a decoded player gives its bytes: no byte of the record is ignored. */
  lemma PlayerBytes(s: seq<byte>, i: nat)
    requires i + PLAYER_SIZE <= |s|
    ensures EncodePlayer(PlayerAt(s, i)) == s[i..i + PLAYER_SIZE]
  {
    I32Bytes(s, i);
    I32Bytes(s, i + 4);
    I32Bytes(s, i + 8);
    I16Bytes(s, i + 12);
    I16Bytes(s, i + 14);
  }

  /** `Player::from_reader`: pos_x, pos_y, pos_z (i32), angle, sector (i16), little-endian. */
  method ReadPlayer(r: Reader) returns (res: Result<Player>)
    requires r.Valid()
    modifies r
    ensures r.Valid()
    ensures res == DecodePlayer(r.data, old(r.pos))
    ensures res.Ok? ==> r.pos == old(r.pos) + PLAYER_SIZE
  {
    var posX :- r.ReadI32();
    var posY :- r.ReadI32();
    var posZ :- r.ReadI32();
    var angle :- r.ReadI16();
    var sector :- r.ReadI16();
    res := Ok(Player(posX, posY, posZ, angle, sector));
  }

  // ---- angles --------------------------------------------------------------

  /** `RANGE` in `to_radians`. */
  const ANGLE_MASK: u16 := 0x7FF

  /** `self.0 & RANGE`: the AND of the angle's two's-complement pattern with 0x7ff. */
  function MaskedAngle(a: i16): nat
  {
    And(FromI16(a), ANGLE_MASK)
  }

  /** The mask is the Euclidean remainder mod 2048, negative angles included. */
  lemma MaskedAngleMod(a: i16)
    ensures MaskedAngle(a) == a % 0x800
  {
    var x := FromI16(a);
    Pow2Values();
    AndLowMask(x, 11);
    assert MaskedAngle(a) == x % 0x800;
    if a < 0 {
      // The pattern is a + 2^16, and 2^16 is 32 whole turns.
      assert x == a + 0x1_0000;
      DivModUnique(x, 0x800, a / 0x800 + 32, a % 0x800);
    }
  }

  /** Every masked angle lies in 0..=2047, the range the doc comment promises. */
  lemma MaskedAngleRange(a: i16)
    ensures 0 <= MaskedAngle(a) <= 2047
  {
  }

  /** Angles a whole turn apart mask to the same value. */
  lemma MaskedAngleTurn(a: i16)
    requires a + 0x800 < 0x8000
    ensures MaskedAngle(a + 0x800) == MaskedAngle(a)
  {
    MaskedAngleMod(a);
    MaskedAngleMod(a + 0x800);
    DivModUnique(a + 0x800, 0x800, a / 0x800 + 1, a % 0x800);
  }
}
