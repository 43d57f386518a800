/** The direction resolver built in the scene's init: two key bindings merged into one movement
    direction, normalised to unit length. */
module Controls {
  import opened Geometry

  datatype Direction = Left | Right | Up | Down

  /** Which of one binding's four keys are held (the arrow keys, or A, D, W and S). */
  datatype Binding = Binding(left: bool, right: bool, up: bool, down: bool)
  {
    predicate Held(d: Direction)
    {
      match d
      case Left => left
      case Right => right
      case Up => up
      case Down => down
    }
  }

  datatype Keys = Keys(arrows: Binding, wasd: Binding)

  /** isKeyDown: 1 when either binding holds the direction's key, else 0. */
  function IsKeyDown(keys: Keys, d: Direction): (r: int)
    ensures r == 0 || r == 1
    ensures r == 1 <==> keys.arrows.Held(d) || keys.wasd.Held(d)
  {
    if keys.arrows.Held(d) || keys.wasd.Held(d) then 1 else 0
  }

  function PlaneX(keys: Keys): int { IsKeyDown(keys, Right) - IsKeyDown(keys, Left) }

  function PlaneY(keys: Keys): int { IsKeyDown(keys, Down) - IsKeyDown(keys, Up) }

  /** `1 / Math.sqrt(2)` as JavaScript computes it: the double nearest to the quotient of 1 by the
      double nearest to the square root of 2, written out exactly. */
  const DiagonalScale: real := 0.707106781186547461715008466853760182857513427734375

  /** How far the double-precision unit vector may fall short of length 1. */
  const LengthTolerance: real := 0.000000000000001

  /** `1 / Math.sqrt(lengthSquared)` for the only two non-zero squared lengths `planeX` and
      `planeY` can give. */
  function InverseLength(lengthSquared: int): real
    requires lengthSquared == 1 || lengthSquared == 2
  {
    if lengthSquared == 1 then 1.0 else DiagonalScale
  }

  function Sign(v: real): int { if v > 0.0 then 1 else if v < 0.0 then -1 else 0 }

  function LengthSquared(v: Vec): real { v.x * v.x + v.y * v.y }

  /** getDir: the movement direction. Zero exactly when neither axis is pressed; otherwise it keeps
      the sign of each axis, moves equally fast along both on a diagonal, and has length 1 (on a
      diagonal, 1 up to the rounding of the double-precision quotient, never more). */
  function GetDir(keys: Keys): (v: Vec)
    ensures v == Origin <==> PlaneX(keys) == 0 && PlaneY(keys) == 0
    ensures Sign(v.x) == PlaneX(keys) && Sign(v.y) == PlaneY(keys)
    ensures PlaneX(keys) != 0 && PlaneY(keys) != 0 ==> v.x * v.x == v.y * v.y
    ensures v != Origin ==> 1.0 - LengthTolerance < LengthSquared(v) <= 1.0
    ensures v != Origin && (PlaneX(keys) == 0 || PlaneY(keys) == 0) ==> LengthSquared(v) == 1.0
  {
    var planeX, planeY := PlaneX(keys), PlaneY(keys);
    var lengthSquared := planeX * planeX + planeY * planeY;
    if lengthSquared == 0 then Origin
    else
      var scale := InverseLength(lengthSquared);
      Vec(planeX as real * scale, planeY as real * scale)
  }

  /** Pressing a key on either binding, or on both, gives the same direction. */
  lemma BindingsAreInterchangeable(keys: Keys)
    ensures GetDir(Keys(keys.wasd, keys.arrows)) == GetDir(keys)
  {
  }
}
