/** Positions, the game area rectangle and the clamp that keeps bodies inside it. */
module Geometry {

  datatype Vec = Vec(x: real, y: real)

  /** A rectangle given by its centre and its size, as Phaser places a rectangle game object. */
  datatype Rect = Rect(x: real, y: real, width: real, height: real)

  /** The area players and enemies stay in: centre (400, 260), 650 wide, 330 high. */
  const GameArea: Rect := Rect(400.0, 260.0, 650.0, 330.0)

  const Origin: Vec := Vec(0.0, 0.0)

  /** `c - half <= v <= c + half`. */
  predicate Within(v: real, c: real, half: real)
  {
    c - half <= v <= c + half
  }

  function Min(a: real, b: real): real { if a <= b then a else b }

  function Max(a: real, b: real): real { if a >= b then a else b }

  /** Phaser.Math.Clamp: `Math.max(min, Math.min(max, value))`. When the bounds cross, the
      lower bound wins. */
  function Clamp(v: real, lo: real, hi: real): (r: real)
    ensures lo <= hi ==> lo <= r <= hi
    ensures lo <= v <= hi ==> r == v
    ensures v < lo ==> r == lo
    ensures lo <= hi < v ==> r == hi
    ensures hi < lo ==> r == lo
  {
    Max(lo, Min(hi, v))
  }

  /** Clamping twice is clamping once. */
  lemma ClampIdempotent(v: real, lo: real, hi: real)
    ensures Clamp(Clamp(v, lo, hi), lo, hi) == Clamp(v, lo, hi)
  {
  }

  /** Half of the room left in `area` along each axis for a body of size `inset`. */
  function HalfRoom(area: Rect, inset: Vec): Vec
  {
    Vec((area.width - inset.x) / 2.0, (area.height - inset.y) / 2.0)
  }

  /** `p` lies in `area` shrunk by half of `inset` on every side. */
  predicate InsideArea(p: Vec, area: Rect, inset: Vec)
  {
    Within(p.x, area.x, HalfRoom(area, inset).x) && Within(p.y, area.y, HalfRoom(area, inset).y)
  }

  /** The clamp applied to a body of size `inset` in `area`, each axis on its own: the player uses
      it with size zero, an enemy touching a wall with its own width and height. An axis outside
      goes to the nearer bound. */
  function ClampToArea(p: Vec, area: Rect, inset: Vec): (r: Vec)
    ensures inset.x <= area.width && inset.y <= area.height ==> InsideArea(r, area, inset)
    ensures InsideArea(p, area, inset) ==> r == p
    ensures Within(p.x, area.x, HalfRoom(area, inset).x) ==> r.x == p.x
    ensures Within(p.y, area.y, HalfRoom(area, inset).y) ==> r.y == p.y
    ensures var room := HalfRoom(area, inset);
      && (p.x < area.x - room.x ==> r.x == area.x - room.x)
      && (area.x - room.x <= area.x + room.x < p.x ==> r.x == area.x + room.x)
      && (p.y < area.y - room.y ==> r.y == area.y - room.y)
      && (area.y - room.y <= area.y + room.y < p.y ==> r.y == area.y + room.y)
  {
    var room := HalfRoom(area, inset);
    Vec(Clamp(p.x, area.x - room.x, area.x + room.x), Clamp(p.y, area.y - room.y, area.y + room.y))
  }

  /** Clamping a clamped position changes nothing, whatever the sizes. */
  lemma ClampToAreaIdempotent(p: Vec, area: Rect, inset: Vec)
    ensures ClampToArea(ClampToArea(p, area, inset), area, inset) == ClampToArea(p, area, inset)
  {
    var room := HalfRoom(area, inset);
    ClampIdempotent(p.x, area.x - room.x, area.x + room.x);
    ClampIdempotent(p.y, area.y - room.y, area.y + room.y);
  }

  /** A clamp moves a position exactly when it lies outside the shrunk area. */
  lemma ClampToAreaMovesOnlyOutside(p: Vec, area: Rect, inset: Vec)
    requires inset.x <= area.width && inset.y <= area.height
    ensures ClampToArea(p, area, inset) == p <==> InsideArea(p, area, inset)
  {
  }
}
