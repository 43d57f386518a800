/** The enemy-vs-wall collider callback registered in create: clamp the enemy back into the game
    area, allowing for its size, and send it off with a random velocity. */
module Collision {
  import opened Geometry

  /** The parts of an enemy sprite the callback reads and writes. */
  datatype Enemy = Enemy(pos: Vec, width: real, height: real, velocity: Vec)

  const ReboundSpeed: real := 200.0

  /** `(Math.random() * 2 - 1) * 200` for a draw `u` of `Math.random()`. */
  function Rebound(u: real): (r: real)
    requires 0.0 <= u < 1.0
    ensures -ReboundSpeed <= r < ReboundSpeed
  {
    (u * 2.0 - 1.0) * ReboundSpeed
  }

  /** Every speed in [-200, 200) is the rebound of exactly one draw, so the map from draws to
      speeds is one-to-one and onto, and a uniform draw gives a uniform speed. */
  lemma ReboundOneToOne(v: real)
    requires -ReboundSpeed <= v < ReboundSpeed
    ensures var u := (v / ReboundSpeed + 1.0) / 2.0; 0.0 <= u < 1.0 && Rebound(u) == v
    ensures forall w | 0.0 <= w < 1.0 && Rebound(w) == v :: w == (v / ReboundSpeed + 1.0) / 2.0
  {
  }

  /** The callback for one contact, given the two random draws. The enemy ends inside the area
      shrunk by its own size (when it fits), an enemy already inside keeps its position, its size
      is untouched, and the new velocity lies in [-200, 200) on each axis whatever it was before. */
  function WallContact(e: Enemy, area: Rect, u1: real, u2: real): (r: Enemy)
    requires 0.0 <= u1 < 1.0 && 0.0 <= u2 < 1.0
    ensures r.width == e.width && r.height == e.height
    ensures r.pos == ClampToArea(e.pos, area, Vec(e.width, e.height))
    ensures r.velocity == Vec(Rebound(u1), Rebound(u2))
    ensures e.width <= area.width && e.height <= area.height ==> InsideArea(r.pos, area, Vec(e.width, e.height))
    ensures InsideArea(e.pos, area, Vec(e.width, e.height)) ==> r.pos == e.pos
    ensures -ReboundSpeed <= r.velocity.x < ReboundSpeed && -ReboundSpeed <= r.velocity.y < ReboundSpeed
  {
    Enemy(ClampToArea(e.pos, area, Vec(e.width, e.height)), e.width, e.height, Vec(Rebound(u1), Rebound(u2)))
  }

  /** The rebound does not depend on the velocity the enemy hit the wall with. */
  lemma ReboundIgnoresIncomingVelocity(e: Enemy, v: Vec, area: Rect, u1: real, u2: real)
    requires 0.0 <= u1 < 1.0 && 0.0 <= u2 < 1.0
    ensures WallContact(e.(velocity := v), area, u1, u2) == WallContact(e, area, u1, u2)
  {
  }

  /** A second contact in a row leaves the position where the first put it. */
  lemma WallContactSettles(e: Enemy, area: Rect, u1: real, u2: real, w1: real, w2: real)
    requires 0.0 <= u1 < 1.0 && 0.0 <= u2 < 1.0 && 0.0 <= w1 < 1.0 && 0.0 <= w2 < 1.0
    ensures WallContact(WallContact(e, area, u1, u2), area, w1, w2).pos == WallContact(e, area, u1, u2).pos
  {
    ClampToAreaIdempotent(e.pos, area, Vec(e.width, e.height));
  }
}
