/** Two-dimensional vectors over the reals, standing in for Unity's `Vector2`. */
module Geometry {
  datatype Vec2 = Vec2(x: real, y: real)

  /** Component-wise scaling, as `Vector2 * float`. */
  function Scale(v: Vec2, k: real): Vec2
  {
    Vec2(v.x * k, v.y * k)
  }
}
