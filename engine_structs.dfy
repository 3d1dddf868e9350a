/** Rectangles of the lunex_engine crate (crates/lunex_engine/src/common/structs.rs):
  * the computed area of a node, as a 2D position and size, and its 3D form
  * with a depth and three rotation angles. */
module EngineStructs {
  import opened Base

  datatype Rectangle2D = Rectangle2D(pos: Vec2, size: Vec2)

  datatype Rectangle3D = Rectangle3D(pos: Vec3, size: Vec2, roll: real, yaw: real, tilt: real)

  /** `Rectangle2D::EMPTY`, which `new()` returns. */
  const Empty: Rectangle2D := Rectangle2D(Zero2, Zero2)

  function New(): (r: Rectangle2D)
    ensures r.pos.x == 0.0 && r.pos.y == 0.0 && r.size.x == 0.0 && r.size.y == 0.0
  {
    Empty
  }

  /** `with_pos`: only the position changes. */
  function WithPos(r: Rectangle2D, pos: Vec2): (o: Rectangle2D)
    ensures o.pos == pos && o.size == r.size
  {
    r.(pos := pos)
  }

  /** `with_x`: only the x position changes. */
  function WithX(r: Rectangle2D, x: real): (o: Rectangle2D)
    ensures o.pos.x == x && o.pos.y == r.pos.y && o.size == r.size
  {
    r.(pos := r.pos.(x := x))
  }

  /** `with_y`: only the y position changes. */
  function WithY(r: Rectangle2D, y: real): (o: Rectangle2D)
    ensures o.pos.y == y && o.pos.x == r.pos.x && o.size == r.size
  {
    r.(pos := r.pos.(y := y))
  }

  /** `with_size`: only the size changes. */
  function WithSize(r: Rectangle2D, size: Vec2): (o: Rectangle2D)
    ensures o.size == size && o.pos == r.pos
  {
    r.(size := size)
  }

  /** `with_width`: only the width changes. */
  function WithWidth(r: Rectangle2D, w: real): (o: Rectangle2D)
    ensures o.size.x == w && o.size.y == r.size.y && o.pos == r.pos
  {
    r.(size := r.size.(x := w))
  }

  /** `with_height`: only the height changes. */
  function WithHeight(r: Rectangle2D, h: real): (o: Rectangle2D)
    ensures o.size.y == h && o.size.x == r.size.x && o.pos == r.pos
  {
    r.(size := r.size.(y := h))
  }

  /** `Into<Rectangle3D> for Rectangle2D`: depth 0, no rotation. */
  function To3D(r: Rectangle2D): (o: Rectangle3D)
    ensures o.pos.x == r.pos.x && o.pos.y == r.pos.y && o.pos.z == 0.0
    ensures o.size == r.size && o.roll == 0.0 && o.yaw == 0.0 && o.tilt == 0.0
  {
    Rectangle3D(Vec3(r.pos.x, r.pos.y, 0.0), r.size, 0.0, 0.0, 0.0)
  }

  /** `Into<Rectangle2D> for Rectangle3D`: depth and rotations are dropped. */
  function To2D(r: Rectangle3D): (o: Rectangle2D)
    ensures o.pos == Vec2(r.pos.x, r.pos.y) && o.size == r.size
  {
    Rectangle2D(Vec2(r.pos.x, r.pos.y), r.size)
  }

  /** 2D to 3D and back is the identity; 3D to 2D and back keeps x, y and
    * size and resets depth and rotations. */
  lemma RoundTrips(r: Rectangle2D, q: Rectangle3D)
    ensures To2D(To3D(r)) == r
    ensures To3D(To2D(q)) == q.(pos := q.pos.(z := 0.0), roll := 0.0, yaw := 0.0, tilt := 0.0)
    ensures To3D(To2D(q)) == q <==> q.pos.z == 0.0 && q.roll == 0.0 && q.yaw == 0.0 && q.tilt == 0.0
  {
  }

  /** Setting one coordinate and then another commutes, and setting both is
    * `with_pos`. */
  lemma SettersCompose(r: Rectangle2D, x: real, y: real, w: real, h: real)
    ensures WithY(WithX(r, x), y) == WithX(WithY(r, y), x) == WithPos(r, Vec2(x, y))
    ensures WithHeight(WithWidth(r, w), h) == WithWidth(WithHeight(r, h), w) == WithSize(r, Vec2(w, h))
  {
  }
}
