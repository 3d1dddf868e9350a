/** Shared value types used by every generation of the layout engine:
  * an optional value, the engine's float vectors (with f32 modelled as real)
  * and small helpers on them. */
module Base {

  datatype Option<T> = None | Some(value: T)

  datatype Result<T, E> = Ok(value: T) | Err(error: E)

  /** The contribution of an optional coefficient: its value, or 0 when absent. */
  function Val(o: Option<real>): (r: real)
    ensures o.None? ==> r == 0.0
    ensures o.Some? ==> r == o.value
  {
    match o
    case None => 0.0
    case Some(v) => v
  }

  function Min(a: real, b: real): (r: real)
    ensures r <= a && r <= b && (r == a || r == b)
  {
    if a <= b then a else b
  }

  function Max(a: real, b: real): (r: real)
    ensures r >= a && r >= b && (r == a || r == b)
  {
    if a >= b then a else b
  }

  datatype Vec2 = Vec2(x: real, y: real)
  datatype Vec3 = Vec3(x: real, y: real, z: real)
  datatype Vec4 = Vec4(x: real, y: real, z: real, w: real)

  const Zero2: Vec2 := Vec2(0.0, 0.0)

  /** The contribution of an optional vector coefficient: its value, or zero. */
  function Val2(o: Option<Vec2>): (r: Vec2)
    ensures o.None? ==> r == Zero2
    ensures o.Some? ==> r == o.value
  {
    match o
    case None => Zero2
    case Some(v) => v
  }

  function Splat2(s: real): Vec2 { Vec2(s, s) }
  function Add2(a: Vec2, b: Vec2): Vec2 { Vec2(a.x + b.x, a.y + b.y) }
  function Sub2(a: Vec2, b: Vec2): Vec2 { Vec2(a.x - b.x, a.y - b.y) }
  function Neg2(a: Vec2): Vec2 { Vec2(-a.x, -a.y) }
  /** Component-wise product. */
  function Mul2(a: Vec2, b: Vec2): Vec2 { Vec2(a.x * b.x, a.y * b.y) }
  /** Product with a scalar. */
  function Scale2(a: Vec2, s: real): Vec2 { Vec2(a.x * s, a.y * s) }

  function Add3(a: Vec3, b: Vec3): Vec3 { Vec3(a.x + b.x, a.y + b.y, a.z + b.z) }
  function Sub3(a: Vec3, b: Vec3): Vec3 { Vec3(a.x - b.x, a.y - b.y, a.z - b.z) }
  function Neg3(a: Vec3): Vec3 { Vec3(-a.x, -a.y, -a.z) }

  function Val4(o: Option<Vec4>): (r: Vec4)
    ensures o.None? ==> r == Vec4(0.0, 0.0, 0.0, 0.0)
    ensures o.Some? ==> r == o.value
  {
    match o
    case None => Vec4(0.0, 0.0, 0.0, 0.0)
    case Some(v) => v
  }

  function Add4(a: Vec4, b: Vec4): Vec4 { Vec4(a.x + b.x, a.y + b.y, a.z + b.z, a.w + b.w) }
  function Sub4(a: Vec4, b: Vec4): Vec4 { Vec4(a.x - b.x, a.y - b.y, a.z - b.z, a.w - b.w) }
  function Neg4(a: Vec4): Vec4 { Vec4(-a.x, -a.y, -a.z, -a.w) }
  function Mul4(a: Vec4, b: Vec4): Vec4 { Vec4(a.x * b.x, a.y * b.y, a.z * b.z, a.w * b.w) }
  function Scale4(a: Vec4, s: real): Vec4 { Vec4(a.x * s, a.y * s, a.z * s, a.w * s) }

  /** Scalar arithmetic as first-class values, for the generic slot algebra. */
  function AddReal(a: real, b: real): real { a + b }
  function SubReal(a: real, b: real): real { a - b }
  function NegReal(a: real): real { -a }
  function MulReal(a: real, b: real): real { a * b }

  /** Vector arithmetic as first-class values. */
  function Add2Fn(a: Vec2, b: Vec2): Vec2 { Add2(a, b) }
  function Sub2Fn(a: Vec2, b: Vec2): Vec2 { Sub2(a, b) }
  function Neg2Fn(a: Vec2): Vec2 { Neg2(a) }

  /** Component accessors of a Vec2, used to read or replace one axis. */
  function X2(p: Vec2): real { p.x }
  function Y2(p: Vec2): real { p.y }
  function PutX2(p: Vec2, c: real): Vec2 { p.(x := c) }
  function PutY2(p: Vec2, c: real): Vec2 { p.(y := c) }
  /** The vector a newly created slot gets: the given axis set, the other 0. */
  function FreshX2(c: real): Vec2 { Vec2(c, 0.0) }
  function FreshY2(c: real): Vec2 { Vec2(0.0, c) }

  /** The same for the four axes of a Vec4. */
  function X4(p: Vec4): real { p.x }
  function Y4(p: Vec4): real { p.y }
  function Z4(p: Vec4): real { p.z }
  function W4(p: Vec4): real { p.w }
  function PutX4(p: Vec4, c: real): Vec4 { p.(x := c) }
  function PutY4(p: Vec4, c: real): Vec4 { p.(y := c) }
  function PutZ4(p: Vec4, c: real): Vec4 { p.(z := c) }
  function PutW4(p: Vec4, c: real): Vec4 { p.(w := c) }
  function FreshX4(c: real): Vec4 { Vec4(c, 0.0, 0.0, 0.0) }
  function FreshY4(c: real): Vec4 { Vec4(0.0, c, 0.0, 0.0) }
  function FreshZ4(c: real): Vec4 { Vec4(0.0, 0.0, c, 0.0) }
  function FreshW4(c: real): Vec4 { Vec4(0.0, 0.0, 0.0, c) }
}
