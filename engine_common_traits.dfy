/** `YInvert` of the lunex_engine crate (crates/lunex_engine/src/common/traits.rs):
  * flipping the y axis between the layout's and the renderer's coordinate
  * systems. */
module EngineCommonTraits {
  import opened Base

  function InvertY2(v: Vec2): (r: Vec2)
    ensures r.x == v.x && r.y == -v.y
  {
    v.(y := v.y * -1.0)
  }

  function InvertY3(v: Vec3): (r: Vec3)
    ensures r.x == v.x && r.y == -v.y && r.z == v.z
  {
    v.(y := v.y * -1.0)
  }

  function InvertY4(v: Vec4): (r: Vec4)
    ensures r.x == v.x && r.y == -v.y && r.z == v.z && r.w == v.w
  {
    v.(y := v.y * -1.0)
  }

  /** Each inversion is an involution. */
  lemma InvertYInvolution(a: Vec2, b: Vec3, c: Vec4)
    ensures InvertY2(InvertY2(a)) == a
    ensures InvertY3(InvertY3(b)) == b
    ensures InvertY4(InvertY4(c)) == c
  {
  }
}
