/** crates/bevy_lunex_ui/src/code/conversion.rs: conversion into the layout's
  * coordinates and the axis inversions of the bevy_lunex_ui crate. */
module UiConversion {
  import opened Base
  import P = PathUtil

  function AsLunex(v: Vec2, offset: Vec2): (r: Vec2)
    ensures r.x == v.x - offset.x && r.y == offset.y - v.y
    ensures r == P.AsLunex(v, offset)
  {
    Vec2(v.x - offset.x, offset.y - v.y)
  }

  function InvertX(v: Vec2): (r: Vec2)
    ensures r.x == -v.x && r.y == v.y
  {
    v.(x := v.x * -1.0)
  }

  function InvertY(v: Vec2): (r: Vec2)
    ensures r.x == v.x && r.y == -v.y
  {
    v.(y := v.y * -1.0)
  }

  function InvertXY(v: Vec2): (r: Vec2)
    ensures r == Neg2(v)
  {
    Vec2(v.x * -1.0, v.y * -1.0)
  }

  /** Each inversion undoes itself, and inverting both axes is inverting one
    * after the other, in either order. */
  lemma InversionLaws(v: Vec2)
    ensures InvertX(InvertX(v)) == v && InvertY(InvertY(v)) == v && InvertXY(InvertXY(v)) == v
    ensures InvertXY(v) == InvertY(InvertX(v)) == InvertX(InvertY(v))
  {
  }

  /** Converting back: flipping y and adding the offset restores the point. */
  lemma AsLunexInverse(v: Vec2, offset: Vec2)
    ensures Add2(InvertY(AsLunex(v, offset)), offset) == v
  {
  }
}
