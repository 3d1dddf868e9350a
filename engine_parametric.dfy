/** The parametric `Div` of the lunex_engine crate
  * (crates/lunex_engine/src/layout/parametric.rs): a box whose padding,
  * border and margin are `NodeSize<Vec4>` values read as (left, top, right,
  * bottom), with by-value setters for whole edges, one side or one axis, and
  * the arithmetic that sizes the box around its content. */
module EngineParametric {
  import opened Base
  import S = EngineSize

  /** How a div sizes itself; `Normal` is the default. */
  datatype Sizing = Minimal | Normal | Maximal

  datatype Div = Div(
    sizing: Sizing,
    minSize: Option<S.NodeSize<Vec2>>,
    maxSize: Option<S.NodeSize<Vec2>>,
    padding: S.NodeSize<Vec4>,
    border: S.NodeSize<Vec4>,
    margin: S.NodeSize<Vec4>,
    forceBreak: bool,
    alignX: Option<real>,
    alignY: Option<real>)

  /** The three insets a div carries. */
  datatype Edge = Padding | Border | Margin

  /** The four sides of an inset, stored in x, y, z and w. */
  datatype Side = Left | Top | Right | Bottom

  function EdgeOf(d: Div, e: Edge): S.NodeSize<Vec4>
  {
    match e
    case Padding => d.padding
    case Border => d.border
    case Margin => d.margin
  }

  function PutEdge(d: Div, e: Edge, v: S.NodeSize<Vec4>): Div
  {
    match e
    case Padding => d.(padding := v)
    case Border => d.(border := v)
    case Margin => d.(margin := v)
  }

  /** The Vec4 axis a side is stored in. */
  function Component(side: Side): Vec4 -> real
  {
    match side
    case Left => X4
    case Top => Y4
    case Right => Z4
    case Bottom => W4
  }

  /** `NodeSize<Vec4>::set_x`..`set_w` for the axis of a side. */
  function WithSide(v: S.NodeSize<Vec4>, side: Side, c: S.NodeSize<real>): S.NodeSize<Vec4>
  {
    match side
    case Left => S.WithX4(v, c)
    case Top => S.WithY4(v, c)
    case Right => S.WithZ4(v, c)
    case Bottom => S.WithW4(v, c)
  }

  /** `Div::new()`, which is `Div::default()`. */
  function DivNew(): (d: Div)
    ensures d.sizing == Normal && d.minSize.None? && d.maxSize.None? && !d.forceBreak
    ensures d.alignX.None? && d.alignY.None?
    ensures forall e, u :: S.Slot(EdgeOf(d, e), u).None?
  {
    Div(Normal, None, None, S.New(), S.New(), S.New(), false, None, None)
  }

  /** `pad`, `border`, `margin`: replace a whole inset. */
  function SetEdge(d: Div, e: Edge, v: S.NodeSize<Vec4>): (r: Div)
    ensures EdgeOf(r, e) == v
    ensures forall e' :: e' != e ==> EdgeOf(r, e') == EdgeOf(d, e')
    ensures r.forceBreak == d.forceBreak && r.sizing == d.sizing
  {
    PutEdge(d, e, v)
  }

  /** `pad_l`/`pad_t`/`pad_r`/`pad_b` and the border and margin siblings:
    * `set_x`..`set_w` on one side of one inset. */
  function SetSide(d: Div, e: Edge, side: Side, c: S.NodeSize<real>): (r: Div)
    ensures forall e' :: e' != e ==> EdgeOf(r, e') == EdgeOf(d, e')
    ensures r.forceBreak == d.forceBreak && r.sizing == d.sizing
  {
    PutEdge(d, e, WithSide(EdgeOf(d, e), side, c))
  }

  /** `pad_x`, `border_x`, `margin_x`: the x coefficients of the argument
    * are written into the left (x) and the right (z) side. */
  function SetHorizontal(d: Div, e: Edge, v: S.NodeSize<Vec2>): (r: Div)
    ensures forall e' :: e' != e ==> EdgeOf(r, e') == EdgeOf(d, e')
  {
    var c := S.GetX(v);
    PutEdge(d, e, S.WithZ4(S.WithX4(EdgeOf(d, e), c), c))
  }

  /** `pad_y`, `border_y`, `margin_y`: the y coefficients of the argument
    * are written into the top (y) and the bottom (w) side. */
  function SetVertical(d: Div, e: Edge, v: S.NodeSize<Vec2>): (r: Div)
    ensures forall e' :: e' != e ==> EdgeOf(r, e') == EdgeOf(d, e')
  {
    var c := S.GetY(v);
    PutEdge(d, e, S.WithW4(S.WithY4(EdgeOf(d, e), c), c))
  }

  /** `br`: force a line break after this div, nothing else. */
  function Br(d: Div): (r: Div)
    ensures r.forceBreak
    ensures r.(forceBreak := d.forceBreak) == d
  {
    d.(forceBreak := true)
  }

  /** `compute_padding`, `compute_border`, `compute_margin`: the inset
    * evaluated against (parent.x, parent.y, parent.x, parent.y). */
  function ComputeEdge(d: Div, e: Edge, parentSize: Vec2, scale: real, font: real): (r: Vec4)
    ensures EdgeOf(d, e) == S.New() ==> r == Vec4(0.0, 0.0, 0.0, 0.0)
    ensures scale == 0.0 && parentSize == Zero2 && font == 0.0 ==> r == Vec4(0.0, 0.0, 0.0, 0.0)
  {
    S.Evaluate4(EdgeOf(d, e), scale, Vec4(parentSize.x, parentSize.y, parentSize.x, parentSize.y), font)
  }

  /** `compute_size`: the content plus padding and border on both sides of
    * each axis. */
  function ComputeSize(content: Vec2, padding: Vec4, border: Vec4): (r: Vec2)
    ensures r.x - content.x == (padding.x + padding.z) + (border.x + border.z)
    ensures r.y - content.y == (padding.y + padding.w) + (border.y + border.w)
  {
    Vec2(border.x + padding.x + content.x + padding.z + border.z,
         border.y + padding.y + content.y + padding.w + border.w)
  }

  // ---------------------------------------------------------------------
  // Properties

  /** Setting one side reads back the new coefficients on that side, keeps
    * the other sides of every present slot, and gives a slot it creates 0
    * on the other sides. */
  lemma SetSideOnlyThatSide(d: Div, e: Edge, side: Side, c: S.NodeSize<real>)
    ensures var before, after := EdgeOf(d, e), EdgeOf(SetSide(d, e, side, c), e);
            forall u :: S.Slot(S.GetComponent(after, Component(side)), u)
                     == if S.Slot(c, u).Some? then S.Slot(c, u) else S.Slot(S.GetComponent(before, Component(side)), u)
    ensures var before, after := EdgeOf(d, e), EdgeOf(SetSide(d, e, side, c), e);
            forall other: Side, u :: other != side ==>
              S.Slot(S.GetComponent(after, Component(other)), u)
              == if S.Slot(before, u).Some? then S.Slot(S.GetComponent(before, Component(other)), u)
                 else if S.Slot(c, u).Some? then Some(0.0) else None
  {
    EdgeOfPutEdge(d, e, WithSide(EdgeOf(d, e), side, c));
  }

  /** `pad_x` puts the argument's x coefficients on the left and the right
    * side and leaves the top and bottom of every present slot alone. */
  lemma SetHorizontalBothSides(d: Div, e: Edge, v: S.NodeSize<Vec2>)
    ensures var after := EdgeOf(SetHorizontal(d, e, v), e);
            forall u :: S.Slot(v, u).Some? ==>
              S.Slot(S.GetX4(after), u) == S.Slot(S.GetX(v), u) && S.Slot(S.GetZ4(after), u) == S.Slot(S.GetX(v), u)
    ensures forall u :: S.Slot(v, u).None? ==> S.Slot(EdgeOf(SetHorizontal(d, e, v), e), u) == S.Slot(EdgeOf(d, e), u)
    ensures var before, after := EdgeOf(d, e), EdgeOf(SetHorizontal(d, e, v), e);
            forall u :: S.Slot(before, u).Some? ==>
              S.Slot(S.GetY4(after), u) == S.Slot(S.GetY4(before), u) && S.Slot(S.GetW4(after), u) == S.Slot(S.GetW4(before), u)
  {
    var c := S.GetX(v);
    EdgeOfPutEdge(d, e, S.WithZ4(S.WithX4(EdgeOf(d, e), c), c));
  }

  lemma EdgeOfPutEdge(d: Div, e: Edge, v: S.NodeSize<Vec4>)
    ensures EdgeOf(PutEdge(d, e, v), e) == v
  {
  }

  /** Each evaluated side is the scalar evaluation of that side, with
    * percentages of the parent's width for left/right and of its height for
    * top/bottom. */
  lemma ComputeEdgeSides(d: Div, e: Edge, parentSize: Vec2, scale: real, font: real)
    ensures var r, v := ComputeEdge(d, e, parentSize, scale, font), EdgeOf(d, e);
            r.x == S.Evaluate(S.GetX4(v), scale, parentSize.x, font)
            && r.z == S.Evaluate(S.GetZ4(v), scale, parentSize.x, font)
            && r.y == S.Evaluate(S.GetY4(v), scale, parentSize.y, font)
            && r.w == S.Evaluate(S.GetW4(v), scale, parentSize.y, font)
  {
    S.Evaluate4Axes(EdgeOf(d, e), scale, Vec4(parentSize.x, parentSize.y, parentSize.x, parentSize.y), font);
  }

  /** A new div given `pad_x(Abs((p, q)))` is `2 * p * scale` wider than its
    * content and exactly as high. */
  lemma PadXWidens(content: Vec2, p: real, q: real, parentSize: Vec2, scale: real, font: real)
    ensures var d := SetHorizontal(DivNew(), Padding, S.FromUnit(S.Abs, Vec2(p, q)));
            ComputeSize(content, ComputeEdge(d, Padding, parentSize, scale, font), ComputeEdge(d, Border, parentSize, scale, font))
            == Vec2(content.x + 2.0 * p * scale, content.y)
  {
    var d := SetHorizontal(DivNew(), Padding, S.FromUnit(S.Abs, Vec2(p, q)));
    var expected := S.FromUnit(S.Abs, Vec4(p, 0.0, p, 0.0));
    S.SameSlots(d.padding, expected);
    var none: S.NodeSize<Vec4> := S.New();
    assert none.abs == S.Slot(none, S.Abs) && none.prc == S.Slot(none, S.Prc) && none.rem == S.Slot(none, S.Rem);
    assert expected.abs == S.Slot(expected, S.Abs) && expected.prc == S.Slot(expected, S.Prc) && expected.rem == S.Slot(expected, S.Rem);
  }
}
