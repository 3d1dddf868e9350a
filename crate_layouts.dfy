/** The layouts of the newest crate (crate/src/layouts.rs). Unlike the
  * lunex_engine generation, every rectangle here is centre-relative: `pos`
  * is the offset of the node's centre from its parent's centre, while the
  * user's values are measured from the parent's top-left corner with y
  * growing downwards. The parent's own position is never read. */
module CrateLayouts {
  import opened Base
  import U = CrateUnits
  import L = EngineLayout
  import opened EngineStructs

  /** Bevy's sprite `Anchor`, of which the layouts only use `as_vec()`. */
  datatype Anchor =
    | Center | BottomLeft | BottomCenter | BottomRight | CenterLeft | CenterRight
    | TopLeft | TopCenter | TopRight | Custom(point: Vec2)

  /** `Anchor::as_vec`: the anchor's offset from the centre in units of the
    * size, with y growing upwards. */
  function AnchorVec(a: Anchor): Vec2
  {
    match a
    case Center => Vec2(0.0, 0.0)
    case BottomLeft => Vec2(-0.5, -0.5)
    case BottomCenter => Vec2(0.0, -0.5)
    case BottomRight => Vec2(0.5, -0.5)
    case CenterLeft => Vec2(-0.5, 0.0)
    case CenterRight => Vec2(0.5, 0.0)
    case TopLeft => Vec2(-0.5, 0.5)
    case TopCenter => Vec2(0.0, 0.5)
    case TopRight => Vec2(0.5, 0.5)
    case Custom(p) => p
  }

  datatype Boundary = Boundary(pos1: U.UiValue<Vec2>, pos2: U.UiValue<Vec2>)
  datatype Window = Window(pos: U.UiValue<Vec2>, anchor: Anchor, size: U.UiValue<Vec2>)
  /** The scaling modes are those of the lunex_engine `Solid`, with `Fit` the default. */
  datatype Solid = Solid(size: U.UiValue<Vec2>, alignX: real, alignY: real, scaling: L.Scaling)

  datatype LayoutType = BoundaryType(boundary: Boundary) | WindowType(window: Window) | SolidType(solid: Solid)

  /** `f32::lerp`: `a + (b - a) * t`. */
  function Lerp(a: real, b: real, t: real): real
  {
    a + (b - a) * t
  }

  function Lerp2(a: Vec2, b: Vec2, t: real): Vec2
  {
    Vec2(Lerp(a.x, b.x, t), Lerp(a.y, b.y, t))
  }

  /** `Rectangle2D::lerp`: position and size interpolated component-wise. */
  function RectLerp(a: Rectangle2D, b: Rectangle2D, t: real): (r: Rectangle2D)
    ensures t == 0.0 ==> r == a
    ensures t == 1.0 ==> r == b
  {
    Rectangle2D(Lerp2(a.pos, b.pos, t), Lerp2(a.size, b.size, t))
  }

  /** The evaluation every layout performs: scale and font size splatted. */
  function Eval(v: U.UiValue<Vec2>, parent: Rectangle2D, scale: real, viewport: Vec2, font: real): Vec2
  {
    U.Evaluate2(v, Splat2(scale), parent.size, viewport, Splat2(font))
  }

  /** `UiLayoutTypeBoundary::compute`: size is `pos2 - pos1`, and the centre
    * is half of it past `pos1`, relative to the parent's centre. */
  function BoundaryCompute(b: Boundary, parent: Rectangle2D, scale: real, viewport: Vec2, font: real): (r: Rectangle2D)
    ensures var p1, p2 := Eval(b.pos1, parent, scale, viewport, font), Eval(b.pos2, parent, scale, viewport, font);
            Add2(Sub2(r.pos, Scale2(r.size, 0.5)), Scale2(parent.size, 0.5)) == p1
            && Add2(Add2(r.pos, Scale2(r.size, 0.5)), Scale2(parent.size, 0.5)) == p2
  {
    var p1 := Eval(b.pos1, parent, scale, viewport, font);
    var p2 := Eval(b.pos2, parent, scale, viewport, font);
    var size := Sub2(p2, p1);
    BoundaryPlaced(p1, p2, parent.size);
    Rectangle2D(Vec2(-parent.size.x / 2.0 + p1.x + size.x / 2.0, -parent.size.y / 2.0 + p1.y + size.y / 2.0), size)
  }

  /** The rectangle `BoundaryCompute` picks has its corners at `p1` and `p2`. */
  lemma BoundaryPlaced(p1: Vec2, p2: Vec2, parentSize: Vec2)
    ensures var size := Sub2(p2, p1);
            var r := Rectangle2D(Vec2(-parentSize.x / 2.0 + p1.x + size.x / 2.0, -parentSize.y / 2.0 + p1.y + size.y / 2.0), size);
            Add2(Sub2(r.pos, Scale2(r.size, 0.5)), Scale2(parentSize, 0.5)) == p1
            && Add2(Add2(r.pos, Scale2(r.size, 0.5)), Scale2(parentSize, 0.5)) == p2
  {
  }

  /** `UiLayoutTypeWindow::compute`: the anchor (with y flipped to grow
    * downwards) is the point of the window placed at `pos`. */
  function WindowCompute(w: Window, parent: Rectangle2D, scale: real, viewport: Vec2, font: real): (r: Rectangle2D)
    ensures var a := AnchorVec(w.anchor);
            r.size == Eval(w.size, parent, scale, viewport, font)
            && Add2(Add2(r.pos, Mul2(r.size, Vec2(a.x, -a.y))), Scale2(parent.size, 0.5)) == Eval(w.pos, parent, scale, viewport, font)
  {
    var pos := Eval(w.pos, parent, scale, viewport, font);
    var size := Eval(w.size, parent, scale, viewport, font);
    var a := AnchorVec(w.anchor);
    var anchor := Vec2(a.x, -a.y);
    AnchorPlaced(pos, size, anchor, parent.size);
    Rectangle2D(Vec2(-parent.size.x / 2.0 + pos.x - size.x * anchor.x, -parent.size.y / 2.0 + pos.y - size.y * anchor.y), size)
  }

  /** The corner `WindowCompute` picks puts the anchor point at `pos`. */
  lemma AnchorPlaced(pos: Vec2, size: Vec2, anchor: Vec2, parentSize: Vec2)
    ensures var corner := Vec2(-parentSize.x / 2.0 + pos.x - size.x * anchor.x, -parentSize.y / 2.0 + pos.y - size.y * anchor.y);
            Add2(Add2(corner, Mul2(size, anchor)), Scale2(parentSize, 0.5)) == pos
  {
  }

  /** `UiLayoutTypeSolid::compute`: the scaled ratio, centred, with its
    * centre moved by `align` times the free half-space on each axis. */
  function SolidCompute(s: Solid, parent: Rectangle2D, scale: real, viewport: Vec2, font: real): (r: Rectangle2D)
    requires L.Divisible(s.scaling, Eval(s.size, parent, scale, viewport, font))
    ensures var e := Eval(s.size, parent, scale, viewport, font); r.size.x * e.y == r.size.y * e.x
    ensures s.scaling == L.HorFill ==> r.size.x == parent.size.x
    ensures s.scaling == L.VerFill ==> r.size.y == parent.size.y
    ensures s.alignX == L.Center && s.alignY == L.Center ==> r.pos == Zero2
  {
    var size := Eval(s.size, parent, scale, viewport, font);
    var k := L.SolidScale(s.scaling, parent.size, size);
    var w, h := size.x * k, size.y * k;
    assert w * size.y == h * size.x by {
      assert size.x * k * size.y == size.y * k * size.x;
    }
    assert s.scaling == L.HorFill ==> w == parent.size.x;
    assert s.scaling == L.VerFill ==> h == parent.size.y;
    var center := Vec2(parent.size.x / 2.0, parent.size.y / 2.0);
    var point := Vec2(center.x - w / 2.0, center.y - h / 2.0);
    Rectangle2D(Vec2(point.x * s.alignX, point.y * s.alignY), Vec2(w, h))
  }

  /** The divisions a layout type performs are defined. */
  predicate Computable(l: LayoutType, parent: Rectangle2D, scale: real, viewport: Vec2, font: real)
  {
    l.SolidType? ==> L.Divisible(l.solid.scaling, Eval(l.solid.size, parent, scale, viewport, font))
  }

  /** `UiLayoutType::compute`: the wrapped variant's own compute. */
  function LayoutCompute(l: LayoutType, parent: Rectangle2D, scale: real, viewport: Vec2, font: real): (r: Rectangle2D)
    requires Computable(l, parent, scale, viewport, font)
    ensures l.BoundaryType? ==> r == BoundaryCompute(l.boundary, parent, scale, viewport, font)
    ensures l.WindowType? ==> r == WindowCompute(l.window, parent, scale, viewport, font)
    ensures l.SolidType? ==> r == SolidCompute(l.solid, parent, scale, viewport, font)
  {
    match l
    case BoundaryType(b) => BoundaryCompute(b, parent, scale, viewport, font)
    case WindowType(w) => WindowCompute(w, parent, scale, viewport, font)
    case SolidType(s) => SolidCompute(s, parent, scale, viewport, font)
  }

  /** `UiLayoutTypeWindow::new()`: empty position and size, anchored top-left. */
  function WindowNew(): (w: Window)
    ensures w.anchor == TopLeft
    ensures forall u :: U.Slot(w.pos, u).None? && U.Slot(w.size, u).None?
  {
    Window(U.New(), TopLeft, U.New())
  }

  /** `UiLayoutTypeWindow::full`: the size becomes `Rl(100)` on both axes. */
  function WindowFull(w: Window): (r: Window)
    ensures r.pos == w.pos && r.anchor == w.anchor
    ensures U.Slot(r.size, U.Rl) == Some(Vec2(100.0, 100.0)) && forall u :: u != U.Rl ==> U.Slot(r.size, u).None?
  {
    w.(size := U.FromUnitSplat(U.Rl, 100.0))
  }

  /** `UiLayoutTypeSolid::new()`: an absolute 1:1 ratio, centred, fitted. */
  function SolidNew(): (s: Solid)
    ensures s.alignX == L.Center && s.alignY == L.Center && s.scaling == L.Fit
    ensures s.size == U.FromUnit(U.Ab, Vec2(1.0, 1.0))
  {
    Solid(U.FromUnit(U.Ab, Vec2(1.0, 1.0)), L.Center, L.Center, L.Fit)
  }

  // ---------------------------------------------------------------------
  // Properties

  /** For `t` in [0, 1] each component of the interpolation lies between the
    * two ends. */
  lemma {:induction false} LerpBetween(a: real, b: real, t: real)
    requires 0.0 <= t <= 1.0
    ensures Min(a, b) <= Lerp(a, b, t) <= Max(a, b)
  {
    var d := b - a;
    assert d * t + d * (1.0 - t) == d;
    if a <= b {
      MulNonNegative(d, t);
      MulNonNegative(d, 1.0 - t);
    } else {
      MulNonNegative(-d, t);
      MulNonNegative(-d, 1.0 - t);
    }
  }

  lemma MulNonNegative(x: real, y: real)
    requires x >= 0.0 && y >= 0.0
    ensures x * y >= 0.0
  {
  }

  /** A boundary is the top-left-anchored window at its first corner whose
    * size is the (negating) difference of the corners. */
  lemma BoundaryIsWindow(b: Boundary, parent: Rectangle2D, scale: real, viewport: Vec2, font: real)
    ensures BoundaryCompute(b, parent, scale, viewport, font)
         == WindowCompute(Window(b.pos1, TopLeft, U.SubCorrected(b.pos2, b.pos1, Sub2Fn, Neg2Fn)), parent, scale, viewport, font)
  {
    var w := Window(b.pos1, TopLeft, U.SubCorrected(b.pos2, b.pos1, Sub2Fn, Neg2Fn));
    var p1, p2 := Eval(b.pos1, parent, scale, viewport, font), Eval(b.pos2, parent, scale, viewport, font);
    assert Eval(w.size, parent, scale, viewport, font) == Sub2(p2, p1) by {
      U.Evaluate2SubCorrected(b.pos2, b.pos1, Splat2(scale), parent.size, viewport, Splat2(font));
    }
    TopLeftWindow(w, parent, scale, viewport, font);
  }

  /** A window anchored at its top-left corner reaches half its size right
    * of and below its position. */
  lemma TopLeftWindow(w: Window, parent: Rectangle2D, scale: real, viewport: Vec2, font: real)
    requires w.anchor == TopLeft
    ensures var p, size := Eval(w.pos, parent, scale, viewport, font), Eval(w.size, parent, scale, viewport, font);
      WindowCompute(w, parent, scale, viewport, font)
        == Rectangle2D(Vec2(-parent.size.x / 2.0 + p.x + size.x / 2.0, -parent.size.y / 2.0 + p.y + size.y / 2.0), size)
  {
    assert AnchorVec(w.anchor) == Vec2(-0.5, 0.5);
  }

  /** `Window::new().full()` occupies the parent exactly: centred on it
    * (offset zero) and as large as it. */
  lemma WindowFullCoversParent(parent: Rectangle2D, scale: real, viewport: Vec2, font: real)
    ensures WindowCompute(WindowFull(WindowNew()), parent, scale, viewport, font) == Rectangle2D(Zero2, parent.size)
  {
    var e: U.UiValue<Vec2> := U.New();
    assert e.ab == U.Slot(e, U.Ab) && e.rl == U.Slot(e, U.Rl) && e.rw == U.Slot(e, U.Rw) && e.rh == U.Slot(e, U.Rh);
    assert e.em == U.Slot(e, U.Em) && e.vp == U.Slot(e, U.Vp) && e.vw == U.Slot(e, U.Vw) && e.vh == U.Slot(e, U.Vh);
    var f := U.FromUnitSplat(U.Rl, 100.0);
    assert f.ab == U.Slot(f, U.Ab) && f.rl == U.Slot(f, U.Rl) && f.rw == U.Slot(f, U.Rw) && f.rh == U.Slot(f, U.Rh);
    assert f.em == U.Slot(f, U.Em) && f.vp == U.Slot(f, U.Vp) && f.vw == U.Slot(f, U.Vw) && f.vh == U.Slot(f, U.Vh);
    assert Eval(e, parent, scale, viewport, font) == Zero2;
    assert Eval(f, parent, scale, viewport, font) == parent.size;
    var w := WindowFull(WindowNew());
    assert w.pos == e && w.size == f;
  }

  /** The solid is the lunex_engine solid placed in a parent whose corner is
    * at minus half its size, reported by its centre instead of its corner. */
  lemma SolidIsCentredLayoutSolid(s: Solid, parent: Rectangle2D, scale: real, viewport: Vec2, font: real)
    requires L.Divisible(s.scaling, Eval(s.size, parent, scale, viewport, font))
    ensures var e := Eval(s.size, parent, scale, viewport, font);
            var older := L.SolidPlace(Rectangle2D(Scale2(parent.size, -0.5), parent.size), e, s.alignX, s.alignY, s.scaling);
            var r := SolidCompute(s, parent, scale, viewport, font);
            r.size == older.size && r.pos == Add2(older.pos, Scale2(older.size, 0.5))
  {
    var e := Eval(s.size, parent, scale, viewport, font);
    var corner := Rectangle2D(Scale2(parent.size, -0.5), parent.size);
    var older := L.SolidPlace(corner, e, s.alignX, s.alignY, s.scaling);
    var r := SolidCompute(s, parent, scale, viewport, font);
    L.SolidAlignment(corner, e, s.alignX, s.alignY, s.scaling);
    CentreAxis(parent.size.x, r.size.x, s.alignX);
    CentreAxis(parent.size.y, r.size.y, s.alignY);
  }

  lemma CentreAxis(ps: real, w: real, a: real)
    ensures (ps / 2.0 - w / 2.0) * a == ps * -0.5 + (ps - w) * (a + 1.0) / 2.0 + w * 0.5
  {
  }

  /** The solid keeps its aspect ratio, `Fit` stays inside a non-negative
    * parent, `Fill` covers it, and align 0 centres it on the parent. */
  lemma SolidProperties(s: Solid, parent: Rectangle2D, scale: real, viewport: Vec2, font: real)
    requires L.Divisible(s.scaling, Eval(s.size, parent, scale, viewport, font))
    ensures var e, r := Eval(s.size, parent, scale, viewport, font), SolidCompute(s, parent, scale, viewport, font);
            r.size.x * e.y == r.size.y * e.x
    ensures var e, r := Eval(s.size, parent, scale, viewport, font), SolidCompute(s, parent, scale, viewport, font);
            s.scaling == L.Fit && e.x > 0.0 && e.y > 0.0 && parent.size.x >= 0.0 && parent.size.y >= 0.0 ==>
              r.size.x <= parent.size.x && r.size.y <= parent.size.y
    ensures var e, r := Eval(s.size, parent, scale, viewport, font), SolidCompute(s, parent, scale, viewport, font);
            s.scaling == L.Fill && e.x > 0.0 && e.y > 0.0 ==> r.size.x >= parent.size.x && r.size.y >= parent.size.y
    ensures s.alignX == L.Center && s.alignY == L.Center ==> SolidCompute(s, parent, scale, viewport, font).pos == Zero2
  {
    var e := Eval(s.size, parent, scale, viewport, font);
    var corner := Rectangle2D(Scale2(parent.size, -0.5), parent.size);
    SolidIsCentredLayoutSolid(s, parent, scale, viewport, font);
    L.SolidKeepsAspect(corner, e, s.alignX, s.alignY, s.scaling);
    if s.scaling == L.Fit && e.x > 0.0 && e.y > 0.0 && parent.size.x >= 0.0 && parent.size.y >= 0.0 {
      L.SolidFitInside(corner, e, s.alignX, s.alignY);
    }
    if s.scaling == L.Fill && e.x > 0.0 && e.y > 0.0 {
      L.SolidFillCovers(corner, e, s.alignX, s.alignY);
    }
  }
}
