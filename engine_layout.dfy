/** The layout resolvers of the lunex_engine crate
  * (crates/lunex_engine/src/layout/layout.rs): a `Boundary` given by two
  * corners, a `Window` given by a position and a size, and a `Solid` that keeps
  * an aspect ratio and is fitted into the parent. Each maps the parent's
  * rectangle, the absolute scale, the viewport size and the font size to the
  * node's rectangle. */
module EngineLayout {
  import opened Base
  import V = EngineValue
  import opened EngineStructs

  /** `Align`: -1 is the start, 0 the centre, 1 the end; other values extrapolate. */
  const Start: real := -1.0
  const Center: real := 0.0
  const End: real := 1.0

  datatype Scaling = HorFill | VerFill | Fit | Fill

  /** `Scaling::default()`. */
  const DefaultScaling: Scaling := Fit

  datatype Boundary = Boundary(pos1: V.UiValue<Vec2>, pos2: V.UiValue<Vec2>)
  datatype Window = Window(pos: V.UiValue<Vec2>, size: V.UiValue<Vec2>)
  datatype Solid = Solid(size: V.UiValue<Vec2>, alignX: real, alignY: real, scaling: Scaling)

  datatype Layout = BoundaryLayout(boundary: Boundary) | WindowLayout(window: Window) | SolidLayout(solid: Solid)

  /** The evaluation every resolver performs: the absolute scale and the font
    * size are splatted to both axes, percentages refer to the parent's size. */
  function Eval(v: V.UiValue<Vec2>, parent: Rectangle2D, scale: real, viewport: Vec2, font: real): (r: Vec2)
    ensures v == V.New() ==> r == Zero2
    ensures v == V.FromUnitSplat(V.Rl, 100.0) ==> r == parent.size
  {
    FullParentSlots();
    NewEvaluatesToZero(Splat2(scale), parent.size, viewport, Splat2(font));
    V.Evaluate2(v, Splat2(scale), parent.size, viewport, Splat2(font))
  }

  /** An empty value is worth nothing in any context. */
  lemma NewEvaluatesToZero(scale: Vec2, parent: Vec2, viewport: Vec2, font: Vec2)
    ensures V.Evaluate2(V.New(), scale, parent, viewport, font) == Zero2
  {
    var v: V.UiValue<Vec2> := V.New();
    assert v.ab.None? && v.rl.None? && v.rw.None? && v.rh.None? && v.em.None? && v.vp.None? && v.vh.None?;
  }

  /** `Rl(100)` on both axes: the relative slot holds 100 and no other slot is set. */
  lemma FullParentSlots()
    ensures var v := V.FromUnitSplat(V.Rl, 100.0);
            v.rl == Some(Vec2(100.0, 100.0)) && v.ab == None && v.rw == None && v.rh == None
            && v.em == None && v.vp == None && v.vh == None
  {
    var v := V.FromUnitSplat(V.Rl, 100.0);
    assert v.rl == V.Slot(v, V.Rl) && v.ab == V.Slot(v, V.Ab) && v.rw == V.Slot(v, V.Rw) && v.rh == V.Slot(v, V.Rh);
    assert v.em == V.Slot(v, V.Em) && v.vp == V.Slot(v, V.Vp) && v.vh == V.Slot(v, V.Vh);
  }

  /** `Boundary::compute`: the first corner is offset from the parent's
    * position and the size is the distance between the corners. */
  function BoundaryCompute(b: Boundary, parent: Rectangle2D, scale: real, viewport: Vec2, font: real): (r: Rectangle2D)
    ensures Add2(r.pos, r.size) == Add2(parent.pos, Eval(b.pos2, parent, scale, viewport, font))
  {
    var p1 := Eval(b.pos1, parent, scale, viewport, font);
    var p2 := Eval(b.pos2, parent, scale, viewport, font);
    Rectangle2D(Add2(parent.pos, p1), Sub2(p2, p1))
  }

  /** `Window::compute`. */
  function WindowCompute(w: Window, parent: Rectangle2D, scale: real, viewport: Vec2, font: real): (r: Rectangle2D)
    ensures Sub2(r.pos, parent.pos) == Eval(w.pos, parent, scale, viewport, font)
    ensures w == DefaultLayout().window ==> r == parent
  {
    Rectangle2D(Add2(parent.pos, Eval(w.pos, parent, scale, viewport, font)), Eval(w.size, parent, scale, viewport, font))
  }

  /** `Window::new_centered_at` as written: `pos - size * 0.5` with the value
    * subtraction that copies a slot present only in the size un-negated. */
  function NewCenteredAt(pos: V.UiValue<Vec2>, size: V.UiValue<Vec2>): (r: Window)
    ensures r.size == size
    ensures forall u :: V.Slot(pos, u).Some? && V.Slot(size, u).Some? ==>
              V.Slot(r.pos, u) == Some(Sub2(V.Slot(pos, u).value, Scale2(V.Slot(size, u).value, 0.5)))
    ensures forall u :: V.Slot(pos, u).None? && V.Slot(size, u).Some? ==>
              V.Slot(r.pos, u) == Some(Scale2(V.Slot(size, u).value, 0.5))
    ensures forall u :: V.Slot(size, u).None? ==> V.Slot(r.pos, u) == V.Slot(pos, u)
  {
    Window(V.Sub(pos, V.Scale(size, 0.5, Scale2), Sub2Fn), size)
  }

  /** `Window::new_centered_at` with the negating subtraction. */
  function NewCenteredAtCorrected(pos: V.UiValue<Vec2>, size: V.UiValue<Vec2>): (r: Window)
    ensures r.size == size
    ensures forall u :: V.Slot(pos, u).Some? && V.Slot(size, u).Some? ==>
              V.Slot(r.pos, u) == Some(Sub2(V.Slot(pos, u).value, Scale2(V.Slot(size, u).value, 0.5)))
    ensures forall u :: V.Slot(pos, u).None? && V.Slot(size, u).Some? ==>
              V.Slot(r.pos, u) == Some(Neg2(Scale2(V.Slot(size, u).value, 0.5)))
    ensures forall u :: V.Slot(size, u).None? ==> V.Slot(r.pos, u) == V.Slot(pos, u)
  {
    Window(V.SubCorrected(pos, V.Scale(size, 0.5, Scale2), Sub2Fn, Neg2Fn), size)
  }

  /** The divisions `Solid::compute` performs are defined. */
  predicate Divisible(scaling: Scaling, size: Vec2)
  {
    match scaling
    case HorFill => size.x != 0.0
    case VerFill => size.y != 0.0
    case _ => size.x != 0.0 && size.y != 0.0
  }

  /** The factor applied to the evaluated size: one axis ratio for
    * `HorFill`/`VerFill`, the smaller (`Fit`) or larger (`Fill`) of the two. */
  function SolidScale(scaling: Scaling, parent: Vec2, size: Vec2): (k: real)
    requires Divisible(scaling, size)
    ensures scaling == HorFill ==> k * size.x == parent.x
    ensures scaling == VerFill ==> k * size.y == parent.y
    ensures scaling == Fit ==> k == Min(parent.x / size.x, parent.y / size.y)
    ensures scaling == Fill ==> k == Max(parent.x / size.x, parent.y / size.y)
  {
    match scaling
    case HorFill => parent.x / size.x
    case VerFill => parent.y / size.y
    case Fit => Min(parent.x / size.x, parent.y / size.y)
    case Fill => Max(parent.x / size.x, parent.y / size.y)
  }

  /** The placement step of `Solid::compute` for an evaluated size: scaled,
    * centred in the parent, then moved by the alignment. */
  function SolidPlace(parent: Rectangle2D, size: Vec2, alignX: real, alignY: real, scaling: Scaling): (r: Rectangle2D)
    requires Divisible(scaling, size)
    ensures r.size == Scale2(size, SolidScale(scaling, parent.size, size))
  {
    var k := SolidScale(scaling, parent.size, size);
    var center := Vec2(parent.pos.x + parent.size.x / 2.0, parent.pos.y + parent.size.y / 2.0);
    var w, h := size.x * k, size.y * k;
    var point := Vec2(center.x - w / 2.0, center.y - h / 2.0);
    Rectangle2D(Vec2(point.x + (point.x - parent.pos.x) * alignX, point.y + (point.y - parent.pos.y) * alignY), Vec2(w, h))
  }

  /** `Solid::compute`. */
  function SolidCompute(s: Solid, parent: Rectangle2D, scale: real, viewport: Vec2, font: real): (r: Rectangle2D)
    requires Divisible(s.scaling, Eval(s.size, parent, scale, viewport, font))
    ensures var e := Eval(s.size, parent, scale, viewport, font); r.size.x * e.y == r.size.y * e.x
    ensures s.scaling == HorFill ==> r.size.x == parent.size.x
    ensures s.scaling == VerFill ==> r.size.y == parent.size.y
  {
    var e := Eval(s.size, parent, scale, viewport, font);
    SolidKeepsAspect(parent, e, s.alignX, s.alignY, s.scaling);
    SolidPlace(parent, e, s.alignX, s.alignY, s.scaling)
  }

  /** `Solid::new()`: a 1:1 absolute ratio, centred, fitted. */
  function SolidNew(): (s: Solid)
    ensures s.alignX == Center && s.alignY == Center && s.scaling == Fit
    ensures s.size == V.FromUnit(V.Ab, Vec2(1.0, 1.0))
  {
    Solid(V.FromUnit(V.Ab, Vec2(1.0, 1.0)), Center, Center, Fit)
  }

  /** `Layout::default()`: `Window::new().size(Rl(100.0))`. */
  function DefaultLayout(): (l: Layout)
    ensures l.WindowLayout? && l.window.pos == V.New() && l.window.size == V.FromUnitSplat(V.Rl, 100.0)
  {
    WindowLayout(Window(V.New(), V.FromUnitSplat(V.Rl, 100.0)))
  }

  // ---------------------------------------------------------------------
  // Properties

  /** A boundary is the window placed at its first corner whose size is the
    * (negating) difference of its corners. */
  lemma BoundaryIsWindow(b: Boundary, parent: Rectangle2D, scale: real, viewport: Vec2, font: real)
    ensures BoundaryCompute(b, parent, scale, viewport, font)
         == WindowCompute(Window(b.pos1, V.SubCorrected(b.pos2, b.pos1, Sub2Fn, Neg2Fn)), parent, scale, viewport, font)
  {
    V.Evaluate2SubCorrected(b.pos2, b.pos1, Splat2(scale), parent.size, viewport, Splat2(font));
  }

  /** With the negating subtraction, the window `new_centered_at(pos, size)`
    * is centred on the point `pos` evaluates to. */
  lemma CenteredAtCorrectedIsCentred(pos: V.UiValue<Vec2>, size: V.UiValue<Vec2>, parent: Rectangle2D, scale: real, viewport: Vec2, font: real)
    ensures var r := WindowCompute(NewCenteredAtCorrected(pos, size), parent, scale, viewport, font);
            Add2(r.pos, Scale2(r.size, 0.5)) == Add2(parent.pos, Eval(pos, parent, scale, viewport, font))
    ensures WindowCompute(NewCenteredAtCorrected(pos, size), parent, scale, viewport, font).size == Eval(size, parent, scale, viewport, font)
  {
    var half := V.Scale(size, 0.5, Scale2);
    V.Evaluate2SubCorrected(pos, half, Splat2(scale), parent.size, viewport, Splat2(font));
    V.Evaluate2Scale(size, 0.5, Splat2(scale), parent.size, viewport, Splat2(font));
  }

  /** As written, a window centred at the parent's origin (`pos` empty) with
    * an absolute size of 10 is placed with its corner at +5 instead of -5, so
    * its centre is at (10, 10). */
  lemma CenteredAtCounterexample()
    ensures var r := WindowCompute(NewCenteredAt(V.New(), V.FromUnit(V.Ab, Vec2(10.0, 10.0))), Rectangle2D(Zero2, Vec2(100.0, 100.0)), 1.0, Zero2, 16.0);
            r.pos == Vec2(5.0, 5.0) && Add2(r.pos, Scale2(r.size, 0.5)) == Vec2(10.0, 10.0)
    ensures var r := WindowCompute(NewCenteredAtCorrected(V.New(), V.FromUnit(V.Ab, Vec2(10.0, 10.0))), Rectangle2D(Zero2, Vec2(100.0, 100.0)), 1.0, Zero2, 16.0);
            r.pos == Vec2(-5.0, -5.0) && Add2(r.pos, Scale2(r.size, 0.5)) == Zero2
  {
    var size := V.FromUnit(V.Ab, Vec2(10.0, 10.0));
    var parent := Rectangle2D(Zero2, Vec2(100.0, 100.0));
    var e: V.UiValue<Vec2> := V.New();
    var half := V.Scale(size, 0.5, Scale2);
    V.SameSlots(half, V.FromUnit(V.Ab, Vec2(5.0, 5.0)));
    V.SameSlots(V.Sub(e, half, Sub2Fn), V.FromUnit(V.Ab, Vec2(5.0, 5.0)));
    V.SameSlots(V.SubCorrected(e, half, Sub2Fn, Neg2Fn), V.FromUnit(V.Ab, Vec2(-5.0, -5.0)));
    AbsoluteWindow(parent, 5.0);
    AbsoluteWindow(parent, -5.0);
  }

  /** At scale 1, the window at `Ab(c)` of size `Ab(10)` lies at `c` from the
    * parent with its centre at `c + 5`. */
  lemma AbsoluteWindow(parent: Rectangle2D, c: real)
    ensures var r := WindowCompute(Window(V.FromUnit(V.Ab, Vec2(c, c)), V.FromUnit(V.Ab, Vec2(10.0, 10.0))), parent, 1.0, Zero2, 16.0);
            r.pos == Add2(parent.pos, Vec2(c, c)) && Add2(r.pos, Scale2(r.size, 0.5)) == Add2(parent.pos, Vec2(c + 5.0, c + 5.0))
  {
    EvalAbs(10.0, parent);
    EvalAbs(c, parent);
  }

  /** An absolute coefficient evaluates to itself at scale 1. */
  lemma EvalAbs(c: real, parent: Rectangle2D)
    ensures Eval(V.FromUnit(V.Ab, Vec2(c, c)), parent, 1.0, Zero2, 16.0) == Vec2(c, c)
  {
    var v := V.FromUnit(V.Ab, Vec2(c, c));
    assert v.ab == Some(Vec2(c, c)) by { assert v.ab == V.Slot(v, V.Ab); }
    assert v.rl == None && v.rw == None && v.rh == None && v.em == None && v.vp == None && v.vh == None by {
      assert v.rl == V.Slot(v, V.Rl) && v.rw == V.Slot(v, V.Rw) && v.rh == V.Slot(v, V.Rh);
      assert v.em == V.Slot(v, V.Em) && v.vp == V.Slot(v, V.Vp) && v.vh == V.Slot(v, V.Vh);
    }
  }

  /** The output keeps the declared aspect ratio. */
  lemma {:induction false} SolidKeepsAspect(parent: Rectangle2D, size: Vec2, alignX: real, alignY: real, scaling: Scaling)
    requires Divisible(scaling, size)
    ensures var r := SolidPlace(parent, size, alignX, alignY, scaling);
            r.size.x * size.y == r.size.y * size.x
  {
    var k := SolidScale(scaling, parent.size, size);
    assert size.x * k * size.y == size.y * k * size.x;
  }

  /** `HorFill` matches the parent's width, `VerFill` its height. */
  lemma SolidAxisFill(parent: Rectangle2D, size: Vec2, alignX: real, alignY: real, scaling: Scaling)
    requires Divisible(scaling, size)
    ensures scaling == HorFill ==> SolidPlace(parent, size, alignX, alignY, scaling).size.x == parent.size.x
    ensures scaling == VerFill ==> SolidPlace(parent, size, alignX, alignY, scaling).size.y == parent.size.y
  {
  }

  /** With a positive ratio and a non-negative parent, `Fit` stays inside the
    * parent and touches it on one axis. */
  lemma SolidFitInside(parent: Rectangle2D, size: Vec2, alignX: real, alignY: real)
    requires size.x > 0.0 && size.y > 0.0 && parent.size.x >= 0.0 && parent.size.y >= 0.0
    ensures var r := SolidPlace(parent, size, alignX, alignY, Fit);
            r.size.x <= parent.size.x && r.size.y <= parent.size.y
            && (r.size.x == parent.size.x || r.size.y == parent.size.y)
  {
    var k := SolidScale(Fit, parent.size, size);
    RatioBound(size.x, parent.size.x, k);
    RatioBound(size.y, parent.size.y, k);
  }

  /** With a positive ratio, `Fill` covers the parent and touches it on one axis. */
  lemma SolidFillCovers(parent: Rectangle2D, size: Vec2, alignX: real, alignY: real)
    requires size.x > 0.0 && size.y > 0.0
    ensures var r := SolidPlace(parent, size, alignX, alignY, Fill);
            r.size.x >= parent.size.x && r.size.y >= parent.size.y
            && (r.size.x == parent.size.x || r.size.y == parent.size.y)
  {
    var k := SolidScale(Fill, parent.size, size);
    RatioBound(size.x, parent.size.x, k);
    RatioBound(size.y, parent.size.y, k);
  }

  /** Comparing a factor with a ratio `p / s` for a positive `s`. */
  lemma RatioBound(s: real, p: real, k: real)
    requires s > 0.0
    ensures k <= p / s ==> s * k <= p
    ensures k >= p / s ==> s * k >= p
    ensures k == p / s ==> s * k == p
  {
    if k <= p / s {
      assert s * k <= s * (p / s);
    }
    if k >= p / s {
      assert s * k >= s * (p / s);
    }
  }

  /** The alignment moves the output along the free space of the parent:
    * align -1 is flush with the parent's position, 0 is centred, 1 is flush
    * with the far edge. */
  lemma {:induction false} SolidAlignment(parent: Rectangle2D, size: Vec2, alignX: real, alignY: real, scaling: Scaling)
    requires Divisible(scaling, size)
    ensures var r := SolidPlace(parent, size, alignX, alignY, scaling);
            r.pos.x == parent.pos.x + (parent.size.x - r.size.x) * (alignX + 1.0) / 2.0
            && r.pos.y == parent.pos.y + (parent.size.y - r.size.y) * (alignY + 1.0) / 2.0
  {
    var r := SolidPlace(parent, size, alignX, alignY, scaling);
    AlignAxis(parent.pos.x, parent.size.x, r.size.x, alignX);
    AlignAxis(parent.pos.y, parent.size.y, r.size.y, alignY);
  }

  lemma AlignAxis(p: real, ps: real, w: real, a: real)
    ensures var point := p + ps / 2.0 - w / 2.0;
            point + (point - p) * a == p + (ps - w) * (a + 1.0) / 2.0
  {
    var point := p + ps / 2.0 - w / 2.0;
    assert point - p == (ps - w) / 2.0;
    assert (point - p) * a == (ps - w) * a / 2.0;
  }

  lemma SolidAlignmentCases(parent: Rectangle2D, size: Vec2, scaling: Scaling)
    requires Divisible(scaling, size)
    ensures SolidPlace(parent, size, Start, Start, scaling).pos == parent.pos
    ensures var r := SolidPlace(parent, size, Center, Center, scaling);
            Add2(r.pos, Scale2(r.size, 0.5)) == Add2(parent.pos, Scale2(parent.size, 0.5))
    ensures var r := SolidPlace(parent, size, End, End, scaling);
            Add2(r.pos, r.size) == Add2(parent.pos, parent.size)
  {
    SolidAlignment(parent, size, Start, Start, scaling);
    SolidAlignment(parent, size, Center, Center, scaling);
    SolidAlignment(parent, size, End, End, scaling);
  }

  /** `Solid::new()` with a positive absolute scale in a non-negative parent
    * yields the largest centred square. */
  lemma SolidNewIsCentredSquare(parent: Rectangle2D, scale: real, viewport: Vec2, font: real)
    requires scale > 0.0 && parent.size.x >= 0.0 && parent.size.y >= 0.0
    ensures Divisible(Fit, Eval(SolidNew().size, parent, scale, viewport, font))
    ensures var r := SolidCompute(SolidNew(), parent, scale, viewport, font);
            r.size.x == r.size.y == Min(parent.size.x, parent.size.y)
            && Add2(r.pos, Scale2(r.size, 0.5)) == Add2(parent.pos, Scale2(parent.size, 0.5))
  {
    var v := SolidNew().size;
    assert v.ab == Some(Vec2(1.0, 1.0)) by { assert v.ab == V.Slot(v, V.Ab); }
    assert v.rl == None && v.rw == None && v.rh == None && v.em == None && v.vp == None && v.vh == None by {
      assert v.rl == V.Slot(v, V.Rl) && v.rw == V.Slot(v, V.Rw) && v.rh == V.Slot(v, V.Rh);
      assert v.em == V.Slot(v, V.Em) && v.vp == V.Slot(v, V.Vp) && v.vh == V.Slot(v, V.Vh);
    }
    var e := Eval(v, parent, scale, viewport, font);
    assert e == Vec2(scale, scale);
    var k := SolidScale(Fit, parent.size, e);
    assert k == Min(parent.size.x, parent.size.y) / scale by {
      assert parent.size.x / scale <= parent.size.y / scale <==> parent.size.x <= parent.size.y;
    }
    SolidAlignmentCases(parent, e, Fit);
  }
}
