/** The declarative layouts of the lunex_engine crate
  * (crates/lunex_engine/src/layout/declarative.rs): a `Window` placed by a
  * `NodeSize` position and size, and a `Solid` that keeps its aspect ratio and
  * is scaled into the parent according to a `Cover` mode. Sizes here are
  * `NodeSize` values (abs, prc, rem), evaluated without a viewport. */
module EngineDeclarative {
  import opened Base
  import S = EngineSize
  import opened EngineStructs
  import L = EngineLayout

  /** How a `Solid` is scaled: to the parent's width, its height, the smaller
    * of the two ratios (contained) or the larger (covering). */
  datatype Cover = Horizontal | Vertical | Contain | Full

  datatype Window = Window(pos: S.NodeSize<Vec2>, size: S.NodeSize<Vec2>)
  datatype Solid = Solid(size: S.NodeSize<Vec2>, alignX: real, alignY: real, cover: Cover)

  /** The evaluation both layouts perform: percentages refer to the parent's size. */
  function Eval(v: S.NodeSize<Vec2>, parent: Rectangle2D, scale: real, font: real): Vec2
  {
    S.Evaluate2(v, scale, parent.size, font)
  }

  /** `Window::FULL`: no offset and `Prc(100)` on both axes. */
  function WindowFull(): (w: Window)
    ensures w.pos == S.New() && S.Slot(w.size, S.Prc) == Some(Vec2(100.0, 100.0))
    ensures S.Slot(w.size, S.Abs).None? && S.Slot(w.size, S.Rem).None?
  {
    Window(S.New(), S.FromUnit(S.Prc, Vec2(100.0, 100.0)))
  }

  /** `Window::EMPTY` and `Window::new()`: no position and no size. */
  function WindowEmpty(): (w: Window)
    ensures forall u :: S.Slot(w.pos, u).None? && S.Slot(w.size, u).None?
  {
    Window(S.New(), S.New())
  }

  /** `Window::new_at`: the window whose centre is at `pos`, stored as
    * `pos - size * 0.5`. */
  function WindowNewAt(pos: S.NodeSize<Vec2>, size: S.NodeSize<Vec2>): (w: Window)
    ensures w.size == size
  {
    Window(S.Sub(pos, S.Scale(size, 0.5, Scale2), Sub2Fn, Neg2Fn), size)
  }

  /** `Window::x`/`y`/`width`/`height`: `set_x`/`set_y` on the position or size. */
  function WindowX(w: Window, x: S.NodeSize<real>): (r: Window)
    ensures r.size == w.size
    ensures forall u :: S.Slot(S.GetX(r.pos), u) == if S.Slot(x, u).Some? then S.Slot(x, u) else S.Slot(S.GetX(w.pos), u)
  {
    S.WithXGet(w.pos, x);
    w.(pos := S.WithX(w.pos, x))
  }

  function WindowY(w: Window, y: S.NodeSize<real>): (r: Window)
    ensures r.size == w.size
    ensures forall u :: S.Slot(S.GetY(r.pos), u) == if S.Slot(y, u).Some? then S.Slot(y, u) else S.Slot(S.GetY(w.pos), u)
  {
    S.WithYGet(w.pos, y);
    w.(pos := S.WithY(w.pos, y))
  }

  function WindowWidth(w: Window, width: S.NodeSize<real>): (r: Window)
    ensures r.pos == w.pos
    ensures forall u :: S.Slot(S.GetX(r.size), u) == if S.Slot(width, u).Some? then S.Slot(width, u) else S.Slot(S.GetX(w.size), u)
  {
    S.WithXGet(w.size, width);
    w.(size := S.WithX(w.size, width))
  }

  function WindowHeight(w: Window, height: S.NodeSize<real>): (r: Window)
    ensures r.pos == w.pos
    ensures forall u :: S.Slot(S.GetY(r.size), u) == if S.Slot(height, u).Some? then S.Slot(height, u) else S.Slot(S.GetY(w.size), u)
  {
    S.WithYGet(w.size, height);
    w.(size := S.WithY(w.size, height))
  }

  /** `Window::compute`: offset from the parent's position, sized by `size`. */
  function WindowCompute(w: Window, parent: Rectangle2D, scale: real, font: real): (r: Rectangle2D)
    ensures Sub2(r.pos, parent.pos) == Eval(w.pos, parent, scale, font)
    ensures r.size == Eval(w.size, parent, scale, font)
  {
    Rectangle2D(Add2(parent.pos, Eval(w.pos, parent, scale, font)), Eval(w.size, parent, scale, font))
  }

  /** `Solid::new()`: an absolute 1:1 ratio, centred, contained. */
  function SolidNew(): (s: Solid)
    ensures s.alignX == L.Center && s.alignY == L.Center && s.cover == Contain
    ensures s.size == S.FromUnit(S.Abs, Vec2(1.0, 1.0))
  {
    Solid(S.FromUnit(S.Abs, Vec2(1.0, 1.0)), L.Center, L.Center, Contain)
  }

  /** `Solid::width`/`height`: `set_x`/`set_y` on the ratio. */
  function SolidWidth(s: Solid, width: S.NodeSize<real>): (r: Solid)
    ensures r.alignX == s.alignX && r.alignY == s.alignY && r.cover == s.cover
    ensures forall u :: S.Slot(S.GetX(r.size), u) == if S.Slot(width, u).Some? then S.Slot(width, u) else S.Slot(S.GetX(s.size), u)
  {
    S.WithXGet(s.size, width);
    s.(size := S.WithX(s.size, width))
  }

  function SolidHeight(s: Solid, height: S.NodeSize<real>): (r: Solid)
    ensures r.alignX == s.alignX && r.alignY == s.alignY && r.cover == s.cover
    ensures forall u :: S.Slot(S.GetY(r.size), u) == if S.Slot(height, u).Some? then S.Slot(height, u) else S.Slot(S.GetY(s.size), u)
  {
    S.WithYGet(s.size, height);
    s.(size := S.WithY(s.size, height))
  }

  /** The divisions `Solid::compute` performs for this cover mode are defined. */
  predicate Divisible(cover: Cover, size: Vec2)
  {
    match cover
    case Horizontal => size.x != 0.0
    case Vertical => size.y != 0.0
    case _ => size.x != 0.0 && size.y != 0.0
  }

  /** The factor `Solid::compute` applies for a cover mode. */
  function CoverScale(cover: Cover, parent: Vec2, size: Vec2): real
    requires Divisible(cover, size)
  {
    match cover
    case Horizontal => parent.x / size.x
    case Vertical => parent.y / size.y
    case Contain => Min(parent.x / size.x, parent.y / size.y)
    case Full => Max(parent.x / size.x, parent.y / size.y)
  }

  /** `Solid::compute`: scale the evaluated ratio, centre it in the parent,
    * then move the corner by `(corner - parent.pos) * align` on each axis. */
  function SolidCompute(s: Solid, parent: Rectangle2D, scale: real, font: real): (r: Rectangle2D)
    requires Divisible(s.cover, Eval(s.size, parent, scale, font))
    ensures var e := Eval(s.size, parent, scale, font); r.size.x * e.y == r.size.y * e.x
    ensures s.cover == Horizontal ==> r.size.x == parent.size.x
    ensures s.cover == Vertical ==> r.size.y == parent.size.y
  {
    var size := Eval(s.size, parent, scale, font);
    var k := CoverScale(s.cover, parent.size, size);
    assert k == L.SolidScale(AsScaling(s.cover), parent.size, size);
    assert size.x * k * size.y == size.y * k * size.x;
    var center := Vec2(parent.pos.x + parent.size.x / 2.0, parent.pos.y + parent.size.y / 2.0);
    var w, h := size.x * k, size.y * k;
    var point := Vec2(center.x - w / 2.0, center.y - h / 2.0);
    Rectangle2D(Vec2(point.x + (point.x - parent.pos.x) * s.alignX, point.y + (point.y - parent.pos.y) * s.alignY), Vec2(w, h))
  }

  /** The scaling mode of the newer `Solid` that each cover mode corresponds to. */
  function AsScaling(cover: Cover): L.Scaling
  {
    match cover
    case Horizontal => L.HorFill
    case Vertical => L.VerFill
    case Contain => L.Fit
    case Full => L.Fill
  }

  // ---------------------------------------------------------------------
  // Properties

  /** `Cover` means the same as the newer `Scaling`: the declarative solid
    * places its evaluated ratio exactly as the layout-module solid does. */
  lemma SolidIsLayoutSolid(s: Solid, parent: Rectangle2D, scale: real, font: real)
    requires Divisible(s.cover, Eval(s.size, parent, scale, font))
    ensures L.Divisible(AsScaling(s.cover), Eval(s.size, parent, scale, font))
    ensures SolidCompute(s, parent, scale, font) == L.SolidPlace(parent, Eval(s.size, parent, scale, font), s.alignX, s.alignY, AsScaling(s.cover))
  {
  }

  /** The solid keeps its aspect ratio; `Contain` fits inside a non-negative
    * parent and `Full` covers it (for a positive ratio); alignment -1, 0, 1
    * is flush with the start, centred, flush with the end. */
  lemma SolidProperties(s: Solid, parent: Rectangle2D, scale: real, font: real)
    requires Divisible(s.cover, Eval(s.size, parent, scale, font))
    ensures var e, r := Eval(s.size, parent, scale, font), SolidCompute(s, parent, scale, font);
            r.size.x * e.y == r.size.y * e.x
            && r.pos.x == parent.pos.x + (parent.size.x - r.size.x) * (s.alignX + 1.0) / 2.0
            && r.pos.y == parent.pos.y + (parent.size.y - r.size.y) * (s.alignY + 1.0) / 2.0
    ensures var e, r := Eval(s.size, parent, scale, font), SolidCompute(s, parent, scale, font);
            s.cover == Contain && e.x > 0.0 && e.y > 0.0 && parent.size.x >= 0.0 && parent.size.y >= 0.0 ==>
              r.size.x <= parent.size.x && r.size.y <= parent.size.y
    ensures var e, r := Eval(s.size, parent, scale, font), SolidCompute(s, parent, scale, font);
            s.cover == Full && e.x > 0.0 && e.y > 0.0 ==> r.size.x >= parent.size.x && r.size.y >= parent.size.y
  {
    SolidAspectAndAlignment(s, parent, scale, font);
    var e := Eval(s.size, parent, scale, font);
    if s.cover == Contain && e.x > 0.0 && e.y > 0.0 && parent.size.x >= 0.0 && parent.size.y >= 0.0 {
      SolidIsLayoutSolid(s, parent, scale, font);
      L.SolidFitInside(parent, e, s.alignX, s.alignY);
    }
    if s.cover == Full && e.x > 0.0 && e.y > 0.0 {
      SolidIsLayoutSolid(s, parent, scale, font);
      L.SolidFillCovers(parent, e, s.alignX, s.alignY);
    }
  }

  lemma SolidAspectAndAlignment(s: Solid, parent: Rectangle2D, scale: real, font: real)
    requires Divisible(s.cover, Eval(s.size, parent, scale, font))
    ensures var e, r := Eval(s.size, parent, scale, font), SolidCompute(s, parent, scale, font);
            r.size.x * e.y == r.size.y * e.x
            && r.pos.x == parent.pos.x + (parent.size.x - r.size.x) * (s.alignX + 1.0) / 2.0
            && r.pos.y == parent.pos.y + (parent.size.y - r.size.y) * (s.alignY + 1.0) / 2.0
  {
    var e := Eval(s.size, parent, scale, font);
    SolidIsLayoutSolid(s, parent, scale, font);
    L.SolidKeepsAspect(parent, e, s.alignX, s.alignY, AsScaling(s.cover));
    L.SolidAlignment(parent, e, s.alignX, s.alignY, AsScaling(s.cover));
  }

  /** `new_at` centres the window on the point `pos` evaluates to, because the
    * `NodeSize` subtraction negates a slot present only on the right. */
  lemma NewAtIsCentred(pos: S.NodeSize<Vec2>, size: S.NodeSize<Vec2>, parent: Rectangle2D, scale: real, font: real)
    ensures var r := WindowCompute(WindowNewAt(pos, size), parent, scale, font);
            Add2(r.pos, Scale2(r.size, 0.5)) == Add2(parent.pos, Eval(pos, parent, scale, font))
  {
    S.Evaluate2Sub(pos, S.Scale(size, 0.5, Scale2), scale, parent.size, font);
    S.Evaluate2Scale(size, 0.5, scale, parent.size, font);
  }

  /** `Window::FULL` covers the parent exactly, and the empty window
    * collapses to the parent's position with zero size. */
  lemma FullAndEmpty(parent: Rectangle2D, scale: real, font: real)
    ensures WindowCompute(WindowFull(), parent, scale, font) == parent
    ensures WindowCompute(WindowEmpty(), parent, scale, font) == Rectangle2D(parent.pos, Zero2)
  {
    var full := WindowFull().size;
    assert full.prc == S.Slot(full, S.Prc) && full.abs == S.Slot(full, S.Abs) && full.rem == S.Slot(full, S.Rem);
    var e: S.NodeSize<Vec2> := S.New();
    assert e.prc == S.Slot(e, S.Prc) && e.abs == S.Slot(e, S.Abs) && e.rem == S.Slot(e, S.Rem);
  }
}
