/** Containers of the legacy `src/core` generation (src/core/ui_container.rs):
  * the `Box` layouts `Window`, `Relative` and `Solid`, the `Layout` enum that
  * wraps them, the cached `Position` and the `Container` that resolves the
  * layout against the parent's top-left point, width and height. */
module LegacyContainer {
  import opened Base
  import C = CoreContainer

  datatype Window = Window(
    absolute: Vec2, relative: Vec2,
    widthAbsolute: real, widthRelative: real, heightAbsolute: real, heightRelative: real)

  datatype Relative = Relative(absolute1: Vec2, absolute2: Vec2, relative1: Vec2, relative2: Vec2)

  datatype SolidScale = Fit | Fill

  /** The ratio is given by two `u32` dimensions. */
  datatype Solid = Solid(width: nat, height: nat, horizontalAnchor: real, verticalAnchor: real, scaling: SolidScale)

  datatype Layout = WindowBox(window: Window) | RelativeBox(relative: Relative) | SolidBox(solid: Solid)

  datatype Position = Position(point1: Vec2, point2: Vec2, width: real, height: real, depth: real)

  /** `Window::new()`: every field 0, so the window is an empty box at the parent's corner. */
  function WindowNew(): (w: Window)
    ensures w.absolute == w.relative == Zero2
    ensures w.widthAbsolute == w.widthRelative == w.heightAbsolute == w.heightRelative == 0.0
  {
    Window(Zero2, Zero2, 0.0, 0.0, 0.0, 0.0)
  }

  /** `Relative::new()` and `Relative::default()`: both corners at the parent's corner. */
  function RelativeNew(): (l: Relative)
    ensures l.absolute1 == l.absolute2 == l.relative1 == l.relative2 == Zero2
  {
    Relative(Zero2, Zero2, Zero2, Zero2)
  }

  /** `Solid::new()`: a 0 by 0 ratio, which cannot be calculated until a
    * dimension is set. */
  function SolidNew(): (s: Solid)
    ensures s.width == 0 && s.height == 0 && s.horizontalAnchor == 0.0 && s.verticalAnchor == 0.0 && s.scaling == Fit
  {
    Solid(0, 0, 0.0, 0.0, Fit)
  }

  /** `Window::calculate`: the corner in pixels plus percent of the parent,
    * and the size likewise. */
  function WindowCalculate(w: Window, point: Vec2, width: real, height: real): (r: C.Placement)
    ensures r == C.WindowCalculate(C.WindowLayout(w.absolute, w.relative, w.widthAbsolute, w.widthRelative, w.heightAbsolute, w.heightRelative), point, width, height)
  {
    C.Placement(Vec2(point.x + C.Span(w.absolute.x, w.relative.x, width), point.y + C.Span(w.absolute.y, w.relative.y, height)),
                C.Span(w.widthAbsolute, w.widthRelative, width), C.Span(w.heightAbsolute, w.heightRelative, height))
  }

  /** `Relative::calculate`: the two corners, each in pixels plus percent. */
  function RelativeCalculate(l: Relative, point: Vec2, width: real, height: real): (r: (Vec2, Vec2))
    ensures r.0 == C.Offset(point, l.absolute1, l.relative1, width, height)
    ensures r.1 == C.Offset(point, l.absolute2, l.relative2, width, height)
  {
    (Vec2(point.x + C.Span(l.absolute1.x, l.relative1.x, width), point.y + C.Span(l.absolute1.y, l.relative1.y, height)),
     Vec2(point.x + C.Span(l.absolute2.x, l.relative2.x, width), point.y + C.Span(l.absolute2.y, l.relative2.y, height)))
  }

  /** `Solid::calculate`, whose `u32` dimensions are divisors: a zero one
    * divides by zero. */
  function SolidCalculate(s: Solid, point: Vec2, width: real, height: real): (r: C.Placement)
    requires s.width > 0 && s.height > 0
    ensures r == C.SolidCalculate(AsCoreSolid(s), point, width, height)
  {
    var sw, sh := s.width as real, s.height as real;
    var scale := C.ScaleFactor(if s.scaling == Fit then C.Fit else C.Fill, width / sw, height / sh);
    C.Anchored(point, width, height, sw * scale, sh * scale, s.horizontalAnchor, s.verticalAnchor)
  }

  /** The same solid with its dimensions as floats. */
  function AsCoreSolid(s: Solid): C.SolidLayout
  {
    C.SolidLayout(s.width as real, s.height as real, s.horizontalAnchor, s.verticalAnchor,
                  if s.scaling == Fit then C.Fit else C.Fill)
  }

  predicate Updatable(l: Layout)
  {
    l.SolidBox? ==> l.solid.width > 0 && l.solid.height > 0
  }

  /** The top-left point, width and height `Container::update` derives from
    * each variant: a relative box spans from its first corner to its second. */
  function Resolve(l: Layout, point: Vec2, width: real, height: real): (r: C.Placement)
    requires Updatable(l)
    ensures l.RelativeBox? ==> var c := RelativeCalculate(l.relative, point, width, height);
                               r.point == c.0 && Add2(r.point, Vec2(r.width, r.height)) == c.1
  {
    match l
    case WindowBox(w) => WindowCalculate(w, point, width, height)
    case RelativeBox(rl) =>
      var c := RelativeCalculate(rl, point, width, height);
      C.Placement(c.0, c.1.x - c.0.x, c.1.y - c.0.y)
    case SolidBox(s) => SolidCalculate(s, point, width, height)
  }

  /** `Layout::default()`: a relative box with every corner at the parent's
    * corner. */
  function DefaultLayout(): (l: Layout)
    ensures l == RelativeBox(RelativeNew())
  {
    RelativeBox(Relative(Zero2, Zero2, Zero2, Zero2))
  }

  /** `expect_window*`, `expect_relative*`, `expect_solid*`: the payload, or
    * a panic (the precondition) on any other variant. */
  function ExpectWindow(l: Layout): (w: Window)
    requires l.WindowBox?
    ensures WindowBox(w) == l
  {
    l.window
  }

  function ExpectRelative(l: Layout): (r: Relative)
    requires l.RelativeBox?
    ensures RelativeBox(r) == l
  {
    l.relative
  }

  function ExpectSolid(l: Layout): (s: Solid)
    requires l.SolidBox?
    ensures SolidBox(s) == l
  {
    l.solid
  }

  const DefaultPosition: Position := Position(Zero2, Zero2, 0.0, 0.0, 0.0)

  /** `Position::invert_y`. */
  function InvertY(p: Position): (r: Position)
    ensures r.point1 == Vec2(p.point1.x, -p.point1.y) && r.point2 == Vec2(p.point2.x, -p.point2.y)
    ensures r.width == p.width && r.height == p.height && r.depth == p.depth
  {
    Position(Vec2(p.point1.x, -p.point1.y), Vec2(p.point2.x, -p.point2.y), p.width, p.height, p.depth)
  }

  /** `Position::get_pos`: the point at `relative` percent of the box. */
  function GetPos(p: Position, relative: Vec2): (r: Vec2)
    ensures relative == Zero2 ==> r == p.point1
    ensures relative == Vec2(100.0, 100.0) ==> r == Add2(p.point1, Vec2(p.width, p.height))
  {
    Vec2(p.point1.x + PercentOf(p.width, relative.x), p.point1.y + PercentOf(p.height, relative.y))
  }

  /** `relative` percent of `length`. */
  function PercentOf(length: real, relative: real): real
  {
    length * relative / 100.0
  }

  /** `Position::get_pos_y_inverted`. */
  function GetPosYInverted(p: Position, relative: Vec2): (r: Vec2)
    ensures r == GetPos(p, Vec2(relative.x, -relative.y))
  {
    Vec2(p.point1.x + PercentOf(p.width, relative.x), p.point1.y + PercentOf(p.height, -relative.y))
  }

  /** The cached position after an update: the second corner is derived from
    * the first and the size; the depth is kept. */
  function Cache(old_: Position, r: C.Placement): (p: Position)
    ensures Sub2(p.point2, p.point1) == Vec2(p.width, p.height) && p.depth == old_.depth
    ensures p.point1 == r.point && p.width == r.width && p.height == r.height
  {
    Position(r.point, Vec2(r.point.x + r.width, r.point.y + r.height), r.width, r.height, old_.depth)
  }

  class Container {
    var positionCached: Position
    var positionLayout: Layout

    constructor ()
      ensures positionCached == DefaultPosition && positionLayout == DefaultLayout()
    {
      positionCached := DefaultPosition;
      positionLayout := DefaultLayout();
    }

    /** `Container::update`. */
    method Update(point: Vec2, width: real, height: real)
      requires Updatable(positionLayout)
      modifies this
      ensures positionLayout == old(positionLayout)
      ensures positionCached == Cache(old(positionCached), Resolve(positionLayout, point, width, height))
    {
      match positionLayout {
        case WindowBox(w) =>
          var values := WindowCalculate(w, point, width, height);
          positionCached := positionCached.(point1 := values.point, width := values.width, height := values.height);
        case RelativeBox(rl) =>
          var values := RelativeCalculate(rl, point, width, height);
          positionCached := positionCached.(point1 := values.0, width := values.1.x - values.0.x, height := values.1.y - values.0.y);
        case SolidBox(s) =>
          var values := SolidCalculate(s, point, width, height);
          positionCached := positionCached.(point1 := values.point, width := values.width, height := values.height);
      }
      positionCached := positionCached.(point2 := Vec2(positionCached.point1.x + positionCached.width, positionCached.point1.y + positionCached.height));
    }

    /** `Container::position_set`: the cached position is overwritten. */
    method PositionSet(p: Position)
      modifies this
      ensures positionCached == p && positionLayout == old(positionLayout)
    {
      positionCached := p;
    }

    /** `Container::position_layout_set`. */
    method PositionLayoutSet(l: Layout)
      modifies this
      ensures positionLayout == l && positionCached == old(positionCached)
    {
      positionLayout := l;
    }
  }

  // ---------------------------------------------------------------------
  // Properties

  /** The default layout is a zero-size box at the parent's corner, and so is
    * a new window. */
  lemma DefaultIsEmptyBox(point: Vec2, width: real, height: real)
    ensures Resolve(DefaultLayout(), point, width, height) == C.Placement(point, 0.0, 0.0)
    ensures Resolve(WindowBox(WindowNew()), point, width, height) == C.Placement(point, 0.0, 0.0)
  {
  }

  /** A relative box resolves like the relative layout of bevy_lunex_core
    * (CoreContainer.RelativeCalculate). */
  lemma RelativeIsCoreRelative(l: Relative, point: Vec2, width: real, height: real)
    ensures Resolve(RelativeBox(l), point, width, height)
         == C.RelativeCalculate(C.RelativeLayout(l.absolute1, l.absolute2, l.relative1, l.relative2), point, width, height)
  {
  }

  /** The solid box keeps its ratio, `Fit` stays inside a non-negative
    * parent, `Fill` covers it. */
  lemma SolidProperties(s: Solid, point: Vec2, width: real, height: real)
    requires s.width > 0 && s.height > 0
    ensures var r := SolidCalculate(s, point, width, height);
            r.width * s.height as real == r.height * s.width as real
    ensures var r := SolidCalculate(s, point, width, height);
            s.scaling == Fit && width >= 0.0 && height >= 0.0 ==> r.width <= width && r.height <= height
    ensures var r := SolidCalculate(s, point, width, height);
            s.scaling == Fill ==> r.width >= width && r.height >= height
  {
    C.SolidProperties(AsCoreSolid(s), point, width, height);
  }

  lemma InvertYInvolution(p: Position)
    ensures InvertY(InvertY(p)) == p
  {
  }
}
