/** Containers of the bevy_lunex_core crate
  * (crates/bevy_lunex_core/src/code/container.rs): three layouts given by
  * plain floats, each mapping the parent's top-left point, width and height
  * to the widget's top-left point, width and height, and the `Container`
  * that caches the result as a `Position`. */
module CoreContainer {
  import opened Base
  import L = EngineLayout
  import opened EngineStructs

  datatype WindowLayout = WindowLayout(
    absolute: Vec2, relative: Vec2,
    widthAbsolute: real, widthRelative: real, heightAbsolute: real, heightRelative: real)

  datatype RelativeLayout = RelativeLayout(absolute1: Vec2, absolute2: Vec2, relative1: Vec2, relative2: Vec2)

  datatype SolidScale = Fit | Fill

  datatype SolidLayout = SolidLayout(width: real, height: real, horizontalAnchor: real, verticalAnchor: real, scaling: SolidScale)

  datatype LayoutPackage = Window(window: WindowLayout) | Relative(relative: RelativeLayout) | Solid(solid: SolidLayout)

  /** What every `calculate` returns: the top-left point, the width and the height. */
  datatype Placement = Placement(point: Vec2, width: real, height: real)

  datatype Position = Position(point1: Vec2, point2: Vec2, width: real, height: real, depth: real)

  /** A length given in pixels plus percent of the parent's length. */
  function Span(absolute: real, relative: real, size: real): real
  {
    absolute + relative * (size / 100.0)
  }

  /** Spans over one parent length subtract coefficient by coefficient. */
  lemma SpanDifference(a1: real, r1: real, a2: real, r2: real, size: real)
    ensures Span(a2, r2, size) - Span(a1, r1, size) == Span(a2 - a1, r2 - r1, size)
  {
    var k := size / 100.0;
    assert (r2 - r1) * k == r2 * k - r1 * k;
  }

  /** A point given in pixels plus percent of the parent, measured from the
    * parent's top-left point. */
  function Offset(point: Vec2, absolute: Vec2, relative: Vec2, width: real, height: real): (r: Vec2)
    ensures relative == Zero2 ==> r == Add2(point, absolute)
    ensures absolute == Zero2 && relative == Vec2(100.0, 100.0) ==> r == Add2(point, Vec2(width, height))
  {
    Vec2(point.x + Span(absolute.x, relative.x, width), point.y + Span(absolute.y, relative.y, height))
  }

  /** `WindowLayout::calculate`: the corner is an offset, the size is pixels
    * plus percent of the parent's size. */
  function WindowCalculate(l: WindowLayout, point: Vec2, width: real, height: real): (r: Placement)
    ensures r.point == Offset(point, l.absolute, l.relative, width, height)
    ensures l.widthRelative == 0.0 && l.heightRelative == 0.0 ==> r.width == l.widthAbsolute && r.height == l.heightAbsolute
  {
    Placement(Offset(point, l.absolute, l.relative, width, height),
              Span(l.widthAbsolute, l.widthRelative, width), Span(l.heightAbsolute, l.heightRelative, height))
  }

  /** `RelativeLayout::calculate`: two corners computed the same way; the
    * placement spans from the first to the second. */
  function RelativeCalculate(l: RelativeLayout, point: Vec2, width: real, height: real): (r: Placement)
    ensures r.point == Offset(point, l.absolute1, l.relative1, width, height)
    ensures Add2(r.point, Vec2(r.width, r.height)) == Offset(point, l.absolute2, l.relative2, width, height)
  {
    var v1 := Offset(point, l.absolute1, l.relative1, width, height);
    var v2 := Offset(point, l.absolute2, l.relative2, width, height);
    Placement(v1, v2.x - v1.x, v2.y - v1.y)
  }

  /** The divisions of `SolidLayout::calculate` are defined. */
  predicate SolidDivisible(l: SolidLayout)
  {
    l.width != 0.0 && l.height != 0.0
  }

  /** `SolidLayout::calculate`: scaled by the smaller (`Fit`) or larger
    * (`Fill`) ratio of parent to declared size, centred, then shifted by the
    * anchor times the distance from the parent's corner. */
  function SolidCalculate(l: SolidLayout, point: Vec2, width: real, height: real): (r: Placement)
    requires SolidDivisible(l)
    ensures l.scaling == Fit ==> r.width == l.width * Min(width / l.width, height / l.height)
    ensures l.scaling == Fill ==> r.width == l.width * Max(width / l.width, height / l.height)
  {
    var scale := ScaleFactor(l.scaling, width / l.width, height / l.height);
    Anchored(point, width, height, l.width * scale, l.height * scale, l.horizontalAnchor, l.verticalAnchor)
  }

  /** The smaller ratio when fitting, the larger when filling. */
  function ScaleFactor(scaling: SolidScale, rx: real, ry: real): real
  {
    match scaling
    case Fill => Max(rx, ry)
    case Fit => Min(rx, ry)
  }

  /** A box of the given size centred in the parent, then shifted by the
    * anchor times the distance from the parent's corner. */
  function Anchored(point: Vec2, width: real, height: real, vw: real, vh: real, ha: real, va: real): Placement
  {
    var center := Vec2(point.x + width / 2.0, point.y + height / 2.0);
    var vp := Vec2(center.x - vw / 2.0, center.y - vh / 2.0);
    Placement(Vec2(vp.x + (vp.x - point.x) * ha, vp.y + (vp.y - point.y) * va), vw, vh)
  }

  predicate Calculable(p: LayoutPackage)
  {
    p.Solid? ==> SolidDivisible(p.solid)
  }

  /** The dispatch of `Container::calculate` on the package's variant. */
  function PackageCalculate(p: LayoutPackage, point: Vec2, width: real, height: real): (r: Placement)
    requires Calculable(p)
    ensures p.Window? ==> r == WindowCalculate(p.window, point, width, height)
    ensures p.Relative? ==> r == RelativeCalculate(p.relative, point, width, height)
    ensures p.Solid? ==> r == SolidCalculate(p.solid, point, width, height)
  {
    match p
    case Window(w) => WindowCalculate(w, point, width, height)
    case Relative(l) => RelativeCalculate(l, point, width, height)
    case Solid(s) => SolidCalculate(s, point, width, height)
  }

  /** `WindowLayout::default()`: 100% of the parent's width and height at its corner. */
  function DefaultWindow(): (l: WindowLayout)
    ensures l.absolute == Zero2 && l.relative == Zero2
    ensures l.widthAbsolute == 0.0 && l.heightAbsolute == 0.0 && l.widthRelative == 100.0 && l.heightRelative == 100.0
  {
    WindowLayout(Zero2, Zero2, 0.0, 100.0, 0.0, 100.0)
  }

  /** `RelativeLayout::default()`: from the parent's first corner to its second. */
  function DefaultRelative(): (l: RelativeLayout)
    ensures l.absolute1 == l.absolute2 == l.relative1 == Zero2 && l.relative2 == Vec2(100.0, 100.0)
  {
    RelativeLayout(Zero2, Zero2, Zero2, Vec2(100.0, 100.0))
  }

  /** `SolidLayout::default()`: a square, centred, fitted. */
  function DefaultSolid(): (l: SolidLayout)
    ensures l.width == l.height == 1.0 && l.horizontalAnchor == l.verticalAnchor == 0.0 && l.scaling == Fit
  {
    SolidLayout(1.0, 1.0, 0.0, 0.0, Fit)
  }

  /** `LayoutPackage::default()`. */
  function DefaultPackage(): (p: LayoutPackage)
    ensures p == Relative(DefaultRelative())
  {
    Relative(DefaultRelative())
  }

  /** `expect_window_ref`/`expect_window_mut`: the payload, or a panic (the
    * precondition) on any other variant; likewise for the other two. */
  function ExpectWindow(p: LayoutPackage): (w: WindowLayout)
    requires p.Window?
    ensures Window(w) == p
  {
    p.window
  }

  function ExpectRelative(p: LayoutPackage): (l: RelativeLayout)
    requires p.Relative?
    ensures Relative(l) == p
  {
    p.relative
  }

  function ExpectSolid(p: LayoutPackage): (s: SolidLayout)
    requires p.Solid?
    ensures Solid(s) == p
  {
    p.solid
  }

  /** `Position::default()`. */
  const DefaultPosition: Position := Position(Zero2, Zero2, 0.0, 0.0, 0.0)

  /** `Position::invert_y`: both corners mirrored on the x axis. */
  function InvertY(p: Position): (r: Position)
    ensures r.point1 == Vec2(p.point1.x, -p.point1.y) && r.point2 == Vec2(p.point2.x, -p.point2.y)
    ensures r.width == p.width && r.height == p.height && r.depth == p.depth
  {
    Position(Vec2(p.point1.x, -p.point1.y), Vec2(p.point2.x, -p.point2.y), p.width, p.height, p.depth)
  }

  /** `Position::get_pos`: the point at `relative` percent of the widget. */
  function GetPos(p: Position, relative: Vec2): (r: Vec2)
    ensures relative == Zero2 ==> r == p.point1
    ensures relative == Vec2(100.0, 100.0) ==> r == Add2(p.point1, Vec2(p.width, p.height))
  {
    Vec2(p.point1.x + PercentOf(p.width, relative.x), p.point1.y + PercentOf(p.height, relative.y))
  }

  /** `relative` percent of `length`. */
  function PercentOf(length: real, relative: real): real
  {
    length * relative / 100.0
  }

  /** `Position::get_pos_y_inverted`: the same with the relative y negated. */
  function GetPosYInverted(p: Position, relative: Vec2): (r: Vec2)
    ensures r == GetPos(p, Vec2(relative.x, -relative.y))
  {
    Vec2(p.point1.x + PercentOf(p.width, relative.x), p.point1.y + PercentOf(p.height, -relative.y))
  }

  /** The cached position after `Container::calculate`: the placement with
    * the second corner derived from it; the depth is kept. */
  function Cache(old_: Position, r: Placement): Position
  {
    Position(r.point, Vec2(r.point.x + r.width, r.point.y + r.height), r.width, r.height, old_.depth)
  }

  class Container {
    var positionCached: Position
    var positionLayout: LayoutPackage

    /** `Container::new()`. */
    constructor ()
      ensures positionCached == DefaultPosition && positionLayout == DefaultPackage()
    {
      positionCached := DefaultPosition;
      positionLayout := DefaultPackage();
    }

    /** `Container::calculate`: resolves the layout and caches the result. */
    method Calculate(point: Vec2, width: real, height: real)
      requires Calculable(positionLayout)
      modifies this
      ensures positionLayout == old(positionLayout)
      ensures positionCached == Cache(old(positionCached), PackageCalculate(positionLayout, point, width, height))
    {
      var values := PackageCalculate(positionLayout, point, width, height);
      positionCached := positionCached.(point1 := values.point, width := values.width, height := values.height);
      positionCached := positionCached.(point2 := Vec2(positionCached.point1.x + positionCached.width, positionCached.point1.y + positionCached.height));
    }

    /** `Container::layout_set`. */
    method LayoutSet(p: LayoutPackage)
      modifies this
      ensures positionLayout == p && positionCached == old(positionCached)
    {
      positionLayout := p;
    }
  }

  // ---------------------------------------------------------------------
  // Properties

  /** The second corner of a cached position is the first plus the size. */
  lemma CacheSpansSize(old_: Position, p: LayoutPackage, point: Vec2, width: real, height: real)
    requires Calculable(p)
    ensures var c := Cache(old_, PackageCalculate(p, point, width, height));
            Sub2(c.point2, c.point1) == Vec2(c.width, c.height)
  {
  }

  /** A relative layout is the window layout at its first corner whose size
    * is the difference of its corners. */
  lemma RelativeIsWindow(l: RelativeLayout, point: Vec2, width: real, height: real)
    ensures RelativeCalculate(l, point, width, height)
         == WindowCalculate(WindowLayout(l.absolute1, l.relative1,
                              l.absolute2.x - l.absolute1.x, l.relative2.x - l.relative1.x,
                              l.absolute2.y - l.absolute1.y, l.relative2.y - l.relative1.y), point, width, height)
  {
    SpanDifference(l.absolute1.x, l.relative1.x, l.absolute2.x, l.relative2.x, width);
    SpanDifference(l.absolute1.y, l.relative1.y, l.absolute2.y, l.relative2.y, height);
  }

  /** The default window and the default relative layout both cover the parent. */
  lemma DefaultsCoverParent(point: Vec2, width: real, height: real)
    ensures WindowCalculate(DefaultWindow(), point, width, height) == Placement(point, width, height)
    ensures RelativeCalculate(DefaultRelative(), point, width, height) == Placement(point, width, height)
    ensures PackageCalculate(DefaultPackage(), point, width, height) == Placement(point, width, height)
  {
  }

  /** The solid layout is the lunex_engine `Solid` placement with `Fit` or
    * `Fill`, in the parent rectangle at `point` of size `width` by `height`. */
  lemma SolidIsEngineSolid(l: SolidLayout, point: Vec2, width: real, height: real)
    requires SolidDivisible(l)
    ensures var e := L.SolidPlace(Rectangle2D(point, Vec2(width, height)), Vec2(l.width, l.height),
                                  l.horizontalAnchor, l.verticalAnchor, if l.scaling == Fit then L.Fit else L.Fill);
            SolidCalculate(l, point, width, height) == Placement(e.pos, e.size.x, e.size.y)
  {
  }

  /** The solid layout keeps its ratio; `Fit` stays inside a non-negative
    * parent and `Fill` covers it (each touching one axis); anchor 0 centres. */
  lemma SolidProperties(l: SolidLayout, point: Vec2, width: real, height: real)
    requires l.width > 0.0 && l.height > 0.0
    ensures var r := SolidCalculate(l, point, width, height);
            r.width * l.height == r.height * l.width
    ensures var r := SolidCalculate(l, point, width, height);
            l.scaling == Fit && width >= 0.0 && height >= 0.0 ==> r.width <= width && r.height <= height && (r.width == width || r.height == height)
    ensures var r := SolidCalculate(l, point, width, height);
            l.scaling == Fill ==> r.width >= width && r.height >= height && (r.width == width || r.height == height)
    ensures var r := SolidCalculate(l, point, width, height);
            l.horizontalAnchor == 0.0 && l.verticalAnchor == 0.0 ==>
              Add2(r.point, Vec2(r.width / 2.0, r.height / 2.0)) == Vec2(point.x + width / 2.0, point.y + height / 2.0)
  {
    SolidRatioAndAlignment(l, point, width, height);
    SolidFitAndFill(l, point, width, height);
  }

  /** The ratio and the centring half of `SolidProperties`. */
  lemma SolidRatioAndAlignment(l: SolidLayout, point: Vec2, width: real, height: real)
    requires l.width > 0.0 && l.height > 0.0
    ensures var r := SolidCalculate(l, point, width, height);
            r.width * l.height == r.height * l.width
    ensures var r := SolidCalculate(l, point, width, height);
            l.horizontalAnchor == 0.0 && l.verticalAnchor == 0.0 ==>
              Add2(r.point, Vec2(r.width / 2.0, r.height / 2.0)) == Vec2(point.x + width / 2.0, point.y + height / 2.0)
  {
    var parent := Rectangle2D(point, Vec2(width, height));
    var size := Vec2(l.width, l.height);
    var s := if l.scaling == Fit then L.Fit else L.Fill;
    SolidIsEngineSolid(l, point, width, height);
    L.SolidKeepsAspect(parent, size, l.horizontalAnchor, l.verticalAnchor, s);
    L.SolidAlignment(parent, size, l.horizontalAnchor, l.verticalAnchor, s);
  }

  /** The `Fit` and `Fill` half of `SolidProperties`. */
  lemma SolidFitAndFill(l: SolidLayout, point: Vec2, width: real, height: real)
    requires l.width > 0.0 && l.height > 0.0
    ensures var r := SolidCalculate(l, point, width, height);
            l.scaling == Fit && width >= 0.0 && height >= 0.0 ==> r.width <= width && r.height <= height && (r.width == width || r.height == height)
    ensures var r := SolidCalculate(l, point, width, height);
            l.scaling == Fill ==> r.width >= width && r.height >= height && (r.width == width || r.height == height)
  {
    var parent := Rectangle2D(point, Vec2(width, height));
    var size := Vec2(l.width, l.height);
    SolidIsEngineSolid(l, point, width, height);
    if l.scaling == Fit && width >= 0.0 && height >= 0.0 {
      L.SolidFitInside(parent, size, l.horizontalAnchor, l.verticalAnchor);
    }
    if l.scaling == Fill {
      L.SolidFillCovers(parent, size, l.horizontalAnchor, l.verticalAnchor);
    }
  }

  /** Inverting y twice restores the position. */
  lemma InvertYInvolution(p: Position)
    ensures InvertY(InvertY(p)) == p
  {
  }
}
