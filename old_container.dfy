/** Containers of the oldest generation (src/ui_container.rs). The `Window`,
  * `Relative` and `Solid` layouts, their `calculate` formulas and `Position`
  * are the same as in src/core/ui_container.rs, so this module reuses those
  * definitions; the enum is called `PositionLayout` here and the container is
  * its own class. */
module OldContainer {
  import opened Base
  import C = CoreContainer
  import L = LegacyContainer

  type PositionLayout = L.Layout

  /** `Window::wrap`, `Relative::wrap` and `Solid::wrap`. */
  function WrapWindow(w: L.Window): (l: PositionLayout)
    ensures l.WindowBox? && L.ExpectWindow(l) == w
  {
    L.WindowBox(w)
  }

  function WrapRelative(r: L.Relative): (l: PositionLayout)
    ensures l.RelativeBox? && L.ExpectRelative(l) == r
  {
    L.RelativeBox(r)
  }

  function WrapSolid(s: L.Solid): (l: PositionLayout)
    ensures l.SolidBox? && L.ExpectSolid(l) == s
  {
    L.SolidBox(s)
  }

  /** `PositionLayout::default()`: a relative layout with every field 0. */
  function DefaultLayout(): (l: PositionLayout)
    ensures l.RelativeBox? && l.relative == L.RelativeNew()
  {
    L.RelativeBox(L.Relative(Zero2, Zero2, Zero2, Zero2))
  }

  class Container {
    var positionCached: L.Position
    var positionLayout: PositionLayout

    /** `Container::new`: the default position and the default layout. */
    constructor ()
      ensures positionCached == L.DefaultPosition && positionLayout == DefaultLayout()
    {
      positionCached := L.DefaultPosition;
      positionLayout := DefaultLayout();
    }

    /** `Container::update`: each variant writes `point_1`, the width and the
      * height, and then `point_2` = `point_1` + size; the depth is kept. */
    method Update(point: Vec2, width: real, height: real)
      requires L.Updatable(positionLayout)
      modifies this
      ensures positionLayout == old(positionLayout)
      ensures positionCached == L.Cache(old(positionCached), L.Resolve(positionLayout, point, width, height))
      ensures Sub2(positionCached.point2, positionCached.point1) == Vec2(positionCached.width, positionCached.height)
    {
      var values := L.Resolve(positionLayout, point, width, height);
      positionCached := positionCached.(point1 := values.point, width := values.width, height := values.height);
      positionCached := positionCached.(point2 := Vec2(positionCached.point1.x + positionCached.width,
                                                       positionCached.point1.y + positionCached.height));
    }

    /** `Container::position_set`. */
    method PositionSet(p: L.Position)
      modifies this
      ensures positionCached == p && positionLayout == old(positionLayout)
    {
      positionCached := p;
    }

    /** `Container::position_layout_set`. */
    method PositionLayoutSet(l: PositionLayout)
      modifies this
      ensures positionLayout == l && positionCached == old(positionCached)
    {
      positionLayout := l;
    }
  }

  /** A fresh container updated in any parent is a zero-size box at the
    * parent's corner, with `point_2` equal to `point_1`. */
  lemma NewContainerIsEmptyBox(point: Vec2, width: real, height: real)
    ensures L.Cache(L.DefaultPosition, L.Resolve(DefaultLayout(), point, width, height))
         == L.Position(point, point, 0.0, 0.0, 0.0)
  {
  }

  /** A relative layout's cached size is the difference of its two corners. */
  lemma RelativeSpansCorners(r: L.Relative, old_: L.Position, point: Vec2, width: real, height: real)
    ensures var p := L.Cache(old_, L.Resolve(WrapRelative(r), point, width, height));
            var c := L.RelativeCalculate(r, point, width, height);
            p.point1 == c.0 && p.point2 == c.1
  {
  }
}
