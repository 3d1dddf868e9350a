/** The top-down layout pass of the lunex_engine crate
  * (crates/lunex_engine/src/core/compute.rs).
  *
  * `UiTree::compute` reads the absolute scale and font size from the
  * tree's `MasterData` (1 and 16 without one) and computes the root against
  * the given rectangle, whose size is also the viewport. Each node with
  * `NodeData` resolves the two layouts its indices select, tweens between
  * the two rectangles, writes the depth into `pos.z`, and then computes its
  * children inside the rectangle it now holds. A node without `NodeData`
  * stops the pass for its whole subtree. */
module EngineCompute {
  import opened Base
  import opened EngineNodes
  import opened EngineStructs
  import opened EngineTraits
  import L = EngineLayout

  /** Linear interpolation from `a` (at 0) to `b` (at 1). */
  function Lerp(a: real, b: real, t: real): (r: real)
    ensures t == 0.0 ==> r == a
    ensures t == 1.0 ==> r == b
    ensures a == b ==> r == a
  {
    a + (b - a) * t
  }

  /** `Rectangle3D::lerp`: every component interpolated. */
  function LerpRect(a: Rectangle3D, b: Rectangle3D, t: real): (r: Rectangle3D)
    ensures t == 0.0 ==> r == a
    ensures t == 1.0 ==> r == b
    ensures a == b ==> r == a
  {
    Rectangle3D(
      Vec3(Lerp(a.pos.x, b.pos.x, t), Lerp(a.pos.y, b.pos.y, t), Lerp(a.pos.z, b.pos.z, t)),
      Vec2(Lerp(a.size.x, b.size.x, t), Lerp(a.size.y, b.size.y, t)),
      Lerp(a.roll, b.roll, t), Lerp(a.yaw, b.yaw, t), Lerp(a.tilt, b.tilt, t))
  }

  /** The rectangle a placed layout computes inside the parent, converted to
    * 3D (depth 0, no rotation); a solid whose evaluated size has a zero
    * component that it divides by has none. */
  function Place(l: L.Layout, parent: Rectangle3D, scale: real, viewport: Vec2, font: real): (r: Option<Rectangle3D>)
    ensures l.BoundaryLayout? ==> r == Some(To3D(L.BoundaryCompute(l.boundary, To2D(parent), scale, viewport, font)))
    ensures l.WindowLayout? ==> r == Some(To3D(L.WindowCompute(l.window, To2D(parent), scale, viewport, font)))
    ensures l.SolidLayout? ==>
              (r.Some? <==> L.Divisible(l.solid.scaling, L.Eval(l.solid.size, To2D(parent), scale, viewport, font)))
    ensures r.Some? ==> r.value.pos.z == 0.0
  {
    var p := To2D(parent);
    match l
    case BoundaryLayout(b) => Some(To3D(L.BoundaryCompute(b, p, scale, viewport, font)))
    case WindowLayout(w) => Some(To3D(L.WindowCompute(w, p, scale, viewport, font)))
    case SolidLayout(s) =>
      if L.Divisible(s.scaling, L.Eval(s.size, p, scale, viewport, font)) then
        Some(To3D(L.SolidCompute(s, p, scale, viewport, font)))
      else None
  }

  /** The rectangle of one layout slot: a `Div` gives none. */
  function LayoutRect(l: NodeLayout, parent: Rectangle3D, scale: real, viewport: Vec2, font: real): (r: Option<Rectangle3D>)
    ensures l.DivLayout? ==> r.None?
    ensures l.Placed? ==> r == Place(l.layout, parent, scale, viewport, font)
  {
    match l
    case DivLayout(_) => None
    case Placed(p) => Place(p, parent, scale, viewport, font)
  }

  /** `layout.get(&index).unwrap_or(layout.get(&0).unwrap())`: the layout
    * under the index, or the one under 0. The fallback is evaluated first,
    * so a missing key 0 panics whatever the index. */
  function LayoutAt<N>(d: NodeData<N>, i: nat): (l: NodeLayout)
    requires 0 in d.layouts
    ensures i in d.layouts ==> l == d.layouts[i]
    ensures i !in d.layouts ==> l == d.layouts[0]
  {
    if i in d.layouts then d.layouts[i] else d.layouts[0]
  }

  /** The font size a node and its children use: its own override, or the
    * inherited one. */
  function FontOf<N>(d: NodeData<N>, font: real): (f: real)
    ensures d.fontSize.Some? ==> f == d.fontSize.value
    ensures d.fontSize.None? ==> f == font
  {
    if d.fontSize.Some? then d.fontSize.value else font
  }

  /** The rectangle before the depth is written: the tween of the two
    * layouts' rectangles, or the stored one when either has none. */
  function Tweened<N>(d: NodeData<N>, parent: Rectangle3D, scale: real, viewport: Vec2, font: real): (r: Rectangle3D)
    requires 0 in d.layouts
    ensures var f := FontOf(d, font);
            var l0 := LayoutRect(LayoutAt(d, d.layoutIndex.0), parent, scale, viewport, f);
            var l1 := LayoutRect(LayoutAt(d, d.layoutIndex.1), parent, scale, viewport, f);
            (l0.None? || l1.None? ==> r == d.rectangle)
            && (l0.Some? && l1.Some? && d.layoutTween == 0.0 ==> r == l0.value)
            && (l0.Some? && l1.Some? && d.layoutTween == 1.0 ==> r == l1.value)
            && (l0.Some? && d.layoutIndex.0 == d.layoutIndex.1 ==> r == l0.value)
  {
    var f := FontOf(d, font);
    var l0 := LayoutRect(LayoutAt(d, d.layoutIndex.0), parent, scale, viewport, f);
    var l1 := LayoutRect(LayoutAt(d, d.layoutIndex.1), parent, scale, viewport, f);
    if l0.Some? && l1.Some? then LerpRect(l0.value, l1.value, d.layoutTween) else d.rectangle
  }

  /** The node's own step of `compute_all`: only the rectangle changes; its
    * depth is `(depth + depth_bias) * abs_scale`. */
  function ComputeData<N>(d: NodeData<N>, depth: real, parent: Rectangle3D, scale: real, viewport: Vec2, font: real): (r: NodeData<N>)
    requires 0 in d.layouts
    ensures r == d.(rectangle := r.rectangle)
    ensures r.rectangle.pos.z == (depth + d.depthBias) * scale
    ensures var t := Tweened(d, parent, scale, viewport, font);
            r.rectangle == t.(pos := t.pos.(z := r.rectangle.pos.z))
  {
    var t := Tweened(d, parent, scale, viewport, font);
    d.(rectangle := t.(pos := t.pos.(z := (depth + d.depthBias) * scale)))
  }

  /** Every node the pass visits has a layout under key 0. */
  ghost predicate Computable<N>(n: UiNode<N>)
    decreases n
  {
    n.data.Some? ==> 0 in n.data.value.layouts && forall k :: k in n.nodes ==> Computable(n.nodes[k])
  }

  /** `compute_all`: the node's own rectangle, then every child inside it. */
  function ComputeAll<N>(n: UiNode<N>, parent: Rectangle3D, scale: real, viewport: Vec2, font: real): (r: UiNode<N>)
    requires Computable(n)
    ensures n.data.None? ==> r == n
    ensures n.data.Some? ==>
              r == n.(data := r.data, nodes := r.nodes) && r.nodes.Keys == n.nodes.Keys
              && r.data == Some(ComputeData(n.data.value, n.depth, parent, scale, viewport, font))
    ensures Computable(r)
    decreases n
  {
    if n.data.None? then n
    else
      var d := ComputeData(n.data.value, n.depth, parent, scale, viewport, font);
      var f := FontOf(n.data.value, font);
      n.(data := Some(d),
         nodes := map k | k in n.nodes :: ComputeAll(n.nodes[k], d.rectangle, scale, viewport, f))
  }

  /** The loop of `compute_all`: the node's own step, then the children in
    * whatever order the map yields them. */
  method ComputeAllInPlace<N>(n: UiNode<N>, parent: Rectangle3D, scale: real, viewport: Vec2, font: real) returns (r: UiNode<N>)
    requires Computable(n)
    ensures r == ComputeAll(n, parent, scale, viewport, font)
    decreases n
  {
    if n.data.None? {
      return n;
    }
    var d := ComputeData(n.data.value, n.depth, parent, scale, viewport, font);
    var f := FontOf(n.data.value, font);
    var nodes := n.nodes;
    var todo := n.nodes.Keys;
    while todo != {}
      invariant todo <= n.nodes.Keys && nodes.Keys == n.nodes.Keys
      invariant forall k :: k in n.nodes && k in todo ==> nodes[k] == n.nodes[k]
      invariant forall k :: k in n.nodes && k !in todo ==> nodes[k] == ComputeAll(n.nodes[k], d.rectangle, scale, viewport, f)
      decreases todo
    {
      var k :| k in todo;
      var child := ComputeAllInPlace(n.nodes[k], d.rectangle, scale, viewport, f);
      nodes := nodes[k := child];
      todo := todo - {k};
    }
    assert nodes == map k | k in n.nodes :: ComputeAll(n.nodes[k], d.rectangle, scale, viewport, f);
    r := n.(data := Some(d), nodes := nodes);
  }

  /** The absolute scale the tree computes with. */
  function ScaleOf<M>(master: Option<MasterData<M>>): (s: real)
    ensures master.None? ==> s == 1.0
    ensures master.Some? ==> s == master.value.absScale
  {
    if master.Some? then master.value.absScale else 1.0
  }

  /** The font size the tree computes with. */
  function FontSizeOf<M>(master: Option<MasterData<M>>): (f: real)
    ensures master.None? ==> f == 16.0
    ensures master.Some? ==> f == master.value.fontSize
  {
    if master.Some? then master.value.fontSize else 16.0
  }

  /** `UiTree::compute`: the root computed inside `parent`, whose size is
    * the viewport. */
  method Compute<M, N>(t: NodeTree<MasterData<M>, NodeData<N>>, parent: Rectangle3D)
    requires Computable(t.node)
    modifies t
    ensures t.data == old(t.data)
    ensures t.node == ComputeAll(old(t.node), parent, ScaleOf(t.data), parent.size, FontSizeOf(t.data))
  {
    var scale := 1.0;
    var font := 16.0;
    if t.data.Some? {
      scale := t.data.value.absScale;
      font := t.data.value.fontSize;
    }
    t.node := ComputeAllInPlace(t.node, parent, scale, parent.size, font);
  }

  // ---------------------------------------------------------------------
  // Properties

  /** The node step depends on the stored rectangle only through the
    * fallback, so doing it twice changes nothing. */
  lemma ComputeDataIdempotent<N>(d: NodeData<N>, depth: real, parent: Rectangle3D, scale: real, viewport: Vec2, font: real)
    requires 0 in d.layouts
    ensures var e := ComputeData(d, depth, parent, scale, viewport, font);
            ComputeData(e, depth, parent, scale, viewport, font) == e
  {
    var e := ComputeData(d, depth, parent, scale, viewport, font);
    var t, t2 := Tweened(d, parent, scale, viewport, font), Tweened(e, parent, scale, viewport, font);
    assert t2 == t || t2 == e.rectangle by {
      TweenedIgnoresRectangle(d, e.rectangle, parent, scale, viewport, font);
    }
    var z := (depth + d.depthBias) * scale;
    assert e.rectangle == t.(pos := t.pos.(z := z));
    var r2 := ComputeData(e, depth, parent, scale, viewport, font);
    assert r2 == e.(rectangle := t2.(pos := t2.pos.(z := z)));
    assert t2.(pos := t2.pos.(z := z)) == e.rectangle;
  }

  /** The tween reads the stored rectangle only when it falls back to it. */
  lemma TweenedIgnoresRectangle<N>(d: NodeData<N>, rect: Rectangle3D, parent: Rectangle3D, scale: real, viewport: Vec2, font: real)
    requires 0 in d.layouts
    ensures var f := FontOf(d, font);
            var l0 := LayoutRect(LayoutAt(d, d.layoutIndex.0), parent, scale, viewport, f);
            var l1 := LayoutRect(LayoutAt(d, d.layoutIndex.1), parent, scale, viewport, f);
            Tweened(d.(rectangle := rect), parent, scale, viewport, font)
            == if l0.Some? && l1.Some? then Tweened(d, parent, scale, viewport, font) else rect
  {
    var e := d.(rectangle := rect);
    assert LayoutAt(e, e.layoutIndex.0) == LayoutAt(d, d.layoutIndex.0);
    assert LayoutAt(e, e.layoutIndex.1) == LayoutAt(d, d.layoutIndex.1);
  }

  /** Running the pass twice with nothing changed in between gives the same
    * tree as running it once. */
  lemma {:induction false} ComputeIdempotent<N>(n: UiNode<N>, parent: Rectangle3D, scale: real, viewport: Vec2, font: real)
    requires Computable(n)
    ensures var once := ComputeAll(n, parent, scale, viewport, font);
            ComputeAll(once, parent, scale, viewport, font) == once
    decreases n
  {
    if n.data.Some? {
      var once := ComputeAll(n, parent, scale, viewport, font);
      var d := once.data.value;
      ComputeDataIdempotent(n.data.value, n.depth, parent, scale, viewport, font);
      var f := FontOf(n.data.value, font);
      assert FontOf(d, font) == f;
      var twice := ComputeAll(once, parent, scale, viewport, font);
      forall k | k in n.nodes
        ensures twice.nodes[k] == once.nodes[k]
      {
        ComputeIdempotent(n.nodes[k], d.rectangle, scale, viewport, f);
      }
      assert twice.nodes == once.nodes;
    }
  }

  /** A child is computed inside the rectangle its parent now holds, with
    * the parent's font size override. */
  lemma ChildInsideParent<N>(n: UiNode<N>, k: string, parent: Rectangle3D, scale: real, viewport: Vec2, font: real)
    requires Computable(n) && n.data.Some? && k in n.nodes
    ensures var r := ComputeAll(n, parent, scale, viewport, font);
            r.nodes[k] == ComputeAll(n.nodes[k], r.data.value.rectangle, scale, viewport, FontOf(n.data.value, font))
  {
  }

  /** A node with the default `NodeData` covers its parent's area, at the
    * depth its cached depth gives. */
  lemma DefaultNodeFillsParent<N>(n: UiNode<N>, parent: Rectangle3D, scale: real, viewport: Vec2, font: real)
    requires n.data == Some(DefaultNodeData()) && Computable(n)
    ensures var r := ComputeAll(n, parent, scale, viewport, font).data.value.rectangle;
            r.pos == Vec3(parent.pos.x, parent.pos.y, n.depth * scale) && r.size == parent.size
            && r.roll == 0.0 && r.yaw == 0.0 && r.tilt == 0.0
  {
    var d := DefaultNodeData<N>();
    var f := FontOf(d, font);
    assert f == font;
    var w := L.WindowCompute(L.DefaultLayout().window, To2D(parent), scale, viewport, font);
    assert LayoutAt(d, d.layoutIndex.0) == Placed(L.DefaultLayout());
    assert LayoutRect(Placed(L.DefaultLayout()), parent, scale, viewport, f) == Some(To3D(w));
    assert Tweened(d, parent, scale, viewport, font) == To3D(w);
  }

  /** With both layout slots the same placed layout, the tween is irrelevant:
    * the node gets that layout's rectangle. */
  lemma SameLayoutIgnoresTween<N>(d: NodeData<N>, depth: real, parent: Rectangle3D, scale: real, viewport: Vec2, font: real)
    requires 0 in d.layouts && d.layoutIndex.0 == d.layoutIndex.1
    requires LayoutRect(LayoutAt(d, d.layoutIndex.0), parent, scale, viewport, FontOf(d, font)).Some?
    ensures var r := ComputeData(d, depth, parent, scale, viewport, font).rectangle;
            var p := LayoutRect(LayoutAt(d, d.layoutIndex.0), parent, scale, viewport, FontOf(d, font)).value;
            r == p.(pos := p.pos.(z := (depth + d.depthBias) * scale))
  {
  }
}
