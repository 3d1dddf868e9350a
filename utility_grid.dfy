/** crates/bevy_lunex_utility/src/code/grid.rs: `Grid`, `GridSegment` and
  * `GridCell`. A segment is a row (horizontal) or a column (vertical) of
  * cells with gaps between them and an optional border at each end; a grid
  * is a run of segments stacked the other way, with its own gaps and
  * border. Sizes are in arbitrary units; building a segment or grid scales
  * them to percent of the widget it is built in and creates one widget per
  * cell. */
module UtilityGrid {
  import opened Base
  import S = Strings
  import T = CoreTree
  import C = CoreContainer
  import W = CoreWidget
  import E = UtilityElement

  datatype Orientation = Horizontal | Vertical

  /** `GridAlign`, stored but not read by the layout. */
  datatype GridAlign = Start | Middle | End

  /** `GridCell`: x is the width and y the height whatever the orientation. */
  datatype GridCell = GridCell(size: Vec2, name: Option<string>, align: GridAlign)

  /** `GridSegment`: `scale` is the share of the widget, in percent, its
    * length is stretched to (100 when absent); the border is the gap before
    * the first cell and after the last. */
  datatype GridSegment = GridSegment(scale: Option<real>, cell: seq<GridCell>, gap: seq<real>, border: Option<(real, real)>)

  datatype Grid = Grid(orientation: Orientation, segment: seq<GridSegment>, gap: seq<real>, border: Option<(real, real)>)

  // ---------------------------------------------------------------------
  // Defaults and builders

  /** `GridCell::default` (and `new`): 10 by 10, unnamed, in the middle. */
  function DefaultCell(): (c: GridCell)
    ensures c.size == Vec2(10.0, 10.0) && c.name.None? && c.align == Middle
  {
    GridCell(Splat2(10.0), None, Middle)
  }

  /** `GridCell::sized`. */
  function Sized(size: Vec2): (c: GridCell)
    ensures c.size == size && c.(size := Vec2(10.0, 10.0)) == DefaultCell()
  {
    DefaultCell().(size := size)
  }

  /** `GridCell::named`. */
  function Named(size: Vec2, name: string): (c: GridCell)
    ensures c.size == size && c.name == Some(name) && c.align == Middle
  {
    DefaultCell().(size := size, name := Some(name))
  }

  /** `GridSegment::default` (and `new`): no scale, cells, gaps or border. */
  function DefaultSegment(): (s: GridSegment)
    ensures s.scale.None? && s.cell == [] && s.gap == [] && s.border.None?
  {
    GridSegment(None, [], [], None)
  }

  /** `Grid::default` (and `new`): horizontal, with no segments, gaps or
    * border. */
  function DefaultGrid(): (g: Grid)
    ensures g.orientation == Horizontal && g.segment == [] && g.gap == [] && g.border.None?
  {
    Grid(Horizontal, [], [], None)
  }

  /** `n` copies of `x`. */
  function Repeat<X>(x: X, n: nat): (r: seq<X>)
    ensures |r| == n && forall i :: 0 <= i < n ==> r[i] == x
  {
    if n == 0 then [] else Repeat(x, n - 1) + [x]
  }

  /** The push loop of every `splat_*` and `add_*` builder. */
  method Copies<X>(x: X, n: nat) returns (r: seq<X>)
    ensures r == Repeat(x, n)
  {
    r := [];
    for i := 0 to n
      invariant r == Repeat(x, i)
    {
      r := r + [x];
    }
  }

  /** `GridSegment::splat_cells`: `n` copies of the cell, the rest default. */
  method SplatCells(c: GridCell, n: nat) returns (s: GridSegment)
    ensures |s.cell| == n && (forall i :: 0 <= i < n ==> s.cell[i] == c) && s.(cell := []) == DefaultSegment()
  {
    var cells := Copies(c, n);
    s := DefaultSegment().(cell := cells);
  }

  /** `GridSegment::splat_gaps`: `n` copies of the gap, the rest default. */
  method SegmentSplatGaps(gap: real, n: nat) returns (s: GridSegment)
    ensures |s.gap| == n && (forall i :: 0 <= i < n ==> s.gap[i] == gap) && s.(gap := []) == DefaultSegment()
  {
    var gaps := Copies(gap, n);
    s := DefaultSegment().(gap := gaps);
  }

  /** `GridSegment::add_cells`: as many copies of the cell as there are
    * gaps, replacing the cells. */
  method AddCells(s: GridSegment, c: GridCell) returns (r: GridSegment)
    ensures |r.cell| == |s.gap| && (forall i :: 0 <= i < |s.gap| ==> r.cell[i] == c) && r.(cell := s.cell) == s
  {
    var cells := Copies(c, |s.gap|);
    r := s.(cell := cells);
  }

  /** `GridSegment::add_gaps`: as many copies of the gap as there are
    * cells, replacing the gaps. */
  method SegmentAddGaps(s: GridSegment, gap: real) returns (r: GridSegment)
    ensures |r.gap| == |s.cell| && (forall i :: 0 <= i < |s.cell| ==> r.gap[i] == gap) && r.(gap := s.gap) == s
  {
    var gaps := Copies(gap, |s.cell|);
    r := s.(gap := gaps);
  }

  /** `Grid::splat_segment`. */
  method SplatSegment(seg: GridSegment, n: nat) returns (g: Grid)
    ensures |g.segment| == n && (forall i :: 0 <= i < n ==> g.segment[i] == seg) && g.(segment := []) == DefaultGrid()
  {
    var segments := Copies(seg, n);
    g := DefaultGrid().(segment := segments);
  }

  /** `Grid::splat_gaps`. */
  method GridSplatGaps(gap: real, n: nat) returns (g: Grid)
    ensures |g.gap| == n && (forall i :: 0 <= i < n ==> g.gap[i] == gap) && g.(gap := []) == DefaultGrid()
  {
    var gaps := Copies(gap, n);
    g := DefaultGrid().(gap := gaps);
  }

  /** `Grid::add_segments`: as many copies as there are gaps. */
  method AddSegments(g: Grid, seg: GridSegment) returns (r: Grid)
    ensures |r.segment| == |g.gap| && (forall i :: 0 <= i < |g.gap| ==> r.segment[i] == seg) && r.(segment := g.segment) == g
  {
    var segments := Copies(seg, |g.gap|);
    r := g.(segment := segments);
  }

  /** `Grid::add_gaps`: as many copies as there are segments. */
  method GridAddGaps(g: Grid, gap: real) returns (r: Grid)
    ensures |r.gap| == |g.segment| && (forall i :: 0 <= i < |g.segment| ==> r.gap[i] == gap) && r.(gap := g.gap) == g
  {
    var gaps := Copies(gap, |g.segment|);
    r := g.(gap := gaps);
  }

  /** `GridSegment::text_cells`: one cell per text, named after it and
    * sized as the text at font size 10. */
  method TextCells(text: seq<string>) returns (s: GridSegment)
    ensures |s.cell| == |text| && s.(cell := []) == DefaultSegment()
    ensures forall i :: 0 <= i < |text| ==>
              s.cell[i].name == Some(text[i]) && s.cell[i].size == E.TextComputeSizeSimple(text[i], 10.0)
  {
    var cells: seq<GridCell> := [];
    for i := 0 to |text|
      invariant |cells| == i
      invariant forall j :: 0 <= j < i ==>
                  cells[j].name == Some(text[j]) && cells[j].size == E.TextComputeSizeSimple(text[j], 10.0)
    {
      var size := E.ComputeTextSize(text[i], 10.0);
      cells := cells + [Named(size, text[i])];
    }
    s := DefaultSegment().(cell := cells);
  }

  // ---------------------------------------------------------------------
  // Sizes

  /** The extent of a cell along the segment. */
  function Along(c: GridCell, o: Orientation): real
  {
    if o == Horizontal then c.size.x else c.size.y
  }

  /** The extent of a cell across the segment. */
  function Across(c: GridCell, o: Orientation): real
  {
    if o == Horizontal then c.size.y else c.size.x
  }

  function Alongs(cells: seq<GridCell>, o: Orientation): (r: seq<real>)
    ensures |r| == |cells|
  {
    seq(|cells|, i requires 0 <= i < |cells| => Along(cells[i], o))
  }

  function Acrosses(cells: seq<GridCell>, o: Orientation): (r: seq<real>)
    ensures |r| == |cells|
  {
    seq(|cells|, i requires 0 <= i < |cells| => Across(cells[i], o))
  }

  /** A running maximum that starts at 0, as the size loops keep it. */
  function Peak(xs: seq<real>): real
  {
    if |xs| == 0 then 0.0
    else
      var m := Peak(xs[..|xs| - 1]);
      if xs[|xs| - 1] > m then xs[|xs| - 1] else m
  }

  /** It is the largest entry, or 0 when that is larger. */
  lemma {:induction false} PeakIsMax(xs: seq<real>)
    ensures Peak(xs) >= 0.0
    ensures forall i :: 0 <= i < |xs| ==> xs[i] <= Peak(xs)
    ensures Peak(xs) == 0.0 || exists i :: 0 <= i < |xs| && xs[i] == Peak(xs)
  {
    if |xs| > 0 {
      var init := xs[..|xs| - 1];
      PeakIsMax(init);
      assert forall i :: 0 <= i < |init| ==> init[i] == xs[i];
      if Peak(xs) != 0.0 && Peak(xs) == Peak(init) {
        var k :| 0 <= k < |init| && init[k] == Peak(init);
        assert xs[k] == Peak(xs);
      }
    }
  }

  function Sum(xs: seq<real>): real
  {
    if |xs| == 0 then 0.0 else Sum(xs[..|xs| - 1]) + xs[|xs| - 1]
  }

  /** The loop that keeps a running maximum. */
  method Largest(xs: seq<real>) returns (m: real)
    ensures m == Peak(xs)
  {
    m := 0.0;
    for i := 0 to |xs|
      invariant m == Peak(xs[..i])
    {
      assert xs[..i + 1][..i] == xs[..i];
      if xs[i] > m {
        m := xs[i];
      }
    }
    assert xs[..|xs|] == xs;
  }

  /** The loop that sums the first `n` entries. */
  method Total(xs: seq<real>, n: nat) returns (t: real)
    requires n <= |xs|
    ensures t == Sum(xs[..n])
  {
    t := 0.0;
    for i := 0 to n
      invariant t == Sum(xs[..i])
    {
      assert xs[..i + 1][..i] == xs[..i];
      t := t + xs[i];
    }
  }

  /** How many gaps count: at most one fewer than the items. */
  function GapCount(gaps: nat, items: nat): (k: nat)
    requires items > 0
    ensures k <= gaps && k <= items - 1 && (k == gaps || k == items - 1)
  {
    if gaps < items - 1 then gaps else items - 1
  }

  /** How many gaps come before item `i`. */
  function GapsBefore(i: nat, gaps: nat): (k: nat)
    ensures k <= gaps && k <= i && (k == gaps || k == i)
  {
    if i <= gaps then i else gaps
  }

  function BorderStart(b: Option<(real, real)>): real
  {
    if b.Some? then b.value.0 else 0.0
  }

  function BorderEnd(b: Option<(real, real)>): real
  {
    if b.Some? then b.value.1 else 0.0
  }

  /** The length of a run of extents with the gaps that count between them
    * and the border at both ends. */
  function LengthOf(extents: seq<real>, gaps: seq<real>, border: Option<(real, real)>): real
    requires |extents| > 0
  {
    var counted := gaps[..GapCount(|gaps|, |extents|)];
    if border.Some? then Sum(extents) + Sum(counted) + border.value.0 + border.value.1
    else Sum(extents) + Sum(counted)
  }

  /** `GridSegment::compute_size`: the largest cell across the segment. */
  function SegmentSize(s: GridSegment, o: Orientation): real
  {
    Peak(Acrosses(s.cell, o))
  }

  /** Every cell fits across the segment; the size is that of some cell, or
    * 0 when there are none or all are negative. */
  lemma SegmentSizeIsLargest(s: GridSegment, o: Orientation)
    ensures SegmentSize(s, o) >= 0.0
    ensures forall i :: 0 <= i < |s.cell| ==> Across(s.cell[i], o) <= SegmentSize(s, o)
    ensures SegmentSize(s, o) == 0.0 || exists i :: 0 <= i < |s.cell| && Across(s.cell[i], o) == SegmentSize(s, o)
    ensures |s.cell| == 0 ==> SegmentSize(s, o) == 0.0
  {
    var xs := Acrosses(s.cell, o);
    PeakIsMax(xs);
    assert forall i :: 0 <= i < |s.cell| ==> xs[i] == Across(s.cell[i], o);
  }

  /** `GridSegment::compute_lenght`: the cells along the segment, the gaps
    * that count and both borders. With no cells, `len() - 1` underflows. */
  function SegmentLength(s: GridSegment, o: Orientation): real
    requires |s.cell| > 0
  {
    LengthOf(Alongs(s.cell, o), s.gap, s.border)
  }

  method ComputeSize(s: GridSegment, o: Orientation) returns (size: real)
    ensures size == SegmentSize(s, o)
  {
    size := Largest(Acrosses(s.cell, o));
  }

  method ComputeLength(s: GridSegment, o: Orientation) returns (length: real)
    requires |s.cell| > 0
    ensures length == SegmentLength(s, o)
  {
    var alongs := Alongs(s.cell, o);
    var cells := Total(alongs, |alongs|);
    assert alongs[..|alongs|] == alongs;
    var n := if |s.gap| < |s.cell| - 1 then |s.gap| else |s.cell| - 1;
    var gaps := Total(s.gap, n);
    length := if s.border.Some? then cells + gaps + s.border.value.0 + s.border.value.1 else cells + gaps;
  }

  /** Every segment has a cell, so each length is defined. */
  predicate Measurable(g: Grid)
  {
    forall i :: 0 <= i < |g.segment| ==> |g.segment[i].cell| > 0
  }

  function SegmentLengths(g: Grid): (r: seq<real>)
    requires Measurable(g)
    ensures |r| == |g.segment|
  {
    seq(|g.segment|, i requires 0 <= i < |g.segment| && Measurable(g) => SegmentLength(g.segment[i], g.orientation))
  }

  function SegmentSizes(g: Grid): (r: seq<real>)
    ensures |r| == |g.segment|
  {
    seq(|g.segment|, i requires 0 <= i < |g.segment| => SegmentSize(g.segment[i], g.orientation))
  }

  /** `Grid::compute_size`: the longest segment. */
  function GridSize(g: Grid): real
    requires Measurable(g)
  {
    Peak(SegmentLengths(g))
  }

  /** Every segment fits in the grid's size, which is some segment's
    * length or 0. */
  lemma GridSizeIsLargest(g: Grid)
    requires Measurable(g)
    ensures GridSize(g) >= 0.0
    ensures forall i :: 0 <= i < |g.segment| ==> SegmentLength(g.segment[i], g.orientation) <= GridSize(g)
    ensures GridSize(g) == 0.0 || exists i :: 0 <= i < |g.segment| && SegmentLength(g.segment[i], g.orientation) == GridSize(g)
  {
    var xs := SegmentLengths(g);
    PeakIsMax(xs);
    assert forall i :: 0 <= i < |g.segment| ==> xs[i] == SegmentLength(g.segment[i], g.orientation);
  }

  /** `Grid::compute_lenght`: the segments' sizes, the gaps that count and
    * both borders. With no segments, `len() - 1` underflows. */
  function GridLength(g: Grid): real
    requires |g.segment| > 0
  {
    LengthOf(SegmentSizes(g), g.gap, g.border)
  }

  method GridComputeSize(g: Grid) returns (size: real)
    requires Measurable(g)
    ensures size == GridSize(g)
  {
    var lengths: seq<real> := [];
    for i := 0 to |g.segment|
      invariant lengths == SegmentLengths(g)[..i]
    {
      var l := ComputeLength(g.segment[i], g.orientation);
      lengths := lengths + [l];
    }
    assert SegmentLengths(g)[..|g.segment|] == SegmentLengths(g);
    size := Largest(lengths);
  }

  method GridComputeLength(g: Grid) returns (length: real)
    requires |g.segment| > 0
    ensures length == GridLength(g)
  {
    var sizes: seq<real> := [];
    for i := 0 to |g.segment|
      invariant sizes == SegmentSizes(g)[..i]
    {
      var s := ComputeSize(g.segment[i], g.orientation);
      sizes := sizes + [s];
    }
    assert SegmentSizes(g)[..|g.segment|] == SegmentSizes(g);
    var all := Total(sizes, |sizes|);
    assert sizes[..|sizes|] == sizes;
    var n := if |g.gap| < |g.segment| - 1 then |g.gap| else |g.segment| - 1;
    var gaps := Total(g.gap, n);
    length := if g.border.Some? then all + gaps + g.border.value.0 + g.border.value.1 else all + gaps;
  }

  // ---------------------------------------------------------------------
  // Placement along the axis

  /** The running total the build loops keep: each extent scaled by `k`
    * as it is added. */
  function ScaledSum(xs: seq<real>, k: real): real
  {
    if |xs| == 0 then 0.0 else ScaledSum(xs[..|xs| - 1], k) + xs[|xs| - 1] * k
  }

  /** Scaling each entry is scaling the sum. */
  lemma {:induction false} ScaledSumIsScaled(xs: seq<real>, k: real)
    ensures ScaledSum(xs, k) == Sum(xs) * k
  {
    if |xs| > 0 {
      ScaledSumIsScaled(xs[..|xs| - 1], k);
    }
  }

  /** Where item `i` starts along the axis: the scaled extents before it,
    * then the scaled leading border and the gaps before it. */
  function Offset(extents: seq<real>, gaps: seq<real>, border: Option<(real, real)>, k: real, i: nat): real
    requires i <= |extents|
  {
    ScaledSum(extents[..i], k) + (BorderStart(border) * k + ScaledSum(gaps[..GapsBefore(i, |gaps|)], k))
  }

  /** Each item starts where the one before ends, plus the gap between them
    * if there is one. */
  lemma OffsetNext(extents: seq<real>, gaps: seq<real>, border: Option<(real, real)>, k: real, i: nat)
    requires i + 1 <= |extents|
    ensures Offset(extents, gaps, border, k, i + 1) ==
            Offset(extents, gaps, border, k, i) + extents[i] * k + (if i < |gaps| then gaps[i] * k else 0.0)
  {
    assert extents[..i + 1][..i] == extents[..i];
    if i < |gaps| {
      assert gaps[..i + 1][..i] == gaps[..i];
    }
  }

  /** The last item, with the trailing border, ends at the scaled length:
    * the items fill exactly the room they are scaled to. */
  lemma OffsetFills(extents: seq<real>, gaps: seq<real>, border: Option<(real, real)>, k: real)
    requires |extents| > 0
    ensures var n := |extents|;
            Offset(extents, gaps, border, k, n - 1) + extents[n - 1] * k + BorderEnd(border) * k ==
            LengthOf(extents, gaps, border) * k
  {
    var n := |extents|;
    var counted := gaps[..GapCount(|gaps|, n)];
    OffsetOfLast(extents, gaps, border, k);
    ScaledSumIsScaled(extents, k);
    ScaledSumIsScaled(counted, k);
    LengthOfParts(extents, gaps, border);
    FillsFromParts(Offset(extents, gaps, border, k, n - 1), extents[n - 1] * k, BorderStart(border), BorderStart(border) * k,
                   BorderEnd(border), BorderEnd(border) * k, Sum(extents), Sum(counted), LengthOf(extents, gaps, border), k,
                   ScaledSum(extents[..n - 1], k), ScaledSum(extents, k), ScaledSum(counted, k));
  }

  /** The last item starts after all the extents but its own, and after
    * all the gaps that count. */
  lemma OffsetOfLast(extents: seq<real>, gaps: seq<real>, border: Option<(real, real)>, k: real)
    requires |extents| > 0
    ensures var n := |extents|;
      && Offset(extents, gaps, border, k, n - 1)
           == ScaledSum(extents[..n - 1], k) + (BorderStart(border) * k + ScaledSum(gaps[..GapCount(|gaps|, n)], k))
      && ScaledSum(extents, k) == ScaledSum(extents[..n - 1], k) + extents[n - 1] * k
  {
    var n := |extents|;
    assert GapsBefore(n - 1, |gaps|) == GapCount(|gaps|, n);
  }

  lemma LengthOfParts(extents: seq<real>, gaps: seq<real>, border: Option<(real, real)>)
    requires |extents| > 0
    ensures LengthOf(extents, gaps, border)
         == Sum(extents) + Sum(gaps[..GapCount(|gaps|, |extents|)]) + BorderStart(border) + BorderEnd(border)
  {
  }

  /** The arithmetic of `OffsetFills`, on the sums alone. */
  lemma FillsFromParts(offset: real, scaledLast: real, start: real, scaledStart: real, end: real, scaledEnd: real,
                       sumExtents: real, sumGaps: real, length: real, k: real,
                       scaledBefore: real, scaledExtents: real, scaledGaps: real)
    requires offset == scaledBefore + (scaledStart + scaledGaps)
    requires scaledExtents == scaledBefore + scaledLast
    requires scaledExtents == sumExtents * k && scaledGaps == sumGaps * k
    requires scaledStart == start * k && scaledEnd == end * k
    requires length == sumExtents + sumGaps + start + end
    ensures offset + scaledLast + scaledEnd == length * k
  {
    assert length * k == sumExtents * k + sumGaps * k + start * k + end * k;
  }

  /** With no negative extent, gap or scale, no item starts before the one
    * before it ends. */
  lemma OffsetsInOrder(extents: seq<real>, gaps: seq<real>, border: Option<(real, real)>, k: real, i: nat)
    requires i + 1 < |extents| && k >= 0.0
    requires forall j :: 0 <= j < |gaps| ==> gaps[j] >= 0.0
    ensures Offset(extents, gaps, border, k, i) + extents[i] * k <= Offset(extents, gaps, border, k, i + 1)
  {
    OffsetNext(extents, gaps, border, k, i);
    if i < |gaps| {
      assert gaps[i] * k >= 0.0;
    }
  }

  // ---------------------------------------------------------------------
  // Building a segment

  /** What a segment is built in: the cross-axis offset of its cells and
    * the numerators of the two normalisations. `build_in` uses no offset
    * and 100 for both; a grid passes each segment's place and scaled size. */
  datatype Frame = Frame(lengthPos: real, size: real, length: real)

  /** The divisions of the build are defined. */
  predicate Placeable(s: GridSegment, o: Orientation)
  {
    |s.cell| > 0 && SegmentSize(s, o) != 0.0 && SegmentLength(s, o) != 0.0
  }

  /** The length a segment is stretched to: its scale, else the frame's. */
  function Stretch(s: GridSegment, f: Frame): real
  {
    if s.scale.Some? then s.scale.value else f.length
  }

  /** The name of an unnamed cell: "|x|", or "|step-x|" inside a grid. */
  function UnnamedName(step: Option<nat>, x: nat): string
  {
    if step.None? then "|" + S.NatToString(x) + "|"
    else "|" + S.NatToString(step.value) + "-" + S.NatToString(x) + "|"
  }

  function CellName(c: GridCell, step: Option<nat>, x: nat): string
  {
    if c.name.Some? then c.name.value else UnnamedName(step, x)
  }

  /** The window of cell `i`, with `sn` scaling across and `ln` along. */
  function CellLayout(s: GridSegment, o: Orientation, f: Frame, sn: real, ln: real, i: nat): C.WindowLayout
    requires i < |s.cell|
  {
    CellLayoutAt(s, o, f, sn, ln, i, Offset(Alongs(s.cell, o), s.gap, s.border, ln, i))
  }

  /** The window of cell `i` when it starts at `along`. */
  function CellLayoutAt(s: GridSegment, o: Orientation, f: Frame, sn: real, ln: real, i: nat, along: real): C.WindowLayout
    requires i < |s.cell|
  {
    var c := s.cell[i];
    Place(o, along, CrossOffset(f, SegmentSize(s, o), Across(c, o), sn), Along(c, o) * ln, Across(c, o) * sn)
  }

  /** Where a cell of extent `across` starts across a segment of size
    * `size`: centred on the segment, after the frame's offset. */
  function CrossOffset(f: Frame, size: real, across: real, sn: real): real
  {
    f.lengthPos + (size / 2.0 - across / 2.0) * sn
  }

  /** A window at `along` and `cross` on the segment's two axes, with the
    * given extents along and across it. */
  function Place(o: Orientation, along: real, cross: real, alongExtent: real, acrossExtent: real): C.WindowLayout
  {
    if o == Horizontal then C.WindowLayout(Zero2, Vec2(along, cross), 0.0, alongExtent, 0.0, acrossExtent)
    else C.WindowLayout(Zero2, Vec2(cross, along), 0.0, acrossExtent, 0.0, alongExtent)
  }

  /** The start of a cell's window along the segment, and its extent. */
  function AlongStart(l: C.WindowLayout, o: Orientation): real
  {
    if o == Horizontal then l.relative.x else l.relative.y
  }

  function AlongExtent(l: C.WindowLayout, o: Orientation): real
  {
    if o == Horizontal then l.widthRelative else l.heightRelative
  }

  function CrossStart(l: C.WindowLayout, o: Orientation): real
  {
    if o == Horizontal then l.relative.y else l.relative.x
  }

  function CrossExtent(l: C.WindowLayout, o: Orientation): real
  {
    if o == Horizontal then l.heightRelative else l.widthRelative
  }

  /** The normalisation across: the frame's size over the segment's. */
  function CrossScale(s: GridSegment, o: Orientation, f: Frame): real
    requires Placeable(s, o)
  {
    f.size / SegmentSize(s, o)
  }

  /** The normalisation along: the stretch over the segment's length. */
  function LengthScale(s: GridSegment, o: Orientation, f: Frame): real
    requires Placeable(s, o)
  {
    Stretch(s, f) / SegmentLength(s, o)
  }

  /** The two normalisations, from the computed size and length. */
  method Normalise(s: GridSegment, o: Orientation, f: Frame, size: real, length: real) returns (sn: real, ln: real)
    requires Placeable(s, o) && size == SegmentSize(s, o) && length == SegmentLength(s, o)
    ensures sn == CrossScale(s, o, f) && ln == LengthScale(s, o, f)
  {
    sn := f.size / size;
    ln := (if s.scale.Some? then s.scale.value else f.length) / length;
  }

  /** The named windows of a segment's cells, in order. */
  function SegmentCells(s: GridSegment, o: Orientation, f: Frame, step: Option<nat>): (r: seq<(string, C.LayoutPackage)>)
    requires Placeable(s, o)
    ensures |r| == |s.cell|
  {
    var sn, ln := CrossScale(s, o, f), LengthScale(s, o, f);
    seq(|s.cell|, i requires 0 <= i < |s.cell| => (CellName(s.cell[i], step, i), C.Window(CellLayout(s, o, f, sn, ln, i))))
  }

  /** The cells fill the segment's stretch exactly: the last ends, with the
    * trailing border, at the scale (100 when unset). */
  lemma SegmentFillsStretch(s: GridSegment, o: Orientation, f: Frame, step: Option<nat>)
    requires Placeable(s, o)
    ensures var cells, n := SegmentCells(s, o, f, step), |s.cell|;
            var last := cells[n - 1].1.window;
            var ln := LengthScale(s, o, f);
            AlongStart(last, o) + AlongExtent(last, o) + BorderEnd(s.border) * ln == Stretch(s, f)
  {
    var ln := LengthScale(s, o, f);
    var alongs := Alongs(s.cell, o);
    OffsetFills(alongs, s.gap, s.border, ln);
    assert LengthOf(alongs, s.gap, s.border) * ln == Stretch(s, f);
  }

  /** Each cell starts where the one before ends, plus the scaled gap
    * between them if there is one. */
  lemma SegmentCellsAdjoin(s: GridSegment, o: Orientation, f: Frame, step: Option<nat>, i: nat)
    requires Placeable(s, o) && i + 1 < |s.cell|
    ensures var cells := SegmentCells(s, o, f, step);
            var a, b := cells[i].1.window, cells[i + 1].1.window;
            var ln := LengthScale(s, o, f);
            AlongStart(b, o) == AlongStart(a, o) + AlongExtent(a, o) + (if i < |s.gap| then s.gap[i] * ln else 0.0)
  {
    var ln := LengthScale(s, o, f);
    OffsetNext(Alongs(s.cell, o), s.gap, s.border, ln, i);
  }

  /** Every cell is centred across the segment: its middle is the middle of
    * the segment's scaled size. */
  lemma SegmentCellsCentred(s: GridSegment, o: Orientation, f: Frame, step: Option<nat>, i: nat)
    requires Placeable(s, o) && i < |s.cell|
    ensures var l := SegmentCells(s, o, f, step)[i].1.window;
            CrossStart(l, o) + CrossExtent(l, o) / 2.0 == f.lengthPos + f.size / 2.0
  {
    var sn := CrossScale(s, o, f);
    var size, a := SegmentSize(s, o), Across(s.cell[i], o);
    assert (size / 2.0 - a / 2.0) * sn + a * sn / 2.0 == size * sn / 2.0;
    assert size * sn == f.size;
  }

  /** Unnamed cells of one segment get different names. */
  lemma UnnamedNamesDistinct(step: Option<nat>, x: nat, y: nat)
    requires x != y
    ensures UnnamedName(step, x) != UnnamedName(step, y)
  {
    if UnnamedName(step, x) == UnnamedName(step, y) {
      var a, b := S.NatToString(x), S.NatToString(y);
      if step.None? {
        assert a == UnnamedName(step, x)[1..|a| + 1];
        assert |a| == |b|;
        assert b == UnnamedName(step, y)[1..|b| + 1];
      } else {
        var p := "|" + S.NatToString(step.value) + "-";
        assert UnnamedName(step, x) == p + a + "|" && UnnamedName(step, y) == p + b + "|";
        assert a == UnnamedName(step, x)[|p|..|p| + |a|];
        assert b == UnnamedName(step, y)[|p|..|p| + |b|];
      }
      S.DigitsOfNatToString(x);
      S.DigitsOfNatToString(y);
    }
  }

  /** Unnamed cells of different segments of a grid get different names:
    * the '-' after the segment's digits keeps "|1-23|" and "|12-3|" apart. */
  lemma PartNamesDistinct(s1: nat, x1: nat, s2: nat, x2: nat)
    requires (s1, x1) != (s2, x2)
    ensures UnnamedName(Some(s1), x1) != UnnamedName(Some(s2), x2)
  {
    var a, b, c, d := S.NatToString(s1), S.NatToString(x1), S.NatToString(s2), S.NatToString(x2);
    var u, v := UnnamedName(Some(s1), x1), UnnamedName(Some(s2), x2);
    if u == v {
      assert u == "|" + a + "-" + b + "|" && v == "|" + c + "-" + d + "|";
      DashAfterDigits(a, b, c, d);
      S.DigitsOfNatToString(s1);
      S.DigitsOfNatToString(s2);
      S.DigitsOfNatToString(x1);
      S.DigitsOfNatToString(x2);
    }
  }

  /** Two runs of digits, each followed by '-' and more text, are told
    * apart by where the '-' falls. */
  lemma DashAfterDigits(a: string, b: string, c: string, d: string)
    requires S.AllDigits(a) && S.AllDigits(c)
    requires "|" + a + "-" + b + "|" == "|" + c + "-" + d + "|"
    ensures a == c && b == d
  {
    var u, v := "|" + a + "-" + b + "|", "|" + c + "-" + d + "|";
    FirstDash(a, b);
    FirstDash(c, d);
    assert |a| == |c|;
    assert a == u[1..|a| + 1] && c == v[1..|c| + 1];
    assert b == u[|a| + 2..|u| - 1] && d == v[|c| + 2..|v| - 1];
  }

  /** The first '-' after the opening bar comes right after the digits. */
  lemma FirstDash(a: string, b: string)
    requires S.AllDigits(a)
    ensures var u := "|" + a + "-" + b + "|";
            u[|a| + 1] == '-' && forall i :: 1 <= i <= |a| ==> u[i] != '-'
  {
    var u := "|" + a + "-" + b + "|";
    forall i | 1 <= i <= |a|
      ensures u[i] != '-'
    {
      assert u[i] == a[i - 1];
    }
  }

  // ---------------------------------------------------------------------
  // Creating the widgets

  /** The widgets made from `cells[from..]` one after the other below `w`;
    * the first failure ends the run, keeping what was made in the tree. */
  function CreateCells(root: T.UiBranch, w: W.Widget, cells: seq<(string, C.LayoutPackage)>, from: nat): (r: (T.UiBranch, Result<seq<W.Widget>, T.LunexError>))
    requires from <= |cells|
    ensures r.1.Ok? ==> |r.1.value| == |cells| - from
    decreases |cells| - from
  {
    if from == |cells| then (root, Ok([]))
    else
      var c := W.CreateOf(root, W.End(w, cells[from].0), cells[from].1);
      if c.1.Err? then (c.0, Err(c.1.error))
      else
        var rest := CreateCells(c.0, w, cells, from + 1);
        (rest.0, if rest.1.Ok? then Ok([c.1.value] + rest.1.value) else rest.1)
  }

  /** `made` followed by what the rest of a run makes. */
  function After<X>(made: seq<X>, r: (T.UiBranch, Result<seq<X>, T.LunexError>)): (T.UiBranch, Result<seq<X>, T.LunexError>)
  {
    (r.0, if r.1.Ok? then Ok(made + r.1.value) else r.1)
  }

  /** Nothing made before a run changes nothing. */
  lemma AfterNothing<X>(r: (T.UiBranch, Result<seq<X>, T.LunexError>))
    ensures After([], r) == r
  {
    if r.1.Ok? {
      assert [] + r.1.value == r.1.value;
    }
  }

  /** One successful creation moves its widget from the rest of the run to
    * what was made. */
  lemma CreateCellsStep(root: T.UiBranch, w: W.Widget, cells: seq<(string, C.LayoutPackage)>, x: nat, made: seq<W.Widget>, next: T.UiBranch, v: W.Widget)
    requires x < |cells| && W.CreateOf(root, W.End(w, cells[x].0), cells[x].1) == (next, Ok(v))
    ensures After(made, CreateCells(root, w, cells, x)) == After(made + [v], CreateCells(next, w, cells, x + 1))
  {
    var rest := CreateCells(next, w, cells, x + 1);
    assert CreateCells(root, w, cells, x) == (rest.0, if rest.1.Ok? then Ok([v] + rest.1.value) else rest.1);
    if rest.1.Ok? {
      assert made + ([v] + rest.1.value) == (made + [v]) + rest.1.value;
    }
  }

  /** One iteration's creation: cell `x` made below `w`, and what the
    * whole run makes in terms of the rest. */
  method CreateNext(ghost cells: seq<(string, C.LayoutPackage)>, root: T.UiBranch, w: W.Widget, x: nat, made: seq<W.Widget>, name: string, package: C.LayoutPackage)
    returns (next: T.UiBranch, made': seq<W.Widget>, failed: Option<T.LunexError>)
    requires x < |cells| && cells[x] == (name, package)
    ensures failed.None? ==> After(made, CreateCells(root, w, cells, x)) == After(made', CreateCells(next, w, cells, x + 1))
    ensures failed.Some? ==> After(made, CreateCells(root, w, cells, x)) == (next, Err(failed.value))
  {
    var one;
    next, one := W.Create(root, W.End(w, name), package);
    if one.Err? {
      return next, made, Some(one.error);
    }
    CreateCellsStep(root, w, cells, x, made, next, one.value);
    return next, made + [one.value], None;
  }

  /** The index of the last gap added before item `x`'s own: the build
    * loops add the gap before an item at the top of its iteration. */
  function Prev(x: nat): nat
  {
    if x == 0 then 0 else x - 1
  }

  /** The gap the loop adds at the top of iteration `x`. */
  lemma GapStep(gaps: seq<real>, x: nat, k: real)
    ensures ScaledSum(gaps[..GapsBefore(x, |gaps|)], k) ==
            ScaledSum(gaps[..GapsBefore(Prev(x), |gaps|)], k) + (if x != 0 && x <= |gaps| then gaps[x - 1] * k else 0.0)
  {
    if x != 0 && x <= |gaps| {
      assert gaps[..x][..x - 1] == gaps[..x - 1];
    }
  }

  /** The top of iteration `x` of the build loops: the gap before item
    * `x`, if there is one, added to the scaled gaps so far. */
  method AddGap(gaps: seq<real>, border: Option<(real, real)>, k: real, x: nat, gapSoFar: real) returns (gapSoFar': real)
    requires gapSoFar == BorderStart(border) * k + ScaledSum(gaps[..GapsBefore(Prev(x), |gaps|)], k)
    ensures gapSoFar' == BorderStart(border) * k + ScaledSum(gaps[..GapsBefore(x, |gaps|)], k)
  {
    GapStep(gaps, x, k);
    gapSoFar' := gapSoFar;
    if x != 0 && x <= |gaps| {
      gapSoFar' := gapSoFar' + gaps[x - 1] * k;
    }
  }

  /** The extent the loop adds at the bottom of iteration `x`. */
  lemma ExtentStep(xs: seq<real>, x: nat, k: real, soFar: real, extent: real)
    requires x < |xs| && soFar == ScaledSum(xs[..x], k) && extent == xs[x] * k
    ensures soFar + extent == ScaledSum(xs[..x + 1], k)
  {
    assert xs[..x + 1][..x] == xs[..x];
  }

  /** The name and window of cell `x`, given where it starts. */
  method PlaceCell(s: GridSegment, o: Orientation, f: Frame, step: Option<nat>, size: real, sn: real, ln: real, x: nat, start: real)
    returns (name: string, layout: C.WindowLayout, ll: real)
    requires x < |s.cell| && size == SegmentSize(s, o)
    ensures name == CellName(s.cell[x], step, x) && layout == CellLayoutAt(s, o, f, sn, ln, x, start)
    ensures ll == Alongs(s.cell, o)[x] * ln
  {
    var c := s.cell[x];
    name := CellName(c, step, x);
    var along := Along(c, o);
    assert along == Alongs(s.cell, o)[x];
    ll := along * ln;
    var across := Across(c, o);
    var cross := CrossOffset(f, size, across, sn);
    layout := Place(o, start, cross, ll, across * sn);
  }

  /** Cell `x` of the specified cells: its name and its window. */
  lemma SegmentCellAt(s: GridSegment, o: Orientation, f: Frame, step: Option<nat>, x: nat)
    requires Placeable(s, o) && x < |s.cell|
    ensures SegmentCells(s, o, f, step)[x] == (CellName(s.cell[x], step, x), C.Window(CellLayout(s, o, f, CrossScale(s, o, f), LengthScale(s, o, f), x)))
  {
  }

  /** One iteration of the layout half: the gap before cell `x` added,
    * the cell placed after the lengths and gaps so far, its length added. */
  method LayNext(s: GridSegment, o: Orientation, f: Frame, step: Option<nat>, size: real, sn: real, ln: real, x: nat, cellSoFar: real, gapSoFar: real)
    returns (cell: (string, C.LayoutPackage), cellSoFar': real, gapSoFar': real)
    requires Placeable(s, o) && x < |s.cell|
    requires size == SegmentSize(s, o) && sn == CrossScale(s, o, f) && ln == LengthScale(s, o, f)
    requires cellSoFar == ScaledSum(Alongs(s.cell, o)[..x], ln)
    requires gapSoFar == BorderStart(s.border) * ln + ScaledSum(s.gap[..GapsBefore(Prev(x), |s.gap|)], ln)
    ensures cell == SegmentCells(s, o, f, step)[x]
    ensures cellSoFar' == ScaledSum(Alongs(s.cell, o)[..x + 1], ln)
    ensures gapSoFar' == BorderStart(s.border) * ln + ScaledSum(s.gap[..GapsBefore(Prev(x + 1), |s.gap|)], ln)
  {
    gapSoFar' := AddGap(s.gap, s.border, ln, x, gapSoFar);
    var name, layout, ll := PlaceCell(s, o, f, step, size, sn, ln, x, cellSoFar + gapSoFar');
    cell := (name, C.Window(layout));
    assert cellSoFar + gapSoFar' == Offset(Alongs(s.cell, o), s.gap, s.border, ln, x);
    SegmentCellAt(s, o, f, step, x);
    ExtentStep(Alongs(s.cell, o), x, ln, cellSoFar, ll);
    cellSoFar' := cellSoFar + ll;
  }

  /** The layout half of the cell loop of `build_in_part_grid` and
    * `build_in`: the two normalisations, then the scaled lengths and gaps
    * so far, giving each cell its name and window. */
  method LayCells(s: GridSegment, o: Orientation, f: Frame, step: Option<nat>)
    returns (cells: seq<(string, C.LayoutPackage)>)
    requires Placeable(s, o)
    ensures cells == SegmentCells(s, o, f, step)
  {
    var size := ComputeSize(s, o);
    var length := ComputeLength(s, o);
    var sn, ln := Normalise(s, o, f, size, length);
    var cellSoFar, gapSoFar := 0.0, 0.0;
    if s.border.Some? {
      gapSoFar := gapSoFar + s.border.value.0 * ln;
    }
    ghost var all := SegmentCells(s, o, f, step);
    cells := [];
    var x := 0;
    while x < |s.cell|
      invariant 0 <= x <= |s.cell|
      invariant cellSoFar == ScaledSum(Alongs(s.cell, o)[..x], ln)
      invariant gapSoFar == BorderStart(s.border) * ln + ScaledSum(s.gap[..GapsBefore(Prev(x), |s.gap|)], ln)
      invariant |cells| == x && forall i :: 0 <= i < x ==> cells[i] == all[i]
    {
      var cell;
      cell, cellSoFar, gapSoFar := LayNext(s, o, f, step, size, sn, ln, x, cellSoFar, gapSoFar);
      cells := cells + [cell];
      x := x + 1;
    }
    assert cells == all;
  }

  /** The creation half of the cell loop: each cell made below `w` in
    * turn, the first failure ending the loop. */
  method CreateRun(root: T.UiBranch, w: W.Widget, cells: seq<(string, C.LayoutPackage)>)
    returns (root': T.UiBranch, r: Result<seq<W.Widget>, T.LunexError>)
    ensures (root', r) == CreateCells(root, w, cells, 0)
  {
    AfterNothing(CreateCells(root, w, cells, 0));
    var made: seq<W.Widget> := [];
    root' := root;
    var x := 0;
    while x < |cells|
      invariant 0 <= x <= |cells|
      invariant CreateCells(root, w, cells, 0) == After(made, CreateCells(root', w, cells, x))
    {
      var failed;
      root', made, failed := CreateNext(cells, root', w, x, made, cells[x].0, cells[x].1);
      if failed.Some? {
        r := Err(failed.value);
        return;
      }
      x := x + 1;
    }
    assert made + [] == made;
    r := Ok(made);
  }

  /** `build_in_part_grid`, and `build_in` with `Frame(0, 100, 100)` and no
    * step. The source computes each cell's window just before creating it;
    * a window does not depend on what was created, so computing them all
    * first makes the same widgets. */
  method BuildSegment(s: GridSegment, root: T.UiBranch, w: W.Widget, o: Orientation, f: Frame, step: Option<nat>)
    returns (root': T.UiBranch, r: Result<seq<W.Widget>, T.LunexError>)
    requires Placeable(s, o)
    ensures (root', r) == CreateCells(root, w, SegmentCells(s, o, f, step), 0)
  {
    var cells := LayCells(s, o, f, step);
    root', r := CreateRun(root, w, cells);
  }

  // ---------------------------------------------------------------------
  // Building a grid

  /** The divisions of the grid's build, and of each segment's, are
    * defined. */
  predicate GridPlaceable(g: Grid)
  {
    |g.segment| > 0 && SegmentsPlaceable(g) && GridSize(g) != 0.0 && GridLength(g) != 0.0
  }

  /** The divisions of every segment's build are defined. */
  predicate SegmentsPlaceable(g: Grid)
  {
    forall i :: 0 <= i < |g.segment| ==> Placeable(g.segment[i], g.orientation)
  }

  /** The frame segment `x` is built in: its place across the grid and its
    * scaled size, with `sn` and `ln` the grid's normalisations. */
  function SegmentFrame(g: Grid, sn: real, ln: real, x: nat): Frame
    requires x < |g.segment| && |g.segment[x].cell| > 0
  {
    var seg := g.segment[x];
    Frame(Offset(SegmentSizes(g), g.gap, g.border, ln, x), SegmentSize(seg, g.orientation) * ln,
          SegmentLength(seg, g.orientation) * sn)
  }

  /** The named windows of every segment's cells, segment by segment,
    * each segment laid out in its frame and its unnamed cells numbered with
    * the segment's index. */
  function GridRuns(g: Grid, sn: real, ln: real): (r: seq<seq<(string, C.LayoutPackage)>>)
    requires SegmentsPlaceable(g)
    ensures |r| == |g.segment|
  {
    seq(|g.segment|, i requires 0 <= i < |g.segment| =>
      SegmentCells(g.segment[i], g.orientation, SegmentFrame(g, sn, ln, i), Some(i)))
  }

  /** The widgets of runs `from..` made one run after the other below `w`,
    * the first failure ending the whole build. */
  function CreateRuns(root: T.UiBranch, w: W.Widget, runs: seq<seq<(string, C.LayoutPackage)>>, from: nat): (r: (T.UiBranch, Result<seq<seq<W.Widget>>, T.LunexError>))
    requires from <= |runs|
    ensures r.1.Ok? ==> |r.1.value| == |runs| - from
    decreases |runs| - from
  {
    if from == |runs| then (root, Ok([]))
    else
      var c := CreateCells(root, w, runs[from], 0);
      if c.1.Err? then (c.0, Err(c.1.error))
      else
        var rest := CreateRuns(c.0, w, runs, from + 1);
        (rest.0, if rest.1.Ok? then Ok([c.1.value] + rest.1.value) else rest.1)
  }

  /** `Grid::build_in`: every segment built inside `w`. */
  function GridBuildInOf(g: Grid, root: T.UiBranch, w: W.Widget): (T.UiBranch, Result<seq<seq<W.Widget>>, T.LunexError>)
    requires GridPlaceable(g)
  {
    CreateRuns(root, w, GridRuns(g, 100.0 / GridSize(g), 100.0 / GridLength(g)), 0)
  }

  /** The segments fill the grid's 100 percent across: the last one, with
    * the trailing border, ends at 100. */
  lemma SegmentsFillGrid(g: Grid)
    requires GridPlaceable(g)
    ensures var n, ln := |g.segment|, 100.0 / GridLength(g);
            var last := SegmentFrame(g, 100.0 / GridSize(g), ln, n - 1);
            last.lengthPos + last.size + BorderEnd(g.border) * ln == 100.0
  {
    var ln := 100.0 / GridLength(g);
    OffsetFills(SegmentSizes(g), g.gap, g.border, ln);
  }

  /** Each segment starts where the one before ends, plus the scaled gap
    * between them if there is one. */
  lemma SegmentsAdjoin(g: Grid, x: nat)
    requires GridPlaceable(g) && x + 1 < |g.segment|
    ensures var sn, ln := 100.0 / GridSize(g), 100.0 / GridLength(g);
            var a, b := SegmentFrame(g, sn, ln, x), SegmentFrame(g, sn, ln, x + 1);
            b.lengthPos == a.lengthPos + a.size + (if x < |g.gap| then g.gap[x] * ln else 0.0)
  {
    var sn, ln := 100.0 / GridSize(g), 100.0 / GridLength(g);
    var sizes := SegmentSizes(g);
    var a, b := SegmentFrame(g, sn, ln, x), SegmentFrame(g, sn, ln, x + 1);
    assert sizes[x] == SegmentSize(g.segment[x], g.orientation);
    OffsetNext(sizes, g.gap, g.border, ln, x);
    AdjoinFromParts(a.lengthPos, a.size, b.lengthPos, sizes[x] * ln, if x < |g.gap| then g.gap[x] * ln else 0.0);
  }

  lemma AdjoinFromParts(start: real, size: real, next: real, scaledSize: real, scaledGap: real)
    requires next == start + scaledSize + scaledGap && size == scaledSize
    ensures next == start + size + scaledGap
  {
  }

  /** One successful run moves its widgets from the rest of the build to
    * what was made. */
  lemma CreateRunsStep(root: T.UiBranch, w: W.Widget, runs: seq<seq<(string, C.LayoutPackage)>>, x: nat, made: seq<seq<W.Widget>>, next: T.UiBranch, v: seq<W.Widget>)
    requires x < |runs| && CreateCells(root, w, runs[x], 0) == (next, Ok(v))
    ensures After(made, CreateRuns(root, w, runs, x)) == After(made + [v], CreateRuns(next, w, runs, x + 1))
  {
    var rest := CreateRuns(next, w, runs, x + 1);
    var whole := (rest.0, if rest.1.Ok? then Ok([v] + rest.1.value) else rest.1);
    assert CreateRuns(root, w, runs, x) == whole;
    if rest.1.Ok? {
      assert made + ([v] + rest.1.value) == (made + [v]) + rest.1.value;
    }
  }

  /** One iteration of the creation half of the grid loop: run `x` made. */
  method RunNext(runs: seq<seq<(string, C.LayoutPackage)>>, root: T.UiBranch, w: W.Widget, x: nat, made: seq<seq<W.Widget>>)
    returns (next: T.UiBranch, made': seq<seq<W.Widget>>, failed: Option<T.LunexError>)
    requires x < |runs|
    ensures failed.None? ==> After(made, CreateRuns(root, w, runs, x)) == After(made', CreateRuns(next, w, runs, x + 1))
    ensures failed.Some? ==> After(made, CreateRuns(root, w, runs, x)) == (next, Err(failed.value))
  {
    var one;
    next, one := CreateRun(root, w, runs[x]);
    if one.Err? {
      return next, made, Some(one.error);
    }
    CreateRunsStep(root, w, runs, x, made, next, one.value);
    return next, made + [one.value], None;
  }

  /** The creation half of the grid loop: each segment's cells made in
    * turn. */
  method CreateAllRuns(root: T.UiBranch, w: W.Widget, runs: seq<seq<(string, C.LayoutPackage)>>)
    returns (root': T.UiBranch, r: Result<seq<seq<W.Widget>>, T.LunexError>)
    ensures (root', r) == CreateRuns(root, w, runs, 0)
  {
    AfterNothing(CreateRuns(root, w, runs, 0));
    var made: seq<seq<W.Widget>> := [];
    root' := root;
    var x := 0;
    while x < |runs|
      invariant 0 <= x <= |runs|
      invariant CreateRuns(root, w, runs, 0) == After(made, CreateRuns(root', w, runs, x))
    {
      var failed;
      root', made, failed := RunNext(runs, root', w, x, made);
      if failed.Some? {
        r := Err(failed.value);
        return;
      }
      x := x + 1;
    }
    assert made + [] == made;
    r := Ok(made);
  }

  /** The grid's two normalisations, from its computed size and length. */
  method GridNormalise(g: Grid, size: real, length: real) returns (sn: real, ln: real)
    requires GridPlaceable(g) && size == GridSize(g) && length == GridLength(g)
    ensures sn == 100.0 / GridSize(g) && ln == 100.0 / GridLength(g)
  {
    sn, ln := 100.0 / size, 100.0 / length;
  }

  /** The frame of segment `x`, placed after the scaled sizes and gaps so
    * far, and its size added to the sizes so far. */
  method FrameOf(g: Grid, sn: real, ln: real, x: nat, segmentSoFar: real, gapSoFar: real) returns (f: Frame, segmentSoFar': real)
    requires x < |g.segment| && |g.segment[x].cell| > 0
    requires segmentSoFar == ScaledSum(SegmentSizes(g)[..x], ln)
    requires gapSoFar == BorderStart(g.border) * ln + ScaledSum(g.gap[..GapsBefore(x, |g.gap|)], ln)
    ensures f == SegmentFrame(g, sn, ln, x)
    ensures segmentSoFar' == ScaledSum(SegmentSizes(g)[..x + 1], ln)
  {
    var segSize := ComputeSize(g.segment[x], g.orientation);
    var segLength := ComputeLength(g.segment[x], g.orientation);
    f := Frame(segmentSoFar + gapSoFar, segSize * ln, segLength * sn);
    ExtentStep(SegmentSizes(g), x, ln, segmentSoFar, f.size);
    segmentSoFar' := segmentSoFar + f.size;
  }

  /** One iteration of the layout half of the grid loop: the gap before
    * segment `x` added, its frame placed after the sizes and gaps so far,
    * its size added. */
  method FrameNext(g: Grid, sn: real, ln: real, x: nat, segmentSoFar: real, gapSoFar: real)
    returns (f: Frame, segmentSoFar': real, gapSoFar': real)
    requires x < |g.segment| && |g.segment[x].cell| > 0
    requires segmentSoFar == ScaledSum(SegmentSizes(g)[..x], ln)
    requires gapSoFar == BorderStart(g.border) * ln + ScaledSum(g.gap[..GapsBefore(Prev(x), |g.gap|)], ln)
    ensures f == SegmentFrame(g, sn, ln, x)
    ensures segmentSoFar' == ScaledSum(SegmentSizes(g)[..x + 1], ln)
    ensures gapSoFar' == BorderStart(g.border) * ln + ScaledSum(g.gap[..GapsBefore(Prev(x + 1), |g.gap|)], ln)
  {
    gapSoFar' := AddGap(g.gap, g.border, ln, x, gapSoFar);
    f, segmentSoFar' := FrameOf(g, sn, ln, x, segmentSoFar, gapSoFar');
  }

  /** The running sums of the grid loop at the top of iteration `x`: the
    * scaled sizes of the segments before it, and the border and the gaps
    * added so far. */
  predicate SumsBefore(g: Grid, ln: real, x: nat, segmentSoFar: real, gapSoFar: real)
    requires x <= |g.segment|
  {
    segmentSoFar == ScaledSum(SegmentSizes(g)[..x], ln)
    && gapSoFar == BorderStart(g.border) * ln + ScaledSum(g.gap[..GapsBefore(Prev(x), |g.gap|)], ln)
  }

  /** One iteration of the layout half of the grid loop: segment `x`'s
    * frame, then its cells laid out in it. */
  method LaySegmentNext(g: Grid, sn: real, ln: real, x: nat, segmentSoFar: real, gapSoFar: real)
    returns (run: seq<(string, C.LayoutPackage)>, segmentSoFar': real, gapSoFar': real)
    requires SegmentsPlaceable(g) && x < |g.segment|
    requires SumsBefore(g, ln, x, segmentSoFar, gapSoFar)
    ensures run == GridRuns(g, sn, ln)[x]
    ensures SumsBefore(g, ln, x + 1, segmentSoFar', gapSoFar')
  {
    var f;
    f, segmentSoFar', gapSoFar' := FrameNext(g, sn, ln, x, segmentSoFar, gapSoFar);
    run := LayCells(g.segment[x], g.orientation, f, Some(x));
  }

  /** A prefix grown by the next entry. */
  lemma PrefixNext<X>(all: seq<X>, x: nat, next: X)
    requires x < |all| && next == all[x]
    ensures all[..x] + [next] == all[..x + 1]
  {
  }

  /** The layout half of the loop of `build_in`, with the grid's
    * normalisations `sn` and `ln`: the scaled sizes and gaps so far, giving
    * each segment its frame and its cells their windows. */
  method LayRuns(g: Grid, sn: real, ln: real) returns (runs: seq<seq<(string, C.LayoutPackage)>>)
    requires SegmentsPlaceable(g)
    ensures runs == GridRuns(g, sn, ln)
  {
    var segmentSoFar, gapSoFar := 0.0, 0.0;
    if g.border.Some? {
      gapSoFar := gapSoFar + g.border.value.0 * ln;
    }
    ghost var all := GridRuns(g, sn, ln);
    runs := [];
    var x := 0;
    while x < |g.segment|
      invariant 0 <= x <= |g.segment|
      invariant SumsBefore(g, ln, x, segmentSoFar, gapSoFar)
      invariant runs == all[..x]
    {
      var run;
      run, segmentSoFar, gapSoFar := LaySegmentNext(g, sn, ln, x, segmentSoFar, gapSoFar);
      PrefixNext(all, x, run);
      runs := runs + [run];
      x := x + 1;
    }
    assert all[..x] == all;
  }

  /** The grid's normalisations, then its layout. */
  method LayGrid(g: Grid) returns (runs: seq<seq<(string, C.LayoutPackage)>>)
    requires GridPlaceable(g)
    ensures runs == GridRuns(g, 100.0 / GridSize(g), 100.0 / GridLength(g))
  {
    var size := GridComputeSize(g);
    var length := GridComputeLength(g);
    var sn, ln := GridNormalise(g, size, length);
    runs := LayRuns(g, sn, ln);
  }

  /** `Grid::build_in`. The source lays out and creates each segment's
    * cells before the next segment's; no window depends on what was
    * created, so laying out the whole grid first makes the same widgets. */
  method GridBuildIn(g: Grid, root: T.UiBranch, w: W.Widget) returns (root': T.UiBranch, r: Result<seq<seq<W.Widget>>, T.LunexError>)
    requires GridPlaceable(g)
    ensures (root', r) == GridBuildInOf(g, root, w)
  {
    var runs := LayGrid(g);
    root', r := CreateAllRuns(root, w, runs);
  }

  /** The container `build_in_solid` makes: the layout with its width and
    * height replaced by the grid's size and length, swapped when vertical. */
  function SolidContainer(g: Grid, layout: C.SolidLayout): (l: C.SolidLayout)
    requires GridPlaceable(g)
    ensures l.(width := layout.width, height := layout.height) == layout
    ensures g.orientation == Horizontal ==> l.width == GridSize(g) && l.height == GridLength(g)
    ensures g.orientation == Vertical ==> l.width == GridLength(g) && l.height == GridSize(g)
  {
    if g.orientation == Horizontal then layout.(width := GridSize(g), height := GridLength(g))
    else layout.(width := GridLength(g), height := GridSize(g))
  }

  /** The container `build_in_window` makes: the relative width and height
    * replaced likewise. */
  function WindowContainer(g: Grid, layout: C.WindowLayout): (l: C.WindowLayout)
    requires GridPlaceable(g)
    ensures l.(widthRelative := layout.widthRelative, heightRelative := layout.heightRelative) == layout
    ensures g.orientation == Horizontal ==> l.widthRelative == GridSize(g) && l.heightRelative == GridLength(g)
    ensures g.orientation == Vertical ==> l.widthRelative == GridLength(g) && l.heightRelative == GridSize(g)
  {
    if g.orientation == Horizontal then layout.(widthRelative := GridSize(g), heightRelative := GridLength(g))
    else layout.(widthRelative := GridLength(g), heightRelative := GridSize(g))
  }

  /** `build_in_solid` and `build_in_window`: the container at `path`, then
    * the grid inside it; a failure to make the container makes nothing. */
  function BuildInContainerOf(g: Grid, root: T.UiBranch, path: string, container: C.LayoutPackage): (r: (T.UiBranch, Result<(W.Widget, seq<seq<W.Widget>>), T.LunexError>))
    requires GridPlaceable(g)
    ensures W.CreateOf(root, path, container).1.Err? ==> r == (W.CreateOf(root, path, container).0, Err(W.CreateOf(root, path, container).1.error))
    ensures r.1.Ok? ==> W.CreateOf(root, path, container).1 == Ok(r.1.value.0)
  {
    var c := W.CreateOf(root, path, container);
    if c.1.Err? then (c.0, Err(c.1.error))
    else
      var b := GridBuildInOf(g, c.0, c.1.value);
      (b.0, if b.1.Ok? then Ok((c.1.value, b.1.value)) else Err(b.1.error))
  }

  method BuildInContainer(g: Grid, root: T.UiBranch, path: string, container: C.LayoutPackage)
    returns (root': T.UiBranch, r: Result<(W.Widget, seq<seq<W.Widget>>), T.LunexError>)
    requires GridPlaceable(g)
    ensures (root', r) == BuildInContainerOf(g, root, path, container)
  {
    var made;
    root', made := W.Create(root, path, container);
    if made.Err? {
      r := Err(made.error);
      return;
    }
    var built;
    root', built := GridBuildIn(g, root', made.value);
    r := if built.Ok? then Ok((made.value, built.value)) else Err(built.error);
  }

  method BuildInSolid(g: Grid, root: T.UiBranch, path: string, layout: C.SolidLayout)
    returns (root': T.UiBranch, r: Result<(W.Widget, seq<seq<W.Widget>>), T.LunexError>)
    requires GridPlaceable(g)
    ensures (root', r) == BuildInContainerOf(g, root, path, C.Solid(SolidContainer(g, layout)))
  {
    var size := GridComputeSize(g);
    var length := GridComputeLength(g);
    var l := if g.orientation == Horizontal then layout.(width := size, height := length) else layout.(width := length, height := size);
    root', r := BuildInContainer(g, root, path, C.Solid(l));
  }

  method BuildInWindow(g: Grid, root: T.UiBranch, path: string, layout: C.WindowLayout)
    returns (root': T.UiBranch, r: Result<(W.Widget, seq<seq<W.Widget>>), T.LunexError>)
    requires GridPlaceable(g)
    ensures (root', r) == BuildInContainerOf(g, root, path, C.Window(WindowContainer(g, layout)))
  {
    var size := GridComputeSize(g);
    var length := GridComputeLength(g);
    var l := if g.orientation == Horizontal then layout.(widthRelative := size, heightRelative := length)
             else layout.(widthRelative := length, heightRelative := size);
    root', r := BuildInContainer(g, root, path, C.Window(l));
  }
}
