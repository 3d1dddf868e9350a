/** src/ui_widget.rs: the oldest `Widget`. Its `new`, `fetch`, `create`,
  * `add`, `add_str`, `end` and `is_within` are the code of
  * src/core/ui_widget.rs, written against the `Branch` methods
  * `create_linked`, `borrow_linked_checked` and a fallible `register_path`,
  * which belong to the src/core branch; so those members are
  * `LegacyWidget`'s. What this file adds is `generate_grid`: a table of
  * widgets laid out in percent inside a new container. */
module OldWidget {
  import opened Base
  import S = Strings
  import T = CoreTree
  import C = CoreContainer
  import W = CoreWidget
  import L = LegacyCore
  import LW = LegacyWidget

  /** `WidgetListStyle`: the size of one cell and of one gap in percent of
    * the grid's parent, and whether the outer edges get a gap too. */
  datatype WidgetListStyle = WidgetListStyle(
    gap: Vec2, widthRelative: real, heightRelative: real,
    widthPaddingGap: bool, heightPaddingGap: bool)

  /** The container's size in percent of the parent; a cell's size and a
    * gap's in percent of the container. */
  datatype Geometry = Geometry(
    containerWidth: real, containerHeight: real,
    width: real, height: real, wgap: real, hgap: real)

  // ---------------------------------------------------------------------
  // Geometry

  /** `xi`/`yi`: one gap more than the cells with padding, one fewer
    * without. */
  function GapSign(padding: bool): real
  {
    if padding then 1.0 else -1.0
  }

  /** The room the cells take across and down, and the room the gaps take. */
  function TotalWidth(style: WidgetListStyle, columns: nat): real { style.widthRelative * columns as real }
  function TotalHeight(style: WidgetListStyle, rows: nat): real { style.heightRelative * rows as real }
  function TotalWgap(style: WidgetListStyle, columns: nat): real { style.gap.x * (columns as real + GapSign(style.widthPaddingGap)) }
  function TotalHgap(style: WidgetListStyle, rows: nat): real { style.gap.y * (rows as real + GapSign(style.heightPaddingGap)) }

  function ContainerWidth(style: WidgetListStyle, columns: nat): real
  {
    TotalWidth(style, columns) + TotalWgap(style, columns)
  }

  function ContainerHeight(style: WidgetListStyle, rows: nat): real
  {
    TotalHeight(style, rows) + TotalHgap(style, rows)
  }

  /** Every division of the geometry has a divisor other than zero, the
    * vertical gap being divided by `rows + hgapSign`. */
  predicate Divisible(style: WidgetListStyle, columns: nat, rows: nat, hgapSign: real)
  {
    columns > 0 && rows > 0 &&
    ContainerWidth(style, columns) != 0.0 && ContainerHeight(style, rows) != 0.0 &&
    columns as real + GapSign(style.widthPaddingGap) != 0.0 && rows as real + hgapSign != 0.0
  }

  /** `count` cells and `gaps` gaps of the given sizes make up the whole
    * 100%. */
  predicate Fills(count: nat, cell: real, gaps: real, gap: real)
  {
    count as real * cell + gaps * gap == 100.0
  }

  /** One axis: a cell's size, its cells' share of the container split
    * among `count` cells. */
  function AxisCell(total: real, gapTotal: real, count: nat): real
    requires count > 0 && total + gapTotal != 0.0
  {
    (100.0 * total / (total + gapTotal)) / count as real
  }

  /** One axis: a gap's size, the gaps' share of the container split
    * among `gaps` gaps. */
  function AxisGap(total: real, gapTotal: real, gaps: real): real
    requires gaps != 0.0 && total + gapTotal != 0.0
  {
    (100.0 * gapTotal / (total + gapTotal)) / gaps
  }

  /** The cells' share and the gaps' share of the container, each divided
    * among them, add back up to 100%. */
  lemma ShareOfContainer(total: real, gapTotal: real, count: nat, gaps: real)
    requires count > 0 && gaps != 0.0 && total + gapTotal != 0.0
    ensures Fills(count, AxisCell(total, gapTotal, count), gaps, AxisGap(total, gapTotal, gaps))
  {
    var c := total + gapTotal;
    var a, b := 100.0 * total / c, 100.0 * gapTotal / c;
    assert count as real * (a / count as real) == a;
    assert gaps * (b / gaps) == b;
    assert a + b == 100.0 * (total + gapTotal) / c;
  }

  /** The geometry as `generate_grid` computes it: the vertical gap is
    * divided by `rows + xi`, the horizontal padding's sign. The cells and
    * gaps fill the container across; down, the rows and `rows + xi` gaps
    * do, while the cells are placed with `rows + yi` gaps. */
  function GeometryAsWritten(style: WidgetListStyle, columns: nat, rows: nat): (g: Geometry)
    requires Divisible(style, columns, rows, GapSign(style.widthPaddingGap))
    ensures g.containerWidth == ContainerWidth(style, columns) && g.containerHeight == ContainerHeight(style, rows)
    ensures Fills(columns, g.width, columns as real + GapSign(style.widthPaddingGap), g.wgap)
    ensures Fills(rows, g.height, rows as real + GapSign(style.widthPaddingGap), g.hgap)
  {
    var xs := columns as real + GapSign(style.widthPaddingGap);
    ShareOfContainer(TotalWidth(style, columns), TotalWgap(style, columns), columns, xs);
    ShareOfContainer(TotalHeight(style, rows), TotalHgap(style, rows), rows, rows as real + GapSign(style.widthPaddingGap));
    Geometry(ContainerWidth(style, columns), ContainerHeight(style, rows),
             AxisCell(TotalWidth(style, columns), TotalWgap(style, columns), columns),
             AxisCell(TotalHeight(style, rows), TotalHgap(style, rows), rows),
             AxisGap(TotalWidth(style, columns), TotalWgap(style, columns), xs),
             AxisGap(TotalHeight(style, rows), TotalHgap(style, rows), rows as real + GapSign(style.widthPaddingGap)))
  }

  /** The geometry with the vertical gap divided by `rows + yi`, among
    * the gaps its total was made of: the cells and gaps fill the
    * container both ways. */
  function CellGeometry(style: WidgetListStyle, columns: nat, rows: nat): (g: Geometry)
    requires Divisible(style, columns, rows, GapSign(style.heightPaddingGap))
    ensures g.containerWidth == ContainerWidth(style, columns) && g.containerHeight == ContainerHeight(style, rows)
    ensures Fills(columns, g.width, columns as real + GapSign(style.widthPaddingGap), g.wgap)
    ensures Fills(rows, g.height, rows as real + GapSign(style.heightPaddingGap), g.hgap)
  {
    var xs, ys := columns as real + GapSign(style.widthPaddingGap), rows as real + GapSign(style.heightPaddingGap);
    ShareOfContainer(TotalWidth(style, columns), TotalWgap(style, columns), columns, xs);
    ShareOfContainer(TotalHeight(style, rows), TotalHgap(style, rows), rows, ys);
    Geometry(ContainerWidth(style, columns), ContainerHeight(style, rows),
             AxisCell(TotalWidth(style, columns), TotalWgap(style, columns), columns),
             AxisCell(TotalHeight(style, rows), TotalHgap(style, rows), rows),
             AxisGap(TotalWidth(style, columns), TotalWgap(style, columns), xs),
             AxisGap(TotalHeight(style, rows), TotalHgap(style, rows), ys))
  }

  /** Where cell `i` starts along one axis: `i` cells and `i` gaps before
    * it, and one gap more with padding. */
  function CellOffset(cell: real, gap: real, padding: bool, i: nat): real
  {
    cell * i as real + gap * i as real + if padding then gap else 0.0
  }

  /** Neighbouring cells are one cell and one gap apart, and the first
    * starts after the padding. */
  lemma CellsEvenlySpaced(cell: real, gap: real, padding: bool, i: nat)
    ensures CellOffset(cell, gap, padding, i + 1) == CellOffset(cell, gap, padding, i) + cell + gap
    ensures CellOffset(cell, gap, padding, 0) == if padding then gap else 0.0
  {
  }

  /** The last of `count` cells ends where the padding begins, when `count`
    * cells and `count + sign` gaps fill the axis. */
  lemma LastCellEnds(count: nat, cell: real, gap: real, padding: bool)
    requires count > 0 && Fills(count, cell, count as real + GapSign(padding), gap)
    ensures CellOffset(cell, gap, padding, count - 1) + cell + (if padding then gap else 0.0) == 100.0
  {
    var n := count as real;
    assert CellOffset(cell, gap, padding, count - 1) == cell * (n - 1.0) + gap * (n - 1.0) + (if padding then gap else 0.0);
    assert cell * (n - 1.0) + cell == n * cell;
  }

  /** With the corrected geometry the grid fills its container: the last
    * column and the last row end at the far padding. */
  lemma GridFillsContainer(style: WidgetListStyle, columns: nat, rows: nat)
    requires Divisible(style, columns, rows, GapSign(style.heightPaddingGap))
    ensures var g := CellGeometry(style, columns, rows);
            CellOffset(g.width, g.wgap, style.widthPaddingGap, columns - 1) + g.width + (if style.widthPaddingGap then g.wgap else 0.0) == 100.0 &&
            CellOffset(g.height, g.hgap, style.heightPaddingGap, rows - 1) + g.height + (if style.heightPaddingGap then g.hgap else 0.0) == 100.0
  {
    var g := CellGeometry(style, columns, rows);
    LastCellEnds(columns, g.width, g.wgap, style.widthPaddingGap);
    LastCellEnds(rows, g.height, g.hgap, style.heightPaddingGap);
  }

  /** As written, a grid padded across but not down, of one column and two
    * rows, cells 10% square and gaps 1%, stops short of its container's
    * bottom edge: its vertical gap is divided among three gaps where the
    * total was made for one. */
  lemma LastRowCounterexample()
    ensures var style := WidgetListStyle(Vec2(1.0, 1.0), 10.0, 10.0, true, false);
            var g := GeometryAsWritten(style, 1, 2);
            var h := CellGeometry(style, 1, 2);
            CellOffset(g.height, g.hgap, false, 1) + g.height == 6100.0 / 63.0 &&
            CellOffset(h.height, h.hgap, false, 1) + h.height == 100.0
  {
    var style := WidgetListStyle(Vec2(1.0, 1.0), 10.0, 10.0, true, false);
    assert ContainerHeight(style, 2) == 21.0;
    var g := GeometryAsWritten(style, 1, 2);
    assert g.height == 1000.0 / 21.0;
    assert g.hgap == 100.0 / 63.0;
    GridFillsContainer(style, 1, 2);
  }

  /** As written the columns fill the container across; the rows fill it
    * down when the grid is padded the same way both ways, the one case in
    * which the written geometry is the corrected one. */
  lemma GridAsWrittenFills(style: WidgetListStyle, columns: nat, rows: nat)
    requires Divisible(style, columns, rows, GapSign(style.widthPaddingGap))
    ensures var g := GeometryAsWritten(style, columns, rows);
            CellOffset(g.width, g.wgap, style.widthPaddingGap, columns - 1) + g.width + (if style.widthPaddingGap then g.wgap else 0.0) == 100.0
    ensures style.widthPaddingGap == style.heightPaddingGap ==>
              var g := GeometryAsWritten(style, columns, rows);
              g == CellGeometry(style, columns, rows) &&
              CellOffset(g.height, g.hgap, style.heightPaddingGap, rows - 1) + g.height + (if style.heightPaddingGap then g.hgap else 0.0) == 100.0
  {
    var g := GeometryAsWritten(style, columns, rows);
    LastCellEnds(columns, g.width, g.wgap, style.widthPaddingGap);
    if style.widthPaddingGap == style.heightPaddingGap {
      GridFillsContainer(style, columns, rows);
    }
  }

  /** The sizes a grid with rows divides out have divisors other than
    * zero, the vertical gap's being `rows + xi` as written. A grid without
    * rows places no cell, so none of those sizes is used. */
  predicate Computes(style: WidgetListStyle, columns: nat, rows: nat)
  {
    rows > 0 ==> Divisible(style, columns, rows, GapSign(style.widthPaddingGap))
  }

  /** The container `generate_grid` makes: a window at `relative`, sized to
    * hold the cells and the gaps. */
  function ContainerLayout(style: WidgetListStyle, columns: nat, rows: nat, relative: Vec2): (l: C.LayoutPackage)
    ensures l.Window? && l.window.relative == relative && l.window.absolute == Zero2
    ensures l.window.widthRelative == ContainerWidth(style, columns) && l.window.heightRelative == ContainerHeight(style, rows)
    ensures l.window.widthAbsolute == 0.0 && l.window.heightAbsolute == 0.0
  {
    C.Window(C.WindowLayout(Zero2, relative, 0.0, ContainerWidth(style, columns), 0.0, ContainerHeight(style, rows)))
  }

  /** The window of cell (`x`, `y`): one cell in size, at its offsets. */
  function CellLayout(g: Geometry, style: WidgetListStyle, x: nat, y: nat): (l: C.LayoutPackage)
    ensures l.Window? && l.window.absolute == Zero2 && l.window.widthAbsolute == 0.0 && l.window.heightAbsolute == 0.0
    ensures l.window.relative == Vec2(CellOffset(g.width, g.wgap, style.widthPaddingGap, x), CellOffset(g.height, g.hgap, style.heightPaddingGap, y))
    ensures l.window.widthRelative == g.width && l.window.heightRelative == g.height
  {
    C.Window(C.WindowLayout(Zero2, Vec2(CellOffset(g.width, g.wgap, style.widthPaddingGap, x), CellOffset(g.height, g.hgap, style.heightPaddingGap, y)),
                            0.0, g.width, 0.0, g.height))
  }

  // ---------------------------------------------------------------------
  // Cells

  /** Every column has at least as many entries as column 0, so `grid[x][y]`
    * is defined for every cell the loops visit. */
  predicate Indexable(grid: seq<seq<string>>)
  {
    |grid| > 0 && forall x :: 0 <= x < |grid| ==> |grid[0]| <= |grid[x]|
  }

  /** The cells of column `x`, top to bottom: each one's name and window. */
  function ColumnCells(grid: seq<seq<string>>, g: Geometry, style: WidgetListStyle, x: nat, rows: nat): (r: seq<(string, C.LayoutPackage)>)
    requires x < |grid| && rows <= |grid[x]|
    ensures |r| == rows && forall y :: 0 <= y < rows ==> r[y] == (grid[x][y], CellLayout(g, style, x, y))
  {
    seq(rows, y requires 0 <= y < rows => (grid[x][y], CellLayout(g, style, x, y)))
  }

  /** The cells from column `x` on, column by column: the order the loops
    * create them in. */
  function CellsFrom(grid: seq<seq<string>>, g: Geometry, style: WidgetListStyle, x: nat, rows: nat): seq<(string, C.LayoutPackage)>
    requires x <= |grid| && forall i :: x <= i < |grid| ==> rows <= |grid[i]|
    decreases |grid| - x
  {
    if x == |grid| then [] else ColumnCells(grid, g, style, x, rows) + CellsFrom(grid, g, style, x + 1, rows)
  }

  /** The cells the loops create, column by column, with the geometry as
    * written; none for a grid without rows. */
  function GridCells(grid: seq<seq<string>>, style: WidgetListStyle): seq<(string, C.LayoutPackage)>
    requires Indexable(grid) && Computes(style, |grid|, |grid[0]|)
  {
    if |grid[0]| == 0 then [] else CellsFrom(grid, GeometryAsWritten(style, |grid|, |grid[0]|), style, 0, |grid[0]|)
  }

  /** Cell (`x`, `y`) is created once, after the `x - from` columns before
    * it and the `y` cells above it. */
  lemma {:induction false} CellAt(grid: seq<seq<string>>, g: Geometry, style: WidgetListStyle, from: nat, rows: nat, x: nat, y: nat)
    requires from <= x < |grid| && y < rows && forall i :: from <= i < |grid| ==> rows <= |grid[i]|
    ensures var i := ColumnMajor(x - from, rows, y);
            i < |CellsFrom(grid, g, style, from, rows)| && CellsFrom(grid, g, style, from, rows)[i] == (grid[x][y], CellLayout(g, style, x, y))
    decreases x - from
  {
    var col := ColumnCells(grid, g, style, from, rows);
    var rest := CellsFrom(grid, g, style, from + 1, rows);
    assert CellsFrom(grid, g, style, from, rows) == col + rest;
    if x == from {
      assert ColumnMajor(0, rows, y) == y;
      assert (col + rest)[y] == col[y];
    } else {
      CellAt(grid, g, style, from + 1, rows, x, y);
      var k := ColumnMajor(x - (from + 1), rows, y);
      ColumnMajorNext(x - (from + 1), rows, y);
      assert (col + rest)[rows + k] == rest[k];
    }
  }

  /** The place of cell `y` of column `k` among cells laid out column by
    * column. */
  function ColumnMajor(k: nat, rows: nat, y: nat): nat
  {
    k * rows + y
  }

  lemma ColumnMajorNext(k: nat, rows: nat, y: nat)
    ensures ColumnMajor(k + 1, rows, y) == rows + ColumnMajor(k, rows, y)
  {
    assert (k + 1) * rows == k * rows + rows;
  }

  lemma {:induction false} CellsFromLength(grid: seq<seq<string>>, g: Geometry, style: WidgetListStyle, from: nat, rows: nat)
    requires from <= |grid| && forall i :: from <= i < |grid| ==> rows <= |grid[i]|
    ensures |CellsFrom(grid, g, style, from, rows)| == (|grid| - from) * rows
    decreases |grid| - from
  {
    if from < |grid| {
      CellsFromLength(grid, g, style, from + 1, rows);
      assert (|grid| - from) * rows == rows + (|grid| - (from + 1)) * rows;
    }
  }

  // ---------------------------------------------------------------------
  // Paths that start with a segment

  /** A path whose first segment is not empty. */
  predicate HasHead(p: string)
  {
    p != "" && p[0] != '/'
  }

  /** A lookup only succeeds on a path that starts with a segment: an empty
    * path or a leading '/' makes the first segment empty. */
  lemma LookupNeedsHead(b: T.UiBranch, path: string, hops: nat)
    ensures T.Lookup(b, path, hops).Ok? ==> HasHead(path)
  {
    if path == "" {
      assert T.Lookup(b, path, hops) == T.Segment(b, "", hops);
    } else if path[0] == '/' {
      assert S.SplitOnce(path, '/') == Some(("", path[1..]));
      assert T.Segment(b, "", hops).Err?;
    }
  }

  /** `create` reads a parent path that is the start of the path it was
    * given, up to a '/'. */
  lemma LayoutParentIsPrefix(path: string)
    ensures var p := W.Layout(path).0;
            p != "" ==> |p| < |path| && path[..|p|] == p && path[|p|] == '/'
  {
    var list := S.Split(path, '/');
    var last := |list| - 1;
    var n := if list[last] != "" && !W.U.IsNumericalId(list[last]) && last > 0 then W.SkipNumeric(list, last - 1) + 1 else last;
    assert W.Layout(path).0 == S.Join(list[..n], '/');
    if n > 0 {
      S.JoinSplit(path, '/');
      assert list == list[..n] + list[n..];
      S.JoinConcat(list[..n], list[n..], '/');
    }
  }

  /** A path of two segments or more that starts with a segment has a
    * parent path. */
  lemma LayoutHasParent(path: string)
    requires HasHead(path) && |S.Split(path, '/')| >= 2
    ensures W.Layout(path).0 != ""
  {
    var list := S.Split(path, '/');
    var n := ParentPrefix(path);
    var parentPath := W.Layout(path).0;
    assert path == parentPath + ['/'] + S.Join(list[n..], '/') by {
      S.JoinSplit(path, '/');
      assert list == list[..n] + list[n..];
      S.JoinConcat(list[..n], list[n..], '/');
    }
  }

  /** The parent path `create` reads is the join of a proper, non-empty
    * prefix of the segments. */
  lemma ParentPrefix(path: string) returns (n: nat)
    requires |S.Split(path, '/')| >= 2
    ensures 1 <= n < |S.Split(path, '/')|
    ensures W.Layout(path).0 == S.Join(S.Split(path, '/')[..n], '/')
  {
    var list := S.Split(path, '/');
    var last := |list| - 1;
    n := if list[last] != "" && !W.U.IsNumericalId(list[last]) && last > 0 then W.SkipNumeric(list, last - 1) + 1 else last;
  }

  /** A path one segment below a widget whose path starts with a segment
    * has a parent path: `create` makes it inside a branch, never in the
    * root. */
  lemma EndHasParent(w: W.Widget, s: string)
    requires HasHead(w.path)
    ensures W.Layout(W.End(w, s)).0 != ""
  {
    var path := W.End(w, s);
    assert path == w.path + ['/'] + s;
    S.SplitConcat(w.path, s, '/');
    assert path[0] == w.path[0];
    LayoutHasParent(path);
  }

  /** Every widget the oldest `create` hands out has a path that starts
    * with a segment: a generated "#id", a path the root could look up, or
    * a path below a parent it found. */
  lemma CreatedPathHasHead(root: T.UiBranch, path: string, position: C.LayoutPackage)
    requires W.Layout(path).0 == "" ==> LW.RootFetchSucceeds(root, path, W.Layout(path).2, position)
    ensures var r := LW.CreateHiddenOf(root, path, position);
            r.1.Ok? ==> HasHead(r.1.value.path)
  {
    var l := W.Layout(path);
    assert LW.CreateHiddenOf(root, path, position) == LW.CreateHiddenIn(root, path, l.0, l.1, l.2, position);
    if l.0 == "" {
      CreatedInRootHasHead(root, path, l.1, l.2, position);
    } else {
      CreatedBelowHasHead(root, path, l.0, l.1, l.2, position);
    }
  }

  lemma CreatedInRootHasHead(root: T.UiBranch, path: string, absolute: string, name: string, position: C.LayoutPackage)
    requires LW.RootFetchSucceeds(root, path, name, position)
    ensures var r := LW.CreateHiddenIn(root, path, "", absolute, name, position);
            r.1.Ok? ==> HasHead(r.1.value.path)
  {
    var c := T.CreateLinked(root, name, position);
    if name != "" {
      LookupNeedsHead(c.0, path, |c.0.shortcuts|);
    }
  }

  lemma CreatedBelowHasHead(root: T.UiBranch, path: string, parentPath: string, absolute: string, name: string, position: C.LayoutPackage)
    requires parentPath != "" && parentPath == W.Layout(path).0
    ensures var r := LW.CreateHiddenIn(root, path, parentPath, absolute, name, position);
            r.1.Ok? ==> HasHead(r.1.value.path)
  {
    var r := LW.CreateIn(root, path, parentPath, absolute, name, position);
    if r.1.Ok? {
      assert LW.Find(root, parentPath).Ok?;
      LookupNeedsHead(root, parentPath, |root.shortcuts|);
      LayoutParentIsPrefix(path);
      CreatedBelowStartsWithParent(root, path, parentPath, absolute, name, position);
    }
  }

  /** A widget made below a parent has the whole path or a path that goes on
    * from the parent's. */
  lemma CreatedBelowStartsWithParent(root: T.UiBranch, path: string, parentPath: string, absolute: string, name: string, position: C.LayoutPackage)
    requires parentPath != ""
    ensures var r := LW.CreateIn(root, path, parentPath, absolute, name, position);
            r.1.Ok? ==> r.1.value.path == path || (|parentPath| < |r.1.value.path| && r.1.value.path[..|parentPath|] == parentPath)
  {
    var r := LW.CreateIn(root, path, parentPath, absolute, name, position);
    if r.1.Ok? && r.1.value.path != path {
      var pids := LW.Find(root, parentPath).value;
      var pb := T.At(root, pids);
      var key;
      if absolute != "" {
        var aids := T.Lookup(pb, absolute, |pb.shortcuts|).value;
        key := L.CreateLinked(T.At(pb, aids), name, position).1.value;
      } else {
        key := L.CreateLinked(pb, name, position).1.value;
      }
      assert r.1.value.path == parentPath + "/" + key;
      JoinedStartsWith(parentPath, key);
    }
  }

  lemma JoinedStartsWith(p: string, k: string)
    ensures |p| < |p + "/" + k| && (p + "/" + k)[..|p|] == p
  {
    assert (p + "/" + k)[..|p|] == p;
  }

  // ---------------------------------------------------------------------
  // Generation

  /** The loops of `generate_grid` as the tree they leave: cell after cell
    * is created below the widget, and the first failure ends the run with
    * what was made so far kept. */
  function CreateCells(root: T.UiBranch, w: W.Widget, cells: seq<(string, C.LayoutPackage)>): (r: (T.UiBranch, Result<(), L.BranchError>))
    requires HasHead(w.path)
    decreases |cells|
  {
    if |cells| == 0 then (root, Ok(()))
    else
      EndHasParent(w, cells[0].0);
      var c := LW.CreateHiddenOf(root, W.End(w, cells[0].0), cells[0].1);
      match c.1
      case Err(e) => (c.0, Err(e))
      case Ok(_) => CreateCells(c.0, w, cells[1..])
  }

  /** A grid of cells whose every creation succeeds makes them all. */
  lemma {:induction false} CreateCellsAppend(root: T.UiBranch, w: W.Widget, a: seq<(string, C.LayoutPackage)>, b: seq<(string, C.LayoutPackage)>)
    requires HasHead(w.path)
    ensures var ra := CreateCells(root, w, a);
            CreateCells(root, w, a + b) == if ra.1.Ok? then CreateCells(ra.0, w, b) else ra
    decreases |a|
  {
    if |a| > 0 {
      assert (a + b)[0] == a[0] && (a + b)[1..] == a[1..] + b;
      EndHasParent(w, a[0].0);
      var c := LW.CreateHiddenOf(root, W.End(w, a[0].0), a[0].1);
      if c.1.Ok? {
        CreateCellsAppend(c.0, w, a[1..], b);
      }
    } else {
      assert a + b == b;
    }
  }

  /** `generate_grid`: the container is made at `path`; then every cell
    * below it, column by column, with the geometry as written; the
    * container's widget is returned once all of them are made. A failure to
    * make the container is returned as it is. */
  function GenerateGridOf(root: T.UiBranch, path: string, grid: seq<seq<string>>, relative: Vec2, style: WidgetListStyle): (r: (T.UiBranch, Result<W.Widget, L.BranchError>))
    requires Indexable(grid) && Computes(style, |grid|, |grid[0]|)
    requires W.Layout(path).0 == "" ==> LW.RootFetchSucceeds(root, path, W.Layout(path).2, ContainerLayout(style, |grid|, |grid[0]|, relative))
    ensures var c := LW.CreateHiddenOf(root, path, ContainerLayout(style, |grid|, |grid[0]|, relative));
            (c.1.Err? ==> r == (c.0, Err(c.1.error))) && (r.1.Ok? ==> c.1 == r.1)
  {
    var layout := ContainerLayout(style, |grid|, |grid[0]|, relative);
    var c := LW.CreateHiddenOf(root, path, layout);
    match c.1
    case Err(e) => (c.0, Err(e))
    case Ok(w) =>
      CreatedPathHasHead(root, path, layout);
      var cells := CreateCells(c.0, w, GridCells(grid, style));
      match cells.1
      case Err(e) => (cells.0, Err(e))
      case Ok(_) => (cells.0, Ok(w))
  }

  /** The sizes `generate_grid` computes before its loops, with the
    * vertical gap divided by `rows + xi`. */
  method ComputeGeometry(style: WidgetListStyle, columns: nat, rows: nat) returns (g: Geometry)
    requires Divisible(style, columns, rows, GapSign(style.widthPaddingGap))
    ensures g == GeometryAsWritten(style, columns, rows)
  {
    var xi := if style.widthPaddingGap then 1.0 else -1.0;
    var yi := if style.heightPaddingGap then 1.0 else -1.0;
    var totalWidth, totalHeight := style.widthRelative * columns as real, style.heightRelative * rows as real;
    var totalWgap, totalHgap := style.gap.x * (columns as real + xi), style.gap.y * (rows as real + yi);
    assert xi == GapSign(style.widthPaddingGap) && yi == GapSign(style.heightPaddingGap);
    assert totalWidth == TotalWidth(style, columns) && totalWgap == TotalWgap(style, columns);
    assert totalHeight == TotalHeight(style, rows) && totalHgap == TotalHgap(style, rows);
    var containerWidth, containerHeight := totalWidth + totalWgap, totalHeight + totalHgap;
    var width, height := AxisCell(totalWidth, totalWgap, columns), AxisCell(totalHeight, totalHgap, rows);
    var wgap, hgap := AxisGap(totalWidth, totalWgap, columns as real + xi), AxisGap(totalHeight, totalHgap, rows as real + xi);
    g := Geometry(containerWidth, containerHeight, width, height, wgap, hgap);
    GeometryAsWrittenParts(style, columns, rows);
  }

  lemma GeometryAsWrittenParts(style: WidgetListStyle, columns: nat, rows: nat)
    requires Divisible(style, columns, rows, GapSign(style.widthPaddingGap))
    ensures var xs, ys := columns as real + GapSign(style.widthPaddingGap), rows as real + GapSign(style.widthPaddingGap);
      GeometryAsWritten(style, columns, rows)
        == Geometry(ContainerWidth(style, columns), ContainerHeight(style, rows),
                    AxisCell(TotalWidth(style, columns), TotalWgap(style, columns), columns),
                    AxisCell(TotalHeight(style, rows), TotalHgap(style, rows), rows),
                    AxisGap(TotalWidth(style, columns), TotalWgap(style, columns), xs),
                    AxisGap(TotalHeight(style, rows), TotalHgap(style, rows), ys))
  {
  }

  /** The window the inner loop builds for cell (`x`, `y`). */
  method CellWindow(g: Geometry, style: WidgetListStyle, x: nat, y: nat) returns (l: C.LayoutPackage)
    ensures l == CellLayout(g, style, x, y)
  {
    l := C.Window(C.WindowLayout(Zero2,
      Vec2(g.width * x as real + g.wgap * x as real + if style.widthPaddingGap then g.wgap else 0.0,
           g.height * y as real + g.hgap * y as real + if style.heightPaddingGap then g.hgap else 0.0),
      0.0, g.width, 0.0, g.height));
  }

  /** The inner loop: the cells of column `x`, top to bottom, stopping at
    * the first failure. */
  method CreateColumn(root: T.UiBranch, w: W.Widget, grid: seq<seq<string>>, g: Geometry, style: WidgetListStyle, x: nat, rows: nat)
    returns (root': T.UiBranch, r: Result<(), L.BranchError>)
    requires HasHead(w.path) && x < |grid| && rows <= |grid[x]|
    ensures (root', r) == CreateCells(root, w, ColumnCells(grid, g, style, x, rows))
  {
    ghost var column := ColumnCells(grid, g, style, x, rows);
    root' := root;
    var y := 0;
    while y < rows
      invariant 0 <= y <= rows
      invariant CreateCells(root, w, column) == CreateCells(root', w, column[y..])
    {
      var layout := CellWindow(g, style, x, y);
      assert column[y] == (grid[x][y], layout);
      assert column[y..][0] == column[y];
      assert column[y..][1..] == column[y + 1..];
      EndHasParent(w, grid[x][y]);
      var next, made := LW.CreateHidden(root', W.End(w, grid[x][y]), layout);
      if made.Err? {
        root', r := next, Err(made.error);
        return;
      }
      root' := next;
      y := y + 1;
    }
    r := Ok(());
  }

  /** The nested loops of `generate_grid` and `generate_grid_inside`:
    * column `x`, then row `y`, a window for each cell, stopping at the
    * first failure. */
  method CreateGridCells(root: T.UiBranch, w: W.Widget, grid: seq<seq<string>>, style: WidgetListStyle) returns (root': T.UiBranch, r: Result<(), L.BranchError>)
    requires HasHead(w.path) && Indexable(grid) && Computes(style, |grid|, |grid[0]|)
    ensures (root', r) == CreateCells(root, w, GridCells(grid, style))
  {
    var columns, rows := |grid|, |grid[0]|;
    if rows == 0 {
      root', r := root, Ok(());
      return;
    }
    var g := ComputeGeometry(style, columns, rows);
    ghost var all := CellsFrom(grid, g, style, 0, rows);
    assert all == GridCells(grid, style);
    root' := root;
    var x := 0;
    while x < columns
      invariant 0 <= x <= columns
      invariant CreateCells(root, w, all) == CreateCells(root', w, CellsFrom(grid, g, style, x, rows))
    {
      CreateCellsAppend(root', w, ColumnCells(grid, g, style, x, rows), CellsFrom(grid, g, style, x + 1, rows));
      var done;
      root', done := CreateColumn(root', w, grid, g, style, x, rows);
      if done.Err? {
        r := done;
        return;
      }
      x := x + 1;
    }
    r := Ok(());
  }

  /** `generate_grid`: the container, then its cells. */
  method GenerateGrid(root: T.UiBranch, path: string, grid: seq<seq<string>>, relative: Vec2, style: WidgetListStyle) returns (root': T.UiBranch, r: Result<W.Widget, L.BranchError>)
    requires Indexable(grid) && Computes(style, |grid|, |grid[0]|)
    requires W.Layout(path).0 == "" ==> LW.RootFetchSucceeds(root, path, W.Layout(path).2, ContainerLayout(style, |grid|, |grid[0]|, relative))
    ensures (root', r) == GenerateGridOf(root, path, grid, relative, style)
  {
    var layout := ContainerLayout(style, |grid|, |grid[0]|, relative);
    var made: Result<W.Widget, L.BranchError>;
    root', made := LW.CreateHidden(root, path, layout);
    if made.Err? {
      r := Err(made.error);
      return;
    }
    var w := made.value;
    CreatedPathHasHead(root, path, layout);
    var done: Result<(), L.BranchError>;
    root', done := CreateGridCells(root', w, grid, style);
    r := if done.Ok? then Ok(w) else Err(done.error);
  }

  /** `generate_grid_inside`: the cells, below a widget that exists. */
  method GenerateGridInside(root: T.UiBranch, w: W.Widget, grid: seq<seq<string>>, style: WidgetListStyle) returns (root': T.UiBranch, r: Result<(), L.BranchError>)
    requires HasHead(w.path) && Indexable(grid) && Computes(style, |grid|, |grid[0]|)
    ensures (root', r) == CreateCells(root, w, GridCells(grid, style))
  {
    root', r := CreateGridCells(root, w, grid, style);
  }
}
