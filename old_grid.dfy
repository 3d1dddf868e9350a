/** src/utilities/ui_grid.rs: `Grid`, the grid generator of the oldest
  * generation in its later form. It is the `generate_grid` of
  * src/ui_widget.rs with the same style fields and the same arithmetic,
  * preceded by a check that every column is as long as column 0, and
  * written against the widgets of crates/bevy_lunex_core, which the
  * library's prelude re-exports. */
module OldGrid {
  import opened Base
  import T = CoreTree
  import C = CoreContainer
  import W = CoreWidget
  import OW = OldWidget

  /** `Grid`: the fields of `WidgetListStyle`. */
  type Grid = OW.WidgetListStyle

  /** A failed grid: a column whose length differs from column 0's, with
    * the column, its length and the length the message gives for column 0;
    * or a widget that could not be made. */
  datatype GridError =
    | UnevenColumn(column: nat, length: nat, reported: nat)
    | CreateFailed(cause: T.LunexError)

  /** The first column whose length differs from column 0's, if any. */
  function FirstUneven(grid: seq<seq<string>>, from: nat): (r: Option<nat>)
    requires 0 < |grid| && from <= |grid|
    ensures r.Some? ==> from <= r.value < |grid| && |grid[r.value]| != |grid[0]| &&
                        forall i :: from <= i < r.value ==> |grid[i]| == |grid[0]|
    ensures r.None? ==> forall i :: from <= i < |grid| ==> |grid[i]| == |grid[0]|
    decreases |grid| - from
  {
    if from == |grid| then None
    else if |grid[from]| != |grid[0]| then Some(from)
    else FirstUneven(grid, from + 1)
  }

  /** The validation loop of `create` and `create_inside`. */
  method CheckColumns(grid: seq<seq<string>>) returns (r: Option<nat>)
    requires 0 < |grid|
    ensures r == FirstUneven(grid, 0)
  {
    var yy := |grid[0]|;
    var i := 0;
    while i < |grid|
      invariant 0 <= i <= |grid|
      invariant FirstUneven(grid, 0) == FirstUneven(grid, i)
    {
      if |grid[i]| != yy {
        return Some(i);
      }
      i := i + 1;
    }
    return None;
  }

  /** A grid that passes the check can be indexed at every cell the loops
    * visit. */
  lemma EvenIsIndexable(grid: seq<seq<string>>)
    requires 0 < |grid| && FirstUneven(grid, 0).None?
    ensures OW.Indexable(grid)
  {
  }

  /** The cells made one after the other below `w`, the first failure
    * ending the run with what was made so far kept. */
  function CreateCells(root: T.UiBranch, w: W.Widget, cells: seq<(string, C.LayoutPackage)>): (r: (T.UiBranch, Result<(), T.LunexError>))
    decreases |cells|
  {
    if |cells| == 0 then (root, Ok(()))
    else
      var c := W.CreateOf(root, W.End(w, cells[0].0), cells[0].1);
      match c.1
      case Err(e) => (c.0, Err(e))
      case Ok(_) => CreateCells(c.0, w, cells[1..])
  }

  /** Making two runs of cells is making the first, then, if it succeeded,
    * the second. */
  lemma {:induction false} CreateCellsAppend(root: T.UiBranch, w: W.Widget, a: seq<(string, C.LayoutPackage)>, b: seq<(string, C.LayoutPackage)>)
    ensures var ra := CreateCells(root, w, a);
            CreateCells(root, w, a + b) == if ra.1.Ok? then CreateCells(ra.0, w, b) else ra
    decreases |a|
  {
    if |a| > 0 {
      assert (a + b)[0] == a[0] && (a + b)[1..] == a[1..] + b;
      var c := W.CreateOf(root, W.End(w, a[0].0), a[0].1);
      if c.1.Ok? {
        CreateCellsAppend(c.0, w, a[1..], b);
      }
    } else {
      assert a + b == b;
    }
  }

  /** The cells of an even grid, column by column, with the geometry as
    * written. */
  function GridCells(style: Grid, grid: seq<seq<string>>): seq<(string, C.LayoutPackage)>
    requires 0 < |grid| && FirstUneven(grid, 0).None?
    requires OW.Computes(style, |grid|, |grid[0]|)
  {
    EvenIsIndexable(grid);
    OW.GridCells(grid, style)
  }

  /** The divisions the grid makes are defined for an even grid; an uneven
    * one stops before any division. */
  predicate Computable(style: Grid, grid: seq<seq<string>>)
    requires 0 < |grid|
  {
    FirstUneven(grid, 0).None? ==> OW.Computes(style, |grid|, |grid[0]|)
  }

  /** `Grid::create`: an uneven grid is an error before anything is made
    * (its message gives the number of columns as column 0's length); then
    * the container at `path`, then every cell below it. */
  function CreateOf(style: Grid, root: T.UiBranch, path: string, grid: seq<seq<string>>, relative: Vec2): (r: (T.UiBranch, Result<W.Widget, GridError>))
    requires 0 < |grid| && Computable(style, grid)
    ensures var u := FirstUneven(grid, 0);
            u.Some? ==> r == (root, Err(UnevenColumn(u.value, |grid[u.value]|, |grid|)))
    ensures r.1.Ok? ==> (FirstUneven(grid, 0).None? &&
              var c := W.CreateOf(root, path, OW.ContainerLayout(style, |grid|, |grid[0]|, relative));
              c.1.Ok? && r.1.value == c.1.value)
    ensures r.1.Err? && r.1.error.CreateFailed? ==> FirstUneven(grid, 0).None?
  {
    match FirstUneven(grid, 0)
    case Some(i) => (root, Err(UnevenColumn(i, |grid[i]|, |grid|)))
    case None =>
      var c := W.CreateOf(root, path, OW.ContainerLayout(style, |grid|, |grid[0]|, relative));
      match c.1
      case Err(e) => (c.0, Err(CreateFailed(e)))
      case Ok(w) =>
        var cells := CreateCells(c.0, w, GridCells(style, grid));
        match cells.1
        case Err(e) => (cells.0, Err(CreateFailed(e)))
        case Ok(_) => (cells.0, Ok(w))
  }

  /** `Grid::create_inside`: the same check, with column 0's own length in
    * the message; then the cells below a widget that exists. */
  function CreateInsideOf(style: Grid, root: T.UiBranch, w: W.Widget, grid: seq<seq<string>>): (r: (T.UiBranch, Result<(), GridError>))
    requires 0 < |grid| && Computable(style, grid)
    ensures var u := FirstUneven(grid, 0);
            u.Some? ==> r == (root, Err(UnevenColumn(u.value, |grid[u.value]|, |grid[0]|)))
    ensures r.1.Ok? ==> FirstUneven(grid, 0).None? && CreateCells(root, w, GridCells(style, grid)).1.Ok?
    ensures FirstUneven(grid, 0).None? ==> r.0 == CreateCells(root, w, GridCells(style, grid)).0
  {
    if FirstUneven(grid, 0).Some? then
      var i := FirstUneven(grid, 0).value;
      (root, Err(UnevenColumn(i, |grid[i]|, |grid[0]|)))
    else
      var cells := CreateCells(root, w, GridCells(style, grid));
      (cells.0, if cells.1.Ok? then Ok(()) else Err(CreateFailed(cells.1.error)))
  }

  /** Both report the same uneven column and differ only in the length the
    * message gives for column 0. */
  lemma UnevenReportsAgree(style: Grid, root: T.UiBranch, path: string, w: W.Widget, grid: seq<seq<string>>, relative: Vec2)
    requires 0 < |grid| && Computable(style, grid) && FirstUneven(grid, 0).Some?
    ensures var a, b := CreateOf(style, root, path, grid, relative), CreateInsideOf(style, root, w, grid);
            a.0 == b.0 == root && a.1.error.column == b.1.error.column && a.1.error.length == b.1.error.length &&
            a.1.error.reported == |grid| && b.1.error.reported == |grid[0]|
  {
  }

  /** The column loop of both: column `x`, then row `y`. */
  method CreateColumn(root: T.UiBranch, w: W.Widget, grid: seq<seq<string>>, g: OW.Geometry, style: Grid, x: nat, rows: nat)
    returns (root': T.UiBranch, r: Result<(), T.LunexError>)
    requires x < |grid| && rows <= |grid[x]|
    ensures (root', r) == CreateCells(root, w, OW.ColumnCells(grid, g, style, x, rows))
  {
    ghost var column := OW.ColumnCells(grid, g, style, x, rows);
    root' := root;
    var y := 0;
    while y < rows
      invariant 0 <= y <= rows
      invariant CreateCells(root, w, column) == CreateCells(root', w, column[y..])
    {
      var layout := OW.CellWindow(g, style, x, y);
      assert column[y] == (grid[x][y], layout);
      assert column[y..][0] == column[y];
      assert column[y..][1..] == column[y + 1..];
      var next, made := W.Create(root', W.End(w, grid[x][y]), layout);
      if made.Err? {
        root', r := next, Err(made.error);
        return;
      }
      root' := next;
      y := y + 1;
    }
    r := Ok(());
  }

  /** The nested loops of both, with the geometry computed first. */
  method CreateGridCells(style: Grid, root: T.UiBranch, w: W.Widget, grid: seq<seq<string>>) returns (root': T.UiBranch, r: Result<(), T.LunexError>)
    requires 0 < |grid| && FirstUneven(grid, 0).None?
    requires OW.Computes(style, |grid|, |grid[0]|)
    ensures (root', r) == CreateCells(root, w, GridCells(style, grid))
  {
    EvenIsIndexable(grid);
    var columns, rows := |grid|, |grid[0]|;
    if rows == 0 {
      root', r := root, Ok(());
      return;
    }
    var g := OW.ComputeGeometry(style, columns, rows);
    ghost var all := OW.CellsFrom(grid, g, style, 0, rows);
    assert all == GridCells(style, grid);
    root' := root;
    var x := 0;
    while x < columns
      invariant 0 <= x <= columns
      invariant CreateCells(root, w, all) == CreateCells(root', w, OW.CellsFrom(grid, g, style, x, rows))
    {
      CreateCellsAppend(root', w, OW.ColumnCells(grid, g, style, x, rows), OW.CellsFrom(grid, g, style, x + 1, rows));
      var done;
      root', done := CreateColumn(root', w, grid, g, style, x, rows);
      if done.Err? {
        r := done;
        return;
      }
      x := x + 1;
    }
    r := Ok(());
  }

  method Create(style: Grid, root: T.UiBranch, path: string, grid: seq<seq<string>>, relative: Vec2) returns (root': T.UiBranch, r: Result<W.Widget, GridError>)
    requires 0 < |grid| && Computable(style, grid)
    ensures (root', r) == CreateOf(style, root, path, grid, relative)
  {
    var uneven := CheckColumns(grid);
    if uneven.Some? {
      var i := uneven.value;
      root', r := root, Err(UnevenColumn(i, |grid[i]|, |grid|));
      return;
    }
    var made;
    root', made := W.Create(root, path, OW.ContainerLayout(style, |grid|, |grid[0]|, relative));
    if made.Err? {
      r := Err(CreateFailed(made.error));
      return;
    }
    var done;
    root', done := CreateGridCells(style, root', made.value, grid);
    r := if done.Ok? then Ok(made.value) else Err(CreateFailed(done.error));
  }

  method CreateInside(style: Grid, root: T.UiBranch, w: W.Widget, grid: seq<seq<string>>) returns (root': T.UiBranch, r: Result<(), GridError>)
    requires 0 < |grid| && Computable(style, grid)
    ensures (root', r) == CreateInsideOf(style, root, w, grid)
  {
    var uneven := CheckColumns(grid);
    if uneven.Some? {
      var i := uneven.value;
      root', r := root, Err(UnevenColumn(i, |grid[i]|, |grid[0]|));
      return;
    }
    var done;
    root', done := CreateGridCells(style, root, w, grid);
    r := if done.Ok? then Ok(()) else Err(CreateFailed(done.error));
  }
}
