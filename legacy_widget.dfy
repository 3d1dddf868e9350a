/** The widgets of the `src/core` generation: src/core/widget.rs and its
  * variant src/core/ui_widget.rs. A widget is the path and name of
  * crates/bevy_lunex_core/src/code/widget.rs (`CoreWidget.Widget`, made by
  * the same `new`), and reading a path for `create` is the same loops. What
  * differs: errors are `LegacyCore.BranchError`, the numeric-skip case of
  * `create` registers the name with `register_path`, and the `create` of
  * ui_widget.rs hides a branch it makes in the root. */
module LegacyWidget {
  import opened Base
  import S = Strings
  import T = CoreTree
  import W = CoreWidget
  import L = LegacyCore
  import C = CoreContainer

  /** The root's descent to `path`, or `FetchError` with that path. */
  function Find(root: T.UiBranch, path: string): (r: Result<seq<nat>, L.BranchError>)
    ensures r.Ok? <==> T.Resolves(root, path)
    ensures r.Ok? ==> r.value == W.Find(root, path).value && T.Reaches(root, r.value)
    ensures r.Err? ==> r.error == L.FetchError(path, L.FromTree(T.Lookup(root, path, |root.shortcuts|).error))
  {
    L.Lift(W.Find(root, path))
  }

  /** `fetch`: the branch at the path, extended by "/" and `sub` only when
    * `sub` is not empty; a failure is `FetchError` with the path tried. */
  function Fetch(root: T.UiBranch, w: W.Widget, sub: string): (r: Result<T.UiBranch, L.BranchError>)
    ensures var path := if sub == "" then w.path else W.End(w, sub);
            (r.Ok? <==> L.BorrowLinkedChecked(root, path).Ok?) &&
            (r.Ok? ==> r.value == L.BorrowLinkedChecked(root, path).value) &&
            (r.Err? ==> r.error == L.FetchError(path, L.BorrowLinkedChecked(root, path).error))
  {
    var path := if sub == "" then w.path else W.End(w, sub);
    match Find(root, path)
    case Ok(ids) => Ok(T.At(root, ids))
    case Err(e) => Err(e)
  }

  /** The fetch of this generation is the newer `fetch_ext` with the error
    * translated. */
  lemma FetchIsFetchExt(root: T.UiBranch, w: W.Widget, sub: string)
    ensures Fetch(root, w, sub) == L.Lift(W.FetchExt(root, w, sub))
  {
    var path := if sub == "" then w.path else W.End(w, sub);
    assert W.FetchExt(root, w, sub) == (match W.Find(root, path) case Ok(ids) => Ok(T.At(root, ids)) case Err(e) => Err(e));
  }

  /** `fetch_data_set_*`: as in the newer generation, the fetched branch's
    * data gains the value; a failed fetch changes nothing. */
  function FetchDataSet(root: T.UiBranch, w: W.Widget, sub: string, key: string, v: W.DataValue): (r: (T.UiBranch, Result<(), L.BranchError>))
    ensures r.1.Err? <==> Fetch(root, w, sub).Err?
    ensures r.1.Err? ==> r == (root, Err(Fetch(root, w, sub).error))
  {
    FetchIsFetchExt(root, w, sub);
    var c := W.FetchDataSet(root, w, sub, key, v);
    (c.0, L.Lift(c.1))
  }

  /** A value set through a widget is read back through it, and nothing
    * else of the branch changes. */
  lemma FetchDataSetThenRead(root: T.UiBranch, w: W.Widget, sub: string, key: string, v: W.DataValue)
    requires Fetch(root, w, sub).Ok?
    ensures var r := FetchDataSet(root, w, sub, key, v);
            var before := Fetch(root, w, sub).value;
            r.1 == Ok(()) && Fetch(r.0, w, sub).Ok? &&
            var after := Fetch(r.0, w, sub).value;
            after.data.Some? && W.Read(after.data.value, W.KindOf(v), key) == Some(v) &&
            after == before.(data := after.data)
  {
    W.FetchDataSetThenRead(root, w, sub, key, v);
    FetchIsFetchExt(root, w, sub);
    FetchIsFetchExt(FetchDataSet(root, w, sub, key, v).0, w, sub);
  }

  // ---------------------------------------------------------------------
  // Creation (src/core/widget.rs)

  /** The tree update of `create` once the path is read. As in the newer
    * generation, except that the name is registered on the parent with
    * `register_path`: a name the parent already has is
    * `AlreadyContainsPath`, and the branch made for it stays. */
  function CreateIn(root: T.UiBranch, path: string, parentPath: string, absolute: string, name: string, position: C.LayoutPackage): (r: (T.UiBranch, Result<W.Widget, L.BranchError>))
    ensures r.1.Ok? ==> W.WellFormed(r.1.value)
    ensures parentPath != "" && Find(root, parentPath).Err? ==> r == (root, Err(Find(root, parentPath).error))
    ensures parentPath != "" && Find(root, parentPath).Ok? && absolute != "" ==>
              var pb := T.At(root, Find(root, parentPath).value);
              T.Resolves(pb, absolute) ==>
                var aids := T.Lookup(pb, absolute, |pb.shortcuts|).value;
                T.CreateLinked(T.At(pb, aids), name, position).1.Ok? && name != "" && name in pb.shortcuts ==>
                  r.1 == Err(L.AlreadyContainsPath(name))
  {
    if parentPath == "" then
      var c := L.CreateLinked(root, name, position);
      match c.1
      case Err(e) => (root, Err(e))
      case Ok(key) => (c.0, Ok(if name == "" then W.New(key) else W.New(path)))
    else
      match Find(root, parentPath)
      case Err(e) => (root, Err(e))
      case Ok(pids) =>
        var pb := T.At(root, pids);
        if absolute != "" then
          match L.Lift(T.Lookup(pb, absolute, |pb.shortcuts|))
          case Err(e) => (root, Err(e))
          case Ok(aids) =>
            var c := L.CreateLinked(T.At(pb, aids), name, position);
            match c.1
            case Err(e) => (root, Err(e))
            case Ok(key) =>
              var pb' := T.Replace(pb, aids, c.0);
              var s := L.RegisterPath(pb', name, absolute + "/" + key);
              match s.1
              case Err(e) => (T.Replace(root, pids, pb'), Err(e))
              case Ok(_) => (T.Replace(root, pids, s.0), Ok(W.New(parentPath + "/" + key)))
        else
          var c := L.CreateLinked(pb, name, position);
          match c.1
          case Err(e) => (root, Err(e))
          case Ok(key) => (T.Replace(root, pids, c.0), Ok(if name == "" then W.New(parentPath + "/" + key) else W.New(path)))
  }

  /** The two generations' `create` build the same tree and the same
    * widget; their errors are the same failure, except that the newer
    * `shortcut_add` reports a taken name as `NameInUse` where
    * `register_path` says `AlreadyContainsPath`. */
  lemma CreateInAgrees(root: T.UiBranch, path: string, parentPath: string, absolute: string, name: string, position: C.LayoutPackage)
    ensures var a := CreateIn(root, path, parentPath, absolute, name, position);
            var b := W.CreateIn(root, path, parentPath, absolute, name, position);
            a.0 == b.0 && (a.1.Ok? <==> b.1.Ok?) && (a.1.Ok? ==> a.1.value == b.1.value) &&
            (a.1.Err? ==> a.1.error == L.FromTree(b.1.error) ||
                          (b.1.error.NameInUse? && a.1.error == L.AlreadyContainsPath(b.1.error.name)))
  {
    if parentPath != "" && W.Find(root, parentPath).Ok? {
      var pb := T.At(root, W.Find(root, parentPath).value);
      if absolute != "" && T.Lookup(pb, absolute, |pb.shortcuts|).Ok? {
        var aids := T.Lookup(pb, absolute, |pb.shortcuts|).value;
        var c := T.CreateLinked(T.At(pb, aids), name, position);
        if c.1.Ok? {
          L.RegisterPathIsShortcutAdd(T.Replace(pb, aids, c.0), name, absolute + "/" + c.1.value);
        }
      }
    }
  }

  /** `create`: the path read as in the newer generation, then the tree
    * updated. */
  function CreateOf(root: T.UiBranch, path: string, position: C.LayoutPackage): (r: (T.UiBranch, Result<W.Widget, L.BranchError>))
    ensures r.0 == W.CreateOf(root, path, position).0
    ensures r.1.Ok? <==> W.CreateOf(root, path, position).1.Ok?
  {
    var l := W.Layout(path);
    CreateInAgrees(root, path, l.0, l.1, l.2, position);
    CreateIn(root, path, l.0, l.1, l.2, position)
  }

  method Create(root: T.UiBranch, path: string, position: C.LayoutPackage) returns (root': T.UiBranch, r: Result<W.Widget, L.BranchError>)
    ensures (root', r) == CreateOf(root, path, position)
  {
    var parentPath, absolute, name := W.ReadPath(path);
    var c := CreateIn(root, path, parentPath, absolute, name, position);
    root', r := c.0, c.1;
  }

  // ---------------------------------------------------------------------
  // Creation (src/core/ui_widget.rs)

  /** The `unwrap` of the root case succeeds: once the branch is made in the
    * root, the widget returned for it is found. A nameless widget is found
    * by its "#id"; a named one by the whole path, which fails when the path
    * has a '/' (an empty first segment, as in "/Menu") or names an id. */
  predicate RootFetchSucceeds(root: T.UiBranch, path: string, name: string, position: C.LayoutPackage)
  {
    var c := T.CreateLinked(root, name, position);
    c.1.Ok? ==> W.Find(c.0, if name == "" then c.1.value else path).Ok?
  }

  /** `create` of ui_widget.rs: a branch made in the root is set invisible;
    * anywhere else this is the `create` of widget.rs. */
  function CreateHiddenIn(root: T.UiBranch, path: string, parentPath: string, absolute: string, name: string, position: C.LayoutPackage): (r: (T.UiBranch, Result<W.Widget, L.BranchError>))
    requires parentPath == "" ==> RootFetchSucceeds(root, path, name, position)
    ensures parentPath != "" ==> r == CreateIn(root, path, parentPath, absolute, name, position)
    ensures parentPath == "" ==> (r.1.Ok? <==> CreateIn(root, path, parentPath, absolute, name, position).1.Ok?)
    ensures r.1.Ok? ==> W.WellFormed(r.1.value)
  {
    if parentPath == "" then
      var c := L.CreateLinked(root, name, position);
      match c.1
      case Err(e) => (root, Err(e))
      case Ok(key) =>
        var w := if name == "" then W.New(key) else W.New(path);
        var ids := W.Find(c.0, w.path).value;
        (T.Replace(c.0, ids, T.SetVisibility(T.At(c.0, ids), false)), Ok(w))
    else CreateIn(root, path, parentPath, absolute, name, position)
  }

  /** A branch's visibility cascade keeps its shape. */
  lemma {:induction false} CascadeSameShape(b: T.UiBranch, pv: bool)
    ensures W.SameShape(T.CascadeVisibility(b, pv), b)
    decreases b
  {
    var r := T.CascadeVisibility(b, pv);
    forall k | k in r.inventory
      ensures W.SameShape(r.inventory[k], b.inventory[k])
    {
      CascadeSameShape(b.inventory[k], pv && b.visible);
    }
  }

  lemma SetVisibilitySameShape(b: T.UiBranch, v: bool)
    ensures W.SameShape(T.SetVisibility(b, v), b)
  {
    var r := T.SetVisibility(b, v);
    forall k | k in r.inventory
      ensures W.SameShape(r.inventory[k], b.inventory[k])
    {
      if T.IsVisible(r) != T.IsVisible(b) {
        CascadeSameShape(b.inventory[k], T.IsVisible(r));
      } else {
        W.SameShapeRefl(b.inventory[k]);
      }
    }
  }

  /** A widget made in the root by ui_widget.rs's `create` is fetched back
    * and its branch is hidden. */
  lemma CreateHiddenInRootIsHidden(root: T.UiBranch, path: string, absolute: string, name: string, position: C.LayoutPackage)
    requires RootFetchSucceeds(root, path, name, position)
    requires CreateHiddenIn(root, path, "", absolute, name, position).1.Ok?
    ensures var r := CreateHiddenIn(root, path, "", absolute, name, position);
            Fetch(r.0, r.1.value, "").Ok? && !Fetch(r.0, r.1.value, "").value.visible &&
            !T.IsVisible(Fetch(r.0, r.1.value, "").value)
  {
    var c := L.CreateLinked(root, name, position);
    var w := if name == "" then W.New(c.1.value) else W.New(path);
    var ids := W.Find(c.0, w.path).value;
    var hidden := T.SetVisibility(T.At(c.0, ids), false);
    var r := T.Replace(c.0, ids, hidden);
    SetVisibilitySameShape(T.At(c.0, ids), false);
    W.ReplaceSameShape(c.0, ids, hidden);
    W.LookupSameShape(r, c.0, w.path, |c.0.shortcuts|);
    assert r.shortcuts == c.0.shortcuts;
    assert W.Find(r, w.path) == Ok(ids);
  }

  /** The `unwrap` holds for a plain name and for a nameless widget. */
  lemma RootFetchSucceedsForPlainNames(root: T.UiBranch, name: string, position: C.LayoutPackage)
    requires (name == "" || T.PlainName(name)) && |root.inventory| < S.UsizeMax
    ensures RootFetchSucceeds(root, name, name, position)
  {
    var id := T.SmallestFreeId(root.inventory.Keys);
    if name == "" {
      T.SmallestFreeIdBound(root.inventory.Keys);
      T.BorrowById(T.CreateLinked(root, name, position).0, id);
    } else if name !in root.shortcuts {
      T.CreateLinkedThenBorrow(root, name, position);
    }
  }

  /** A path with an empty first segment, "/Menu", is created in the root,
    * and the `unwrap` then fails: the lookup of "/Menu" starts with an empty
    * segment. */
  lemma RootFetchFailsForLeadingSlash(root: T.UiBranch, position: C.LayoutPackage)
    requires "Menu" !in root.shortcuts
    ensures W.Layout("/Menu").0 == "" && W.Layout("/Menu").2 == "Menu"
    ensures !RootFetchSucceeds(root, "/Menu", "Menu", position)
  {
    LeadingSlashSplits();
    var c := T.CreateLinked(root, "Menu", position);
    assert T.Segment(c.0, "", |c.0.shortcuts|) == Err(T.InvalidPathSyntax);
  }

  /** "/Menu" splits into an empty segment and "Menu". */
  lemma LeadingSlashSplits()
    ensures S.Split("/Menu", '/') == ["", "Menu"] && S.SplitOnce("/Menu", '/') == Some(("", "Menu"))
    ensures W.Layout("/Menu").0 == "" && W.Layout("/Menu").2 == "Menu"
  {
    S.SplitAppendPiece("", "Menu", '/');
    assert "/Menu" == "" + ['/'] + "Menu";
    S.SplitWithoutDelimiter("", '/');
    assert S.Split("/Menu", '/') == ["", "Menu"];
    assert S.SplitOnce("/Menu", '/') == Some(("", "Menu"));
  }

  /** `create` of ui_widget.rs, as the tree and the widget it yields. */
  function CreateHiddenOf(root: T.UiBranch, path: string, position: C.LayoutPackage): (r: (T.UiBranch, Result<W.Widget, L.BranchError>))
    requires W.Layout(path).0 == "" ==> RootFetchSucceeds(root, path, W.Layout(path).2, position)
    ensures W.Layout(path).0 != "" ==> r == CreateOf(root, path, position)
    ensures r.1.Ok? <==> CreateOf(root, path, position).1.Ok?
  {
    var l := W.Layout(path);
    CreateHiddenIn(root, path, l.0, l.1, l.2, position)
  }

  method CreateHidden(root: T.UiBranch, path: string, position: C.LayoutPackage) returns (root': T.UiBranch, r: Result<W.Widget, L.BranchError>)
    requires W.Layout(path).0 == "" ==> RootFetchSucceeds(root, path, W.Layout(path).2, position)
    ensures (root', r) == CreateHiddenOf(root, path, position)
  {
    var parentPath, absolute, name := W.ReadPath(path);
    var c := CreateHiddenIn(root, path, parentPath, absolute, name, position);
    root', r := c.0, c.1;
  }

  // ---------------------------------------------------------------------
  // Hit test

  /** `is_within`: strict containment in the fetched branch's position; a
    * failed fetch is reported. */
  function IsWithin(root: T.UiBranch, w: W.Widget, sub: string, point: Vec2): (r: Result<bool, L.BranchError>)
    ensures r.Ok? <==> Fetch(root, w, sub).Ok?
    ensures r.Err? ==> r.error == Fetch(root, w, sub).error
    ensures r.Ok? ==> (r.value <==> W.StrictlyInside(point, Fetch(root, w, sub).value.container.position))
  {
    match Fetch(root, w, sub)
    case Ok(b) =>
      var position := b.container.position;
      Ok((point.x > position.point1.x && point.x < position.point2.x) &&
         (point.y > position.point1.y && point.y < position.point2.y))
    case Err(e) => Err(e)
  }
}
