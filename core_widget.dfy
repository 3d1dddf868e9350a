/** crates/bevy_lunex_core/src/code/widget.rs: a `Widget` is a path into a
  * `UiTree` plus the name at the end of that path. Every operation resolves
  * the path from the tree's root branch (`main_branch`, the `branch` of
  * `CoreTree.UiTree`); operations that change the tree take the root branch
  * and return the new one, writing a changed descendant back with
  * `CoreTree.Replace`. */
module CoreWidget {
  import opened Base
  import opened Strings
  import T = CoreTree
  import U = CoreUtil
  import P = PathUtil
  import C = CoreContainer

  datatype Widget = Widget(path: string, name: string)

  /** `Widget::new`: the name is the path's last '/'-separated segment. */
  function New(path: string): (w: Widget)
    ensures w.path == path && '/' !in w.name
    ensures '/' in path ==> path == P.SplitLastOf(path, '/').0 + "/" + w.name
    ensures '/' !in path ==> w.name == path
  {
    P.SplitLastParts(path, '/');
    Widget(path, P.SplitLastOf(path, '/').1)
  }

  /** A widget as `new` makes it (the fields are private to the source). */
  predicate WellFormed(w: Widget)
  {
    w == New(w.path)
  }

  // ---------------------------------------------------------------------
  // Paths

  /** `end`: the path one segment further down. */
  function End(w: Widget, s: string): (r: string)
    ensures |r| == |w.path| + 1 + |s| && r[..|w.path|] == w.path && r[|w.path|] == '/' && r[|w.path| + 1..] == s
  {
    w.path + "/" + s
  }

  /** `str`: the widget one segment further down. */
  function Str(w: Widget, s: string): (r: Widget)
    ensures r.path == End(w, s)
    ensures '/' !in s ==> r.name == s
  {
    if '/' in s then New(w.path + "/" + s)
    else LastSegmentOf(w.path, s); New(w.path + "/" + s)
  }

  /** `add`: the widget under this one carrying the other's name. */
  function Add(w: Widget, v: Widget): (r: Widget)
    requires WellFormed(v)
    ensures r.path == End(w, v.name) && r.name == v.name
  {
    Str(w, v.name)
  }

  /** The last segment of `a/s` is `s` when `s` holds no '/'. */
  lemma LastSegmentOf(a: string, s: string)
    requires '/' !in s
    ensures P.SplitLastOf(a + "/" + s, '/') == (a, s)
  {
    assert a + "/" + s == a + ['/'] + s;
    SplitAppendPiece(a, s, '/');
    JoinSplit(a, '/');
    var parts := Split(a + "/" + s, '/');
    assert parts[..|parts| - 1] == Split(a, '/');
  }

  // ---------------------------------------------------------------------
  // Fetching

  /** The ids the root descends through to reach `path`, or the lookup's
    * failure wrapped in `FetchError` with that path (`fetch_mut`). */
  function Find(root: T.UiBranch, path: string): (r: Result<seq<nat>, T.LunexError>)
    ensures r.Ok? <==> T.Resolves(root, path)
    ensures r.Ok? ==> r.value == T.Lookup(root, path, |root.shortcuts|).value && |r.value| > 0 && T.Reaches(root, r.value)
    ensures r.Err? ==> r.error == T.FetchError(path, T.Lookup(root, path, |root.shortcuts|).error)
  {
    match T.Lookup(root, path, |root.shortcuts|)
    case Ok(ids) => Ok(ids)
    case Err(e) => Err(T.FetchError(path, e))
  }

  /** `fetch`: the branch at the widget's path. */
  function Fetch(root: T.UiBranch, w: Widget): (r: Result<T.UiBranch, T.LunexError>)
    ensures r.Ok? <==> T.BorrowLinkedChecked(root, w.path).Ok?
    ensures r.Ok? ==> r.value == T.BorrowLinkedChecked(root, w.path).value
    ensures r.Err? ==> r.error == T.FetchError(w.path, T.BorrowLinkedChecked(root, w.path).error)
  {
    match Find(root, w.path)
    case Ok(ids) => Ok(T.At(root, ids))
    case Err(e) => Err(e)
  }

  /** `fetch_ext`: "/" and the sub-path are appended only when the sub-path
    * is not empty, so the extended fetch is the fetch of `str(sub)`. */
  function FetchExt(root: T.UiBranch, w: Widget, sub: string): (r: Result<T.UiBranch, T.LunexError>)
    ensures sub == "" ==> r == Fetch(root, w)
    ensures sub != "" ==> r == Fetch(root, Str(w, sub))
  {
    var path := if sub == "" then w.path else w.path + "/" + sub;
    match Find(root, path)
    case Ok(ids) => Ok(T.At(root, ids))
    case Err(e) => Err(e)
  }

  // ---------------------------------------------------------------------
  // Data

  /** The six `fetch_data_set_*` functions differ only in the map they
    * insert into; the value's variant selects it. */
  datatype DataValue =
    | F32(f: real) | Vec2Value(v2: Vec2) | Vec3Value(v3: Vec3) | Vec4Value(v4: Vec4)
    | Bool(b: bool) | Text(s: string)

  datatype DataKind = F32Kind | Vec2Kind | Vec3Kind | Vec4Kind | BoolKind | StringKind

  function KindOf(v: DataValue): DataKind
  {
    match v
    case F32(_) => F32Kind
    case Vec2Value(_) => Vec2Kind
    case Vec3Value(_) => Vec3Kind
    case Vec4Value(_) => Vec4Kind
    case Bool(_) => BoolKind
    case Text(_) => StringKind
  }

  /** The value stored under `key` in the map of the given kind. */
  function Read(d: T.Data, kind: DataKind, key: string): Option<DataValue>
  {
    match kind
    case F32Kind => if key in d.f32s then Some(F32(d.f32s[key])) else None
    case Vec2Kind => if key in d.vec2s then Some(Vec2Value(d.vec2s[key])) else None
    case Vec3Kind => if key in d.vec3s then Some(Vec3Value(d.vec3s[key])) else None
    case Vec4Kind => if key in d.vec4s then Some(Vec4Value(d.vec4s[key])) else None
    case BoolKind => if key in d.bools then Some(Bool(d.bools[key])) else None
    case StringKind => if key in d.strings then Some(Text(d.strings[key])) else None
  }

  /** The insertion each `fetch_data_set_*` makes: the value is stored in
    * its own map, over any earlier value, and nothing else changes. */
  function Insert(d: T.Data, key: string, v: DataValue): (r: T.Data)
    ensures Read(r, KindOf(v), key) == Some(v)
    ensures forall kind, k :: (kind != KindOf(v) || k != key) ==> Read(r, kind, k) == Read(d, kind, k)
  {
    match v
    case F32(x) => d.(f32s := d.f32s[key := x])
    case Vec2Value(x) => d.(vec2s := d.vec2s[key := x])
    case Vec3Value(x) => d.(vec3s := d.vec3s[key := x])
    case Vec4Value(x) => d.(vec4s := d.vec4s[key := x])
    case Bool(x) => d.(bools := d.bools[key := x])
    case Text(x) => d.(strings := d.strings[key := x])
  }

  /** The branch's data after the insertion: a missing `Data` is created
    * empty first. */
  function SetData(data: Option<T.Data>, key: string, v: DataValue): (r: T.Data)
    ensures Read(r, KindOf(v), key) == Some(v)
    ensures forall kind, k :: (kind != KindOf(v) || k != key) ==>
              Read(r, kind, k) == (if data.Some? then Read(data.value, kind, k) else None)
  {
    match data
    case Some(d) => Insert(d, key, v)
    case None => Insert(T.EmptyData, key, v)
  }

  /** `fetch_data_set_*` and `fetch_data_set_*_ext`: the data of the branch
    * the (extended) path names gains the value; a failed fetch changes
    * nothing. */
  function FetchDataSet(root: T.UiBranch, w: Widget, sub: string, key: string, v: DataValue): (r: (T.UiBranch, Result<(), T.LunexError>))
    ensures r.1.Err? <==> FetchExt(root, w, sub).Err?
    ensures r.1.Err? ==> r == (root, Err(FetchExt(root, w, sub).error))
  {
    var path := if sub == "" then w.path else w.path + "/" + sub;
    match Find(root, path)
    case Err(e) => (root, Err(e))
    case Ok(ids) =>
      var b := T.At(root, ids);
      (T.Replace(root, ids, b.(data := Some(SetData(b.data, key, v)))), Ok(()))
  }

  // ---------------------------------------------------------------------
  // Shape: what a lookup depends on

  /** Two branches with the same shortcuts and child ids all the way down;
    * they differ at most in names, layouts, flags and data. */
  ghost predicate SameShape(a: T.UiBranch, b: T.UiBranch)
    decreases a
  {
    a.shortcuts == b.shortcuts && a.inventory.Keys == b.inventory.Keys &&
    forall k :: k in a.inventory ==> SameShape(a.inventory[k], b.inventory[k])
  }

  lemma {:induction false} SameShapeRefl(a: T.UiBranch)
    ensures SameShape(a, a)
    decreases a
  {
    forall k | k in a.inventory
      ensures SameShape(a.inventory[k], a.inventory[k])
    {
      SameShapeRefl(a.inventory[k]);
    }
  }

  /** Writing back a branch of the same shape keeps the whole shape. */
  lemma {:induction false} ReplaceSameShape(a: T.UiBranch, ids: seq<nat>, c: T.UiBranch)
    requires T.Reaches(a, ids) && SameShape(c, T.At(a, ids))
    ensures SameShape(T.Replace(a, ids, c), a)
    decreases |ids|
  {
    if |ids| > 0 {
      var r := T.Replace(a, ids, c);
      forall k | k in r.inventory
        ensures SameShape(r.inventory[k], a.inventory[k])
      {
        if k == ids[0] {
          ReplaceSameShape(a.inventory[k], ids[1..], c);
        } else {
          SameShapeRefl(a.inventory[k]);
        }
      }
    }
  }

  lemma {:induction false} SameShapeAt(a: T.UiBranch, b: T.UiBranch, ids: seq<nat>)
    requires SameShape(a, b) && T.Reaches(a, ids)
    ensures T.Reaches(b, ids) && SameShape(T.At(a, ids), T.At(b, ids))
    decreases |ids|
  {
    if |ids| > 0 {
      SameShapeAt(a.inventory[ids[0]], b.inventory[ids[0]], ids[1..]);
    }
  }

  /** A lookup sees only the shape. */
  lemma {:induction false} LookupSameShape(a: T.UiBranch, b: T.UiBranch, path: string, hops: nat)
    requires SameShape(a, b)
    ensures T.Lookup(a, path, hops) == T.Lookup(b, path, hops)
    decreases T.Size(a), hops, |path|, 1
  {
    match SplitOnce(path, '/')
    case None => SegmentSameShape(a, b, path, hops);
    case Some((seg, rest)) =>
      SegmentSameShape(a, b, seg, hops);
      match T.Segment(a, seg, hops)
      case Err(_) =>
      case Ok(ids) =>
        T.AtSmaller(a, ids);
        SameShapeAt(a, b, ids);
        LookupSameShape(T.At(a, ids), T.At(b, ids), rest, |T.At(a, ids).shortcuts|);
  }

  lemma {:induction false} SegmentSameShape(a: T.UiBranch, b: T.UiBranch, name: string, hops: nat)
    requires SameShape(a, b)
    ensures T.Segment(a, name, hops) == T.Segment(b, name, hops)
    decreases T.Size(a), hops, |name|, 0
  {
    if name != "" && !U.IsNumericalId(name) && name in a.shortcuts && hops > 0 {
      LookupSameShape(a, b, a.shortcuts[name], hops - 1);
    }
  }

  /** After a data set, fetching the same (extended) path finds the branch
    * and reads the value back; every other entry is as before. */
  lemma FetchDataSetThenRead(root: T.UiBranch, w: Widget, sub: string, key: string, v: DataValue)
    requires FetchExt(root, w, sub).Ok?
    ensures var r := FetchDataSet(root, w, sub, key, v);
            var before := FetchExt(root, w, sub).value;
            r.1 == Ok(()) && FetchExt(r.0, w, sub).Ok? &&
            var after := FetchExt(r.0, w, sub).value;
            after.data.Some? && Read(after.data.value, KindOf(v), key) == Some(v) &&
            after == before.(data := after.data) &&
            forall kind, k :: (kind != KindOf(v) || k != key) ==>
              Read(after.data.value, kind, k) == (if before.data.Some? then Read(before.data.value, kind, k) else None)
  {
    var path := if sub == "" then w.path else w.path + "/" + sub;
    var ids := Find(root, path).value;
    var b := T.At(root, ids);
    var c := b.(data := Some(SetData(b.data, key, v)));
    var r := T.Replace(root, ids, c);
    SameShapeRefl(b);
    assert SameShape(c, b);
    ReplaceSameShape(root, ids, c);
    LookupSameShape(r, root, path, |root.shortcuts|);
    assert r.shortcuts == root.shortcuts;
    assert Find(r, path) == Ok(ids);
  }

  // ---------------------------------------------------------------------
  // Creation

  /** The index the skip loop of `create` stops at: going down from `i`
    * over "#" segments, never below 0. */
  function SkipNumeric(list: seq<string>, i: nat): (r: nat)
    requires i < |list|
    ensures r <= i && (r == 0 || !U.IsNumericalId(list[r]))
    ensures forall k :: r < k <= i ==> U.IsNumericalId(list[k])
    decreases i
  {
    if U.IsNumericalId(list[i]) && i > 0 then SkipNumeric(list, i - 1) else i
  }

  /** How `create` reads a path: the parent path, the run of "#" segments
    * between the parent and a named leaf, and the leaf's name. */
  function Layout(path: string): (r: (string, string, string))
    ensures r.2 == Split(path, '/')[|Split(path, '/')| - 1] && '/' !in r.2
  {
    var list := Split(path, '/');
    var last := |list| - 1;
    var n := if list[last] != "" && !U.IsNumericalId(list[last]) && last > 0 then SkipNumeric(list, last - 1) + 1 else last;
    (Join(list[..n], '/'), Join(list[n..last], '/'), list[last])
  }

  /** A path made of parent segments, "#" segments and a plain name is read
    * back into those three parts; a single segment has no parent. */
  lemma LayoutOfJoined(parent: seq<string>, ids: seq<string>, name: string)
    requires |parent| >= 1 && (|parent| == 1 || !U.IsNumericalId(parent[|parent| - 1]))
    requires forall i :: 0 <= i < |parent| ==> '/' !in parent[i]
    requires forall i :: 0 <= i < |ids| ==> '/' !in ids[i] && U.IsNumericalId(ids[i])
    requires T.PlainName(name)
    ensures Layout(Join(parent + ids + [name], '/')) == (Join(parent, '/'), Join(ids, '/'), name)
  {
    var list := parent + ids + [name];
    NoDelimiterIn(parent, ids, name);
    SplitJoin(list, '/');
    var last := |list| - 1;
    SkipStopsAtParent(parent, ids, name);
    assert list[..|parent|] == parent;
    assert list[|parent|..last] == ids;
  }

  lemma NoDelimiterIn(parent: seq<string>, ids: seq<string>, name: string)
    requires forall i :: 0 <= i < |parent| ==> '/' !in parent[i]
    requires forall i :: 0 <= i < |ids| ==> '/' !in ids[i]
    requires '/' !in name
    ensures var list := parent + ids + [name];
            forall i :: 0 <= i < |list| ==> '/' !in list[i]
  {
    var list := parent + ids + [name];
    forall i | 0 <= i < |list|
      ensures '/' !in list[i]
    {
      if i < |parent| {
        assert list[i] == parent[i];
      } else if i < |parent| + |ids| {
        assert list[i] == ids[i - |parent|];
      }
    }
  }

  /** The skip stops at the parent's last segment. */
  lemma SkipStopsAtParent(parent: seq<string>, ids: seq<string>, name: string)
    requires |parent| >= 1 && (|parent| == 1 || !U.IsNumericalId(parent[|parent| - 1]))
    requires forall i :: 0 <= i < |ids| ==> U.IsNumericalId(ids[i])
    ensures var list := parent + ids + [name];
            SkipNumeric(list, |list| - 2) == |parent| - 1
  {
    var list := parent + ids + [name];
    var s := SkipNumeric(list, |list| - 2);
    assert list[|parent| - 1] == parent[|parent| - 1];
  }

  /** A path with no '/' has no parent: the branch goes in the root. */
  lemma LayoutOfSegment(name: string)
    requires '/' !in name
    ensures Layout(name) == ("", "", name)
  {
    SplitWithoutDelimiter(name, '/');
  }

  /** The tree update of `create` once the path is read: in the root when
    * there is no parent path; else inside the parent, going through the
    * "#" segments first when there are any. There the name is also
    * registered on the parent; when the parent already has that name the
    * error is reported but the new branch stays where it was made. */
  function CreateIn(root: T.UiBranch, path: string, parentPath: string, absolute: string, name: string, position: C.LayoutPackage): (r: (T.UiBranch, Result<Widget, T.LunexError>))
    ensures r.1.Ok? ==> WellFormed(r.1.value)
    ensures parentPath != "" && Find(root, parentPath).Err? ==> r == (root, Err(Find(root, parentPath).error))
    ensures parentPath != "" && Find(root, parentPath).Ok? && absolute != "" ==>
              var pids := Find(root, parentPath).value;
              var pb := T.At(root, pids);
              T.Resolves(pb, absolute) ==>
                var aids := T.Lookup(pb, absolute, |pb.shortcuts|).value;
                var c := T.CreateLinked(T.At(pb, aids), name, position);
                c.1.Ok? && name != "" ==>
                  var pb' := T.Replace(pb, aids, c.0);
                  T.Reaches(r.0, pids) &&
                  (name in pb.shortcuts ==> r.1 == Err(T.NameInUse(name)) && T.At(r.0, pids) == pb') &&
                  (name !in pb.shortcuts ==> (r.1 == Ok(New(parentPath + "/" + name)) &&
                     T.At(r.0, pids) == pb'.(shortcuts := pb.shortcuts[name := absolute + "/" + name])))
  {
    if parentPath == "" then
      var c := T.CreateLinked(root, name, position);
      match c.1
      case Err(e) => (root, Err(e))
      case Ok(key) => (c.0, Ok(if name == "" then New(key) else New(path)))
    else
      match Find(root, parentPath)
      case Err(e) => (root, Err(e))
      case Ok(pids) =>
        var pb := T.At(root, pids);
        if absolute != "" then
          match T.Lookup(pb, absolute, |pb.shortcuts|)
          case Err(e) => (root, Err(e))
          case Ok(aids) =>
            var c := T.CreateLinked(T.At(pb, aids), name, position);
            match c.1
            case Err(e) => (root, Err(e))
            case Ok(key) =>
              var pb' := T.Replace(pb, aids, c.0);
              var s := T.ShortcutAdd(pb', name, absolute + "/" + key);
              match s.1
              case Err(e) => (T.Replace(root, pids, pb'), Err(e))
              case Ok(_) => (T.Replace(root, pids, s.0), Ok(New(parentPath + "/" + key)))
        else
          var c := T.CreateLinked(pb, name, position);
          match c.1
          case Err(e) => (root, Err(e))
          case Ok(key) => (T.Replace(root, pids, c.0), Ok(if name == "" then New(parentPath + "/" + key) else New(path)))
  }

  /** `create`, as the tree and the widget it yields. */
  function CreateOf(root: T.UiBranch, path: string, position: C.LayoutPackage): (T.UiBranch, Result<Widget, T.LunexError>)
  {
    var l := Layout(path);
    CreateIn(root, path, l.0, l.1, l.2, position)
  }

  /** The loops of `create` that read the path: the skip over "#" segments
    * going backwards from the one before the name, and the join of the
    * segments before them. */
  method ReadPath(path: string) returns (parentPath: string, absolute: string, name: string)
    ensures (parentPath, absolute, name) == Layout(path)
  {
    var list := Split(path, '/');
    name := list[|list| - 1];
    var n;
    absolute, n := SkipSegments(list);
    parentPath := JoinPrefix(list, n);
  }

  /** The backwards loop over the "#" segments before a named leaf: the
    * index of the first segment after the parent and the skipped segments
    * joined with '/'. */
  method SkipSegments(list: seq<string>) returns (absolute: string, n: nat)
    requires |list| >= 1
    ensures var last := |list| - 1;
            n == (if list[last] != "" && !U.IsNumericalId(list[last]) && last > 0 then SkipNumeric(list, last - 1) + 1 else last)
    ensures n <= |list| - 1 && absolute == Join(list[n..|list| - 1], '/')
  {
    var len := |list|;
    var name := list[len - 1];
    n := len - 1;
    absolute := "";
    if name != "" && !U.IsNumericalId(name) && len > 1 {
      var i := len - 2;
      while U.IsNumericalId(list[i]) && i > 0
        invariant 0 <= i <= len - 2
        invariant SkipNumeric(list, i) == SkipNumeric(list, len - 2)
        invariant absolute == if i == len - 2 then "" else Join(list[i + 1..len - 1], '/') + "/"
        decreases i
      {
        if i < len - 2 {
          JoinPrepend(list[i], list[i + 1..len - 1], '/');
          assert list[i..len - 1] == [list[i]] + list[i + 1..len - 1];
        } else {
          assert list[i..len - 1] == [list[i]];
        }
        absolute := list[i] + "/" + absolute;
        i := i - 1;
      }
      ghost var joined := Join(list[i + 1..len - 1], '/');
      if '/' in absolute {
        assert i < len - 2 && absolute == joined + "/";
        absolute := absolute[..|absolute| - 1];
        assert absolute == joined;
      } else {
        assert i == len - 2 && list[i + 1..len - 1] == [];
      }
      n := i + 1;
    }
  }

  /** The forward loop that joins the first `n` segments with '/'. */
  method JoinPrefix(list: seq<string>, n: nat) returns (parentPath: string)
    requires n <= |list|
    ensures parentPath == Join(list[..n], '/')
  {
    parentPath := "";
    for ii := 0 to n
      invariant parentPath == Join(list[..ii], '/')
    {
      assert list[..ii + 1] == list[..ii] + [list[ii]];
      if ii != 0 {
        JoinAppend(list[..ii], list[ii], '/');
        parentPath := parentPath + "/" + list[ii];
      } else {
        parentPath := parentPath + list[ii];
      }
    }
  }

  /** `create`: the path is read, then the tree is updated. */
  method Create(root: T.UiBranch, path: string, position: C.LayoutPackage) returns (root': T.UiBranch, r: Result<Widget, T.LunexError>)
    ensures (root', r) == CreateOf(root, path, position)
  {
    var parentPath, absolute, name := ReadPath(path);
    var c := CreateIn(root, path, parentPath, absolute, name, position);
    root', r := c.0, c.1;
  }

  /** Creating "name" in the root makes a branch found by `fetch` of
    * `Widget::new("name")`. */
  lemma CreateInRoot(root: T.UiBranch, name: string, position: C.LayoutPackage)
    requires T.PlainName(name) && name !in root.shortcuts && |root.inventory| < UsizeMax
    ensures var r := CreateOf(root, name, position);
            var id := T.SmallestFreeId(root.inventory.Keys);
            r.0 == T.CreateLinked(root, name, position).0 && r.1 == Ok(New(name)) &&
            Fetch(r.0, New(name)) == Ok(r.0.inventory[id])
  {
    LayoutOfSegment(name);
    T.CreateLinkedThenBorrow(root, name, position);
  }

  /** A nameless widget in the root gets the path "#<id>" of its new branch. */
  lemma CreateNamelessInRoot(root: T.UiBranch, position: C.LayoutPackage)
    requires |root.inventory| < UsizeMax
    ensures var r := CreateOf(root, "", position);
            var id := T.SmallestFreeId(root.inventory.Keys);
            r.0 == T.CreateSimple(root, "", position).0 && r.1 == Ok(New(T.IdPath(id))) &&
            Fetch(r.0, New(T.IdPath(id))) == Ok(r.0.inventory[id])
  {
    LayoutOfSegment("");
    var id := T.SmallestFreeId(root.inventory.Keys);
    T.SmallestFreeIdBound(root.inventory.Keys);
    T.BorrowById(CreateOf(root, "", position).0, id);
  }

  /** Creating "parent/name" makes the branch inside the parent, where the
    * name now leads to it. */
  lemma CreateInParent(root: T.UiBranch, parent: seq<string>, name: string, position: C.LayoutPackage)
    requires |parent| >= 1 && (|parent| == 1 || !U.IsNumericalId(parent[|parent| - 1]))
    requires forall i :: 0 <= i < |parent| ==> '/' !in parent[i]
    requires Join(parent, '/') != "" && Find(root, Join(parent, '/')).Ok?
    requires T.PlainName(name)
    requires var pb := T.At(root, Find(root, Join(parent, '/')).value);
             name !in pb.shortcuts && |pb.inventory| < UsizeMax
    ensures var path := Join(parent + [name], '/');
            var r := CreateOf(root, path, position);
            var pids := Find(root, Join(parent, '/')).value;
            var pb := T.At(root, pids);
            r.1 == Ok(New(path)) && T.Reaches(r.0, pids) &&
            T.At(r.0, pids) == T.CreateLinked(pb, name, position).0 &&
            T.BorrowLinkedChecked(T.At(r.0, pids), name) == Ok(T.At(r.0, pids).inventory[T.SmallestFreeId(pb.inventory.Keys)])
  {
    LayoutOfJoined(parent, [], name);
    assert parent + [] + [name] == parent + [name];
    var pb := T.At(root, Find(root, Join(parent, '/')).value);
    T.CreateLinkedThenBorrow(pb, name, position);
  }

  // ---------------------------------------------------------------------
  // Removal

  /** `drop_ext`: the sub-path is dropped from the widget's branch. */
  function DropExt(root: T.UiBranch, w: Widget, path: string): (r: (T.UiBranch, Result<(), T.LunexError>))
    ensures Find(root, w.path).Err? ==> r == (root, Err(Find(root, w.path).error))
    ensures r.1.Err? ==> r.0 == root
    ensures r.1.Ok? ==> (Find(root, w.path).Ok? &&
              var ids := Find(root, w.path).value;
              var b := T.At(root, ids);
              T.DropLinked(b, path, |b.shortcuts|).Ok? && T.Reaches(r.0, ids) &&
              T.At(r.0, ids) == T.DropLinked(b, path, |b.shortcuts|).value)
  {
    match Find(root, w.path)
    case Err(e) => (root, Err(e))
    case Ok(ids) =>
      var b := T.At(root, ids);
      match T.DropLinked(b, path, |b.shortcuts|)
      case Err(e) => (root, Err(e))
      case Ok(b') => (T.Replace(root, ids, b'), Ok(()))
  }

  /** After `drop_ext` the branch the sub-path led to is no longer among its
    * parent's children. */
  lemma DropExtRemovesTarget(root: T.UiBranch, w: Widget, path: string)
    requires DropExt(root, w, path).1.Ok?
    ensures var ids := Find(root, w.path).value;
            var b := T.At(root, ids);
            T.Lookup(b, path, |b.shortcuts|).Ok? &&
            var all := ids + T.Lookup(b, path, |b.shortcuts|).value;
            var r := DropExt(root, w, path).0;
            T.Reaches(r, all[..|all| - 1]) && all[|all| - 1] !in T.At(r, all[..|all| - 1]).inventory
  {
    var ids := Find(root, w.path).value;
    var b := T.At(root, ids);
    T.DropLinkedRemovesTarget(b, path, |b.shortcuts|);
    var more := T.Lookup(b, path, |b.shortcuts|).value;
    T.RemovedBelow(root, ids, T.DropLinked(b, path, |b.shortcuts|).value, more);
  }

  /** `remove`: the named sub-branch is dropped and its shortcut removed. */
  function Remove(root: T.UiBranch, w: Widget, key: string): (r: (T.UiBranch, Result<(), T.LunexError>))
    ensures Find(root, w.path).Err? ==> r == (root, Err(Find(root, w.path).error))
    ensures r.1.Err? ==> r.0 == root
    ensures Find(root, w.path).Ok? ==>
              var ids := Find(root, w.path).value;
              var b := T.At(root, ids);
              (key !in b.shortcuts ==> r == (root, Err(T.NoShortcut(key)))) &&
              (r.1.Ok? <==> key in b.shortcuts && T.DropLinked(b, key, |b.shortcuts|).Ok?) &&
              (r.1.Ok? ==> T.Reaches(r.0, ids) && key !in T.At(r.0, ids).shortcuts &&
                           T.At(r.0, ids).shortcuts == b.shortcuts - {key} &&
                           T.At(r.0, ids) == T.DropLinked(b, key, |b.shortcuts|).value.(shortcuts := b.shortcuts - {key}))
  {
    match Find(root, w.path)
    case Err(e) => (root, Err(e))
    case Ok(ids) =>
      var b := T.At(root, ids);
      var c := T.RemoveSimpleChecked(b, key);
      match c.1
      case Err(e) => (root, Err(e))
      case Ok(_) => (T.Replace(root, ids, c.0), Ok(()))
  }

  /** After `remove` the branch the key led to is no longer among its
    * parent's children, and the key is no longer a shortcut. */
  lemma RemoveDropsTarget(root: T.UiBranch, w: Widget, key: string)
    requires Remove(root, w, key).1.Ok?
    ensures var ids := Find(root, w.path).value;
            var b := T.At(root, ids);
            T.Lookup(b, key, |b.shortcuts|).Ok? &&
            var all := ids + T.Lookup(b, key, |b.shortcuts|).value;
            var r := Remove(root, w, key).0;
            T.Reaches(r, all[..|all| - 1]) && all[|all| - 1] !in T.At(r, all[..|all| - 1]).inventory &&
            key !in T.At(r, ids).shortcuts
  {
    var ids := Find(root, w.path).value;
    var b := T.At(root, ids);
    T.DropLinkedRemovesTarget(b, key, |b.shortcuts|);
    var more := T.Lookup(b, key, |b.shortcuts|).value;
    var d := T.DropLinked(b, key, |b.shortcuts|).value;
    var c' := d.(shortcuts := b.shortcuts - {key});
    if |more| > 1 {
      assert more[..|more| - 1] == [more[0]] + more[1..|more| - 1];
      assert T.At(c', more[..|more| - 1]) == T.At(d, more[..|more| - 1]);
    }
    T.RemovedBelow(root, ids, c', more);
  }

  /** `remove_invalid`: the widget's branch drops the shortcuts that lead
    * nowhere and reports how many there were. */
  method RemoveInvalid(root: T.UiBranch, w: Widget) returns (root': T.UiBranch, r: Result<nat, T.LunexError>)
    ensures Find(root, w.path).Err? ==> root' == root && r == Err(Find(root, w.path).error)
    ensures Find(root, w.path).Ok? ==>
              var ids := Find(root, w.path).value;
              var b := T.At(root, ids);
              T.Reaches(root', ids) && r == Ok(|T.Dangling(b)|) &&
              T.At(root', ids) == b.(shortcuts := b.shortcuts - T.Dangling(b))
  {
    var found := Find(root, w.path);
    match found {
      case Err(e) =>
        root', r := root, Err(e);
      case Ok(ids) =>
        var b', n := T.RemoveInvalid(T.At(root, ids));
        root', r := T.Replace(root, ids, b'), Ok(n);
    }
  }

  // ---------------------------------------------------------------------
  // Hit test

  /** The strict containment `contains_position` tests: the box's edges are
    * outside. */
  predicate StrictlyInside(point: Vec2, p: C.Position)
  {
    p.point1.x < point.x < p.point2.x && p.point1.y < point.y < p.point2.y
  }

  /** `contains_position_ext` (and `contains_position` with an empty
    * sub-path): whether the point is strictly inside the branch's cached
    * position. */
  function ContainsPosition(root: T.UiBranch, w: Widget, sub: string, point: Vec2): (r: Result<bool, T.LunexError>)
    ensures r.Ok? <==> FetchExt(root, w, sub).Ok?
    ensures r.Err? ==> r.error == FetchExt(root, w, sub).error
    ensures r.Ok? ==> (r.value <==> StrictlyInside(point, FetchExt(root, w, sub).value.container.position))
  {
    match FetchExt(root, w, sub)
    case Ok(b) =>
      var position := b.container.position;
      Ok((point.x > position.point1.x && point.x < position.point2.x) &&
         (point.y > position.point1.y && point.y < position.point2.y))
    case Err(e) => Err(e)
  }

  /** Neither corner is inside, nor is anything in a box of zero width. */
  lemma CornersOutside(p: C.Position, point: Vec2)
    ensures !StrictlyInside(p.point1, p) && !StrictlyInside(p.point2, p)
    ensures p.point2.x <= p.point1.x ==> !StrictlyInside(point, p)
  {
  }
}
