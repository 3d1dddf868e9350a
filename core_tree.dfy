/** crates/bevy_lunex_core/src/code/tree.rs: the `UiTree` and its
  * `UiBranch`es. A branch keeps its children in `inventory`, keyed by a
  * numeric id, and names some of them through `shortcuts`, a map from a name
  * to a path relative to the branch ("#3/#0", "menu/#1").
  *
  * The source changes branches through `&mut` borrows that descend the tree.
  * Here a branch is a value: a descent is the sequence of ids it takes
  * (`Reaches`, `At`) and the write-back is `Replace`; the `UiTree` class
  * holds the root branch and is the one place that is updated in place.
  * `HashMap` iteration order is left unspecified: every loop over a map
  * picks its next key with `:|`. */
module CoreTree {
  import opened Base
  import opened Strings
  import C = CoreContainer
  import U = CoreUtil

  const RootStartingDepth: real := 100.0
  const LevelDepthDifference: real := 10.0
  const HighlightDepthAdded: real := 5.0

  /** The errors `tree.rs` and `widget.rs` return. `InvalidId` carries the
    * text that did not parse as an id. `ShortcutLoop` names a shortcut whose
    * chain of translations comes back to a name already translated: the
    * source then recurses without end, the model stops and reports it.
    * `FetchError` is a widget's failed lookup, with the path it tried. */
  datatype LunexError =
    | DuplicateName(name: string)
    | NameInUse(name: string)
    | NoShortcut(name: string)
    | NoBranch(id: nat)
    | InvalidId(text: string)
    | InvalidPathSyntax
    | ShortcutLoop(name: string)
    | FetchError(path: string, cause: LunexError)

  /** `Data`: named values a widget stores on its branch. */
  datatype Data = Data(
    f32s: map<string, real>, vec2s: map<string, Vec2>, vec3s: map<string, Vec3>,
    vec4s: map<string, Vec4>, bools: map<string, bool>, strings: map<string, string>)

  const EmptyData: Data := Data(map[], map[], map[], map[], map[], map[])

  /** The container mounted on a branch: its layout and the position last
    * calculated from it. */
  datatype BranchContainer = BranchContainer(position: C.Position, layout: C.LayoutPackage)

  datatype UiBranch = UiBranch(
    name: string, id: nat, path: string,
    level: real, depth: real,
    active: bool, visible: bool, inFocus: bool, parentVisible: bool,
    container: BranchContainer, data: Option<Data>,
    inventory: map<nat, UiBranch>, shortcuts: map<string, string>)

  /** `UiBranch::new`: active, visible, not in focus, at the starting depth,
    * with a new container, no data and no children. */
  function NewBranch(name: string, id: nat, path: string, level: real, parentVisible: bool): (b: UiBranch)
    ensures b.name == name && b.id == id && b.path == path && b.level == level && b.parentVisible == parentVisible
    ensures b.depth == RootStartingDepth && b.active && b.visible && !b.inFocus
    ensures b.container == BranchContainer(C.DefaultPosition, C.DefaultPackage()) && b.data.None?
    ensures b.inventory == map[] && b.shortcuts == map[]
  {
    UiBranch(name, id, path, level, RootStartingDepth, true, true, false, parentVisible,
             BranchContainer(C.DefaultPosition, C.DefaultPackage()), None, map[], map[])
  }

  /** The root of `UiTree::new`: "ROOT", id 0, level 0, visible, laid out
    * from the parent's first corner (0%) to its second (100%). */
  function RootBranch(): (b: UiBranch)
    ensures b == NewBranch("ROOT", 0, "", 0.0, true).(container := BranchContainer(C.DefaultPosition, C.Relative(C.DefaultRelative())))
  {
    var b := NewBranch("ROOT", 0, "", 0.0, true);
    b.(container := b.container.(layout := C.Relative(C.RelativeLayout(Zero2, Zero2, Zero2, Vec2(100.0, 100.0)))))
  }

  // ---------------------------------------------------------------------
  // Depth, path and visibility

  /** `get_depth`: the level steps, the branch's own depth, and the
    * highlight step while in focus. */
  function GetDepth(b: UiBranch): (r: real)
    ensures r - (b.level * LevelDepthDifference + b.depth) == (if b.inFocus then HighlightDepthAdded else 0.0)
  {
    if b.inFocus then b.level * LevelDepthDifference + b.depth + HighlightDepthAdded
    else b.level * LevelDepthDifference + b.depth
  }

  /** Focus raises the depth by exactly the highlight step, and one level
    * down is one level step deeper. */
  lemma DepthSteps(b: UiBranch)
    ensures GetDepth(b.(inFocus := true)) == GetDepth(b.(inFocus := false)) + HighlightDepthAdded
    ensures GetDepth(b.(level := b.level + 1.0)) == GetDepth(b) + LevelDepthDifference
  {
  }

  /** `get_path`: "" for the root (level 0), else the branch's own path. */
  function GetPath(b: UiBranch): (r: string)
    ensures b.level == 0.0 ==> r == ""
    ensures b.level != 0.0 ==> |b.name| <= |r| && r[|r| - |b.name|..] == b.name
    ensures b.level != 0.0 && b.path != "" ==> |r| == |b.path| + 1 + |b.name| && r[..|b.path|] == b.path && r[|b.path|] == '/'
  {
    if b.level == 0.0 then ""
    else if b.path != "" then b.path + "/" + b.name
    else b.name
  }

  /** `is_visible`: shown only while both the branch and its parent are. */
  function IsVisible(b: UiBranch): (r: bool)
    ensures r ==> b.visible && b.parentVisible
    ensures !b.parentVisible ==> !r
  {
    b.visible && b.parentVisible
  }

  /** Every descendant's `parentVisible` with `pv` as the branch's own: the
    * recursion `cascade_set_visibility_self` performs. */
  function CascadeVisibility(b: UiBranch, pv: bool): (r: UiBranch)
    ensures r.parentVisible == pv && r.inventory.Keys == b.inventory.Keys
    ensures r == b.(parentVisible := pv, inventory := r.inventory)
    decreases b
  {
    b.(parentVisible := pv,
       inventory := map k | k in b.inventory :: CascadeVisibility(b.inventory[k], pv && b.visible))
  }

  /** `set_visibility`: the flag is set, and only if the branch's effective
    * visibility changed is it cascaded to the descendants. */
  function SetVisibility(b: UiBranch, v: bool): (r: UiBranch)
    ensures r.visible == v && r.parentVisible == b.parentVisible
    ensures IsVisible(r) == (v && b.parentVisible)
    ensures IsVisible(r) == IsVisible(b) ==> r == b.(visible := v)
    ensures r.inventory.Keys == b.inventory.Keys
    ensures forall k :: k in r.inventory ==> r.inventory[k] == CascadeVisibility(b.inventory[k], IsVisible(r)) || IsVisible(r) == IsVisible(b)
  {
    var b1 := b.(visible := v);
    if IsVisible(b1) != IsVisible(b) then
      b1.(inventory := map k | k in b1.inventory :: CascadeVisibility(b1.inventory[k], IsVisible(b1)))
    else b1
  }

  /** Every child's `parentVisible` is its parent's effective visibility, all
    * the way down. */
  ghost predicate VisibilityConsistent(b: UiBranch)
    decreases b
  {
    forall k :: k in b.inventory ==> b.inventory[k].parentVisible == IsVisible(b) && VisibilityConsistent(b.inventory[k])
  }

  lemma {:induction false} CascadeVisibilityConsistent(b: UiBranch, pv: bool)
    ensures VisibilityConsistent(CascadeVisibility(b, pv))
    decreases b
  {
    var r := CascadeVisibility(b, pv);
    forall k | k in r.inventory
      ensures r.inventory[k].parentVisible == IsVisible(r) && VisibilityConsistent(r.inventory[k])
    {
      CascadeVisibilityConsistent(b.inventory[k], pv && b.visible);
    }
  }

  /** `set_visibility` keeps every parent and child in agreement. */
  lemma {:induction false} SetVisibilityConsistent(b: UiBranch, v: bool)
    requires VisibilityConsistent(b)
    ensures VisibilityConsistent(SetVisibility(b, v))
  {
    var r := SetVisibility(b, v);
    forall k | k in r.inventory
      ensures r.inventory[k].parentVisible == IsVisible(r) && VisibilityConsistent(r.inventory[k])
    {
      if IsVisible(r) != IsVisible(b) {
        CascadeVisibilityConsistent(b.inventory[k], IsVisible(r));
      }
    }
  }

  /** `cascade_set_depth_self`: the branch and every descendant get `depth`. */
  function SetDepth(b: UiBranch, depth: real): (r: UiBranch)
    ensures r.inventory.Keys == b.inventory.Keys && r == b.(depth := depth, inventory := r.inventory)
    decreases b
  {
    b.(depth := depth, inventory := map k | k in b.inventory :: SetDepth(b.inventory[k], depth))
  }

  /** `set_depth_self_only`, which calls `cascade_set_depth`: despite its
    * name, it writes the descendants and leaves the branch itself alone. */
  function SetDepthSelfOnly(b: UiBranch, depth: real): (r: UiBranch)
    ensures r.depth == b.depth && r.inventory.Keys == b.inventory.Keys && r == b.(inventory := r.inventory)
    ensures forall k :: k in r.inventory ==> AllAtDepth(r.inventory[k], depth)
  {
    var r := b.(inventory := map k | k in b.inventory :: SetDepth(b.inventory[k], depth));
    forall k | k in r.inventory ensures AllAtDepth(r.inventory[k], depth) {
      SetDepthReachesAll(b.inventory[k], depth);
    }
    r
  }

  ghost predicate AllAtDepth(b: UiBranch, depth: real)
    decreases b
  {
    b.depth == depth && forall k :: k in b.inventory ==> AllAtDepth(b.inventory[k], depth)
  }

  lemma {:induction false} SetDepthReachesAll(b: UiBranch, depth: real)
    ensures AllAtDepth(SetDepth(b, depth), depth)
    decreases b
  {
    var r := SetDepth(b, depth);
    forall k | k in r.inventory ensures AllAtDepth(r.inventory[k], depth) {
      SetDepthReachesAll(b.inventory[k], depth);
    }
  }

  // ---------------------------------------------------------------------
  // Ids

  /** The smallest id at or above `i` that `keys` does not hold. */
  function FreeFrom(keys: set<nat>, i: nat): (r: nat)
    ensures r >= i && r !in keys
    ensures forall j :: i <= j < r ==> j in keys
    decreases |set j | j in keys && j >= i|
  {
    if i !in keys then i
    else
      AboveShrinks(keys, i);
      FreeFrom(keys, i + 1)
  }

  lemma AboveShrinks(keys: set<nat>, i: nat)
    requires i in keys
    ensures |set j | j in keys && j >= i + 1| < |set j | j in keys && j >= i|
  {
    var above := set j | j in keys && j >= i + 1;
    var from := set j | j in keys && j >= i;
    assert from == above + {i};
  }

  /** The smallest id not in use: what the id loops of `create_simple` and
    * `merge` settle on. */
  function SmallestFreeId(keys: set<nat>): (r: nat)
    ensures r !in keys && forall j: nat :: j < r ==> j in keys
  {
    FreeFrom(keys, 0)
  }

  /** No more ids than children are ever needed. */
  lemma SmallestFreeIdBound(keys: set<nat>)
    ensures SmallestFreeId(keys) <= |keys|
  {
    CoveredSize(keys, SmallestFreeId(keys));
  }

  /** A set holding every id below `r` has at least `r` elements. */
  lemma {:induction false} CoveredSize(keys: set<nat>, r: nat)
    requires forall j: nat :: j < r ==> j in keys
    ensures |keys| >= r
    decreases r
  {
    if r > 0 {
      CoveredSize(keys - {r - 1}, r - 1);
    }
  }

  /** The `loop` of `create_simple` and `merge`, counting up from 0 until an
    * id is free. */
  method NextFreeId(inventory: map<nat, UiBranch>) returns (id: nat)
    ensures id == SmallestFreeId(inventory.Keys)
  {
    id := 0;
    while id in inventory
      invariant forall j: nat :: j < id ==> j in inventory
      decreases |set j | j in inventory.Keys && j >= id|
    {
      AboveShrinks(inventory.Keys, id);
      id := id + 1;
    }
    var s := SmallestFreeId(inventory.Keys);
    assert !(id < s) && !(s < id);
  }

  /** "#" followed by the id, the path `create_simple` returns. */
  function IdPath(id: nat): string
  {
    "#" + NatToString(id)
  }

  // ---------------------------------------------------------------------
  // Creation

  /** `create_simple`: a new branch under the smallest free id, one level
    * down, inheriting the branch's effective visibility; its path names it,
    * or its id when the name is empty. Returns "#id". */
  function CreateSimple(b: UiBranch, name: string, position: C.LayoutPackage): (r: (UiBranch, string))
    ensures var id := SmallestFreeId(b.inventory.Keys);
            id !in b.inventory && r.1 == IdPath(id) && id in r.0.inventory &&
            r.0 == b.(inventory := b.inventory[id := r.0.inventory[id]]) &&
            r.0.inventory[id] == NewBranch(name, id, if name == "" then GetPath(b) + "/" + IdPath(id) else GetPath(b) + "/" + name,
                                           b.level + 1.0, IsVisible(b)).(container := BranchContainer(C.DefaultPosition, position))
  {
    var id := SmallestFreeId(b.inventory.Keys);
    var path := if name == "" then GetPath(b) + "/" + IdPath(id) else GetPath(b) + "/" + name;
    var child := NewBranch(name, id, path, b.level + 1.0, IsVisible(b));
    var child' := child.(container := child.container.(layout := position));
    (b.(inventory := b.inventory[id := child']), IdPath(id))
  }

  /** `create_linked`: an empty name makes a nameless branch; a fresh name
    * also gets a shortcut to the new "#id" and is returned; a taken name
    * creates nothing. */
  function CreateLinked(b: UiBranch, name: string, position: C.LayoutPackage): (r: (UiBranch, Result<string, LunexError>))
    ensures name == "" ==> r == (CreateSimple(b, "", position).0, Ok(CreateSimple(b, "", position).1))
    ensures name != "" && name in b.shortcuts ==> r == (b, Err(NameInUse(name)))
    ensures name != "" && name !in b.shortcuts ==>
              var c := CreateSimple(b, name, position);
              r.1 == Ok(name) && r.0 == c.0.(shortcuts := b.shortcuts[name := c.1])
  {
    if name == "" then
      var c := CreateSimple(b, "", position);
      (c.0, Ok(c.1))
    else if name !in b.shortcuts then
      var c := CreateSimple(b, name, position);
      (c.0.(shortcuts := c.0.shortcuts[name := c.1]), Ok(name))
    else (b, Err(NameInUse(name)))
  }

  /** `shortcut_add`: a taken name is refused, else the path is registered. */
  function ShortcutAdd(b: UiBranch, name: string, path: string): (r: (UiBranch, Result<(), LunexError>))
    ensures name in b.shortcuts <==> r.1.Err?
    ensures r.1.Err? ==> r == (b, Err(NameInUse(name)))
    ensures r.1.Ok? ==> r.0 == b.(shortcuts := b.shortcuts[name := path]) && TranslateSimple(r.0, name) == Ok(path)
  {
    if name in b.shortcuts then (b, Err(NameInUse(name)))
    else (b.(shortcuts := b.shortcuts[name := path]), Ok(()))
  }

  /** `translate_simple`: the path registered under a name. */
  function TranslateSimple(b: UiBranch, name: string): (r: Result<string, LunexError>)
    ensures r.Ok? <==> name in b.shortcuts
    ensures r.Ok? ==> r.value == b.shortcuts[name]
    ensures r.Err? ==> r.error == NoShortcut(name)
  {
    if name in b.shortcuts then Ok(b.shortcuts[name]) else Err(NoShortcut(name))
  }

  // ---------------------------------------------------------------------
  // Descent by ids

  /** `ids` leads from `b` down through existing children. */
  predicate Reaches(b: UiBranch, ids: seq<nat>)
    decreases |ids|
  {
    |ids| == 0 || (ids[0] in b.inventory && Reaches(b.inventory[ids[0]], ids[1..]))
  }

  function At(b: UiBranch, ids: seq<nat>): (r: UiBranch)
    requires Reaches(b, ids)
    ensures |ids| == 1 ==> r == b.inventory[ids[0]]
    decreases |ids|
  {
    if |ids| == 0 then b else At(b.inventory[ids[0]], ids[1..])
  }

  /** The branch with the descendant at `ids` replaced by `c`: the write-back
    * of a `&mut` descent. */
  function Replace(b: UiBranch, ids: seq<nat>, c: UiBranch): (r: UiBranch)
    requires Reaches(b, ids)
    ensures |ids| > 0 ==> r == b.(inventory := r.inventory) && r.inventory.Keys == b.inventory.Keys
    ensures Reaches(r, ids) && At(r, ids) == c
    decreases |ids|
  {
    if |ids| == 0 then c
    else b.(inventory := b.inventory[ids[0] := Replace(b.inventory[ids[0]], ids[1..], c)])
  }

  lemma {:induction false} ReachesAppend(b: UiBranch, a: seq<nat>, c: seq<nat>)
    requires Reaches(b, a) && Reaches(At(b, a), c)
    ensures Reaches(b, a + c) && At(b, a + c) == At(At(b, a), c)
    decreases |a|
  {
    if |a| > 0 {
      var child := b.inventory[a[0]];
      assert (a + c)[0] == a[0] && (a + c)[1..] == a[1..] + c;
      assert At(b, a) == At(child, a[1..]);
      ReachesAppend(child, a[1..], c);
      assert Reaches(child, (a + c)[1..]);
      assert At(b, a + c) == At(child, (a + c)[1..]);
    } else {
      assert a + c == c;
    }
  }

  lemma {:induction false} ReachesPrefix(b: UiBranch, a: seq<nat>, c: seq<nat>)
    requires Reaches(b, a + c)
    ensures Reaches(b, a) && Reaches(At(b, a), c) && At(b, a + c) == At(At(b, a), c)
    decreases |a|
  {
    if |a| > 0 {
      var child := b.inventory[a[0]];
      assert (a + c)[0] == a[0] && (a + c)[1..] == a[1..] + c;
      assert Reaches(child, a[1..] + c);
      ReachesPrefix(child, a[1..], c);
      assert At(b, a) == At(child, a[1..]);
      assert At(b, a + c) == At(child, (a + c)[1..]);
    } else {
      assert a + c == c;
    }
  }

  /** The number of branches in a subtree: the measure that lets a lookup
    * start again from any branch it reached. */
  ghost function Size(b: UiBranch): nat
    decreases b, 1
  {
    1 + SizeOf(b, b.inventory.Keys)
  }

  ghost function SizeOf(b: UiBranch, keys: set<nat>): nat
    requires keys <= b.inventory.Keys
    decreases b, 0, keys
  {
    if keys == {} then 0
    else var k :| k in keys; Size(b.inventory[k]) + SizeOf(b, keys - {k})
  }

  lemma {:induction false} SizeOfCovers(b: UiBranch, keys: set<nat>, k: nat)
    requires keys <= b.inventory.Keys && k in keys
    ensures Size(b.inventory[k]) <= SizeOf(b, keys)
    decreases keys
  {
    var j :| j in keys && SizeOf(b, keys) == Size(b.inventory[j]) + SizeOf(b, keys - {j});
    if j != k {
      SizeOfCovers(b, keys - {j}, k);
      assert Size(b.inventory[k]) <= SizeOf(b, keys - {j});
      assert Size(b.inventory[j]) >= 0;
    } else {
      assert keys - {j} <= b.inventory.Keys;
      assert SizeOf(b, keys - {j}) >= 0;
    }
  }

  lemma {:induction false} AtSmaller(b: UiBranch, ids: seq<nat>)
    requires Reaches(b, ids) && |ids| > 0
    ensures Size(At(b, ids)) < Size(b)
    decreases |ids|
  {
    SizeOfCovers(b, b.inventory.Keys, ids[0]);
    if |ids| > 1 {
      AtSmaller(b.inventory[ids[0]], ids[1..]);
    }
  }

  // ---------------------------------------------------------------------
  // Lookup

  /** The id a "#<id>" segment names: `str::parse::<usize>` of the text after
    * the first character (`borrow_simple`, `drop_simple`). */
  function ParseId(uid: string): (r: Result<nat, LunexError>)
    requires |uid| > 0
    ensures r.Ok? ==> ParseUsize(uid[1..]) == Some(r.value)
    ensures r.Err? ==> ParseUsize(uid[1..]).None? && r.error == InvalidId(uid[1..])
  {
    match ParseUsize(uid[1..])
    case Some(id) => Ok(id)
    case None => Err(InvalidId(uid[1..]))
  }

  /** `borrow_simple`: the child under the parsed id. */
  function BorrowSimple(b: UiBranch, uid: string): (r: Result<UiBranch, LunexError>)
    requires |uid| > 0
    ensures r.Ok? <==> ParseId(uid).Ok? && ParseId(uid).value in b.inventory
    ensures r.Ok? ==> r.value == b.inventory[ParseId(uid).value]
    ensures ParseId(uid).Ok? && r.Err? ==> r.error == NoBranch(ParseId(uid).value)
    ensures ParseId(uid).Err? ==> r.error == ParseId(uid).error
  {
    match ParseId(uid)
    case Err(e) => Err(e)
    case Ok(id) => if id in b.inventory then Ok(b.inventory[id]) else Err(NoBranch(id))
  }

  /** `borrow_linked_checked` as the ids it descends through. `hops` bounds
    * the shortcut translations made at this branch before the path leaves
    * it: a chain longer than the branch's shortcuts repeats a name, and the
    * source then never returns. */
  function Lookup(b: UiBranch, path: string, hops: nat): (r: Result<seq<nat>, LunexError>)
    ensures r.Ok? ==> |r.value| > 0 && Reaches(b, r.value)
    decreases Size(b), hops, |path|, 1
  {
    match SplitOnce(path, '/')
    case None => Segment(b, path, hops)
    case Some((seg, rest)) =>
      match Segment(b, seg, hops)
      case Err(e) => Err(e)
      case Ok(ids) =>
        AtSmaller(b, ids);
        var c := At(b, ids);
        match Lookup(c, rest, |c.shortcuts|)
        case Err(e) => Err(e)
        case Ok(more) =>
          ReachesAppend(b, ids, more);
          Ok(ids + more)
  }

  /** `borrow_simple_checked` as the ids it descends through. */
  function Segment(b: UiBranch, name: string, hops: nat): (r: Result<seq<nat>, LunexError>)
    ensures r.Ok? ==> |r.value| > 0 && Reaches(b, r.value)
    decreases Size(b), hops, |name|, 0
  {
    if name == "" then Err(InvalidPathSyntax)
    else if U.IsNumericalId(name) then
      match ParseId(name)
      case Err(e) => Err(e)
      case Ok(id) => if id in b.inventory then Ok([id]) else Err(NoBranch(id))
    else if name !in b.shortcuts then Err(NoShortcut(name))
    else if hops == 0 then Err(ShortcutLoop(name))
    else Lookup(b, b.shortcuts[name], hops - 1)
  }

  /** `borrow_simple_checked`: an empty name is a syntax error, "#<id>" is
    * looked up in the inventory, any other name through its shortcut. */
  function BorrowSimpleChecked(b: UiBranch, name: string): (r: Result<UiBranch, LunexError>)
    ensures name == "" ==> r == Err(InvalidPathSyntax)
    ensures name != "" && name[0] == '#' ==> r == BorrowSimple(b, name)
    ensures name != "" && name[0] != '#' && name !in b.shortcuts ==> r == Err(NoShortcut(name))
  {
    match Segment(b, name, |b.shortcuts|)
    case Err(e) => Err(e)
    case Ok(ids) => Ok(At(b, ids))
  }

  /** `borrow_linked_checked`: the path is split at its first '/', the head
    * is resolved here and the rest from the branch it names. */
  function BorrowLinkedChecked(b: UiBranch, path: string): (r: Result<UiBranch, LunexError>)
    ensures '/' !in path ==> r == BorrowSimpleChecked(b, path)
    ensures path == "" ==> r == Err(InvalidPathSyntax)
  {
    match Lookup(b, path, |b.shortcuts|)
    case Err(e) => Err(e)
    case Ok(ids) => Ok(At(b, ids))
  }

  predicate Resolves(b: UiBranch, path: string)
  {
    Lookup(b, path, |b.shortcuts|).Ok?
  }

  /** "#<id>" finds exactly the child under that id. */
  lemma BorrowById(b: UiBranch, id: nat)
    requires id <= UsizeMax
    ensures BorrowLinkedChecked(b, IdPath(id)) == (if id in b.inventory then Ok(b.inventory[id]) else Err(NoBranch(id)))
  {
    IdPathParses(id);
  }

  /** "#<id>" is one segment, numeric, and parses back to the id. */
  lemma IdPathParses(id: nat)
    requires id <= UsizeMax
    ensures SplitOnce(IdPath(id), '/') == None && IdPath(id) != "" && U.IsNumericalId(IdPath(id))
    ensures ParseId(IdPath(id)) == Ok(id)
  {
    ParseNatToString(id);
    assert IdPath(id)[1..] == NatToString(id);
    assert '/' !in IdPath(id);
  }

  // ---------------------------------------------------------------------
  // Removal

  /** `drop_simple`: the child under the parsed id is removed. */
  function DropSimple(b: UiBranch, uid: string): (r: Result<UiBranch, LunexError>)
    requires |uid| > 0
    ensures r.Ok? <==> BorrowSimple(b, uid).Ok?
    ensures r.Err? ==> r.error == BorrowSimple(b, uid).error
    ensures r.Ok? ==> r.value == b.(inventory := b.inventory - {ParseId(uid).value})
  {
    match ParseId(uid)
    case Err(e) => Err(e)
    case Ok(id) => if id in b.inventory then Ok(b.(inventory := b.inventory - {id})) else Err(NoBranch(id))
  }

  /** `drop_linked_checked`: the branch the path names is removed from its
    * parent; the result is the whole branch `b` after the removal. */
  function DropLinked(b: UiBranch, path: string, hops: nat): (r: Result<UiBranch, LunexError>)
    ensures r.Ok? ==> r.value == b.(inventory := r.value.inventory)
    decreases Size(b), hops, |path|, 1
  {
    match SplitOnce(path, '/')
    case None => DropSegment(b, path, hops)
    case Some((seg, rest)) =>
      match Segment(b, seg, hops)
      case Err(e) => Err(e)
      case Ok(ids) =>
        AtSmaller(b, ids);
        var c := At(b, ids);
        match DropLinked(c, rest, |c.shortcuts|)
        case Err(e) => Err(e)
        case Ok(c') => Ok(Replace(b, ids, c'))
  }

  /** `drop_simple_checked`. */
  function DropSegment(b: UiBranch, name: string, hops: nat): (r: Result<UiBranch, LunexError>)
    ensures r.Ok? ==> r.value == b.(inventory := r.value.inventory)
    decreases Size(b), hops, |name|, 0
  {
    if name == "" then Err(InvalidPathSyntax)
    else if U.IsNumericalId(name) then DropSimple(b, name)
    else if name !in b.shortcuts then Err(NoShortcut(name))
    else if hops == 0 then Err(ShortcutLoop(name))
    else DropLinked(b, b.shortcuts[name], hops - 1)
  }

  /** Dropping succeeds exactly where borrowing does, with the same error. */
  lemma {:induction false} DropLinkedLikeLookup(b: UiBranch, path: string, hops: nat)
    ensures DropLinked(b, path, hops).Ok? <==> Lookup(b, path, hops).Ok?
    ensures DropLinked(b, path, hops).Err? ==> DropLinked(b, path, hops).error == Lookup(b, path, hops).error
    decreases Size(b), hops, |path|, 1
  {
    match SplitOnce(path, '/')
    case None => DropSegmentLikeSegment(b, path, hops);
    case Some((seg, rest)) =>
      match Segment(b, seg, hops)
      case Err(e) =>
      case Ok(ids) =>
        AtSmaller(b, ids);
        var c := At(b, ids);
        DropLinkedLikeLookup(c, rest, |c.shortcuts|);
  }

  lemma {:induction false} DropSegmentLikeSegment(b: UiBranch, name: string, hops: nat)
    ensures DropSegment(b, name, hops).Ok? <==> Segment(b, name, hops).Ok?
    ensures DropSegment(b, name, hops).Err? ==> DropSegment(b, name, hops).error == Segment(b, name, hops).error
    decreases Size(b), hops, |name|, 0
  {
    if name != "" && !U.IsNumericalId(name) && name in b.shortcuts && hops > 0 {
      DropLinkedLikeLookup(b, b.shortcuts[name], hops - 1);
    }
  }

  /** After a drop the branch the lookup found is gone from its parent. */
  lemma {:induction false} DropLinkedRemovesTarget(b: UiBranch, path: string, hops: nat)
    ensures DropLinked(b, path, hops).Ok? ==>
              Lookup(b, path, hops).Ok? &&
              var ids := Lookup(b, path, hops).value;
              var r := DropLinked(b, path, hops).value;
              Reaches(r, ids[..|ids| - 1]) && ids[|ids| - 1] !in At(r, ids[..|ids| - 1]).inventory
    decreases Size(b), hops, |path|, 1
  {
    DropLinkedLikeLookup(b, path, hops);
    match SplitOnce(path, '/')
    case None => DropSegmentRemovesTarget(b, path, hops);
    case Some((seg, rest)) =>
      match Segment(b, seg, hops)
      case Err(e) =>
      case Ok(ids) =>
        AtSmaller(b, ids);
        var c := At(b, ids);
        DropLinkedRemovesTarget(c, rest, |c.shortcuts|);
        if DropLinked(c, rest, |c.shortcuts|).Ok? {
          var more := Lookup(c, rest, |c.shortcuts|).value;
          var c' := DropLinked(c, rest, |c.shortcuts|).value;
          assert Lookup(b, path, hops) == Ok(ids + more);
          assert DropLinked(b, path, hops) == Ok(Replace(b, ids, c'));
          RemovedBelow(b, ids, c', more);
        }
  }

  /** A branch missing under `c'` at `more` is missing in `b` at `ids + more`
    * once `c'` is written back at `ids`. */
  lemma RemovedBelow(b: UiBranch, ids: seq<nat>, c': UiBranch, more: seq<nat>)
    requires Reaches(b, ids) && |more| > 0
    requires Reaches(c', more[..|more| - 1]) && more[|more| - 1] !in At(c', more[..|more| - 1]).inventory
    ensures var r := Replace(b, ids, c'); var all := ids + more;
            Reaches(r, all[..|all| - 1]) && all[|all| - 1] !in At(r, all[..|all| - 1]).inventory
  {
    var r := Replace(b, ids, c');
    var all := ids + more;
    assert all[..|all| - 1] == ids + more[..|more| - 1];
    assert all[|all| - 1] == more[|more| - 1];
    ReachesAppend(r, ids, more[..|more| - 1]);
  }

  lemma {:induction false} DropSegmentRemovesTarget(b: UiBranch, name: string, hops: nat)
    ensures DropSegment(b, name, hops).Ok? ==>
              Segment(b, name, hops).Ok? &&
              var ids := Segment(b, name, hops).value;
              var r := DropSegment(b, name, hops).value;
              Reaches(r, ids[..|ids| - 1]) && ids[|ids| - 1] !in At(r, ids[..|ids| - 1]).inventory
    decreases Size(b), hops, |name|, 0
  {
    DropSegmentLikeSegment(b, name, hops);
    if name != "" && !U.IsNumericalId(name) && name in b.shortcuts && hops > 0 {
      DropLinkedRemovesTarget(b, b.shortcuts[name], hops - 1);
    }
  }

  /** `remove_simple_checked`: the named branch is dropped through its
    * shortcut, and the shortcut is removed only if the drop succeeded. */
  function RemoveSimpleChecked(b: UiBranch, name: string): (r: (UiBranch, Result<(), LunexError>))
    ensures name !in b.shortcuts ==> r == (b, Err(NoShortcut(name)))
    ensures name in b.shortcuts ==> (r.1.Ok? <==> DropLinked(b, name, |b.shortcuts|).Ok?)
    ensures r.1.Err? ==> r.0 == b
    ensures r.1.Ok? ==> r.0 == DropLinked(b, name, |b.shortcuts|).value.(shortcuts := b.shortcuts - {name})
  {
    if name in b.shortcuts then
      match DropLinked(b, name, |b.shortcuts|)
      case Ok(b') => (b'.(shortcuts := b'.shortcuts - {name}), Ok(()))
      case Err(e) => (b, Err(e))
    else (b, Err(NoShortcut(name)))
  }

  /** A plain name: not empty, no '/', not starting with '#'. */
  predicate PlainName(name: string)
  {
    name != "" && '/' !in name && name[0] != '#'
  }

  /** A branch made with `create_linked` is reached through its name. */
  lemma CreateLinkedThenBorrow(b: UiBranch, name: string, position: C.LayoutPackage)
    requires PlainName(name) && name !in b.shortcuts && |b.inventory| < UsizeMax
    ensures var r := CreateLinked(b, name, position).0;
            var id := SmallestFreeId(b.inventory.Keys);
            BorrowLinkedChecked(r, name) == Ok(r.inventory[id])
  {
    var r := CreateLinked(b, name, position).0;
    var id := SmallestFreeId(b.inventory.Keys);
    var h := |r.shortcuts|;
    SmallestFreeIdBound(b.inventory.Keys);
    IdPathParses(id);
    assert r.shortcuts[name] == IdPath(id) && h > 0;
    assert Lookup(r, IdPath(id), h - 1) == Ok([id]);
    assert SplitOnce(name, '/') == None;
    assert Lookup(r, name, h) == Segment(r, name, h) == Ok([id]);
  }

  /** Removing a branch by the name it was created under gives back the
    * branch as it was before. */
  lemma CreateLinkedThenRemove(b: UiBranch, name: string, position: C.LayoutPackage)
    requires PlainName(name) && name !in b.shortcuts && |b.inventory| < UsizeMax
    ensures RemoveSimpleChecked(CreateLinked(b, name, position).0, name) == (b, Ok(()))
  {
    var r := CreateLinked(b, name, position).0;
    var id := SmallestFreeId(b.inventory.Keys);
    var h := |r.shortcuts|;
    SmallestFreeIdBound(b.inventory.Keys);
    IdPathParses(id);
    assert r.shortcuts[name] == IdPath(id) && h > 0;
    var d := Ok(r.(inventory := r.inventory - {id}));
    assert DropSegment(r, IdPath(id), h - 1) == d;
    assert DropLinked(r, IdPath(id), h - 1) == d;
    assert SplitOnce(name, '/') == None;
    assert DropLinked(r, name, h) == DropSegment(r, name, h) == d;
    assert r.inventory == b.inventory[id := r.inventory[id]];
    AddThenRemove(b.inventory, id, r.inventory[id]);
    assert r.shortcuts == b.shortcuts[name := IdPath(id)];
    AddThenRemove(b.shortcuts, name, IdPath(id));
  }

  /** Removing a key just added gives back the map it was added to. */
  lemma AddThenRemove<K, V>(m: map<K, V>, k: K, v: V)
    requires k !in m
    ensures m[k := v] - {k} == m
  {
  }

  // ---------------------------------------------------------------------
  // Dangling shortcuts

  /** The shortcuts whose paths no longer lead to a branch. */
  ghost function Dangling(b: UiBranch): set<string>
  {
    set s | s in b.shortcuts && !Resolves(b, b.shortcuts[s])
  }

  function Elems(s: seq<string>): set<string>
  {
    set x | x in s
  }

  ghost predicate Distinct(s: seq<string>)
  {
    forall i, j :: 0 <= i < j < |s| ==> s[i] != s[j]
  }

  lemma {:induction false} DistinctSize(s: seq<string>)
    requires Distinct(s)
    ensures |Elems(s)| == |s|
  {
    if |s| > 0 {
      var t := s[..|s| - 1];
      DistinctSize(t);
      assert Elems(s) == Elems(t) + {s[|s| - 1]};
      assert s[|s| - 1] !in t;
    }
  }

  /** The first pass of `remove_invalid`: every shortcut whose path does
    * not resolve, each once. */
  method MarkDangling(b: UiBranch) returns (marked: seq<string>)
    ensures Elems(marked) == Dangling(b) && Distinct(marked)
  {
    marked := [];
    var todo := b.shortcuts.Keys;
    while todo != {}
      invariant todo <= b.shortcuts.Keys
      invariant forall s :: s in marked <==> s in Dangling(b) && s !in todo
      invariant Distinct(marked)
      decreases |todo|
    {
      var s :| s in todo;
      if !Resolves(b, b.shortcuts[s]) {
        marked := marked + [s];
      }
      todo := todo - {s};
    }
  }

  /** `remove_invalid`: the shortcuts that do not resolve are marked in one
    * pass and removed in a second; the count of those removed is returned. */
  method RemoveInvalid(b: UiBranch) returns (r: UiBranch, n: nat)
    ensures r == b.(shortcuts := b.shortcuts - Dangling(b))
    ensures n == |Dangling(b)|
  {
    var marked := MarkDangling(b);
    n := |marked|;
    DistinctSize(marked);
    r := b;
    var i := 0;
    while i < |marked|
      invariant 0 <= i <= |marked|
      invariant r == b.(shortcuts := b.shortcuts - Elems(marked[..i]))
    {
      ElemsStep(marked, i);
      MinusStep(b.shortcuts, Elems(marked[..i]), marked[i]);
      r := r.(shortcuts := r.shortcuts - {marked[i]});
      i := i + 1;
    }
    assert marked[..i] == marked;
  }

  lemma ElemsStep(xs: seq<string>, i: nat)
    requires i < |xs|
    ensures Elems(xs[..i + 1]) == Elems(xs[..i]) + {xs[i]}
  {
    assert xs[..i + 1] == xs[..i] + [xs[i]];
  }

  lemma MinusStep(m: map<string, string>, gone: set<string>, x: string)
    ensures (m - gone) - {x} == m - (gone + {x})
  {
  }

  // ---------------------------------------------------------------------
  // Merge

  /** The first segment of a shortcut's path: the id of the top branch it
    * leads into. */
  function Head(path: string): string
  {
    match SplitOnce(path, '/')
    case Some(p) => p.0
    case None => path
  }

  /** `extract_id` of the first segment. */
  function TopId(path: string): Result<nat, string>
  {
    U.ExtractId(Head(path))
  }

  /** The shortcut's path with its first segment replaced by the new id. */
  function Rewrite(path: string, id: nat): string
  {
    match SplitOnce(path, '/')
    case Some(p) => IdPath(id) + "/" + p.1
    case None => IdPath(id)
  }

  /** What `merge` needs of the incoming branch not to panic: every shortcut
    * starts with an id of an existing top branch, and no two shortcuts start
    * at the same one (each is removed from the incoming inventory). */
  ghost predicate MergeReady(other: UiBranch)
  {
    (forall s :: s in other.shortcuts ==> TopId(other.shortcuts[s]).Ok? && TopId(other.shortcuts[s]).value in other.inventory) &&
    (forall s, t :: s in other.shortcuts && t in other.shortcuts && s != t ==> TopId(other.shortcuts[s]) != TopId(other.shortcuts[t]))
  }

  /** The shortcut `s` of `other` was carried into `r`: its top branch now sits
    * under a new id that `b` did not use, and the shortcut starts there. */
  ghost predicate Moved(b: UiBranch, other: UiBranch, r: UiBranch, s: string)
  {
    s in other.shortcuts && s in r.shortcuts && TopId(other.shortcuts[s]).Ok? && TopId(other.shortcuts[s]).value in other.inventory &&
    exists id :: id !in b.inventory && id in r.inventory &&
      r.shortcuts[s] == Rewrite(other.shortcuts[s], id) &&
      r.inventory[id] == other.inventory[TopId(other.shortcuts[s]).value].(id := id)
  }

  /** What holds of `merge` part way: `r` is `b` with the shortcuts not in
    * `todo` carried over (`MergeFrame`, `MergeDone`), and `rest` still holds
    * the top branch of every shortcut in `todo` (`MergePending`). */
  ghost predicate MergeInvariant(b: UiBranch, other: UiBranch, r: UiBranch, rest: map<nat, UiBranch>, todo: set<string>)
  {
    todo <= other.shortcuts.Keys && BesidesMaps(r, b) &&
    MergeShortcuts(b, other, r, todo) && MergeInventory(b, other, r, todo) &&
    MergePending(other, rest, todo) && MergeDone(b, other, r, todo)
  }

  ghost predicate MergeShortcuts(b: UiBranch, other: UiBranch, r: UiBranch, todo: set<string>)
  {
    r.shortcuts.Keys == b.shortcuts.Keys + (other.shortcuts.Keys - todo) &&
    (forall s :: s in b.shortcuts ==> r.shortcuts[s] == b.shortcuts[s])
  }

  ghost predicate MergeInventory(b: UiBranch, other: UiBranch, r: UiBranch, todo: set<string>)
  {
    (forall id :: id in b.inventory ==> id in r.inventory && r.inventory[id] == b.inventory[id]) &&
    |r.inventory| == |b.inventory| + |other.shortcuts.Keys - todo|
  }

  /** Two branches that differ at most in their children and shortcuts. */
  predicate BesidesMaps(r: UiBranch, b: UiBranch)
  {
    r == b.(inventory := r.inventory, shortcuts := r.shortcuts)
  }

  ghost predicate MergePending(other: UiBranch, rest: map<nat, UiBranch>, todo: set<string>)
  {
    forall s :: s in todo && s in other.shortcuts ==>
      (TopId(other.shortcuts[s]).Ok? && TopId(other.shortcuts[s]).value in rest && TopId(other.shortcuts[s]).value in other.inventory &&
       rest[TopId(other.shortcuts[s]).value] == other.inventory[TopId(other.shortcuts[s]).value])
  }

  ghost predicate MergeDone(b: UiBranch, other: UiBranch, r: UiBranch, todo: set<string>)
  {
    forall s :: s in other.shortcuts && s !in todo ==> Moved(b, other, r, s)
  }

  /** One turn of the `merge` loop keeps `MergeInvariant`. */
  lemma MergeStep(b: UiBranch, other: UiBranch, r: UiBranch, rest: map<nat, UiBranch>, todo: set<string>, s: string, newId: nat)
    requires MergeReady(other) && (forall t :: t in other.shortcuts ==> t !in b.shortcuts)
    requires MergeInvariant(b, other, r, rest, todo) && s in todo
    requires newId == SmallestFreeId(r.inventory.Keys)
    ensures var path := other.shortcuts[s];
            var oldId := TopId(path).value;
            MergeInvariant(b, other,
              r.(inventory := r.inventory[newId := rest[oldId].(id := newId)], shortcuts := r.shortcuts[s := Rewrite(path, newId)]),
              rest - {oldId}, todo - {s})
  {
    var path := other.shortcuts[s];
    var oldId := TopId(path).value;
    var r' := r.(inventory := r.inventory[newId := rest[oldId].(id := newId)], shortcuts := r.shortcuts[s := Rewrite(path, newId)]);
    MergeShortcutsStep(b, other, r, todo, s, Rewrite(path, newId));
    MergeInventoryStep(b, other, r, todo, s, newId, rest[oldId].(id := newId));
    assert MergeShortcuts(b, other, r', todo - {s});
    assert MergeInventory(b, other, r', todo - {s});
    MergePendingStep(other, rest, todo, s);
    MergeDoneStep(b, other, r, r', todo, s, newId, rest[oldId]);
  }

  lemma MergeShortcutsStep(b: UiBranch, other: UiBranch, r: UiBranch, todo: set<string>, s: string, path: string)
    requires MergeShortcuts(b, other, r, todo) && todo <= other.shortcuts.Keys && s in todo && s !in b.shortcuts
    ensures MergeShortcuts(b, other, r.(shortcuts := r.shortcuts[s := path]), todo - {s})
  {
    assert other.shortcuts.Keys - (todo - {s}) == (other.shortcuts.Keys - todo) + {s};
  }

  lemma MergeInventoryStep(b: UiBranch, other: UiBranch, r: UiBranch, todo: set<string>, s: string, newId: nat, child: UiBranch)
    requires MergeInventory(b, other, r, todo) && todo <= other.shortcuts.Keys && s in todo && newId !in r.inventory
    ensures MergeInventory(b, other, r.(inventory := r.inventory[newId := child]), todo - {s})
  {
    var r' := r.(inventory := r.inventory[newId := child]);
    OneMoreDone(other.shortcuts.Keys, todo, s);
    OneMoreEntry(r.inventory, newId, child);
    forall id | id in b.inventory
      ensures id in r'.inventory && r'.inventory[id] == b.inventory[id]
    {
      assert id != newId;
    }
  }

  lemma OneMoreDone(keys: set<string>, todo: set<string>, s: string)
    requires s in todo && todo <= keys
    ensures |keys - (todo - {s})| == |keys - todo| + 1
  {
    assert keys - (todo - {s}) == (keys - todo) + {s};
  }

  lemma OneMoreEntry(m: map<nat, UiBranch>, k: nat, v: UiBranch)
    requires k !in m
    ensures |m[k := v]| == |m| + 1
  {
    assert m[k := v].Keys == m.Keys + {k};
  }

  lemma MergePendingStep(other: UiBranch, rest: map<nat, UiBranch>, todo: set<string>, s: string)
    requires MergeReady(other) && MergePending(other, rest, todo) && s in todo && s in other.shortcuts
    ensures MergePending(other, rest - {TopId(other.shortcuts[s]).value}, todo - {s})
  {
    var oldId := TopId(other.shortcuts[s]).value;
    forall t | t in todo - {s} && t in other.shortcuts
      ensures TopId(other.shortcuts[t]).value != oldId
    {
    }
  }

  lemma MergeDoneStep(b: UiBranch, other: UiBranch, r: UiBranch, r': UiBranch, todo: set<string>, s: string, newId: nat, moving: UiBranch)
    requires MergeDone(b, other, r, todo) && s in todo && s in other.shortcuts
    requires TopId(other.shortcuts[s]).Ok? && TopId(other.shortcuts[s]).value in other.inventory
    requires moving == other.inventory[TopId(other.shortcuts[s]).value]
    requires newId !in r.inventory && (forall id :: id in b.inventory ==> id in r.inventory)
    requires r' == r.(inventory := r.inventory[newId := moving.(id := newId)], shortcuts := r.shortcuts[s := Rewrite(other.shortcuts[s], newId)])
    ensures MergeDone(b, other, r', todo - {s})
  {
    assert Moved(b, other, r', s) by {
      assert newId !in b.inventory && newId in r'.inventory;
    }
    forall t | t in other.shortcuts && t !in todo
      ensures Moved(b, other, r', t)
    {
      MovedKept(b, other, r, r', t, s, newId);
    }
  }

  lemma MovedKept(b: UiBranch, other: UiBranch, r: UiBranch, r': UiBranch, t: string, s: string, newId: nat)
    requires Moved(b, other, r, t) && t != s && newId !in r.inventory && newId in r'.inventory && s in r'.shortcuts
    requires r'.inventory == r.inventory[newId := r'.inventory[newId]] && r'.shortcuts == r.shortcuts[s := r'.shortcuts[s]]
    ensures Moved(b, other, r', t)
  {
    var id :| id !in b.inventory && id in r.inventory &&
      r.shortcuts[t] == Rewrite(other.shortcuts[t], id) &&
      r.inventory[id] == other.inventory[TopId(other.shortcuts[t]).value].(id := id);
    assert id in r'.inventory && r'.inventory[id] == r.inventory[id];
  }

  /** The name check of `merge`: some incoming shortcut name that is taken,
    * if there is one. */
  method FindCollision(b: UiBranch, other: UiBranch) returns (dup: Option<string>)
    ensures dup.None? <==> forall s :: s in other.shortcuts ==> s !in b.shortcuts
    ensures dup.Some? ==> dup.value in other.shortcuts && dup.value in b.shortcuts
  {
    var todo := other.shortcuts.Keys;
    while todo != {}
      invariant todo <= other.shortcuts.Keys
      invariant forall s :: s in other.shortcuts && s !in todo ==> s !in b.shortcuts
      decreases |todo|
    {
      var s :| s in todo;
      if s in b.shortcuts {
        return Some(s);
      }
      todo := todo - {s};
    }
    return None;
  }

  /** `merge`: if any incoming shortcut name is taken, `DuplicateName` and no
    * change. Otherwise each shortcut's top branch moves to the smallest free
    * id and the shortcut is rewritten to start there; branches of the
    * incoming root without a shortcut are not carried over. */
  method MergeBranch(b: UiBranch, other: UiBranch) returns (r: UiBranch, res: Result<(), LunexError>)
    requires (forall s :: s in other.shortcuts ==> s !in b.shortcuts) ==> MergeReady(other)
    ensures res.Err? <==> exists s :: s in other.shortcuts && s in b.shortcuts
    ensures res.Err? ==> r == b && res.error.DuplicateName? && res.error.name in other.shortcuts && res.error.name in b.shortcuts
    ensures res.Ok? ==> r == b.(inventory := r.inventory, shortcuts := r.shortcuts)
    ensures res.Ok? ==> r.shortcuts.Keys == b.shortcuts.Keys + other.shortcuts.Keys
    ensures res.Ok? ==> forall s :: s in b.shortcuts ==> r.shortcuts[s] == b.shortcuts[s]
    ensures res.Ok? ==> forall id :: id in b.inventory ==> id in r.inventory && r.inventory[id] == b.inventory[id]
    ensures res.Ok? ==> |r.inventory| == |b.inventory| + |other.shortcuts|
    ensures res.Ok? ==> forall s :: s in other.shortcuts ==> Moved(b, other, r, s)
  {
    var dup := FindCollision(b, other);
    if dup.Some? {
      return b, Err(DuplicateName(dup.value));
    }
    r := b;
    var rest := other.inventory;
    var todo := other.shortcuts.Keys;
    MergeStart(b, other);
    while todo != {}
      invariant MergeInvariant(b, other, r, rest, todo)
      decreases |todo|
    {
      var s :| s in todo;
      var path := other.shortcuts[s];
      var oldId := TopId(path).value;
      var moving := rest[oldId];
      var newId := NextFreeId(r.inventory);
      MergeStep(b, other, r, rest, todo, s, newId);
      rest := rest - {oldId};
      r := r.(inventory := r.inventory[newId := moving.(id := newId)], shortcuts := r.shortcuts[s := Rewrite(path, newId)]);
      todo := todo - {s};
    }
    MergeFinish(b, other, r, rest);
    res := Ok(());
  }

  lemma MergeStart(b: UiBranch, other: UiBranch)
    requires MergeReady(other)
    ensures MergeInvariant(b, other, b, other.inventory, other.shortcuts.Keys)
  {
    assert other.shortcuts.Keys - other.shortcuts.Keys == {};
  }

  lemma MergeFinish(b: UiBranch, other: UiBranch, r: UiBranch, rest: map<nat, UiBranch>)
    requires MergeInvariant(b, other, r, rest, {})
    ensures r == b.(inventory := r.inventory, shortcuts := r.shortcuts)
    ensures r.shortcuts.Keys == b.shortcuts.Keys + other.shortcuts.Keys
    ensures forall s :: s in b.shortcuts ==> r.shortcuts[s] == b.shortcuts[s]
    ensures forall id :: id in b.inventory ==> id in r.inventory && r.inventory[id] == b.inventory[id]
    ensures |r.inventory| == |b.inventory| + |other.shortcuts|
    ensures forall s :: s in other.shortcuts ==> Moved(b, other, r, s)
  {
    assert other.shortcuts.Keys - {} == other.shortcuts.Keys;
  }

  // ---------------------------------------------------------------------
  // Layout

  /** Every container in the subtree can be calculated (no solid layout with
    * a zero dimension). */
  ghost predicate Updatable(b: UiBranch)
    decreases b
  {
    C.Calculable(b.container.layout) && forall k :: k in b.inventory ==> Updatable(b.inventory[k])
  }

  /** `cascade_update_self`: the branch's container is calculated in the
    * given box, then each child in the box just calculated. */
  function CascadeUpdate(b: UiBranch, point: Vec2, width: real, height: real): (r: UiBranch)
    requires Updatable(b)
    ensures r == b.(container := r.container, inventory := r.inventory)
    ensures r.container.layout == b.container.layout && r.inventory.Keys == b.inventory.Keys
    ensures r.container.position == C.Cache(b.container.position, C.PackageCalculate(b.container.layout, point, width, height))
    decreases b
  {
    var pos := C.Cache(b.container.position, C.PackageCalculate(b.container.layout, point, width, height));
    b.(container := b.container.(position := pos),
       inventory := map k | k in b.inventory :: CascadeUpdate(b.inventory[k], pos.point1, pos.width, pos.height))
  }

  /** Each child is laid out in its parent's freshly calculated box. */
  lemma ChildInParentBox(b: UiBranch, point: Vec2, width: real, height: real, k: nat)
    requires Updatable(b) && k in b.inventory
    ensures var r := CascadeUpdate(b, point, width, height); var p := r.container.position;
            r.inventory[k] == CascadeUpdate(b.inventory[k], p.point1, p.width, p.height) &&
            r.inventory[k].container.position == C.Cache(b.inventory[k].container.position,
              C.PackageCalculate(b.inventory[k].container.layout, p.point1, p.width, p.height))
  {
  }

  /** Updating twice in the same box changes nothing more. */
  lemma {:induction false} CascadeUpdateIdempotent(b: UiBranch, point: Vec2, width: real, height: real)
    requires Updatable(b)
    ensures Updatable(CascadeUpdate(b, point, width, height))
    ensures CascadeUpdate(CascadeUpdate(b, point, width, height), point, width, height) == CascadeUpdate(b, point, width, height)
    decreases b
  {
    var r := CascadeUpdate(b, point, width, height);
    var p := r.container.position;
    forall k | k in b.inventory
      ensures Updatable(r.inventory[k])
      ensures CascadeUpdate(r.inventory[k], p.point1, p.width, p.height) == r.inventory[k]
    {
      CascadeUpdateIdempotent(b.inventory[k], p.point1, p.width, p.height);
    }
    IdempotentFromChildren(b, point, width, height);
  }

  /** One level of `CascadeUpdateIdempotent`: once every child is settled in
    * its parent's box, so is the branch. */
  lemma IdempotentFromChildren(b: UiBranch, point: Vec2, width: real, height: real)
    requires Updatable(b)
    requires var r := CascadeUpdate(b, point, width, height); var p := r.container.position;
             forall k :: k in b.inventory ==>
               Updatable(r.inventory[k]) && CascadeUpdate(r.inventory[k], p.point1, p.width, p.height) == r.inventory[k]
    ensures Updatable(CascadeUpdate(b, point, width, height))
    ensures CascadeUpdate(CascadeUpdate(b, point, width, height), point, width, height) == CascadeUpdate(b, point, width, height)
  {
    var r := CascadeUpdate(b, point, width, height);
    assert r.inventory.Keys == b.inventory.Keys && r.container.layout == b.container.layout;
    assert Updatable(r);
    SettledContainer(b, point, width, height);
    SettledInventory(b, point, width, height);
  }

  lemma SettledContainer(b: UiBranch, point: Vec2, width: real, height: real)
    requires Updatable(b) && Updatable(CascadeUpdate(b, point, width, height))
    ensures var r := CascadeUpdate(b, point, width, height);
            CascadeUpdate(r, point, width, height).container == r.container
  {
    var r := CascadeUpdate(b, point, width, height);
    var r2 := CascadeUpdate(r, point, width, height);
    var placed := C.PackageCalculate(b.container.layout, point, width, height);
    assert r.container.position == C.Cache(b.container.position, placed);
    assert r2.container.position == C.Cache(r.container.position, placed);
  }

  lemma SettledInventory(b: UiBranch, point: Vec2, width: real, height: real)
    requires Updatable(b) && Updatable(CascadeUpdate(b, point, width, height))
    requires var r := CascadeUpdate(b, point, width, height);
             CascadeUpdate(r, point, width, height).container == r.container
    requires var r := CascadeUpdate(b, point, width, height); var p := r.container.position;
             forall k :: k in b.inventory ==>
               Updatable(r.inventory[k]) && CascadeUpdate(r.inventory[k], p.point1, p.width, p.height) == r.inventory[k]
    ensures var r := CascadeUpdate(b, point, width, height);
            CascadeUpdate(r, point, width, height).inventory == r.inventory
  {
    var r := CascadeUpdate(b, point, width, height);
    var r2 := CascadeUpdate(r, point, width, height);
    var p := r.container.position;
    assert r2.inventory.Keys == r.inventory.Keys;
    forall k | k in r.inventory
      ensures r2.inventory[k] == r.inventory[k]
    {
      assert r2.inventory[k] == CascadeUpdate(r.inventory[k], p.point1, p.width, p.height);
    }
  }

  // ---------------------------------------------------------------------
  // The tree

  class UiTree {
    var width: real
    var height: real
    var offset: Vec2
    var branch: UiBranch

    /** `UiTree::new`. */
    constructor ()
      ensures width == 0.0 && height == 0.0 && offset == Zero2 && branch == RootBranch()
    {
      width, height, offset := 0.0, 0.0, Zero2;
      branch := RootBranch();
    }

    /** `update`: the whole tree is laid out in the tree's size at the origin. */
    method Update()
      requires Updatable(branch)
      modifies this
      ensures branch == CascadeUpdate(old(branch), Zero2, width, height)
      ensures width == old(width) && height == old(height) && offset == old(offset)
    {
      branch := CascadeUpdate(branch, Zero2, width, height);
    }

    /** `merge`: the other tree's root is merged into this one's. */
    method Merge(tree: UiTree) returns (res: Result<(), LunexError>)
      requires (forall s :: s in tree.branch.shortcuts ==> s !in branch.shortcuts) ==> MergeReady(tree.branch)
      modifies this
      ensures res.Err? <==> exists s :: s in tree.branch.shortcuts && s in old(branch).shortcuts
      ensures res.Err? ==> branch == old(branch)
      ensures res.Ok? ==> branch.shortcuts.Keys == old(branch).shortcuts.Keys + old(tree.branch).shortcuts.Keys
      ensures width == old(width) && height == old(height) && offset == old(offset)
    {
      var r;
      r, res := MergeBranch(branch, tree.branch);
      branch := r;
    }
  }
}
