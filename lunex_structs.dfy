/** crates/bevy_lunex/src/structs.rs: the plain components of the
  * bevy_lunex crate that carry behaviour beyond their fields: the indices
  * of the six UI states, the string link from an entity to its node in a
  * `UiTree`, and the defaults of the layout controller and the text size. */
module LunexStructs {
  import opened Base
  import S = Strings
  import EngineValue

  /** The six UI state markers. */
  datatype UiState = BaseState | Hover | Clicked | Selected | Intro | Outro

  /** `UiState::INDEX` of each marker. */
  function Index(s: UiState): (k: nat)
    ensures k < 6
  {
    match s
    case BaseState => 0
    case Hover => 1
    case Clicked => 2
    case Selected => 3
    case Intro => 4
    case Outro => 5
  }

  /** The marker with a given index, if any. */
  function StateAt(k: nat): (s: Option<UiState>)
    ensures s.Some? <==> k < 6
  {
    if k == 0 then Some(BaseState)
    else if k == 1 then Some(Hover)
    else if k == 2 then Some(Clicked)
    else if k == 3 then Some(Selected)
    else if k == 4 then Some(Intro)
    else if k == 5 then Some(Outro)
    else None
  }

  /** The indices are 0 to 5, one per marker: no two markers share a slot
    * of the per-state tables the index selects. */
  lemma IndexIsBijection(s: UiState, t: UiState, k: nat)
    ensures StateAt(Index(s)) == Some(s)
    ensures k < 6 ==> Index(StateAt(k).value) == k
    ensures Index(s) == Index(t) ==> s == t
    ensures Index(BaseState) == 0
  {
    assert StateAt(Index(t)) == Some(t);
  }

  /** `UiLink`: the path of a node. */
  datatype UiLink = UiLink(path: string)

  /** `UiLink::path`: the exact string. */
  function LinkPath(path: string): (l: UiLink)
    ensures l.path == path
  {
    UiLink(path)
  }

  /** `UiLink::new` and `UiLink::default`. */
  const NewLink := UiLink("/")

  /** `UiLink::add`: a child of the linked node. */
  function Add(l: UiLink, name: string): (r: UiLink)
    ensures |r.path| == |l.path| + 1 + |name|
    ensures r.path[..|l.path|] == l.path && r.path[|l.path|] == '/' && r.path[|l.path| + 1..] == name
  {
    UiLink(l.path + "/" + name)
  }

  /** The segments of a child's path are those of its parent's and its
    * name's; for a name without '/', cutting at the last '/' gives back the
    * parent and the name. */
  lemma AddIsChild(l: UiLink, name: string)
    ensures S.Split(Add(l, name).path, '/') == S.Split(l.path, '/') + S.Split(name, '/')
    ensures '/' !in name ==> S.RSplitOnce(Add(l, name).path, '/') == Some((l.path, name)) &&
                             S.Split(Add(l, name).path, '/') == S.Split(l.path, '/') + [name]
  {
    assert l.path + "/" + name == l.path + ['/'] + name;
    S.SplitConcat(l.path, name, '/');
    if '/' !in name {
      S.RSplitOnceAt(l.path, name, '/');
      S.SplitAppendPiece(l.path, name, '/');
    }
  }

  /** Adding to the default link, whose path is "/", puts two slashes in
    * front of the name, and cutting at the last '/' gives "/" back. */
  lemma AddToNewLink(name: string)
    ensures Add(NewLink, name).path == "//" + name
    ensures '/' !in name ==> S.RSplitOnce(Add(NewLink, name).path, '/') == Some(("/", name))
  {
    AddIsChild(NewLink, name);
  }

  /** `UiLayoutController`: the two layouts tweened between, the tween and
    * its smoothing function. */
  datatype UiLayoutController = UiLayoutController(index: (nat, nat), tween: real, smoothing: real -> real)

  /** `UiLayoutController::default`: the first layout on both ends, no
    * tween, no smoothing. */
  function DefaultController(): (c: UiLayoutController)
    ensures c.index == (0, 0) && c.tween == 0.0
    ensures forall t :: c.smoothing(t) == t
  {
    UiLayoutController((0, 0), 0.0, t => t)
  }

  /** `UiValueType<f32>`: one unit and its coefficient. */
  datatype ValueType = ValueType(unit: EngineValue.Unit, value: real)

  /** `UiTextSize`. */
  datatype UiTextSize = UiTextSize(size: ValueType)

  /** `UiTextSize::default` and `new`: the text is as tall as its node,
    * one relative-height unit. */
  function NewTextSize(): (t: UiTextSize)
    ensures t.size.unit == EngineValue.Rh && t.size.value == 1.0
  {
    UiTextSize(ValueType(EngineValue.Rh, 1.0))
  }

  /** `UiTextSize::size`. */
  function WithSize(t: UiTextSize, size: ValueType): (r: UiTextSize)
    ensures r.size == size
  {
    t.(size := size)
  }
}
