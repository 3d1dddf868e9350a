/** The layout layer over the node tree of the lunex_engine crate
  * (crates/lunex_engine/src/core/traits.rs): a `UiNode` is a node whose data
  * is a `NodeData`, holding the layouts, the computed rectangle and the
  * user's own data; a `UiTree` is a node tree whose top-level data is a
  * `MasterData`. Creating a ui node attaches a default `NodeData` to it,
  * and the user data is swapped in and out of that `NodeData`. */
module EngineTraits {
  import opened Base
  import opened Strings
  import opened EngineNodes
  import opened EngineStructs
  import L = EngineLayout
  import P = EngineParametric

  /** `MasterData`: the user's shared data, the absolute scale and the font
    * size. */
  datatype MasterData<M> = MasterData(data: M, absScale: real, fontSize: real)

  /** A layout slot: the parametric `Div`, which the layout pass does not
    * place, or one of the placed layouts. */
  datatype NodeLayout = DivLayout(div: P.Div) | Placed(layout: L.Layout)

  /** `NodeData`: the user data, the computed rectangle, the layouts by
    * index, the two layout indices and the tween between them, a depth bias
    * and an optional font size override. */
  datatype NodeData<N> = NodeData(
    data: Option<N>,
    rectangle: Rectangle3D,
    layouts: map<nat, NodeLayout>,
    layoutIndex: (nat, nat),
    layoutTween: real,
    depthBias: real,
    fontSize: Option<real>)

  type UiNode<N> = Node<NodeData<N>>

  /** `MasterData::default()`: scale 1, font size 16. */
  function DefaultMasterData<M>(d: M): (m: MasterData<M>)
    ensures m.data == d && m.absScale == 1.0 && m.fontSize == 16.0
  {
    MasterData(d, 1.0, 16.0)
  }

  const ZeroRectangle: Rectangle3D := Rectangle3D(Vec3(0.0, 0.0, 0.0), Zero2, 0.0, 0.0, 0.0)

  /** `NodeData::default()`: no user data, a zero rectangle, the default
    * layout under index 0, both indices 0, no tween, no bias, no font
    * override. */
  function DefaultNodeData<N>(): (d: NodeData<N>)
    ensures d.data.None? && d.layouts == map[0 := Placed(L.DefaultLayout())]
    ensures d.layoutIndex == (0, 0) && d.layoutTween == 0.0 && d.depthBias == 0.0 && d.fontSize.None?
  {
    NodeData(None, ZeroRectangle, map[0 := Placed(L.DefaultLayout())], (0, 0), 0.0, 0.0, None)
  }

  // ---------------------------------------------------------------------
  // Creation

  /** `make_ui_node`: `make_node`, then a default `NodeData` inserted at the
    * returned name. The name is used as a path there, so a name holding '/'
    * leaves a child made without `NodeData` and an error. */
  function MakeUiNode<N>(n: UiNode<N>, name: string): (r: (UiNode<N>, Result<string, NodeError>))
    ensures Ordered(n) ==> Ordered(r.0)
    ensures PlainName(name) && name !in n.nodes ==>
              r.1 == Ok(name) && name in r.0.nodes
              && r.0.nodes[name] == Attach(n, name, NewNode<NodeData<N>>()).(data := Some(DefaultNodeData()))
              && r.0.nodes == n.nodes[name := r.0.nodes[name]]
    ensures name != "" && (name == "." || name in n.nodes) ==> r == (n, Err(NameInUse(if name == "." then SelfNameError else name)))
    ensures name != "" && name != "." && name !in n.nodes && '/' in name ==>
              name in r.0.nodes && r.0.nodes[name].data.None?
  {
    var (m, res) := MakeNode(n, name);
    match res
    case Err(e) => (m, Err(e))
    case Ok(k) =>
      var (m', inserted) := InsertData(m, k, DefaultNodeData());
      WriteData(m, k, Some(DefaultNodeData()));
      match inserted
      case Err(e) => (m', Err(e))
      case Ok(_) => (m', Ok(k))
  }

  /** `create_ui_node`: `insert_node` with a fresh `Node::new()`; the node
    * carrying a default `NodeData` that is built first is dropped. */
  function CreateUiNode<N>(n: UiNode<N>, path: string): (r: (UiNode<N>, Result<string, NodeError>))
    ensures PlainName(path) && path !in n.nodes ==>
              r.1 == Ok(path) && path in r.0.nodes && r.0.nodes[path].data.None? && r.0.nodes[path].nodes == map[]
  {
    var made := AddData(NewNode<NodeData<N>>(), DefaultNodeData()).0;
    InsertNode(n, path, NewNode())
  }

  /** `obtain_or_create_ui_node`: the node `make_ui_node` made, or else the
    * child already under the name. */
  function ObtainOrCreateUiNode<N>(n: UiNode<N>, name: string): (r: (UiNode<N>, Result<UiNode<N>, NodeError>))
    ensures Ordered(n) ==> Ordered(r.0)
    ensures PlainName(name) ==> r.1.Ok? && name in r.0.nodes && r.1.value == r.0.nodes[name]
    ensures PlainName(name) && name in n.nodes ==> r == (n, Ok(n.nodes[name]))
    ensures PlainName(name) && name !in n.nodes ==> r.1.value.data == Some(DefaultNodeData())
  {
    var (m, res) := MakeUiNode(n, name);
    match res
    case Ok(k) => (m, ObtainNode(m, k))
    case Err(_) => (m, ObtainNode(m, name))
  }

  /** `borrow_or_create_ui_node`: each segment of the path is obtained or
    * created in turn, each created node carrying a default `NodeData`. */
  function BorrowOrCreateUiNode<N>(n: UiNode<N>, path: string): (r: (UiNode<N>, Result<UiNode<N>, NodeError>))
    ensures PlainName(path) ==> r.1.Ok? && path in r.0.nodes && r.1.value == r.0.nodes[path]
    ensures PlainName(path) && path !in n.nodes ==> r.1.value.data == Some(DefaultNodeData())
    decreases |path|
  {
    match SplitOnce(path, '/')
    case None => ObtainOrCreateUiNode(n, path)
    case Some((name, rest)) =>
      var (m, res) := ObtainOrCreateUiNode(n, name);
      match res
      case Err(e) => (m, Err(e))
      case Ok(child) =>
        if name == "." then
          BorrowOrCreateUiNode(m, rest)
        else
          var (c, out) := BorrowOrCreateUiNode(child, rest);
          (m.(nodes := m.nodes[name := c]), out)
  }

  // ---------------------------------------------------------------------
  // User data

  /** `add_ui_data`: the user data swapped into the node's `NodeData`; a
    * node without `NodeData` panics. */
  function AddUiData<N>(n: UiNode<N>, d: N): (r: (UiNode<N>, Option<N>))
    requires n.data.Some?
    ensures r.1 == n.data.value.data
    ensures r.0 == n.(data := Some(n.data.value.(data := Some(d))))
  {
    (n.(data := Some(n.data.value.(data := Some(d)))), n.data.value.data)
  }

  /** `take_ui_data`: the user data out, `None` left behind. */
  function TakeUiData<N>(n: UiNode<N>): (r: (UiNode<N>, Option<N>))
    requires n.data.Some?
    ensures r.1 == n.data.value.data
    ensures r.0 == n.(data := Some(n.data.value.(data := None)))
  {
    (n.(data := Some(n.data.value.(data := None))), n.data.value.data)
  }

  /** `obtain_ui_data`. */
  function ObtainUiData<N>(n: UiNode<N>): (r: Option<N>)
    requires n.data.Some?
    ensures r == n.data.value.data
  {
    n.data.value.data
  }

  /** A path either fails to resolve or leads to a node with `NodeData`;
    * the recursive data operations panic otherwise. */
  predicate HasUiData<N>(n: UiNode<N>, path: string)
  {
    BorrowNode(n, path).Ok? ==> BorrowNode(n, path).value.data.Some?
  }

  /** `insert_ui_data`: `add_ui_data` on the node the path leads to. */
  function InsertUiData<N>(n: UiNode<N>, path: string, d: N): (r: (UiNode<N>, Result<Option<N>, NodeError>))
    requires HasUiData(n, path)
    ensures BorrowNode(n, path).Err? ==> r == (n, Err(BorrowNode(n, path).error))
    ensures BorrowNode(n, path).Ok? ==>
              r.1 == Ok(BorrowNode(n, path).value.data.value.data)
              && BorrowNode(r.0, path) == Ok(AddUiData(BorrowNode(n, path).value, d).0)
  {
    match BorrowNode(n, path)
    case Err(e) => (n, Err(e))
    case Ok(target) =>
      var (t, previous) := AddUiData(target, d);
      BorrowAfterWrite(n, path, t);
      (WriteAt(n, path, t), Ok(previous))
  }

  /** `remove_ui_data`: `take_ui_data` on the node the path leads to. */
  function RemoveUiData<N>(n: UiNode<N>, path: string): (r: (UiNode<N>, Result<Option<N>, NodeError>))
    requires HasUiData(n, path)
    ensures BorrowNode(n, path).Err? ==> r == (n, Err(BorrowNode(n, path).error))
    ensures BorrowNode(n, path).Ok? ==>
              r.1 == Ok(BorrowNode(n, path).value.data.value.data)
              && BorrowNode(r.0, path) == Ok(TakeUiData(BorrowNode(n, path).value).0)
  {
    match BorrowNode(n, path)
    case Err(e) => (n, Err(e))
    case Ok(target) =>
      var (t, previous) := TakeUiData(target);
      BorrowAfterWrite(n, path, t);
      (WriteAt(n, path, t), Ok(previous))
  }

  /** `borrow_ui_data`. */
  function BorrowUiData<N>(n: UiNode<N>, path: string): (r: Result<Option<N>, NodeError>)
    requires HasUiData(n, path)
    ensures r.Ok? <==> BorrowNode(n, path).Ok?
    ensures r.Ok? ==> r.value == BorrowNode(n, path).value.data.value.data
  {
    match BorrowNode(n, path)
    case Err(e) => Err(e)
    case Ok(target) => Ok(target.data.value.data)
  }

  // ---------------------------------------------------------------------
  // Trees

  /** `new2d`: a tree with default `MasterData` and a root with default
    * `NodeData`. */
  method New2d<M, N>(name: string, master: M) returns (t: NodeTree<MasterData<M>, NodeData<N>>)
    ensures fresh(t)
    ensures t.data == Some(DefaultMasterData(master))
    ensures t.node == NewNode<NodeData<N>>().(name := name, data := Some(DefaultNodeData()))
  {
    t := new NodeTree(name);
    var _ := t.AddTopdata(DefaultMasterData(master));
    var _ := t.AddData(DefaultNodeData());
  }

  /** `new3d`: as `new2d`, with the absolute scale set to 0.001. */
  method New3d<M, N>(name: string, master: M) returns (t: NodeTree<MasterData<M>, NodeData<N>>)
    ensures fresh(t)
    ensures t.data == Some(DefaultMasterData(master).(absScale := 0.001))
    ensures t.node == NewNode<NodeData<N>>().(name := name, data := Some(DefaultNodeData()))
  {
    t := new NodeTree(name);
    var _ := t.AddTopdata(DefaultMasterData(master).(absScale := 0.001));
    var _ := t.AddData(DefaultNodeData());
  }

  // ---------------------------------------------------------------------
  // Properties

  /** Taking the user data gives back what was added, and leaves none. */
  lemma AddThenTake<N>(n: UiNode<N>, d: N)
    requires n.data.Some?
    ensures var m := AddUiData(n, d).0; TakeUiData(m).1 == Some(d) && ObtainUiData(TakeUiData(m).0).None?
  {
  }

  /** Along a path the data operations agree: what `insert_ui_data` puts in,
    * `borrow_ui_data` sees and `remove_ui_data` takes out. */
  lemma InsertThenBorrowUiData<N>(n: UiNode<N>, path: string, d: N)
    requires BorrowNode(n, path).Ok? && BorrowNode(n, path).value.data.Some?
    ensures var m := InsertUiData(n, path, d).0;
            HasUiData(m, path) && BorrowUiData(m, path) == Ok(Some(d)) && RemoveUiData(m, path).1 == Ok(Some(d))
  {
  }

  /** A fresh plain name made with `make_ui_node` is then found by
    * `obtain_or_create_ui_node` without creating anything. */
  lemma MakeThenObtain<N>(n: UiNode<N>, name: string)
    requires Ordered(n) && PlainName(name) && name !in n.nodes
    ensures var m := MakeUiNode(n, name).0;
            ObtainOrCreateUiNode(m, name) == (m, Ok(m.nodes[name])) && m.nodes[name].data == Some(DefaultNodeData())
  {
  }

  lemma ObtainOrCreateUiValid<N>(n: UiNode<N>, name: string)
    requires Valid(n) && PlainName(name)
    ensures var r := ObtainOrCreateUiNode(n, name);
            Valid(r.0) && r.1.Ok? && Valid(r.1.value) && BorrowNode(r.0, name) == r.1
  {
    var (m, res) := MakeUiNode(n, name);
    assert SplitOnce(name, '/').None?;
    if name !in n.nodes {
      var made := m.nodes[name];
      assert Valid(made) by { assert Ordered(made); }
      forall k | k in m.nodes ensures Valid(m.nodes[k]) {
        if k != name {
          assert m.nodes[k] == n.nodes[k];
        }
      }
    }
  }

  /** Along a path of plain names, every missing node is created with a
    * default `NodeData`: the result is the node the path then leads to. */
  lemma {:induction false} BorrowOrCreateUiReaches<N>(n: UiNode<N>, path: string)
    requires Valid(n) && PlainPath(path)
    ensures var r := BorrowOrCreateUiNode(n, path);
            r.1.Ok? && Valid(r.0) && BorrowNode(r.0, path) == r.1
    decreases |path|
  {
    match SplitOnce(path, '/')
    case None =>
      ObtainOrCreateUiValid(n, path);
    case Some((name, rest)) =>
      ObtainOrCreateUiValid(n, name);
      var (m, res) := ObtainOrCreateUiNode(n, name);
      BorrowOrCreateUiReaches(res.value, rest);
      var (c, out) := BorrowOrCreateUiNode(res.value, rest);
      ReplaceChild(m, name, c, path, rest);
  }
}
