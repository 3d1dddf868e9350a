/** The path-addressed node tree of the lunex_engine crate
  * (crates/lunex_engine/src/nodes/structs.rs).
  *
  * A `Node` owns its children in a `HashMap`: `nodes` maps each name to its
  * child, and `order` fixes one iteration order over the names (the model
  * uses insertion order; the source's order is unspecified, and no property
  * below depends on it). Paths
  * are '/'-separated names, "." is the node itself, and the cached `name`,
  * `path` and `depth` of a child are written when it is attached. The
  * operations that take `&mut self` in the source are functions from the old
  * node to the new node and the result; `NodeTree` is the class that holds
  * the root and applies them in place. */
module EngineNodes {
  import opened Base
  import opened Strings

  datatype NodeError =
    | DuplicateName(name: string)
    | NameInUse(name: string)
    | InvalidPath(path: string)
    | NoNode(name: string)

  datatype Node<T> = Node(
    name: string, path: string, depth: real,
    data: Option<T>,
    order: seq<string>, nodes: map<string, Node<T>>)

  /** No name is listed twice. */
  ghost predicate Distinct(s: seq<string>)
  {
    forall i, j :: 0 <= i < j < |s| ==> s[i] != s[j]
  }

  /** The order lists each child exactly once. */
  ghost predicate Ordered<T>(n: Node<T>)
  {
    Distinct(n.order) && (forall k :: k in n.nodes <==> k in n.order)
  }

  /** `Node::new()`: no name, no path, depth 0, no data and no children. */
  function NewNode<T>(): (n: Node<T>)
    ensures Ordered(n) && n.nodes == map[] && n.data.None?
  {
    Node("", "", 0.0, None, [], map[])
  }

  /** The map insert: a new name goes to the end of the order, an existing one
    * keeps its place. */
  function Put<T>(n: Node<T>, k: string, child: Node<T>): (r: Node<T>)
    ensures Ordered(n) ==> Ordered(r)
    ensures r.nodes == n.nodes[k := child]
    ensures r.order == if k in n.nodes then n.order else n.order + [k]
    ensures r.name == n.name && r.path == n.path && r.depth == n.depth && r.data == n.data
  {
    n.(order := if k in n.nodes then n.order else n.order + [k], nodes := n.nodes[k := child])
  }

  /** The order without one name. */
  function Without(order: seq<string>, k: string): (r: seq<string>)
    ensures forall x :: x in r <==> x in order && x != k
    ensures |r| <= |order|
  {
    if |order| == 0 then []
    else if order[0] == k then Without(order[1..], k)
    else [order[0]] + Without(order[1..], k)
  }

  lemma WithoutDistinct(order: seq<string>, k: string)
    ensures Distinct(order) ==> Distinct(Without(order, k))
  {
    if |order| > 0 && Distinct(order) {
      WithoutDistinct(order[1..], k);
      var r := Without(order, k);
      if order[0] != k {
        assert order[0] !in order[1..];
        assert order[0] !in Without(order[1..], k);
      }
    }
  }

  lemma WithoutKeys<T>(nodes: map<string, Node<T>>, order: seq<string>, k: string)
    ensures (forall x :: x in nodes <==> x in order) ==>
            forall x :: x in nodes - {k} <==> x in Without(order, k)
  {
  }

  /** `HashMap::remove`: the name leaves the map and the order, the
    * others keep their order. */
  function Delete<T>(n: Node<T>, k: string): (r: Node<T>)
    ensures Ordered(n) ==> Ordered(r)
    ensures r.nodes == n.nodes - {k}
    ensures r.name == n.name && r.path == n.path && r.depth == n.depth && r.data == n.data
  {
    WithoutDistinct(n.order, k);
    WithoutKeys(n.nodes, n.order, k);
    n.(order := Without(n.order, k), nodes := n.nodes - {k})
  }

  /** The cached path of a child called `name`: the name itself under a node
    * with an empty path, else the node's path, '/', and the name. */
  function ChildPath(parentPath: string, name: string): (p: string)
    ensures parentPath == "" ==> p == name
    ensures parentPath != "" ==> p == parentPath + "/" + name
  {
    if parentPath == "" then name else parentPath + "/" + name
  }

  /** The child as `add_node` stores it: name, path and depth rewritten, data
    * and children kept. */
  function Attach<T>(parent: Node<T>, name: string, child: Node<T>): (c: Node<T>)
    ensures c.name == name && c.path == ChildPath(parent.path, name) && c.depth == parent.depth + 1.0
    ensures c.data == child.data && c.order == child.order && c.nodes == child.nodes
  {
    child.(name := name, path := ChildPath(parent.path, name), depth := parent.depth + 1.0)
  }

  // ---------------------------------------------------------------------
  // Generated names

  /** The `n`-th generated name, `.||#:n`. */
  function GenName(n: nat): string
  {
    ".||#:" + NatToString(n)
  }

  /** The name search of `add_node` and `make_node`, step by step as the
    * loop runs: `g` is the current candidate and `i` the counter. Note that
    * the first candidate is tried twice and that the search gives up after
    * setting the counter above 100. */
  function Search(keys: set<string>, len: nat, g: string, i: nat): (r: Result<string, NodeError>)
    requires i <= 100
    ensures r.Ok? ==> r.value !in keys
    ensures r.Err? ==> r.error.InvalidPath?
    decreases 100 - i
  {
    if g !in keys then Ok(g)
    else if i + 1 > 100 then Err(InvalidPath("Failed to generate name, max threshold reached!"))
    else Search(keys, len, Candidate(len, i), i + 1)
  }

  /** The name an empty `add_node` uses, for a node with `len` children. */
  function GeneratedName(keys: set<string>, len: nat): (r: Result<string, NodeError>)
    ensures r.Ok? ==> r.value !in keys
    ensures r.Err? ==> r.error.InvalidPath?
  {
    Search(keys, len, Candidate(len, 0), 0)
  }

  /** The `k`-th name the search tries after the first, `.||#:len+k`. */
  function Candidate(len: nat, k: nat): string
  {
    GenName(len + k)
  }

  /** The search succeeds exactly when one of the names `len` to `len + 99`
    * is free, and then it returns the first free one. */
  lemma {:induction false} SearchSpec(keys: set<string>, len: nat, g: string, i: nat)
    requires 1 <= i <= 100 && g == Candidate(len, i - 1)
    requires forall k: nat :: k < i - 1 ==> Candidate(len, k) in keys
    ensures var r := Search(keys, len, g, i);
            (r.Ok? <==> exists k: nat :: k < 100 && Candidate(len, k) !in keys)
            && (r.Ok? ==> r.value !in keys
                          && exists k: nat :: k < 100 && r.value == Candidate(len, k)
                                              && forall j: nat :: j < k ==> Candidate(len, j) in keys)
    decreases 100 - i
  {
    if g !in keys {
      assert Candidate(len, i - 1) !in keys;
    } else if i + 1 > 100 {
      assert forall k: nat :: k < 100 ==> Candidate(len, k) in keys;
    } else {
      SearchSpec(keys, len, Candidate(len, i), i + 1);
    }
  }

  lemma GeneratedNameSpec(keys: set<string>, len: nat)
    ensures var r := GeneratedName(keys, len);
            (r.Ok? <==> exists k: nat :: k < 100 && Candidate(len, k) !in keys)
            && (r.Ok? ==> r.value !in keys
                          && exists k: nat :: k < 100 && r.value == Candidate(len, k)
                                              && forall j: nat :: j < k ==> Candidate(len, j) in keys)
            && (r.Err? ==> r.error.InvalidPath?)
  {
    if Candidate(len, 0) in keys {
      SearchSpec(keys, len, Candidate(len, 0), 1);
    }
  }

  /** The generating loop of `add_node`: candidates `.||#:len`, then
    * `.||#:len+i` with the counter `i` incremented each time, giving up once
    * the counter passes 100. */
  method GenerateName(keys: set<string>, len: nat) returns (r: Result<string, NodeError>)
    ensures r == GeneratedName(keys, len)
  {
    var generated := Candidate(len, 0);
    var i := 0;
    while generated in keys
      invariant 0 <= i <= 100
      invariant Search(keys, len, generated, i) == GeneratedName(keys, len)
      decreases 100 - i
    {
      generated := Candidate(len, i);
      i := i + 1;
      if i > 100 {
        return Err(InvalidPath("Failed to generate name, max threshold reached!"));
      }
    }
    return Ok(generated);
  }

  // ---------------------------------------------------------------------
  // Adding, taking and looking up children

  const SelfNameError: string := "The special symbol '.' is used to refer to 'self' and is not available for use"

  /** `add_node`: a non-empty name other than "." that is not taken attaches
    * the child under it; an empty name attaches it under a generated name. */
  function AddNode<T>(n: Node<T>, name: string, child: Node<T>): (r: (Node<T>, Result<string, NodeError>))
    ensures Ordered(n) ==> Ordered(r.0)
    ensures r.1.Err? ==> r.0 == n
    ensures name != "" && name != "." && name !in n.nodes ==>
              r.1 == Ok(name) && r.0 == Put(n, name, Attach(n, name, child))
    ensures name != "" && (name == "." || name in n.nodes) ==> r.1.Err? && r.1.error.NameInUse?
    ensures name == "" ==> match GeneratedName(n.nodes.Keys, |n.nodes|)
                           case Ok(g) => r.1 == Ok(g) && g !in n.nodes && r.0 == Put(n, g, Attach(n, g, child))
                           case Err(e) => r.1 == Err(e)
  {
    if name != "" then
      if name == "." then (n, Err(NameInUse(SelfNameError)))
      else if name !in n.nodes then (Put(n, name, Attach(n, name, child)), Ok(name))
      else (n, Err(NameInUse(name)))
    else
      match GeneratedName(n.nodes.Keys, |n.nodes|)
      case Ok(g) => (Put(n, g, Attach(n, g, child)), Ok(g))
      case Err(e) => (n, Err(e))
  }

  /** `make_node`: `add_node` with a made `Node::new()`. */
  function MakeNode<T>(n: Node<T>, name: string): (r: (Node<T>, Result<string, NodeError>))
    ensures Ordered(n) ==> Ordered(r.0)
    ensures r.1.Ok? ==> r.1.value in r.0.nodes && r.0.nodes[r.1.value].nodes == map[]
                        && r.0.nodes[r.1.value].data.None?
    ensures r.1.Err? ==> r.0 == n
  {
    AddNode(n, name, NewNode())
  }

  /** `take_node`: the named child leaves the map and is returned. */
  function TakeNode<T>(n: Node<T>, name: string): (r: (Node<T>, Result<Node<T>, NodeError>))
    ensures Ordered(n) ==> Ordered(r.0)
    ensures name in n.nodes ==> r.1 == Ok(n.nodes[name]) && r.0.nodes == n.nodes - {name}
    ensures name !in n.nodes ==> r.1 == Err(NoNode(name)) && r.0 == n
    ensures r.0.data == n.data && r.0.path == n.path && r.0.depth == n.depth
  {
    if name in n.nodes then (Delete(n, name), Ok(n.nodes[name]))
    else (n, Err(NoNode(name)))
  }

  /** `obtain_node`: "." is the node itself, "" is not a name, and any other
    * name must be a child. */
  function ObtainNode<T>(n: Node<T>, name: string): (r: Result<Node<T>, NodeError>)
    ensures name == "." ==> r == Ok(n)
    ensures name == "" ==> r == Err(InvalidPath(""))
    ensures name != "" && name != "." ==>
              (name in n.nodes ==> r == Ok(n.nodes[name])) && (name !in n.nodes ==> r == Err(NoNode(name)))
  {
    if name != "" then
      if name == "." then Ok(n)
      else if name in n.nodes then Ok(n.nodes[name])
      else Err(NoNode(name))
    else Err(InvalidPath(name))
  }

  /** `borrow_node`: descend name by name, splitting at the first '/'. */
  function BorrowNode<T>(n: Node<T>, path: string): (r: Result<Node<T>, NodeError>)
    ensures path == "." ==> r == Ok(n)
    ensures path == "" ==> r == Err(InvalidPath(""))
    ensures r.Err? ==> r.error.InvalidPath? || r.error.NoNode?
    decreases |path|
  {
    match SplitOnce(path, '/')
    case None => ObtainNode(n, path)
    case Some((name, rest)) =>
      match ObtainNode(n, name)
      case Err(e) => Err(e)
      case Ok(child) => BorrowNode(child, rest)
  }

  /** Writing back through a `&mut` borrow: the node at `path` replaced by
    * `sub`, every node on the way keeping its place. */
  function WriteAt<T>(n: Node<T>, path: string, sub: Node<T>): (r: Node<T>)
    requires BorrowNode(n, path).Ok?
    decreases |path|
  {
    match SplitOnce(path, '/')
    case None =>
      if path == "." then sub else n.(nodes := n.nodes[path := sub])
    case Some((name, rest)) =>
      if name == "." then WriteAt(n, rest, sub)
      else n.(nodes := n.nodes[name := WriteAt(n.nodes[name], rest, sub)])
  }

  /** Writing back the node found at a path leaves the tree as it was. */
  lemma {:induction false} WriteFound<T>(n: Node<T>, path: string)
    requires BorrowNode(n, path).Ok?
    ensures WriteAt(n, path, BorrowNode(n, path).value) == n
    decreases |path|
  {
    match SplitOnce(path, '/')
    case None =>
    case Some((name, rest)) =>
      if name == "." {
        WriteFound(n, rest);
      } else {
        WriteFound(n.nodes[name], rest);
      }
  }

  /** The node written at a path is the node found there. */
  lemma {:induction false} BorrowAfterWrite<T>(n: Node<T>, path: string, sub: Node<T>)
    requires BorrowNode(n, path).Ok?
    ensures BorrowNode(WriteAt(n, path, sub), path) == Ok(sub)
    decreases |path|
  {
    match SplitOnce(path, '/')
    case None =>
    case Some((name, rest)) =>
      if name == "." {
        BorrowAfterWrite(n, rest, sub);
      } else {
        BorrowAfterWrite(n.nodes[name], rest, sub);
      }
  }

  /** Writing back keeps the order of every node on the way, so a tree whose
    * nodes are ordered stays ordered. */
  lemma {:induction false} WriteKeepsOrder<T>(n: Node<T>, path: string, sub: Node<T>)
    requires BorrowNode(n, path).Ok? && Ordered(n) && Ordered(sub)
    ensures Ordered(WriteAt(n, path, sub))
    decreases |path|
  {
    match SplitOnce(path, '/')
    case None =>
    case Some((name, rest)) =>
      if name == "." {
        WriteKeepsOrder(n, rest, sub);
      }
  }

  /** Writing back a node whose data alone changed keeps the names of the
    * top-level children, their order, and every top-level child whose name
    * holds a '/' (no path segment can name it). */
  lemma {:induction false} WriteData<T>(n: Node<T>, path: string, x: Option<T>)
    ensures BorrowNode(n, path).Ok? ==>
            var r := WriteAt(n, path, BorrowNode(n, path).value.(data := x));
            r.order == n.order && r.nodes.Keys == n.nodes.Keys && (Ordered(n) ==> Ordered(r))
            && forall k :: k in n.nodes && '/' in k ==> r.nodes[k] == n.nodes[k]
    decreases |path|
  {
    match SplitOnce(path, '/')
    case None =>
    case Some((name, rest)) =>
      if name == "." {
        WriteData(n, rest, x);
      }
  }

  // ---------------------------------------------------------------------
  // Path operations

  /** `insert_node`: the text after the last '/' names the new child of the
    * node the text before it leads to. */
  function InsertNode<T>(n: Node<T>, path: string, child: Node<T>): (r: (Node<T>, Result<string, NodeError>))
    ensures r.1.Err? ==> r.0 == n
    ensures '/' !in path && path != "" && path != "." ==> (r.1.Ok? <==> path !in n.nodes)
  {
    match RSplitOnce(path, '/')
    case None => AddNode(n, path, child)
    case Some((rest, name)) =>
      match BorrowNode(n, rest)
      case Err(e) => (n, Err(e))
      case Ok(target) =>
        var (t, res) := AddNode(target, name, child);
        if res.Err? then WriteFound(n, rest); (WriteAt(n, rest, t), res)
        else (WriteAt(n, rest, t), res)
  }

  /** `remove_node`: the text after the last '/' is taken from the node the
    * text before it leads to. */
  function RemoveNode<T>(n: Node<T>, path: string): (r: (Node<T>, Result<Node<T>, NodeError>))
    ensures r.1.Err? ==> r.0 == n
    ensures '/' !in path ==> (r.1.Ok? <==> path in n.nodes) && (r.1.Ok? ==> r.1.value == n.nodes[path])
  {
    match RSplitOnce(path, '/')
    case None => TakeNode(n, path)
    case Some((rest, name)) =>
      match BorrowNode(n, rest)
      case Err(e) => (n, Err(e))
      case Ok(target) =>
        var (t, res) := TakeNode(target, name);
        if res.Err? then WriteFound(n, rest); (WriteAt(n, rest, t), res)
        else (WriteAt(n, rest, t), res)
  }

  /** A node all of whose nodes are ordered. */
  ghost predicate Valid<T>(n: Node<T>)
    decreases n
  {
    Ordered(n) && forall k :: k in n.nodes ==> Valid(n.nodes[k])
  }

  /** Every node a path reaches in a valid tree is valid. */
  lemma {:induction false} BorrowValid<T>(n: Node<T>, path: string)
    requires Valid(n) && BorrowNode(n, path).Ok?
    ensures Valid(BorrowNode(n, path).value)
    decreases |path|
  {
    match SplitOnce(path, '/')
    case None =>
    case Some((name, rest)) =>
      if name == "." {
        BorrowValid(n, rest);
      } else {
        BorrowValid(n.nodes[name], rest);
      }
  }

  /** Writing a valid node back at a path of a valid tree keeps the tree
    * valid. */
  lemma {:induction false} WriteValid<T>(n: Node<T>, path: string, sub: Node<T>)
    requires Valid(n) && BorrowNode(n, path).Ok? && Valid(sub)
    ensures Valid(WriteAt(n, path, sub))
    decreases |path|
  {
    match SplitOnce(path, '/')
    case None =>
      if path != "." {
        SetChildValid(n, path, sub);
      }
    case Some((name, rest)) =>
      if name == "." {
        WriteValid(n, rest, sub);
      } else {
        WriteValid(n.nodes[name], rest, sub);
        SetChildValid(n, name, WriteAt(n.nodes[name], rest, sub));
      }
  }

  /** Replacing an existing child of a valid node by a valid node keeps it
    * valid. */
  lemma SetChildValid<T>(n: Node<T>, k: string, c: Node<T>)
    requires Valid(n) && k in n.nodes && Valid(c)
    ensures Valid(n.(nodes := n.nodes[k := c]))
  {
    var m := n.(nodes := n.nodes[k := c]);
    assert Ordered(m);
    forall j | j in m.nodes ensures Valid(m.nodes[j]) {
      if j != k {
        assert m.nodes[j] == n.nodes[j];
      }
    }
  }

  /** `add_node` of a valid child keeps a valid node valid, whatever the
    * name. */
  lemma AddNodeValid<T>(n: Node<T>, name: string, child: Node<T>)
    requires Valid(n) && Valid(child)
    ensures Valid(AddNode(n, name, child).0)
  {
    var r := AddNode(n, name, child).0;
    if r != n {
      var g := if name != "" then name else GeneratedName(n.nodes.Keys, |n.nodes|).value;
      var made := Attach(n, g, child);
      assert Valid(made) by {
        assert Ordered(made);
        forall j | j in made.nodes ensures Valid(made.nodes[j]) {
          assert made.nodes[j] == child.nodes[j];
        }
      }
      assert r == Put(n, g, made);
      forall j | j in r.nodes ensures Valid(r.nodes[j]) {
        if j != g {
          assert r.nodes[j] == n.nodes[j];
        }
      }
    }
  }

  /** `take_node` keeps a valid node valid. */
  lemma TakeNodeValid<T>(n: Node<T>, name: string)
    requires Valid(n)
    ensures Valid(TakeNode(n, name).0)
  {
    var r := TakeNode(n, name).0;
    forall j | j in r.nodes ensures Valid(r.nodes[j]) {
      assert r.nodes[j] == n.nodes[j];
    }
  }

  /** `insert_node` of a valid child keeps a valid tree valid. */
  lemma InsertNodeValid<T>(n: Node<T>, path: string, child: Node<T>)
    requires Valid(n) && Valid(child)
    ensures Valid(InsertNode(n, path, child).0)
  {
    match RSplitOnce(path, '/')
    case None => AddNodeValid(n, path, child);
    case Some((rest, name)) =>
      if BorrowNode(n, rest).Ok? {
        var target := BorrowNode(n, rest).value;
        BorrowValid(n, rest);
        AddNodeValid(target, name, child);
        WriteValid(n, rest, AddNode(target, name, child).0);
      }
  }

  /** `remove_node` keeps a valid tree valid. */
  lemma RemoveNodeValid<T>(n: Node<T>, path: string)
    requires Valid(n)
    ensures Valid(RemoveNode(n, path).0)
  {
    match RSplitOnce(path, '/')
    case None => TakeNodeValid(n, path);
    case Some((rest, name)) =>
      if BorrowNode(n, rest).Ok? {
        var target := BorrowNode(n, rest).value;
        BorrowValid(n, rest);
        TakeNodeValid(target, name);
        WriteValid(n, rest, TakeNode(target, name).0);
      }
  }

  /** Inserting below an existing node: an error from resolving the prefix
    * leaves the tree alone, and otherwise the node at the prefix becomes
    * what `add_node` makes of it. */
  lemma InsertNodeAtPrefix<T>(n: Node<T>, rest: string, name: string, child: Node<T>)
    requires Valid(n) && '/' !in name
    ensures BorrowNode(n, rest).Err? ==>
              InsertNode(n, rest + "/" + name, child) == (n, Err(BorrowNode(n, rest).error))
    ensures BorrowNode(n, rest).Ok? ==>
              var target, r := BorrowNode(n, rest).value, InsertNode(n, rest + "/" + name, child);
              r.1 == AddNode(target, name, child).1 && BorrowNode(r.0, rest) == Ok(AddNode(target, name, child).0)
  {
    RSplitOnceAt(rest, name, '/');
    if BorrowNode(n, rest).Ok? {
      BorrowValid(n, rest);
      var target := BorrowNode(n, rest).value;
      BorrowAfterWrite(n, rest, AddNode(target, name, child).0);
    }
  }

  // ---------------------------------------------------------------------
  // Merging and crawling

  /** The first name of `names` that `n` already has a child under. */
  function FirstCollision<T>(n: Node<T>, names: seq<string>): (r: Option<string>)
    ensures r.None? <==> forall i :: 0 <= i < |names| ==> names[i] !in n.nodes
    ensures r.Some? ==> r.value in names && r.value in n.nodes
  {
    if |names| == 0 then None
    else if names[0] in n.nodes then Some(names[0])
    else FirstCollision(n, names[1..])
  }

  /** The insertion loop of `merge`: each incoming child in turn, stopping at
    * the first error. */
  function InsertAll<T>(n: Node<T>, names: seq<string>, children: map<string, Node<T>>): (r: (Node<T>, Result<(), NodeError>))
    decreases |names|
  {
    if |names| == 0 then (n, Ok(()))
    else if names[0] !in children then InsertAll(n, names[1..], children)
    else
      var (m, res) := InsertNode(n, names[0], children[names[0]]);
      if res.Err? then (m, Err(res.error))
      else InsertAll(m, names[1..], children)
  }

  /** `merge`: any name the incoming node shares with this one is reported
    * before anything changes; otherwise every incoming child is inserted
    * under its name and the incoming data is dropped. */
  function Merge<T>(n: Node<T>, other: Node<T>): (r: (Node<T>, Result<(), NodeError>))
    ensures FirstCollision(n, other.order).Some? ==>
              r == (n, Err(DuplicateName(FirstCollision(n, other.order).value)))
  {
    match FirstCollision(n, other.order)
    case Some(name) => (n, Err(DuplicateName(name)))
    case None => InsertAll(n, other.order, other.nodes)
  }

  /** Inserting valid children one by one keeps a valid node valid. */
  lemma {:induction false} InsertAllValid<T>(n: Node<T>, names: seq<string>, children: map<string, Node<T>>)
    requires Valid(n) && forall k :: k in children ==> Valid(children[k])
    ensures Valid(InsertAll(n, names, children).0)
    decreases |names|
  {
    if |names| > 0 {
      if names[0] !in children {
        InsertAllValid(n, names[1..], children);
      } else {
        InsertNodeValid(n, names[0], children[names[0]]);
        var m := InsertNode(n, names[0], children[names[0]]).0;
        InsertAllValid(m, names[1..], children);
      }
    }
  }

  /** `merge` of a valid node keeps a valid node valid. */
  lemma MergeValid<T>(n: Node<T>, other: Node<T>)
    requires Valid(n) && Valid(other)
    ensures Valid(Merge(n, other).0)
  {
    if FirstCollision(n, other.order).None? {
      InsertAllValid(n, other.order, other.nodes);
    }
  }

  /** A plain name: not empty, not ".", and without '/'. */
  predicate PlainName(k: string)
  {
    k != "" && k != "." && '/' !in k
  }

  /** Inserting under a plain name that is free adds the child there. */
  lemma InsertPlain<T>(n: Node<T>, k: string, child: Node<T>)
    requires PlainName(k) && k !in n.nodes
    ensures InsertNode(n, k, child) == (Put(n, k, Attach(n, k, child)), Ok(k))
  {
    assert RSplitOnce(k, '/').None?;
  }

  /** `create_node`: `insert_node` with a made `Node::new()`. */
  function CreateNode<T>(n: Node<T>, path: string): (r: (Node<T>, Result<string, NodeError>))
    ensures PlainName(path) && path !in n.nodes ==>
              r.1 == Ok(path) && r.0.nodes.Keys == n.nodes.Keys + {path}
              && r.0.nodes[path].nodes == map[] && r.0.nodes[path].data.None?
  {
    if PlainName(path) && path !in n.nodes then
      InsertPlain(n, path, NewNode<T>());
      InsertNode(n, path, NewNode())
    else InsertNode(n, path, NewNode())
  }

  /** Inserting children under made plain names adds exactly those names. */
  lemma {:induction false} InsertAllAdds<T>(n: Node<T>, names: seq<string>, children: map<string, Node<T>>)
    requires Ordered(n)
    requires forall i :: 0 <= i < |names| ==> PlainName(names[i]) && names[i] !in n.nodes && names[i] in children
    requires forall i, j :: 0 <= i < j < |names| ==> names[i] != names[j]
    ensures InsertAll(n, names, children).1 == Ok(())
    ensures InsertAll(n, names, children).0.nodes.Keys == n.nodes.Keys + set i | 0 <= i < |names| :: names[i]
    ensures InsertAll(n, names, children).0.data == n.data
    decreases |names|
  {
    if |names| > 0 {
      var k := names[0];
      InsertPlain(n, k, children[k]);
      var m := Put(n, k, Attach(n, k, children[k]));
      var rest := names[1..];
      assert InsertAll(n, names, children) == InsertAll(m, rest, children);
      forall i | 0 <= i < |rest| ensures PlainName(rest[i]) && rest[i] !in m.nodes && rest[i] in children {
        assert rest[i] == names[i + 1] && names[0] != names[i + 1];
      }
      forall i, j | 0 <= i < j < |rest| ensures rest[i] != rest[j] {
        assert rest[i] == names[i + 1] && rest[j] == names[j + 1];
      }
      InsertAllAdds(m, rest, children);
      NamesOfFirstAndRest(names);
    }
  }

  /** The names of a list are its first and the names of the rest. */
  lemma NamesOfFirstAndRest(names: seq<string>)
    requires |names| > 0
    ensures (set i | 0 <= i < |names| :: names[i]) == {names[0]} + set i | 0 <= i < |names[1..]| :: names[1..][i]
  {
    var rest := names[1..];
    var all, tail := set i | 0 <= i < |names| :: names[i], set i | 0 <= i < |rest| :: rest[i];
    forall i | 0 <= i < |names| ensures names[i] in {names[0]} + tail {
      if i > 0 {
        assert rest[i - 1] == names[i];
      }
    }
    forall i | 0 <= i < |rest| ensures rest[i] in all {
      assert names[i + 1] == rest[i];
    }
  }

  /** With no collision and plain names, a merge succeeds and the node ends
    * up with its own children and all the incoming ones. */
  lemma MergeAdds<T>(n: Node<T>, other: Node<T>)
    requires Ordered(n) && Ordered(other)
    requires forall k :: k in other.nodes ==> PlainName(k) && k !in n.nodes
    ensures Merge(n, other).1 == Ok(())
    ensures Merge(n, other).0.nodes.Keys == n.nodes.Keys + other.nodes.Keys
    ensures Merge(n, other).0.data == n.data
  {
    InsertAllAdds(n, other.order, other.nodes);
    assert (set i | 0 <= i < |other.order| :: other.order[i]) == other.nodes.Keys;
  }

  /** `crawl`: every child in order, each followed by its own crawl. */
  function Crawl<T>(n: Node<T>): (r: seq<Node<T>>)
    ensures forall j :: 0 <= j < |n.order| && n.order[j] in n.nodes ==> n.nodes[n.order[j]] in r
    ensures n.nodes == map[] ==> r == []
  {
    CrawlFrom(n, 0)
  }

  function CrawlFrom<T>(n: Node<T>, i: nat): (r: seq<Node<T>>)
    ensures forall j :: i <= j < |n.order| && n.order[j] in n.nodes ==> n.nodes[n.order[j]] in r
    ensures n.nodes == map[] ==> r == []
    decreases n, |n.order| - i
  {
    if i >= |n.order| then []
    else if n.order[i] !in n.nodes then CrawlFrom(n, i + 1)
    else
      var child := n.nodes[n.order[i]];
      [child] + Crawl(child) + CrawlFrom(n, i + 1)
  }

  /** The loop of `crawl`: push each child, then append its own crawl. */
  method CrawlNodes<T>(n: Node<T>) returns (v: seq<Node<T>>)
    ensures v == Crawl(n)
    decreases n
  {
    v := [];
    var i := 0;
    while i < |n.order|
      invariant 0 <= i <= |n.order|
      invariant v + CrawlFrom(n, i) == Crawl(n)
    {
      if n.order[i] in n.nodes {
        var child := n.nodes[n.order[i]];
        var content := CrawlNodes(child);
        assert CrawlFrom(n, i) == [child] + content + CrawlFrom(n, i + 1);
        v := v + [child] + content;
      }
      i := i + 1;
    }
  }

  /** `c` holds `child` at `p`, immediately followed by the crawl of
    * `child`. */
  ghost predicate ListedAt<T>(c: seq<Node<T>>, child: Node<T>, p: nat)
  {
    p + 1 + |Crawl(child)| <= |c| && c[p] == child && c[p + 1..p + 1 + |Crawl(child)|] == Crawl(child)
  }

  /** Each child appears in the crawl, immediately followed by the whole
    * crawl of its own subtree. */
  lemma {:induction false} CrawlFromListsChildren<T>(n: Node<T>, i: nat, j: nat)
    requires i <= j < |n.order| && n.order[j] in n.nodes
    ensures exists p: nat :: ListedAt(CrawlFrom(n, i), n.nodes[n.order[j]], p)
    decreases j - i
  {
    var c := CrawlFrom(n, i);
    var child := n.nodes[n.order[j]];
    if i == j {
      assert c == [child] + Crawl(child) + CrawlFrom(n, i + 1);
      assert ListedAt(c, child, 0);
    } else {
      CrawlFromListsChildren(n, i + 1, j);
      var rest := CrawlFrom(n, i + 1);
      var p: nat :| ListedAt(rest, child, p);
      if n.order[i] in n.nodes {
        var head := [n.nodes[n.order[i]]] + Crawl(n.nodes[n.order[i]]);
        assert c == head + rest;
        var off := |head|;
        assert c[off + p] == child;
        assert c[off + p + 1..off + p + 1 + |Crawl(child)|] == rest[p + 1..p + 1 + |Crawl(child)|];
        assert ListedAt(c, child, off + p);
      } else {
        assert ListedAt(c, child, p);
      }
    }
  }

  lemma CrawlListsChildren<T>(n: Node<T>, k: string)
    requires Ordered(n) && k in n.nodes
    ensures exists p: nat :: ListedAt(Crawl(n), n.nodes[k], p)
  {
    assert k in n.order;
    var j :| 0 <= j < |n.order| && n.order[j] == k;
    CrawlFromListsChildren(n, 0, j);
    assert Crawl(n) == CrawlFrom(n, 0);
  }

  /** A node without children crawls to nothing. */
  lemma CrawlLeaf<T>(n: Node<T>)
    requires Ordered(n) && n.nodes == map[]
    ensures Crawl(n) == []
  {
    if |n.order| > 0 {
      assert n.order[0] in n.nodes;
    }
  }

  // ---------------------------------------------------------------------
  // Creating on the way

  /** `obtain_or_create_node`: `make_node` with the result ignored, then
    * `obtain_node`. */
  function ObtainOrCreateNode<T>(n: Node<T>, name: string): (r: (Node<T>, Result<Node<T>, NodeError>))
    ensures Ordered(n) ==> Ordered(r.0)
    ensures PlainName(name) ==> r.1.Ok? && name in r.0.nodes && r.1.value == r.0.nodes[name]
    ensures PlainName(name) && name in n.nodes ==> r.0 == n && r.1 == Ok(n.nodes[name])
  {
    var (m, _) := MakeNode(n, name);
    (m, ObtainNode(m, name))
  }

  /** `borrow_or_create_node`: each segment of the path is obtained or
    * created in turn. */
  function BorrowOrCreateNode<T>(n: Node<T>, path: string): (r: (Node<T>, Result<Node<T>, NodeError>))
    ensures Ordered(n) ==> Ordered(r.0)
    ensures r.0.data == n.data && n.nodes.Keys <= r.0.nodes.Keys
    decreases |path|
  {
    match SplitOnce(path, '/')
    case None => ObtainOrCreateNode(n, path)
    case Some((name, rest)) =>
      var (m, res) := ObtainOrCreateNode(n, name);
      match res
      case Err(e) => (m, Err(e))
      case Ok(child) =>
        if name == "." then
          BorrowOrCreateNode(m, rest)
        else
          var (c, out) := BorrowOrCreateNode(child, rest);
          (m.(nodes := m.nodes[name := c]), out)
  }

  /** A path of plain names. */
  predicate PlainPath(path: string)
    decreases |path|
  {
    match SplitOnce(path, '/')
    case None => PlainName(path)
    case Some((name, rest)) => PlainName(name) && PlainPath(rest)
  }

  /** Along a path of plain names, every missing node is created: the result
    * is the node the path then leads to. */
  lemma {:induction false} BorrowOrCreateReaches<T>(n: Node<T>, path: string)
    requires Valid(n) && PlainPath(path)
    ensures var r := BorrowOrCreateNode(n, path);
            r.1.Ok? && Valid(r.0) && BorrowNode(r.0, path) == r.1
    decreases |path|
  {
    match SplitOnce(path, '/')
    case None =>
      ObtainOrCreateValid(n, path);
    case Some((name, rest)) =>
      ObtainOrCreateValid(n, name);
      var (m, res) := ObtainOrCreateNode(n, name);
      BorrowOrCreateReaches(res.value, rest);
      var (c, out) := BorrowOrCreateNode(res.value, rest);
      ReplaceChild(m, name, c, path, rest);
  }

  /** Replacing a child by a valid node keeps a tree valid, and a path
    * through that child then continues in the new node. */
  lemma ReplaceChild<T>(m: Node<T>, name: string, c: Node<T>, path: string, rest: string)
    requires Valid(m) && Valid(c) && name in m.nodes && PlainName(name)
    requires SplitOnce(path, '/') == Some((name, rest))
    ensures Valid(m.(nodes := m.nodes[name := c]))
    ensures BorrowNode(m.(nodes := m.nodes[name := c]), path) == BorrowNode(c, rest)
  {
    var m' := m.(nodes := m.nodes[name := c]);
    assert ObtainNode(m', name) == Ok(c);
    assert Ordered(m');
    forall k | k in m'.nodes ensures Valid(m'.nodes[k]) {
      if k != name {
        assert m'.nodes[k] == m.nodes[k];
      }
    }
  }

  lemma ObtainOrCreateValid<T>(n: Node<T>, name: string)
    requires Valid(n) && PlainName(name)
    ensures var r := ObtainOrCreateNode(n, name);
            Valid(r.0) && r.1.Ok? && Valid(r.1.value) && BorrowNode(r.0, name) == r.1
  {
    var (m, res) := MakeNode(n, name);
    assert SplitOnce(name, '/').None?;
    if name !in n.nodes {
      var made := Attach(n, name, NewNode<T>());
      assert Valid(made) by { assert Ordered(made); }
      assert m == Put(n, name, made);
      forall k | k in m.nodes ensures Valid(m.nodes[k]) {
        if k != name {
          assert m.nodes[k] == n.nodes[k];
        }
      }
    }
  }

  // ---------------------------------------------------------------------
  // Data

  /** `add_data`: the new data in, the previous data out. */
  function AddData<T>(n: Node<T>, d: T): (r: (Node<T>, Option<T>))
    ensures r.0 == n.(data := Some(d)) && r.1 == n.data
  {
    (n.(data := Some(d)), n.data)
  }

  /** `take_data`: the data out, nothing left behind. */
  function TakeData<T>(n: Node<T>): (r: (Node<T>, Option<T>))
    ensures r.0 == n.(data := None) && r.1 == n.data
  {
    (n.(data := None), n.data)
  }

  /** `insert_data`: `add_data` on the node the path leads to. */
  function InsertData<T>(n: Node<T>, path: string, d: T): (r: (Node<T>, Result<Option<T>, NodeError>))
    ensures BorrowNode(n, path).Err? ==> r == (n, Err(BorrowNode(n, path).error))
    ensures BorrowNode(n, path).Ok? ==>
              r.1 == Ok(BorrowNode(n, path).value.data)
              && BorrowNode(r.0, path) == Ok(BorrowNode(n, path).value.(data := Some(d)))
  {
    match BorrowNode(n, path)
    case Err(e) => (n, Err(e))
    case Ok(target) =>
      BorrowAfterWrite(n, path, AddData(target, d).0);
      (WriteAt(n, path, AddData(target, d).0), Ok(target.data))
  }

  /** `remove_data`: `take_data` on the node the path leads to. */
  function RemoveData<T>(n: Node<T>, path: string): (r: (Node<T>, Result<Option<T>, NodeError>))
    ensures BorrowNode(n, path).Err? ==> r == (n, Err(BorrowNode(n, path).error))
    ensures BorrowNode(n, path).Ok? ==>
              r.1 == Ok(BorrowNode(n, path).value.data)
              && BorrowNode(r.0, path) == Ok(BorrowNode(n, path).value.(data := None))
  {
    match BorrowNode(n, path)
    case Err(e) => (n, Err(e))
    case Ok(target) =>
      BorrowAfterWrite(n, path, TakeData(target).0);
      (WriteAt(n, path, TakeData(target).0), Ok(target.data))
  }

  /** Changing the data of the node at a path keeps a valid tree valid. */
  lemma WriteDataValid<T>(n: Node<T>, path: string, x: Option<T>)
    requires Valid(n) && BorrowNode(n, path).Ok?
    ensures Valid(WriteAt(n, path, BorrowNode(n, path).value.(data := x)))
  {
    var target := BorrowNode(n, path).value;
    BorrowValid(n, path);
    assert Valid(target.(data := x)) by {
      var t := target.(data := x);
      forall j | j in t.nodes ensures Valid(t.nodes[j]) {
        assert t.nodes[j] == target.nodes[j];
      }
    }
    WriteValid(n, path, target.(data := x));
  }

  /** `insert_data` and `remove_data` keep a valid tree valid. */
  lemma DataOpsValid<T>(n: Node<T>, path: string, d: T)
    requires Valid(n)
    ensures Valid(InsertData(n, path, d).0) && Valid(RemoveData(n, path).0)
  {
    if BorrowNode(n, path).Ok? {
      WriteDataValid(n, path, Some(d));
      WriteDataValid(n, path, None);
    }
  }

  /** `borrow_data`: the data of the node the path leads to. */
  function BorrowData<T>(n: Node<T>, path: string): (r: Result<Option<T>, NodeError>)
    ensures r.Ok? <==> BorrowNode(n, path).Ok?
    ensures r.Ok? ==> r.value == BorrowNode(n, path).value.data
  {
    match BorrowNode(n, path)
    case Err(e) => Err(e)
    case Ok(target) => Ok(target.data)
  }

  /** Data inserted at a path is the data found there, and removing it gives
    * it back and leaves none. */
  lemma InsertThenBorrowData<T>(n: Node<T>, path: string, d: T)
    requires BorrowNode(n, path).Ok?
    ensures BorrowData(InsertData(n, path, d).0, path) == Ok(Some(d))
    ensures RemoveData(InsertData(n, path, d).0, path).1 == Ok(Some(d))
  {
  }

  // ---------------------------------------------------------------------
  // The tree

  /** `NodeTree`: top-level data shared by all nodes and the root node. */
  class NodeTree<D, T> {
    var data: Option<D>
    var node: Node<T>

    /** `NodeTree::new(name)`: no top-level data and a root with that name and
      * an empty path. */
    constructor (name: string)
      ensures data.None? && node == NewNode<T>().(name := name)
      ensures Inv()
    {
      data := None;
      node := NewNode<T>().(name := name);
    }

    /** The root is a valid tree: made so by the constructor and kept by the
      * operations below that state it. */
    ghost predicate Inv()
      reads this
    {
      Valid(node)
    }

    /** `add_topdata`: the new data in, the previous data out. */
    method AddTopdata(d: D) returns (previous: Option<D>)
      modifies this
      ensures data == Some(d) && previous == old(data) && node == old(node)
      ensures old(Inv()) ==> Inv()
    {
      previous := data;
      data := Some(d);
    }

    /** `take_topdata`. */
    method TakeTopdata() returns (previous: Option<D>)
      modifies this
      ensures data.None? && previous == old(data) && node == old(node)
      ensures old(Inv()) ==> Inv()
    {
      previous := data;
      data := None;
    }

    /** `add_data` on the root node. */
    method AddData(d: T) returns (previous: Option<T>)
      modifies this
      ensures node == old(node).(data := Some(d)) && previous == old(node).data && data == old(data)
      ensures old(Inv()) ==> Inv()
    {
      previous := node.data;
      node := node.(data := Some(d));
    }

    /** `add_node` on the root. */
    method AddNodeTo(name: string, child: Node<T>) returns (r: Result<string, NodeError>)
      modifies this
      ensures (node, r) == AddNode(old(node), name, child) && data == old(data)
      ensures old(Inv()) && Valid(child) ==> Inv()
    {
      if Inv() && Valid(child) {
        AddNodeValid(node, name, child);
      }
      var (n, res) := AddNode(node, name, child);
      node, r := n, res;
    }

    /** `insert_node` on the root. */
    method InsertNodeAt(path: string, child: Node<T>) returns (r: Result<string, NodeError>)
      modifies this
      ensures (node, r) == InsertNode(old(node), path, child) && data == old(data)
      ensures old(Inv()) && Valid(child) ==> Inv()
    {
      if Inv() && Valid(child) {
        InsertNodeValid(node, path, child);
      }
      var (n, res) := InsertNode(node, path, child);
      node, r := n, res;
    }

    /** `take_node` on the root. */
    method TakeNodeFrom(name: string) returns (r: Result<Node<T>, NodeError>)
      modifies this
      ensures (node, r) == TakeNode(old(node), name) && data == old(data)
      ensures old(Inv()) ==> Inv()
    {
      var (n, res) := TakeNode(node, name);
      node, r := n, res;
    }

    /** `remove_node` on the root. */
    method RemoveNodeAt(path: string) returns (r: Result<Node<T>, NodeError>)
      modifies this
      ensures (node, r) == RemoveNode(old(node), path) && data == old(data)
      ensures old(Inv()) ==> Inv()
    {
      if Inv() {
        RemoveNodeValid(node, path);
      }
      var (n, res) := RemoveNode(node, path);
      node, r := n, res;
    }

    /** `merge` into the root. */
    method MergeInto(other: Node<T>) returns (r: Result<(), NodeError>)
      modifies this
      ensures (node, r) == Merge(old(node), other) && data == old(data)
      ensures old(Inv()) && Valid(other) ==> Inv()
    {
      if Inv() && Valid(other) {
        MergeValid(node, other);
      }
      var (n, res) := Merge(node, other);
      node, r := n, res;
    }

    /** `borrow_or_create_node` on the root. */
    method BorrowOrCreate(path: string) returns (r: Result<Node<T>, NodeError>)
      modifies this
      ensures (node, r) == BorrowOrCreateNode(old(node), path) && data == old(data)
      ensures old(Inv()) && PlainPath(path) ==> Inv() && r.Ok? && BorrowNode(node, path) == r
    {
      if Inv() && PlainPath(path) {
        BorrowOrCreateReaches(node, path);
      }
      var (n, res) := BorrowOrCreateNode(node, path);
      node, r := n, res;
    }

    /** `insert_data` below the root. */
    method InsertDataAt(path: string, d: T) returns (r: Result<Option<T>, NodeError>)
      modifies this
      ensures (node, r) == InsertData(old(node), path, d) && data == old(data)
      ensures old(Inv()) ==> Inv()
    {
      if Inv() {
        DataOpsValid(node, path, d);
      }
      var (n, res) := InsertData(node, path, d);
      node, r := n, res;
    }

    /** `remove_data` below the root. */
    method RemoveDataAt(path: string) returns (r: Result<Option<T>, NodeError>)
      modifies this
      ensures (node, r) == RemoveData(old(node), path) && data == old(data)
      ensures old(Inv()) ==> Inv()
    {
      if Inv() && BorrowNode(node, path).Ok? {
        WriteDataValid(node, path, None);
      }
      var (n, res) := RemoveData(node, path);
      node, r := n, res;
    }
  }
}
