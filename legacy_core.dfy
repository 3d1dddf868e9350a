/** src/core/ui_core.rs: the `Branch` of the `src/core` generation. Its
  * fields, its cascades and its depth, path and visibility rules are those
  * of `UiBranch` in crates/bevy_lunex_core/src/code/tree.rs, so the branch
  * is `CoreTree.UiBranch`. What differs is the error type (`BranchError`,
  * with `AlreadyContainsPath` and `BorrowNoName`), `register_path` in place
  * of `shortcut_add`, an `append` that inserts a ready-made branch, and a
  * `merge` that only checks for name collisions. */
module LegacyCore {
  import opened Base
  import opened Strings
  import T = CoreTree
  import C = CoreContainer

  /** `BranchError`. `InvalidId` carries the text that did not parse;
    * `ShortcutLoop` names a shortcut chain that comes back to itself (the
    * source then recurses without end); `FetchError` is a widget's failed
    * lookup with the path it tried. */
  datatype BranchError =
    | DuplicateName(name: string)
    | NameInUse(name: string)
    | AlreadyContainsPath(name: string)
    | NoShortcut(name: string)
    | NoBranch(id: nat)
    | InvalidId(text: string)
    | BorrowNoName
    | ShortcutLoop(name: string)
    | FetchError(path: string, cause: BranchError)

  /** The same failure in this generation's terms: the newer generation's
    * `InvalidPathSyntax` for an empty segment is `BorrowNoName` here. */
  function FromTree(e: T.LunexError): (r: BranchError)
    ensures e.InvalidPathSyntax? <==> r.BorrowNoName?
    ensures e.NameInUse? <==> r.NameInUse?
    ensures e.NoShortcut? ==> r == NoShortcut(e.name)
    ensures e.NoBranch? ==> r == NoBranch(e.id)
    ensures e.FetchError? <==> r.FetchError?
    ensures !r.AlreadyContainsPath?
  {
    match e
    case DuplicateName(n) => DuplicateName(n)
    case NameInUse(n) => NameInUse(n)
    case NoShortcut(n) => NoShortcut(n)
    case NoBranch(id) => NoBranch(id)
    case InvalidId(s) => InvalidId(s)
    case InvalidPathSyntax => BorrowNoName
    case ShortcutLoop(n) => ShortcutLoop(n)
    case FetchError(p, c) => FetchError(p, FromTree(c))
  }

  /** A result with its error translated. */
  function Lift<X>(r: Result<X, T.LunexError>): (s: Result<X, BranchError>)
    ensures s.Ok? <==> r.Ok?
    ensures s.Ok? ==> s.value == r.value
    ensures s.Err? ==> s.error == FromTree(r.error)
  {
    match r
    case Ok(x) => Ok(x)
    case Err(e) => Err(FromTree(e))
  }

  // ---------------------------------------------------------------------
  // Creation

  /** `append`: the branch goes in under the smallest free id, found by the
    * counting loop. */
  method Append(b: T.UiBranch, child: T.UiBranch) returns (b': T.UiBranch, id: nat)
    ensures id == T.SmallestFreeId(b.inventory.Keys) && id !in b.inventory
    ensures b' == b.(inventory := b.inventory[id := child])
  {
    id := T.NextFreeId(b.inventory);
    b' := b.(inventory := b.inventory[id := child]);
  }

  /** `create_simple`: the same id loop, then the new branch one level down
    * under that id; the result is "#id". */
  method CreateSimple(b: T.UiBranch, name: string, position: C.LayoutPackage) returns (b': T.UiBranch, key: string)
    ensures (b', key) == T.CreateSimple(b, name, position)
    ensures var id := T.SmallestFreeId(b.inventory.Keys);
            key == T.IdPath(id) && b'.inventory == b.inventory[id := b'.inventory[id]] &&
            b'.inventory[id].level == b.level + 1.0 && b'.inventory[id].name == name
  {
    var id := T.NextFreeId(b.inventory);
    key := T.IdPath(id);
    var path := if name == "" then T.GetPath(b) + "/" + key else T.GetPath(b) + "/" + name;
    var child := T.NewBranch(name, id, path, b.level + 1.0, T.IsVisible(b));
    child := child.(container := child.container.(layout := position));
    b' := b.(inventory := b.inventory[id := child]);
  }

  /** `create_linked`: as in the newer generation, a taken name is
    * `NameInUse` and creates nothing. */
  function CreateLinked(b: T.UiBranch, name: string, position: C.LayoutPackage): (r: (T.UiBranch, Result<string, BranchError>))
    ensures name != "" && name in b.shortcuts ==> r == (b, Err(NameInUse(name)))
    ensures r.1.Ok? <==> T.CreateLinked(b, name, position).1.Ok?
    ensures r.1.Ok? ==> r == (T.CreateLinked(b, name, position).0, Ok(T.CreateLinked(b, name, position).1.value))
    ensures name == "" ==> r.1 == Ok(T.CreateSimple(b, "", position).1)
    ensures name != "" && name !in b.shortcuts ==> r.1 == Ok(name) && r.0.shortcuts == b.shortcuts[name := T.CreateSimple(b, name, position).1]
  {
    var c := T.CreateLinked(b, name, position);
    (c.0, Lift(c.1))
  }

  /** `register_path`: a taken name is `AlreadyContainsPath` and changes
    * nothing; otherwise the name now translates to the path. */
  function RegisterPath(b: T.UiBranch, name: string, path: string): (r: (T.UiBranch, Result<(), BranchError>))
    ensures name in b.shortcuts <==> r.1.Err?
    ensures r.1.Err? ==> r == (b, Err(AlreadyContainsPath(name)))
    ensures r.1.Ok? ==> r.0 == b.(shortcuts := b.shortcuts[name := path]) && TranslateSimple(r.0, name) == Ok(path)
  {
    if name in b.shortcuts then (b, Err(AlreadyContainsPath(name)))
    else (b.(shortcuts := b.shortcuts[name := path]), Ok(()))
  }

  /** `register_path` changes the branch exactly as the newer `shortcut_add`
    * does; only the error's name differs. */
  lemma RegisterPathIsShortcutAdd(b: T.UiBranch, name: string, path: string)
    ensures RegisterPath(b, name, path).0 == T.ShortcutAdd(b, name, path).0
    ensures RegisterPath(b, name, path).1.Ok? <==> T.ShortcutAdd(b, name, path).1.Ok?
    ensures RegisterPath(b, name, path).1.Err? ==>
              RegisterPath(b, name, path).1.error == AlreadyContainsPath(name) &&
              T.ShortcutAdd(b, name, path).1.error == T.NameInUse(name)
  {
  }

  /** `translate_simple`: the path registered under a name. */
  function TranslateSimple(b: T.UiBranch, name: string): (r: Result<string, BranchError>)
    ensures r.Ok? <==> name in b.shortcuts
    ensures r.Ok? ==> r.value == b.shortcuts[name]
    ensures r.Err? ==> r.error == NoShortcut(name)
  {
    Lift(T.TranslateSimple(b, name))
  }

  // ---------------------------------------------------------------------
  // Lookup

  /** `borrow_simple_checked`: an empty name is `BorrowNoName`, "#<id>" is
    * looked up in the inventory, any other name through its shortcut. */
  function BorrowSimpleChecked(b: T.UiBranch, name: string): (r: Result<T.UiBranch, BranchError>)
    ensures name == "" ==> r == Err(BorrowNoName)
    ensures name != "" && name[0] == '#' ==> r == Lift(T.BorrowSimple(b, name))
    ensures name != "" && name[0] != '#' && name !in b.shortcuts ==> r == Err(NoShortcut(name))
    ensures r.Ok? <==> T.BorrowSimpleChecked(b, name).Ok?
  {
    Lift(T.BorrowSimpleChecked(b, name))
  }

  /** `borrow_linked_checked`: the path's head is resolved here and the rest
    * from the branch it names. */
  function BorrowLinkedChecked(b: T.UiBranch, path: string): (r: Result<T.UiBranch, BranchError>)
    ensures '/' !in path ==> r == BorrowSimpleChecked(b, path)
    ensures r.Ok? <==> T.Resolves(b, path)
    ensures r.Ok? ==> r.value == T.At(b, T.Lookup(b, path, |b.shortcuts|).value)
  {
    Lift(T.BorrowLinkedChecked(b, path))
  }

  /** Every id `create_simple` hands out is found again by its "#id". */
  lemma CreateSimpleThenBorrow(b: T.UiBranch, name: string, position: C.LayoutPackage)
    requires |b.inventory| < UsizeMax
    ensures var c := T.CreateSimple(b, name, position);
            BorrowLinkedChecked(c.0, c.1) == Ok(c.0.inventory[T.SmallestFreeId(b.inventory.Keys)])
  {
    var id := T.SmallestFreeId(b.inventory.Keys);
    T.SmallestFreeIdBound(b.inventory.Keys);
    T.BorrowById(T.CreateSimple(b, name, position).0, id);
  }

  // ---------------------------------------------------------------------
  // Merge

  /** `merge`: every incoming shortcut name is checked and a taken one is
    * `DuplicateName`; nothing is moved, so the branch is unchanged either
    * way (there is no new branch to return). */
  method Merge(b: T.UiBranch, other: T.UiBranch) returns (r: Result<(), BranchError>)
    ensures r.Ok? <==> forall s :: s in other.shortcuts ==> s !in b.shortcuts
    ensures r.Err? ==> r.error.DuplicateName? && r.error.name in other.shortcuts && r.error.name in b.shortcuts
  {
    var dup := T.FindCollision(b, other);
    match dup {
      case Some(s) => r := Err(DuplicateName(s));
      case None => r := Ok(());
    }
  }
}
