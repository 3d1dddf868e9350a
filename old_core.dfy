/** src/ui_core.rs: the `Hierarchy` of the oldest generation and its
  * `Branch`. A branch keeps its children in two stores: `pernament`, a
  * vector addressed as "#p<index>" whose branches cannot be destroyed, and
  * `removable`, a map addressed as "#r<key>"; `register` maps names to
  * paths made of such addresses. Errors are the source's message strings,
  * one variant per message, carrying what the message quotes.
  *
  * As in the newer generations, a branch is a value: a descent is the
  * sequence of slots it takes (`Reaches`, `At`) and the write-back of a
  * `&mut` descent is `Replace`. */
module OldCore {
  import opened Base
  import opened Strings
  import T = CoreTree
  import L = LegacyContainer
  import OC = OldContainer

  datatype OldError =
    | KeyInUse(key: string)
    | NotInRegister(key: string)
    | NoKey
    | NoPermanent(index: nat)
    | NoRemovable(index: nat)
    | NotANumber(path: string)
    | BadStorage(c: char, path: string)
    | MissingInformation(path: string)
    | PermanentNotDestroyable
    | RemovableKeyMissing(index: nat)
    | NotRegistered(key: string)
    | ShortcutLoop(key: string)

  /** The container mounted on a branch: its layout and the position last
    * calculated from it. */
  datatype BranchContainer = BranchContainer(position: L.Position, layout: L.Layout)

  datatype Branch = Branch(
    name: string, depth: real, inFocus: bool,
    container: BranchContainer, data: Option<T.Data>,
    visible: bool, parentVisible: bool,
    permanent: seq<Branch>, removable: map<nat, Branch>, register: map<string, string>)

  /** Where a child is kept: "#p<index>" or "#r<key>". */
  datatype Slot = Permanent(index: nat) | Removable(key: nat)

  /** `Branch::new`: unnamed, visible, not in focus, at `depth`, with a new
    * container and no children. */
  function NewBranch(depth: real): (b: Branch)
    ensures b.depth == depth && b.visible && b.parentVisible && !b.inFocus && b.name == ""
    ensures b.permanent == [] && b.removable == map[] && b.register == map[] && b.data.None?
  {
    Branch("", depth, false, BranchContainer(L.DefaultPosition, OC.DefaultLayout()), None, true, true, [], map[], map[])
  }

  // ---------------------------------------------------------------------
  // Depth and visibility

  const FocusDepthAdded: real := 0.5

  /** `get_depth`: half a step higher while in focus. */
  function GetDepth(b: Branch): (r: real)
    ensures r == b.depth + (if b.inFocus then FocusDepthAdded else 0.0)
  {
    if b.inFocus then b.depth + 0.5 else b.depth
  }

  predicate IsVisible(b: Branch)
  {
    b.visible && b.parentVisible
  }

  /** `cascade_visibility`: the branch's `parent_visible` becomes `v`, and
    * every child gets the branch's new effective visibility, all the way
    * down through both stores. */
  function CascadeVisibility(b: Branch, v: bool): (r: Branch)
    ensures r.parentVisible == v && |r.permanent| == |b.permanent| && r.removable.Keys == b.removable.Keys
    ensures r == b.(parentVisible := v, permanent := r.permanent, removable := r.removable)
    decreases b
  {
    var pv := b.visible && v;
    b.(parentVisible := v,
       permanent := seq(|b.permanent|, i requires 0 <= i < |b.permanent| => CascadeVisibility(b.permanent[i], pv)),
       removable := map k | k in b.removable :: CascadeVisibility(b.removable[k], pv))
  }

  /** `set_visibility` as written: when the effective visibility changes,
    * the cascade starts at the branch itself and so overwrites its own
    * `parent_visible` with the new effective visibility. */
  function SetVisibility(b: Branch, v: bool): (r: Branch)
    ensures r.visible == v
    ensures IsVisible(b.(visible := v)) == IsVisible(b) ==> r == b.(visible := v)
    ensures IsVisible(b.(visible := v)) != IsVisible(b) ==> r == CascadeVisibility(b.(visible := v), v && b.parentVisible)
  {
    var b1 := b.(visible := v);
    if IsVisible(b1) != IsVisible(b) then CascadeVisibility(b1, IsVisible(b1)) else b1
  }

  /** The children's `parent_visible` set to `v`, all the way down: what
    * the cascade does below the branch. */
  function CascadeChildren(b: Branch, v: bool): (r: Branch)
    ensures |r.permanent| == |b.permanent| && r.removable.Keys == b.removable.Keys
    ensures r == b.(permanent := r.permanent, removable := r.removable)
  {
    b.(permanent := seq(|b.permanent|, i requires 0 <= i < |b.permanent| => CascadeVisibility(b.permanent[i], v)),
       removable := map k | k in b.removable :: CascadeVisibility(b.removable[k], v))
  }

  /** `set_visibility` as the newer generations have it: the branch's own
    * `parent_visible` is left alone and only its children are told. */
  function SetVisibilityCorrected(b: Branch, v: bool): (r: Branch)
    ensures r.visible == v && r.parentVisible == b.parentVisible
    ensures IsVisible(r) == (v && b.parentVisible)
    ensures IsVisible(r) == IsVisible(b) ==> r == b.(visible := v)
  {
    var b1 := b.(visible := v);
    if IsVisible(b1) != IsVisible(b) then CascadeChildren(b1, IsVisible(b1)) else b1
  }

  /** Every child's `parent_visible` is its parent's effective visibility,
    * all the way down. */
  ghost predicate VisibilityConsistent(b: Branch)
    decreases b
  {
    (forall i :: 0 <= i < |b.permanent| ==> b.permanent[i].parentVisible == IsVisible(b) && VisibilityConsistent(b.permanent[i])) &&
    (forall k :: k in b.removable ==> b.removable[k].parentVisible == IsVisible(b) && VisibilityConsistent(b.removable[k]))
  }

  lemma {:induction false} CascadeVisibilityConsistent(b: Branch, v: bool)
    ensures VisibilityConsistent(CascadeVisibility(b, v))
    decreases b
  {
    var r := CascadeVisibility(b, v);
    forall i | 0 <= i < |r.permanent|
      ensures r.permanent[i].parentVisible == IsVisible(r) && VisibilityConsistent(r.permanent[i])
    {
      CascadeVisibilityConsistent(b.permanent[i], b.visible && v);
    }
    forall k | k in r.removable
      ensures r.removable[k].parentVisible == IsVisible(r) && VisibilityConsistent(r.removable[k])
    {
      CascadeVisibilityConsistent(b.removable[k], b.visible && v);
    }
  }

  /** The corrected `set_visibility` keeps every parent and child in
    * agreement. */
  lemma SetVisibilityCorrectedConsistent(b: Branch, v: bool)
    requires VisibilityConsistent(b)
    ensures VisibilityConsistent(SetVisibilityCorrected(b, v))
  {
    var r := SetVisibilityCorrected(b, v);
    if IsVisible(r) != IsVisible(b) {
      forall i | 0 <= i < |r.permanent|
        ensures r.permanent[i].parentVisible == IsVisible(r) && VisibilityConsistent(r.permanent[i])
      {
        CascadeVisibilityConsistent(b.permanent[i], IsVisible(r));
      }
      forall k | k in r.removable
        ensures r.removable[k].parentVisible == IsVisible(r) && VisibilityConsistent(r.removable[k])
      {
        CascadeVisibilityConsistent(b.removable[k], IsVisible(r));
      }
    }
  }

  /** With the correction, hiding and then showing a branch makes it as
    * visible as its parent allows again. */
  lemma HideThenShowCorrected(b: Branch)
    ensures IsVisible(SetVisibilityCorrected(SetVisibilityCorrected(b, false), true)) == b.parentVisible
  {
  }

  /** As written, a branch once hidden cannot be shown again: hiding it
    * cleared its own `parent_visible`, so showing it changes no effective
    * visibility and cascades nothing. */
  lemma HideThenShowCounterexample()
    ensures IsVisible(NewBranch(0.0))
    ensures !IsVisible(SetVisibility(SetVisibility(NewBranch(0.0), false), true))
    ensures IsVisible(SetVisibilityCorrected(SetVisibilityCorrected(NewBranch(0.0), false), true))
  {
    var b := NewBranch(0.0);
    var h := SetVisibility(b, false);
    assert h == CascadeVisibility(b.(visible := false), false);
    assert !h.parentVisible;
  }

  // ---------------------------------------------------------------------
  // Slots and descent

  predicate Has(b: Branch, s: Slot)
  {
    match s
    case Permanent(i) => i < |b.permanent|
    case Removable(k) => k in b.removable
  }

  function Child(b: Branch, s: Slot): Branch
    requires Has(b, s)
  {
    match s
    case Permanent(i) => b.permanent[i]
    case Removable(k) => b.removable[k]
  }

  function SetChild(b: Branch, s: Slot, c: Branch): (r: Branch)
    requires Has(b, s)
    ensures Has(r, s) && Child(r, s) == c
    ensures |r.permanent| == |b.permanent| && r.removable.Keys == b.removable.Keys
    ensures r == b.(permanent := r.permanent, removable := r.removable)
  {
    match s
    case Permanent(i) => b.(permanent := b.permanent[i := c])
    case Removable(k) => b.(removable := b.removable[k := c])
  }

  /** The address of a slot: "#p<index>" or "#r<key>". */
  function SlotPath(s: Slot): string
  {
    match s
    case Permanent(i) => "#p" + NatToString(i)
    case Removable(k) => "#r" + NatToString(k)
  }

  predicate Reaches(b: Branch, ids: seq<Slot>)
    decreases |ids|
  {
    |ids| == 0 || (Has(b, ids[0]) && Reaches(Child(b, ids[0]), ids[1..]))
  }

  function At(b: Branch, ids: seq<Slot>): Branch
    requires Reaches(b, ids)
    decreases |ids|
  {
    if |ids| == 0 then b else At(Child(b, ids[0]), ids[1..])
  }

  /** The branch with the descendant at `ids` replaced by `c`. */
  function Replace(b: Branch, ids: seq<Slot>, c: Branch): (r: Branch)
    requires Reaches(b, ids)
    ensures |ids| > 0 ==> r == b.(permanent := r.permanent, removable := r.removable)
    ensures Reaches(r, ids) && At(r, ids) == c
    decreases |ids|
  {
    if |ids| == 0 then c
    else SetChild(b, ids[0], Replace(Child(b, ids[0]), ids[1..], c))
  }

  lemma {:induction false} ReachesAppend(b: Branch, a: seq<Slot>, c: seq<Slot>)
    requires Reaches(b, a) && Reaches(At(b, a), c)
    ensures Reaches(b, a + c) && At(b, a + c) == At(At(b, a), c)
    decreases |a|
  {
    if |a| > 0 {
      assert (a + c)[0] == a[0] && (a + c)[1..] == a[1..] + c;
      ReachesAppend(Child(b, a[0]), a[1..], c);
    } else {
      assert a + c == c;
    }
  }

  /** The number of branches in a subtree: the measure that lets a lookup
    * start again from any branch it reached. */
  ghost function Size(b: Branch): nat
    decreases b, 2
  {
    1 + PermanentSize(b, |b.permanent|) + RemovableSize(b, b.removable.Keys)
  }

  ghost function PermanentSize(b: Branch, n: nat): nat
    requires n <= |b.permanent|
    decreases b, 1, n
  {
    if n == 0 then 0 else Size(b.permanent[n - 1]) + PermanentSize(b, n - 1)
  }

  ghost function RemovableSize(b: Branch, keys: set<nat>): nat
    requires keys <= b.removable.Keys
    decreases b, 0, keys
  {
    if keys == {} then 0
    else var k :| k in keys; Size(b.removable[k]) + RemovableSize(b, keys - {k})
  }

  lemma {:induction false} PermanentSizeCovers(b: Branch, n: nat, i: nat)
    requires i < n <= |b.permanent|
    ensures Size(b.permanent[i]) <= PermanentSize(b, n)
    decreases n
  {
    if i < n - 1 {
      PermanentSizeCovers(b, n - 1, i);
    }
  }

  lemma {:induction false} RemovableSizeCovers(b: Branch, keys: set<nat>, k: nat)
    requires keys <= b.removable.Keys && k in keys
    ensures Size(b.removable[k]) <= RemovableSize(b, keys)
    decreases keys
  {
    var j :| j in keys && RemovableSize(b, keys) == Size(b.removable[j]) + RemovableSize(b, keys - {j});
    if j != k {
      RemovableSizeCovers(b, keys - {j}, k);
      assert Size(b.removable[k]) <= RemovableSize(b, keys - {j});
      assert Size(b.removable[j]) >= 0;
    } else {
      assert keys - {j} <= b.removable.Keys;
      assert RemovableSize(b, keys - {j}) >= 0;
    }
  }

  lemma ChildSmaller(b: Branch, s: Slot)
    requires Has(b, s)
    ensures Size(Child(b, s)) < Size(b)
  {
    match s
    case Permanent(i) => PermanentSizeCovers(b, |b.permanent|, i);
    case Removable(k) => RemovableSizeCovers(b, b.removable.Keys, k);
  }

  lemma {:induction false} AtSmaller(b: Branch, ids: seq<Slot>)
    requires Reaches(b, ids) && |ids| > 0
    ensures Size(At(b, ids)) < Size(b)
    decreases |ids|
  {
    ChildSmaller(b, ids[0]);
    if |ids| > 1 {
      AtSmaller(Child(b, ids[0]), ids[1..]);
    }
  }

  // ---------------------------------------------------------------------
  // Creation and the register

  /** The counting loop of `create_simple`: the smallest key the removable
    * store does not use. */
  method NextFreeKey(removable: map<nat, Branch>) returns (key: nat)
    ensures key == T.SmallestFreeId(removable.Keys)
  {
    key := 0;
    while key in removable
      invariant forall j: nat :: j < key ==> j in removable
      decreases |set j | j in removable.Keys && j >= key|
    {
      T.AboveShrinks(removable.Keys, key);
      key := key + 1;
    }
    var s := T.SmallestFreeId(removable.Keys);
    assert !(key < s) && !(s < key);
  }

  /** `create_simple`: a new branch one step deeper, pushed onto the
    * permanent store as "#p<length>" or put in the removable store under
    * the smallest free key as "#r<key>". */
  function CreateSimple(b: Branch, removable: bool, position: L.Layout): (r: (Branch, string))
    ensures var child := NewBranch(b.depth + 1.0).(container := BranchContainer(L.DefaultPosition, position));
            (!removable ==> r == (b.(permanent := b.permanent + [child]), SlotPath(Permanent(|b.permanent|)))) &&
            (removable ==> var k := T.SmallestFreeId(b.removable.Keys);
                           k !in b.removable && r == (b.(removable := b.removable[k := child]), SlotPath(Removable(k))))
  {
    var child := NewBranch(b.depth + 1.0);
    var child' := child.(container := child.container.(layout := position));
    if !removable then
      (b.(permanent := b.permanent + [child']), "#p" + NatToString(|b.permanent|))
    else
      var k := T.SmallestFreeId(b.removable.Keys);
      (b.(removable := b.removable[k := child']), "#r" + NatToString(k))
  }

  method CreateSimpleLoop(b: Branch, removable: bool, position: L.Layout) returns (b': Branch, path: string)
    ensures (b', path) == CreateSimple(b, removable, position)
  {
    var child := NewBranch(b.depth + 1.0);
    child := child.(container := child.container.(layout := position));
    if !removable {
      b', path := b.(permanent := b.permanent + [child]), "#p" + NatToString(|b.permanent|);
    } else {
      var k := NextFreeKey(b.removable);
      b', path := b.(removable := b.removable[k := child]), "#r" + NatToString(k);
    }
  }

  /** `register_path`: the key is (over)written. */
  function RegisterPath(b: Branch, key: string, path: string): (r: Branch)
    ensures r.register == b.register[key := path] && r == b.(register := r.register)
  {
    b.(register := b.register[key := path])
  }

  /** `create_simple_checked`: an empty key makes a permanent branch; a
    * taken key is refused with nothing created; any other key makes a
    * removable branch registered under the key, which is returned. */
  function CreateSimpleChecked(b: Branch, key: string, position: L.Layout): (r: (Branch, Result<string, OldError>))
    ensures key == "" ==> r == (CreateSimple(b, false, position).0, Ok(CreateSimple(b, false, position).1))
    ensures key != "" && key in b.register ==> r == (b, Err(KeyInUse(key)))
    ensures key != "" && key !in b.register ==>
              var c := CreateSimple(b, true, position);
              r == (c.0.(register := b.register[key := c.1]), Ok(key))
  {
    if key == "" then
      var c := CreateSimple(b, false, position);
      (c.0, Ok(c.1))
    else if key !in b.register then
      var c := CreateSimple(b, true, position);
      (RegisterPath(c.0, key, c.1), Ok(key))
    else (b, Err(KeyInUse(key)))
  }

  /** `translate_simple`: the path registered under the key. */
  function TranslateSimple(b: Branch, key: string): (r: Result<string, OldError>)
    ensures r.Ok? <==> key in b.register
    ensures r.Ok? ==> r.value == b.register[key]
    ensures r.Err? ==> r.error == NotInRegister(key)
  {
    if key in b.register then Ok(b.register[key]) else Err(NotInRegister(key))
  }

  /** `translate_simple_checked`: an address is returned as it is, a name
    * is translated, and an empty key is refused. */
  function TranslateSimpleChecked(b: Branch, key: string): (r: Result<string, OldError>)
    ensures key == "" ==> r == Err(NoKey)
    ensures key != "" && key[0] == '#' ==> r == Ok(key)
    ensures key != "" && key[0] != '#' ==> r == TranslateSimple(b, key)
  {
    if key == "" then Err(NoKey)
    else if key[0] == '#' then Ok(key)
    else TranslateSimple(b, key)
  }

  // ---------------------------------------------------------------------
  // Lookup

  /** The slot an address names (`borrow_simple`): the second character
    * chooses the store and the rest is the index; the first character is
    * not checked. */
  function BorrowSimple(b: Branch, path: string): (r: Result<Slot, OldError>)
    ensures r.Ok? ==> Has(b, r.value)
    ensures |path| < 2 ==> r == Err(MissingInformation(path))
    ensures |path| >= 2 && path[1] != 'p' && path[1] != 'r' ==> r == Err(BadStorage(path[1], path))
    ensures |path| >= 2 && path[1] == 'p' && ParseUsize(path[2..]).Some? ==>
              var i := ParseUsize(path[2..]).value;
              r == (if i < |b.permanent| then Ok(Permanent(i)) else Err(NoPermanent(i)))
    ensures |path| >= 2 && path[1] == 'r' && ParseUsize(path[2..]).Some? ==>
              var k := ParseUsize(path[2..]).value;
              r == (if k in b.removable then Ok(Removable(k)) else Err(NoRemovable(k)))
    ensures |path| >= 2 && (path[1] == 'p' || path[1] == 'r') && ParseUsize(path[2..]).None? ==> r == Err(NotANumber(path))
  {
    if |path| < 2 then Err(MissingInformation(path))
    else if path[1] == 'p' then
      match ParseUsize(path[2..])
      case None => Err(NotANumber(path))
      case Some(i) => if i >= |b.permanent| then Err(NoPermanent(i)) else Ok(Permanent(i))
    else if path[1] == 'r' then
      match ParseUsize(path[2..])
      case None => Err(NotANumber(path))
      case Some(k) => if k in b.removable then Ok(Removable(k)) else Err(NoRemovable(k))
    else Err(BadStorage(path[1], path))
  }

  /** Every slot's address names that slot. */
  lemma SlotPathParses(b: Branch, s: Slot)
    requires Has(b, s) && (s.Permanent? ==> s.index <= UsizeMax) && (s.Removable? ==> s.key <= UsizeMax)
    ensures BorrowSimple(b, SlotPath(s)) == Ok(s)
    ensures '/' !in SlotPath(s) && SlotPath(s)[0] == '#'
  {
    var n := if s.Permanent? then s.index else s.key;
    ParseNatToString(n);
    assert SlotPath(s)[2..] == NatToString(n);
  }

  /** `borrow_chain_checked` as the slots it descends through. `hops` bounds
    * the translations made at this branch before the path leaves it: a
    * chain longer than the register repeats a key, and the source then
    * never returns. */
  function Lookup(b: Branch, path: string, hops: nat): (r: Result<seq<Slot>, OldError>)
    ensures r.Ok? ==> |r.value| > 0 && Reaches(b, r.value)
    decreases Size(b), hops, |path|, 1
  {
    match SplitOnce(path, '/')
    case None => Segment(b, path, hops)
    case Some((seg, rest)) =>
      match Segment(b, seg, hops)
      case Err(e) => Err(e)
      case Ok(ids) =>
        AtSmaller(b, ids);
        var c := At(b, ids);
        match Lookup(c, rest, |c.register|)
        case Err(e) => Err(e)
        case Ok(more) =>
          ReachesAppend(b, ids, more);
          Ok(ids + more)
  }

  /** `borrow_simple_checked` as the slots it descends through: an address
    * is borrowed directly, a name through the path it is registered
    * under. */
  function Segment(b: Branch, key: string, hops: nat): (r: Result<seq<Slot>, OldError>)
    ensures r.Ok? ==> |r.value| > 0 && Reaches(b, r.value)
    decreases Size(b), hops, |key|, 0
  {
    if key == "" then Err(NoKey)
    else if key[0] == '#' then
      match BorrowSimple(b, key)
      case Err(e) => Err(e)
      case Ok(s) => Ok([s])
    else if key !in b.register then Err(NotInRegister(key))
    else if hops == 0 then Err(ShortcutLoop(key))
    else Lookup(b, b.register[key], hops - 1)
  }

  /** `borrow_chain_checked`. */
  function BorrowChainChecked(b: Branch, path: string): (r: Result<Branch, OldError>)
    ensures r.Ok? <==> Lookup(b, path, |b.register|).Ok?
    ensures path == "" ==> r == Err(NoKey)
    ensures r.Ok? ==> r.value == At(b, Lookup(b, path, |b.register|).value)
  {
    match Lookup(b, path, |b.register|)
    case Err(e) => Err(e)
    case Ok(ids) => Ok(At(b, ids))
  }

  /** `borrow_chain`: every segment an address, borrowed with
    * `borrow_simple` in the branch the previous segment reached; no name is
    * translated. As the slots it descends through. */
  function BorrowChain(b: Branch, path: string): (r: Result<seq<Slot>, OldError>)
    ensures r.Ok? ==> |r.value| > 0 && Reaches(b, r.value)
    decreases |path|
  {
    match SplitOnce(path, '/')
    case None =>
      (match BorrowSimple(b, path)
       case Err(e) => Err(e)
       case Ok(s) => Ok([s]))
    case Some((seg, rest)) =>
      match BorrowSimple(b, seg)
      case Err(e) => Err(e)
      case Ok(s) =>
        match BorrowChain(Child(b, s), rest)
        case Err(e) => Err(e)
        case Ok(more) => assert ([s] + more)[1..] == more; Ok([s] + more)
  }

  /** The chain of addresses of a descent: "#p0/#r3/…". */
  function ChainPath(ids: seq<Slot>): string
    requires |ids| > 0
    decreases |ids|
  {
    if |ids| == 1 then SlotPath(ids[0]) else SlotPath(ids[0]) + "/" + ChainPath(ids[1..])
  }

  /** No index of the descent is too large for a `usize`. */
  predicate SlotsFit(ids: seq<Slot>)
  {
    forall i :: 0 <= i < |ids| ==> (ids[i].Permanent? ==> ids[i].index <= UsizeMax) && (ids[i].Removable? ==> ids[i].key <= UsizeMax)
  }

  /** The address chain of every descent leads back to it, both through
    * `borrow_chain` and through `borrow_chain_checked`, whatever the
    * registers hold. */
  lemma {:induction false} ChainPathRoundTrip(b: Branch, ids: seq<Slot>, hops: nat)
    requires |ids| > 0 && Reaches(b, ids) && SlotsFit(ids)
    ensures BorrowChain(b, ChainPath(ids)) == Ok(ids)
    ensures Lookup(b, ChainPath(ids), hops) == Ok(ids)
    decreases |ids|
  {
    var s := ids[0];
    SlotPathParses(b, s);
    assert Segment(b, SlotPath(s), hops) == Ok([s]);
    if |ids| == 1 {
      assert SplitOnce(SlotPath(s), '/') == None;
      assert ids == [s];
    } else {
      var c := Child(b, s);
      assert SlotsFit(ids[1..]) by {
        forall i | 0 <= i < |ids[1..]|
          ensures (ids[1..][i].Permanent? ==> ids[1..][i].index <= UsizeMax) && (ids[1..][i].Removable? ==> ids[1..][i].key <= UsizeMax)
        {
          assert ids[1..][i] == ids[i + 1];
        }
      }
      ChainPathRoundTrip(c, ids[1..], |c.register|);
      SplitOnceAt(SlotPath(s), ChainPath(ids[1..]), '/');
      assert SlotPath(s) + "/" + ChainPath(ids[1..]) == SlotPath(s) + ['/'] + ChainPath(ids[1..]);
      assert At(b, [s]) == c;
      assert [s] + ids[1..] == ids;
    }
  }

  /** `check_simple`: whether `borrow_simple` finds the address. */
  function CheckSimple(b: Branch, path: string): (r: bool)
    ensures r <==> BorrowSimple(b, path).Ok?
  {
    if |path| < 2 then false
    else if path[1] == 'p' then
      (match ParseUsize(path[2..])
       case None => false
       case Some(i) => i < |b.permanent|)
    else if path[1] == 'r' then
      (match ParseUsize(path[2..])
       case None => false
       case Some(k) => k in b.removable)
    else false
  }

  /** `check_chain`: whether `borrow_chain` finds the chain of addresses. */
  function CheckChain(b: Branch, path: string): (r: bool)
    ensures r <==> BorrowChain(b, path).Ok?
    decreases |path|
  {
    match SplitOnce(path, '/')
    case None => CheckSimple(b, path)
    case Some((seg, rest)) =>
      match BorrowSimple(b, seg)
      case Err(_) => false
      case Ok(s) => CheckChain(Child(b, s), rest)
  }

  /** `check_chain_checked`: whether `borrow_chain_checked` finds the path.
    * A chain of names that comes back to itself, on which the source never
    * returns, is reported as not found. */
  function CheckChainChecked(b: Branch, keypath: string, hops: nat): (r: bool)
    ensures r <==> Lookup(b, keypath, hops).Ok?
    decreases Size(b), hops, |keypath|, 1
  {
    match SplitOnce(keypath, '/')
    case None => CheckSimpleChecked(b, keypath, hops)
    case Some((seg, rest)) =>
      match Segment(b, seg, hops)
      case Err(_) => false
      case Ok(ids) =>
        AtSmaller(b, ids);
        var c := At(b, ids);
        CheckChainChecked(c, rest, |c.register|)
  }

  /** `check_simple_checked`: whether `borrow_simple_checked` finds the
    * address or name. */
  function CheckSimpleChecked(b: Branch, key: string, hops: nat): (r: bool)
    ensures r <==> Segment(b, key, hops).Ok?
    decreases Size(b), hops, |key|, 0
  {
    if key == "" then false
    else if key[0] == '#' then CheckSimple(b, key)
    else if key !in b.register then false
    else if hops == 0 then false
    else CheckChainChecked(b, b.register[key], hops - 1)
  }

  /** `translate_chain_checked`: the head is translated with
    * `translate_simple_checked` and the branch it names borrowed with
    * `borrow_simple_checked`; the rest is translated there, and the two are
    * joined with '/'. A single segment is only translated, not borrowed. */
  function TranslateChainChecked(b: Branch, keypath: string): (r: Result<string, OldError>)
    ensures '/' !in keypath ==> r == TranslateSimpleChecked(b, keypath)
    decreases |keypath|
  {
    match SplitOnce(keypath, '/')
    case None => TranslateSimpleChecked(b, keypath)
    case Some((seg, rest)) =>
      match TranslateSimpleChecked(b, seg)
      case Err(e) => Err(e)
      case Ok(key) =>
        match Segment(b, key, |b.register|)
        case Err(e) => Err(e)
        case Ok(ids) =>
          match TranslateChainChecked(At(b, ids), rest)
          case Err(e) => Err(e)
          case Ok(more) => Ok(key + "/" + more)
  }

  /** A chain of addresses that resolves translates to itself. */
  lemma {:induction false} TranslateAddressesUnchanged(b: Branch, ids: seq<Slot>)
    requires |ids| > 0 && Reaches(b, ids) && SlotsFit(ids)
    ensures TranslateChainChecked(b, ChainPath(ids)) == Ok(ChainPath(ids))
    decreases |ids|
  {
    var s := ids[0];
    SlotPathParses(b, s);
    if |ids| > 1 {
      var c := Child(b, s);
      assert SlotsFit(ids[1..]) by {
        forall i | 0 <= i < |ids[1..]|
          ensures (ids[1..][i].Permanent? ==> ids[1..][i].index <= UsizeMax) && (ids[1..][i].Removable? ==> ids[1..][i].key <= UsizeMax)
        {
          assert ids[1..][i] == ids[i + 1];
        }
      }
      TranslateAddressesUnchanged(c, ids[1..]);
      SplitOnceAt(SlotPath(s), ChainPath(ids[1..]), '/');
      assert SlotPath(s) + "/" + ChainPath(ids[1..]) == SlotPath(s) + ['/'] + ChainPath(ids[1..]);
      assert Segment(b, SlotPath(s), |b.register|) == Ok([s]);
      assert At(b, [s]) == c;
    }
  }

  /** A name registered as the address of a child translates to that
    * address, and a path below it to the whole chain of addresses: the
    * translation leads where the name does. */
  lemma TranslateNameToAddresses(b: Branch, key: string, s: Slot, ids: seq<Slot>)
    requires PlainKey(key) && key in b.register && b.register[key] == SlotPath(s)
    requires Has(b, s) && SlotsFit([s] + ids) && Reaches(Child(b, s), ids)
    ensures TranslateChainChecked(b, key) == Ok(SlotPath(s))
    ensures |ids| > 0 ==> TranslateChainChecked(b, key + "/" + ChainPath(ids)) == Ok(ChainPath([s] + ids))
    ensures |ids| > 0 ==> BorrowChainChecked(b, key + "/" + ChainPath(ids)).Ok? &&
                          BorrowChainChecked(b, key + "/" + ChainPath(ids)) == BorrowChainChecked(b, ChainPath([s] + ids))
  {
    assert ([s] + ids)[0] == s;
    SlotPathParses(b, s);
    assert SplitOnce(key, '/') == None;
    if |ids| > 0 {
      assert SlotsFit(ids) by {
        forall i | 0 <= i < |ids|
          ensures (ids[i].Permanent? ==> ids[i].index <= UsizeMax) && (ids[i].Removable? ==> ids[i].key <= UsizeMax)
        {
          assert ids[i] == ([s] + ids)[i + 1];
        }
      }
      assert ([s] + ids)[1..] == ids;
      assert ChainPath([s] + ids) == SlotPath(s) + "/" + ChainPath(ids);
      NameHeadSegment(b, key, s);
      NameChainTranslates(b, key, s, ids);
      NameChainBorrows(b, key, s, ids);
    }
  }

  /** The name and the address it is registered for both resolve, as the
    * head of a chain, to that address. */
  lemma NameHeadSegment(b: Branch, key: string, s: Slot)
    requires PlainKey(key) && key in b.register && b.register[key] == SlotPath(s)
    requires Has(b, s) && (s.Permanent? ==> s.index <= UsizeMax) && (s.Removable? ==> s.key <= UsizeMax)
    ensures Segment(b, key, |b.register|) == Ok([s]) && Segment(b, SlotPath(s), |b.register|) == Ok([s])
    ensures At(b, [s]) == Child(b, s)
  {
    SlotPathParses(b, s);
    var h := |b.register|;
    assert h > 0;
    assert SplitOnce(SlotPath(s), '/') == None;
    assert Segment(b, SlotPath(s), h - 1) == Ok([s]);
    assert Lookup(b, SlotPath(s), h - 1) == Ok([s]);
  }

  lemma NameChainTranslates(b: Branch, key: string, s: Slot, ids: seq<Slot>)
    requires PlainKey(key) && key in b.register && b.register[key] == SlotPath(s)
    requires Has(b, s) && (s.Permanent? ==> s.index <= UsizeMax) && (s.Removable? ==> s.key <= UsizeMax)
    requires |ids| > 0 && SlotsFit(ids) && Reaches(Child(b, s), ids)
    requires Segment(b, SlotPath(s), |b.register|) == Ok([s]) && At(b, [s]) == Child(b, s)
    ensures TranslateChainChecked(b, key + "/" + ChainPath(ids)) == Ok(SlotPath(s) + "/" + ChainPath(ids))
  {
    SlotPathParses(b, s);
    assert SplitOnce(key, '/') == None;
    TranslateAddressesUnchanged(Child(b, s), ids);
    SplitOnceAt(key, ChainPath(ids), '/');
    assert key + "/" + ChainPath(ids) == key + ['/'] + ChainPath(ids);
  }

  lemma NameChainBorrows(b: Branch, key: string, s: Slot, ids: seq<Slot>)
    requires PlainKey(key) && key in b.register && b.register[key] == SlotPath(s)
    requires Has(b, s) && (s.Permanent? ==> s.index <= UsizeMax) && (s.Removable? ==> s.key <= UsizeMax)
    requires |ids| > 0 && SlotsFit(ids) && Reaches(Child(b, s), ids) && SlotsFit([s] + ids)
    requires Segment(b, key, |b.register|) == Ok([s]) && At(b, [s]) == Child(b, s)
    requires ([s] + ids)[1..] == ids && ([s] + ids)[0] == s
    requires ChainPath([s] + ids) == SlotPath(s) + "/" + ChainPath(ids)
    ensures BorrowChainChecked(b, key + "/" + ChainPath(ids)).Ok?
    ensures BorrowChainChecked(b, key + "/" + ChainPath(ids)) == BorrowChainChecked(b, ChainPath([s] + ids))
  {
    var c := Child(b, s);
    var h := |b.register|;
    SplitOnceAt(key, ChainPath(ids), '/');
    assert key + "/" + ChainPath(ids) == key + ['/'] + ChainPath(ids);
    ChainPathRoundTrip(c, ids, |c.register|);
    assert Lookup(b, key + "/" + ChainPath(ids), h) == Ok([s] + ids);
    assert Reaches(b, [s] + ids);
    ChainPathRoundTrip(b, [s] + ids, h);
  }

  // ---------------------------------------------------------------------
  // Destruction

  /** `destroy_simple`: a "#p" address is refused; "#r<key>" is removed
    * when present. */
  function DestroySimple(b: Branch, path: string): (r: Result<Branch, OldError>)
    ensures |path| >= 2 && path[1] == 'p' ==> r == Err(PermanentNotDestroyable)
    ensures |path| >= 2 && path[1] == 'r' && ParseUsize(path[2..]).Some? ==>
              var k := ParseUsize(path[2..]).value;
              r == (if k in b.removable then Ok(b.(removable := b.removable - {k})) else Err(RemovableKeyMissing(k)))
    ensures r.Ok? ==> |path| >= 2 && path[1] == 'r' && ParseUsize(path[2..]).Some?
  {
    if |path| < 2 then Err(MissingInformation(path))
    else if path[1] == 'p' then Err(PermanentNotDestroyable)
    else if path[1] == 'r' then
      match ParseUsize(path[2..])
      case None => Err(NotANumber(path))
      case Some(k) => if k !in b.removable then Err(RemovableKeyMissing(k)) else Ok(b.(removable := b.removable - {k}))
    else Err(BadStorage(path[1], path))
  }

  /** `destroy_chain`: a chain of addresses, the last one destroyed in the
    * branch the others lead to. */
  function DestroyChain(b: Branch, path: string): (r: Result<Branch, OldError>)
    ensures r.Ok? ==> r.value == b.(permanent := r.value.permanent, removable := r.value.removable)
                      && |r.value.permanent| == |b.permanent|
    ensures r.Ok? && '/' in path ==> r.value.removable.Keys == b.removable.Keys
    ensures r.Ok? && '/' !in path ==> exists k :: k in b.removable && r.value.removable == b.removable - {k}
    decreases |path|
  {
    match SplitOnce(path, '/')
    case None => DestroySimple(b, path)
    case Some((seg, rest)) =>
      match BorrowSimple(b, seg)
      case Err(e) => Err(e)
      case Ok(s) =>
        match DestroyChain(Child(b, s), rest)
        case Err(e) => Err(e)
        case Ok(c') => Ok(SetChild(b, s, c'))
  }

  /** `destroy_simple_checked`: an address is destroyed here; a name through
    * the chain of addresses it is registered under. */
  function DestroySimpleChecked(b: Branch, key: string): (r: Result<Branch, OldError>)
    ensures key == "" ==> r == Err(NoKey)
    ensures key != "" && key[0] == '#' ==> r == DestroySimple(b, key)
    ensures key != "" && key[0] != '#' && key !in b.register ==> r == Err(NotInRegister(key))
    ensures key != "" && key[0] != '#' && key in b.register ==> r == DestroyChain(b, b.register[key])
  {
    if key == "" then Err(NoKey)
    else if key[0] == '#' then DestroySimple(b, key)
    else match TranslateSimple(b, key)
      case Ok(path) => DestroyChain(b, path)
      case Err(e) => Err(e)
  }

  /** `destroy_chain_checked` as written: the head is borrowed through the
    * register, and the rest, whatever its length, is handed to
    * `destroy_simple_checked` of the branch reached. */
  function DestroyChainChecked(b: Branch, keypath: string): (r: Result<Branch, OldError>)
    ensures '/' !in keypath ==> r == DestroySimpleChecked(b, keypath)
  {
    match SplitOnce(keypath, '/')
    case None => DestroySimpleChecked(b, keypath)
    case Some((seg, rest)) =>
      match Segment(b, seg, |b.register|)
      case Err(e) => Err(e)
      case Ok(ids) =>
        match DestroySimpleChecked(At(b, ids), rest)
        case Err(e) => Err(e)
        case Ok(c') => Ok(Replace(b, ids, c'))
  }

  /** `remove_simple_checked`: an unregistered key is refused; otherwise the
    * branch is destroyed and only then is the key unregistered. */
  function RemoveSimpleChecked(b: Branch, key: string): (r: (Branch, Result<(), OldError>))
    ensures key !in b.register ==> r == (b, Err(NotRegistered(key)))
    ensures r.1.Err? ==> r.0 == b
    ensures key in b.register ==> (r.1.Ok? <==> DestroyChainChecked(b, key).Ok?)
    ensures r.1.Ok? ==> r.0 == DestroyChainChecked(b, key).value.(register := DestroyChainChecked(b, key).value.register - {key})
  {
    if key in b.register then
      match DestroyChainChecked(b, key)
      case Ok(b') => (b'.(register := b'.register - {key}), Ok(()))
      case Err(e) => (b, Err(e))
    else (b, Err(NotRegistered(key)))
  }

  /** A name not starting with '#' and holding no '/'. */
  predicate PlainKey(key: string)
  {
    key != "" && '/' !in key && key[0] != '#'
  }

  /** A branch made by `create_simple_checked` is found under its key. */
  lemma CreateCheckedThenBorrow(b: Branch, key: string, position: L.Layout)
    requires PlainKey(key) && key !in b.register && |b.removable| < UsizeMax
    ensures var r := CreateSimpleChecked(b, key, position);
            var k := T.SmallestFreeId(b.removable.Keys);
            r.1 == Ok(key) && k in r.0.removable && BorrowChainChecked(r.0, key) == Ok(r.0.removable[k])
  {
    var r := CreateSimpleChecked(b, key, position).0;
    var k := T.SmallestFreeId(b.removable.Keys);
    T.SmallestFreeIdBound(b.removable.Keys);
    SlotPathParses(r, Removable(k));
    var h := |r.register|;
    var p := SlotPath(Removable(k));
    assert r.register[key] == p && h > 0;
    assert SplitOnce(p, '/') == None;
    assert Segment(r, p, h - 1) == Ok([Removable(k)]);
    assert Lookup(r, p, h - 1) == Ok([Removable(k)]);
    assert Segment(r, key, h) == Ok([Removable(k)]);
    assert SplitOnce(key, '/') == None;
    assert Lookup(r, key, h) == Ok([Removable(k)]);
    assert At(r, [Removable(k)]) == r.removable[k];
  }

  /** Removing a branch by the key it was created under gives back the
    * branch as it was before. */
  lemma CreateCheckedThenRemove(b: Branch, key: string, position: L.Layout)
    requires PlainKey(key) && key !in b.register && |b.removable| < UsizeMax
    ensures RemoveSimpleChecked(CreateSimpleChecked(b, key, position).0, key) == (b, Ok(()))
  {
    var r := CreateSimpleChecked(b, key, position).0;
    var k := T.SmallestFreeId(b.removable.Keys);
    T.SmallestFreeIdBound(b.removable.Keys);
    SlotPathParses(r, Removable(k));
    var p := SlotPath(Removable(k));
    assert r.register[key] == p;
    assert p[2..] == NatToString(k);
    assert SplitOnce(p, '/') == None;
    assert DestroyChain(r, p) == DestroySimple(r, p) == Ok(r.(removable := r.removable - {k}));
    assert SplitOnce(key, '/') == None;
    assert r.removable == b.removable[k := r.removable[k]];
    T.AddThenRemove(b.removable, k, r.removable[k]);
    assert r.register == b.register[key := p];
    T.AddThenRemove(b.register, key, p);
  }

  /** A permanent branch survives every attempt to destroy it by address. */
  lemma PermanentIsPermanent(b: Branch, i: nat)
    requires i <= UsizeMax
    ensures DestroySimple(b, SlotPath(Permanent(i))) == Err(PermanentNotDestroyable)
  {
    assert SlotPath(Permanent(i))[1] == 'p';
  }

  // ---------------------------------------------------------------------
  // Layout

  /** Every container in the subtree can be calculated. */
  ghost predicate Updatable(b: Branch)
    decreases b
  {
    L.Updatable(b.container.layout) &&
    (forall i :: 0 <= i < |b.permanent| ==> Updatable(b.permanent[i])) &&
    (forall k :: k in b.removable ==> Updatable(b.removable[k]))
  }

  /** `cascade_update`: the branch's container is updated in the given box,
    * then each child in both stores in the box just computed. */
  function CascadeUpdate(b: Branch, point: Vec2, width: real, height: real): (r: Branch)
    requires Updatable(b)
    ensures r == b.(container := r.container, permanent := r.permanent, removable := r.removable)
    ensures r.container.layout == b.container.layout && |r.permanent| == |b.permanent| && r.removable.Keys == b.removable.Keys
    ensures r.container.position == L.Cache(b.container.position, L.Resolve(b.container.layout, point, width, height))
    decreases b
  {
    var pos := L.Cache(b.container.position, L.Resolve(b.container.layout, point, width, height));
    b.(container := b.container.(position := pos),
       permanent := seq(|b.permanent|, i requires 0 <= i < |b.permanent| => CascadeUpdate(b.permanent[i], pos.point1, pos.width, pos.height)),
       removable := map k | k in b.removable :: CascadeUpdate(b.removable[k], pos.point1, pos.width, pos.height))
  }

  /** Every child in both stores is laid out in its parent's box just
    * computed. */
  lemma ChildrenInParentBox(b: Branch, point: Vec2, width: real, height: real)
    requires Updatable(b)
    ensures var r := CascadeUpdate(b, point, width, height); var p := r.container.position;
            (forall i :: 0 <= i < |r.permanent| ==> r.permanent[i] == CascadeUpdate(b.permanent[i], p.point1, p.width, p.height)) &&
            (forall k :: k in r.removable ==> r.removable[k] == CascadeUpdate(b.removable[k], p.point1, p.width, p.height))
  {
  }

  /** The root of `Hierarchy::new`: depth 0, laid out from the window's
    * first corner (0%) to its second (100%). */
  function RootBranch(): (b: Branch)
    ensures b == NewBranch(0.0).(container := BranchContainer(L.DefaultPosition, L.RelativeBox(L.Relative(Zero2, Zero2, Zero2, Vec2(100.0, 100.0)))))
  {
    var b := NewBranch(0.0);
    b.(container := b.container.(layout := L.RelativeBox(L.Relative(Zero2, Zero2, Zero2, Vec2(100.0, 100.0)))))
  }

  class Hierarchy {
    var width: real
    var height: real
    var branch: Branch

    /** `Hierarchy::new`. */
    constructor ()
      ensures width == 0.0 && height == 0.0 && branch == RootBranch()
    {
      width, height := 0.0, 0.0;
      branch := RootBranch();
    }

    /** `update`: the whole hierarchy is laid out in its size at the origin. */
    method Update()
      requires Updatable(branch)
      modifies this
      ensures branch == CascadeUpdate(old(branch), Zero2, width, height)
      ensures width == old(width) && height == old(height)
    {
      branch := CascadeUpdate(branch, Zero2, width, height);
    }
  }
}
