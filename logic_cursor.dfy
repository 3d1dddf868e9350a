/** crates/bevy_lunex/src/logic/cursor.rs: the `Cursor2d` of the bevy_lunex
  * crate's logic module and its hover rule. The cursor holds this tick's
  * request (the default icon at priority 0 after the reset) and an atlas of
  * sprite indices per icon; every hover state that moves forward asks for
  * its entity's cursor at priority 1. The hover states are the
  * `UiAnimation` values of crates/bevy_lunex/src/logic/states.rs, read
  * through its `is_forward`. */
module LogicCursor {
  import opened Base
  import opened CursorRequests
  import LunexStates

  /** A hovered entity: its hover state and the cursor it asks for. */
  type Hovered = (LunexStates.Animation, Icon)

  /** The requests the hover rule makes, in order: one at priority 1 for
    * each forward-moving hover state. */
  function Forwarded(hovers: seq<Hovered>): (r: seq<Request>)
    ensures |r| <= |hovers|
    ensures forall i :: 0 <= i < |r| ==> r[i].priority == 1.0
    decreases |hovers|
  {
    if |hovers| == 0 then []
    else (if LunexStates.IsForward(hovers[0].0) then [Request(hovers[0].1, 1.0)] else []) + Forwarded(hovers[1..])
  }

  /** The cursor of the first forward-moving hover state, if any. */
  function FirstForward(hovers: seq<Hovered>): (r: Option<Icon>)
    ensures r.Some? <==> exists i :: 0 <= i < |hovers| && LunexStates.IsForward(hovers[i].0)
    ensures r.Some? ==> exists i :: 0 <= i < |hovers| && LunexStates.IsForward(hovers[i].0) && hovers[i].1 == r.value &&
                                    forall j :: 0 <= j < i ==> !LunexStates.IsForward(hovers[j].0)
    decreases |hovers|
  {
    if |hovers| == 0 then None
    else if LunexStates.IsForward(hovers[0].0) then Some(hovers[0].1)
    else
      var r := FirstForward(hovers[1..]);
      assert forall i :: 1 <= i < |hovers| ==> hovers[i] == hovers[1..][i - 1];
      r
  }

  lemma {:induction false} ForwardedAppend(hovers: seq<Hovered>, h: Hovered)
    ensures Forwarded(hovers + [h]) == Forwarded(hovers) + (if LunexStates.IsForward(h.0) then [Request(h.1, 1.0)] else [])
    decreases |hovers|
  {
    if |hovers| == 0 {
      assert [h][1..] == [];
    } else {
      assert (hovers + [h])[1..] == hovers[1..] + [h];
      ForwardedAppend(hovers[1..], h);
    }
  }

  /** One more hover state forwards its request, or nothing. */
  lemma ForwardedStep(hovers: seq<Hovered>, i: nat)
    requires i < |hovers|
    ensures LunexStates.IsForward(hovers[i].0) ==> Forwarded(hovers[..i + 1]) == Forwarded(hovers[..i]) + [Request(hovers[i].1, 1.0)]
    ensures !LunexStates.IsForward(hovers[i].0) ==> Forwarded(hovers[..i + 1]) == Forwarded(hovers[..i])
  {
    ForwardedAppend(hovers[..i], hovers[i]);
    assert hovers[..i + 1] == hovers[..i] + [hovers[i]];
  }

  lemma {:induction false} ForwardedFirst(hovers: seq<Hovered>)
    ensures |Forwarded(hovers)| == 0 <==> FirstForward(hovers).None?
    ensures |Forwarded(hovers)| > 0 ==> Forwarded(hovers)[0] == Request(FirstForward(hovers).value, 1.0)
    decreases |hovers|
  {
    if |hovers| > 0 {
      ForwardedFirst(hovers[1..]);
    }
  }

  /** `on_hover_set_cursor` with this tick's hover states, after the reset:
    * the cursor shows the first forward hover's icon at priority 1, or the
    * default icon when nothing moves forward. */
  lemma HoverAfterReset(hovers: seq<Hovered>)
    ensures FirstForward(hovers).None? ==> RequestAll(Reset, Forwarded(hovers)) == Reset
    ensures FirstForward(hovers).Some? ==> RequestAll(Reset, Forwarded(hovers)) == Request(FirstForward(hovers).value, 1.0)
  {
    var f := Forwarded(hovers);
    ForwardedFirst(hovers);
    RequestAllFirstGreatest(Reset, f);
    var q := RequestAll(Reset, f);
    if q != Reset {
      var i :| 0 <= i < |f| && f[i] == q && q.priority > 0.0 && forall j :: 0 <= j < i ==> f[j].priority < q.priority;
      assert f[0].priority == 1.0 == q.priority;
      assert i == 0;
    }
  }

  /** `Cursor2d`. */
  class Cursor2d {
    var request: Icon
    var priority: real
    var atlas: map<Icon, (nat, Vec2)>
    var confined: bool
    var visible: bool

    function State(): Request
      reads this
    {
      Request(request, priority)
    }

    /** `Cursor2d::new`: the default icon at priority 0, no atlas, not
      * confined, visible. */
    constructor ()
      ensures State() == Reset && atlas == map[] && !confined && visible
    {
      request, priority := Default, 0.0;
      atlas := map[];
      confined, visible := false, true;
    }

    /** `request_cursor`. */
    method RequestCursor(icon: Icon, p: real)
      modifies this
      ensures State() == Requested(old(State()), icon, p)
      ensures atlas == old(atlas) && confined == old(confined) && visible == old(visible)
    {
      if p > priority {
        request := icon;
        priority := p;
      }
    }

    /** `set_index`. */
    method SetIndex(icon: Icon, index: nat, offset: Vec2)
      modifies this
      ensures atlas == old(atlas)[icon := (index, offset)]
      ensures State() == old(State()) && confined == old(confined) && visible == old(visible)
    {
      atlas := atlas[icon := (index, offset)];
    }

    /** `cursor_preupdate` for this cursor. */
    method Preupdate()
      modifies this
      ensures State() == Reset
      ensures atlas == old(atlas) && confined == old(confined) && visible == old(visible)
    {
      request := Default;
      priority := 0.0;
    }

    /** `cursor_update_texture`: the atlas index of the requested icon. */
    method TextureIndex() returns (index: nat)
      ensures index == AtlasIndex(atlas, request)
    {
      index := if request in atlas then atlas[request].0 else 0;
    }

    /** `on_hover_set_cursor` with this the single cursor: each forward
      * hover state requests its cursor at priority 1. */
    method OnHoverSetCursor(hovers: seq<Hovered>)
      modifies this
      ensures State() == RequestAll(old(State()), Forwarded(hovers))
      ensures atlas == old(atlas) && confined == old(confined) && visible == old(visible)
    {
      ghost var start := State();
      var i := 0;
      while i < |hovers|
        invariant 0 <= i <= |hovers|
        invariant State() == RequestAll(start, Forwarded(hovers[..i]))
        invariant atlas == old(atlas) && confined == old(confined) && visible == old(visible)
      {
        ghost var done := Forwarded(hovers[..i]);
        ForwardedStep(hovers, i);
        if LunexStates.IsForward(hovers[i].0) {
          RequestAllAppend(start, done, Request(hovers[i].1, 1.0));
          RequestCursor(hovers[i].1, 1.0);
        }
        i := i + 1;
      }
      assert hovers[..i] == hovers;
    }
  }
}
