/** crates/bevy_lunex/src/interaction/cursor2d.rs: the `Cursor2d` of the
  * bevy_lunex crate's interaction module. The cursor holds this tick's
  * request (the default icon at priority 0 after the reset), an atlas of
  * sprite indices and offsets per icon, and two toggles: whether the
  * native cursor stands in for the sprite, and whether the cursor is
  * hidden altogether. Which of the native cursor and the sprite shows is
  * decided by the toggles and by whether the window reports a cursor
  * position. */
module InteractionCursor {
  import opened Base
  import opened CursorRequests

  /** `Cursor2d`. */
  class Cursor2d {
    var request: Icon
    var priority: real
    var atlas: map<Icon, (nat, Vec2)>
    var native: bool
    var hidden: bool

    function State(): Request
      reads this
    {
      Request(request, priority)
    }

    /** `Cursor2d::new`: the default icon at priority 0, no atlas, the
      * native cursor in use and not hidden. */
    constructor ()
      ensures State() == Reset && atlas == map[] && native && !hidden
    {
      request, priority := Default, 0.0;
      atlas := map[];
      native, hidden := true, false;
    }

    /** `native_cursor`. */
    method SetNative(enable: bool)
      modifies this
      ensures native == enable
      ensures State() == old(State()) && atlas == old(atlas) && hidden == old(hidden)
    {
      native := enable;
    }

    /** `request_cursor`. */
    method RequestCursor(icon: Icon, p: real)
      modifies this
      ensures State() == Requested(old(State()), icon, p)
      ensures atlas == old(atlas) && native == old(native) && hidden == old(hidden)
    {
      if p > priority {
        request := icon;
        priority := p;
      }
    }

    /** `register_cursor`. */
    method RegisterCursor(icon: Icon, index: nat, offset: Vec2)
      modifies this
      ensures atlas == old(atlas)[icon := (index, offset)]
      ensures State() == old(State()) && native == old(native) && hidden == old(hidden)
    {
      atlas := atlas[icon := (index, offset)];
    }

    /** `cursor_preupdate` for this cursor. */
    method Preupdate()
      modifies this
      ensures State() == Reset
      ensures atlas == old(atlas) && native == old(native) && hidden == old(hidden)
    {
      request := Default;
      priority := 0.0;
    }

    /** What `cursor_update` and `cursor_update_texture` read off this
      * cursor: whether the native cursor and the sprite show, the icon the
      * window gets and the sprite's atlas index. */
    method Shown(hasPosition: bool) returns (nativeShown: bool, spriteShown: bool, icon: Icon, index: nat)
      ensures nativeShown == NativeVisible(native, hidden)
      ensures spriteShown == SpriteVisible(native, hidden, hasPosition)
      ensures icon == request && index == AtlasIndex(atlas, request)
    {
      nativeShown := if native then !hidden else false;
      if hasPosition {
        spriteShown := !(hidden || native);
      } else {
        spriteShown := false;
      }
      icon := request;
      index := AtlasIndex(atlas, request);
    }
  }

  /** The window's cursor visibility `cursor_update` writes. */
  function NativeVisible(native: bool, hidden: bool): bool
  {
    if native then !hidden else false
  }

  /** The sprite's visibility `cursor_update` writes: hidden without a
    * cursor position, otherwise shown unless hidden or native. */
  function SpriteVisible(native: bool, hidden: bool, hasPosition: bool): bool
  {
    if hasPosition then !(hidden || native) else false
  }

  /** The native cursor and the sprite never show together; a hidden cursor
    * shows neither; otherwise, inside the window, exactly one shows, the
    * one the native toggle picks. */
  lemma OneCursorShows(native: bool, hidden: bool, hasPosition: bool)
    ensures !(NativeVisible(native, hidden) && SpriteVisible(native, hidden, hasPosition))
    ensures hidden ==> !NativeVisible(native, hidden) && !SpriteVisible(native, hidden, hasPosition)
    ensures !hidden && hasPosition ==> (NativeVisible(native, hidden) <==> native) &&
                                       (SpriteVisible(native, hidden, hasPosition) <==> !native)
  {
  }

  /** Within a tick: after the reset, a request at a positive priority
    * shows its icon with the index the atlas registers for it, and any
    * later request at no higher priority leaves it. */
  lemma FirstPositiveRequestShows(atlas: map<Icon, (nat, Vec2)>, icon: Icon, index: nat, offset: Vec2,
                                  p: real, later: Request)
    requires p > 0.0 && later.priority <= p
    ensures var r := Requested(Requested(Reset, icon, p), later.icon, later.priority);
            r == Request(icon, p) && AtlasIndex(atlas[icon := (index, offset)], r.icon) == index
  {
    RegisterDecides(atlas, icon, index, offset, icon);
  }
}
