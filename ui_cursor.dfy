/** crates/bevy_lunex_ui/src/code/cursor.rs: the `Cursor` of the
  * bevy_lunex_ui crate. The cursor's sprite is picked by index from a list
  * of sprite offsets: a default index, and the index requested this tick,
  * which the tick's reset sets back to the default. Both setters clamp the
  * index to the last offset, computing `len - 1` in `usize`, which
  * underflows (a panic in debug builds) when no offset was added; callers
  * must add an offset first. */
module UiCursor {
  import opened Base

  /** The fields of `Cursor`, as one value. */
  datatype CursorState = CursorState(
    defaultIndex: nat,
    requestIndex: nat,
    offsets: seq<Vec2>,
    locationScreen: Vec2,
    locationWorld: Vec2,
    osCursor: bool)

  /** `Cursor::new`. */
  const NewCursor := CursorState(0, 0, [], Zero2, Zero2, true)

  /** Both indices name an offset, or are 0 while there is none: so
    * `cursor_update` reads the requested offset in bounds. */
  predicate Valid(c: CursorState)
  {
    if |c.offsets| == 0 then c.defaultIndex == 0 && c.requestIndex == 0
    else c.defaultIndex < |c.offsets| && c.requestIndex < |c.offsets|
  }

  /** `usize::min(index, len - 1)`. */
  function Clamp(index: nat, len: nat): (k: nat)
    requires len > 0
    ensures k < len
    ensures index < len ==> k == index
    ensures index >= len ==> k == len - 1
  {
    if index <= len - 1 then index else len - 1
  }

  /** `with_os_cursor`. */
  function WithOsCursor(c: CursorState, enable: bool): (r: CursorState)
    ensures r.osCursor == enable && r.(osCursor := c.osCursor) == c
  {
    c.(osCursor := enable)
  }

  /** `add_sprite_offset`: exactly one offset more, at the end. */
  function WithOffset(c: CursorState, offset: Vec2): (r: CursorState)
    ensures |r.offsets| == |c.offsets| + 1 && r.offsets[..|c.offsets|] == c.offsets && r.offsets[|c.offsets|] == offset
    ensures r.(offsets := c.offsets) == c
  {
    c.(offsets := c.offsets + [offset])
  }

  /** `with_default_cursor_index`. */
  function WithDefaultIndex(c: CursorState, index: nat): (r: CursorState)
    requires |c.offsets| > 0
    ensures r.defaultIndex < |c.offsets| && (index < |c.offsets| ==> r.defaultIndex == index)
    ensures r.(defaultIndex := c.defaultIndex) == c
  {
    c.(defaultIndex := Clamp(index, |c.offsets|))
  }

  /** `request_cursor_index`. */
  function RequestIndex(c: CursorState, index: nat): (r: CursorState)
    requires |c.offsets| > 0
    ensures r.requestIndex < |c.offsets| && (index < |c.offsets| ==> r.requestIndex == index)
    ensures r.(requestIndex := c.requestIndex) == c
  {
    c.(requestIndex := Clamp(index, |c.offsets|))
  }

  /** `cursor_preupdate` for this cursor. */
  function ResetRequest(c: CursorState): (r: CursorState)
    ensures r.requestIndex == c.defaultIndex && r.(requestIndex := c.requestIndex) == c
  {
    c.(requestIndex := c.defaultIndex)
  }

  /** The sprite offset `cursor_update` uses: the requested one, or zero
    * while there is none. */
  function SpriteOffset(c: CursorState): (o: Vec2)
    requires Valid(c)
    ensures |c.offsets| == 0 ==> o == Zero2
    ensures |c.offsets| > 0 ==> o == c.offsets[c.requestIndex]
  {
    if |c.offsets| != 0 then c.offsets[c.requestIndex] else Zero2
  }

  /** Where `cursor_update` parks the cursor while the window reports no
    * position. */
  const Parked := Splat2(-10000.0)

  /** The world location of a screen position: screen y grows downwards,
    * world y upwards, and the window's centre sits at the camera. */
  function WorldOf(screen: Vec2, camera: Vec2, window: Vec2): Vec2
  {
    Vec2(camera.x + screen.x - window.x / 2.0, camera.y + window.y - screen.y - window.y / 2.0)
  }

  /** The result of one `cursor_update` on the cursor: the new cursor state,
    * the sprite's translation (for a sprite scaled by `scale`), whether the
    * sprite is visible and the visibility set on the OS cursor, if any. */
  datatype Frame = Frame(cursor: CursorState, translation: Vec2, visible: bool, osVisible: Option<bool>)

  /** `cursor_update` for a window that reports `position`, of size
    * `window`, seen through a camera at `camera`, on a sprite whose
    * translation is `current`: while no position is reported the
    * translation is left as it is. */
  function Located(c: CursorState, position: Option<Vec2>, camera: Vec2, window: Vec2, scale: Vec2, current: Vec2): (r: Frame)
    requires Valid(c)
    ensures r.visible <==> position.Some?
    ensures position.None? ==> r.translation == current
    ensures position.None? ==> r.cursor == c.(locationScreen := Parked, locationWorld := Parked) && r.osVisible.None?
    ensures position.Some? ==> r.cursor.locationScreen == position.value && r.osVisible == Some(c.osCursor)
    ensures r.cursor.(locationScreen := c.locationScreen, locationWorld := c.locationWorld) == c
  {
    match position
    case None => Frame(c.(locationScreen := Parked, locationWorld := Parked), current, false, None)
    case Some(p) =>
      var o := SpriteOffset(c);
      var w := WorldOf(p, camera, window);
      Frame(c.(locationScreen := p, locationWorld := w), Vec2(w.x - o.x * scale.x, w.y + o.y * scale.y), true, Some(c.osCursor))
  }

  /** The world location follows the screen position: the window's centre
    * is the camera's position, its top-left corner is half a window left of
    * and above it, and a move on screen is the same move in the world with y
    * flipped. */
  lemma LocatedTracksScreen(c: CursorState, p: Vec2, d: Vec2, camera: Vec2, window: Vec2, scale: Vec2, current: Vec2)
    requires Valid(c)
    ensures Located(c, Some(Vec2(window.x / 2.0, window.y / 2.0)), camera, window, scale, current).cursor.locationWorld == camera
    ensures Located(c, Some(Zero2), camera, window, scale, current).cursor.locationWorld
            == Vec2(camera.x - window.x / 2.0, camera.y + window.y / 2.0)
    ensures Located(c, Some(Add2(p, d)), camera, window, scale, current).cursor.locationWorld
            == Add2(Located(c, Some(p), camera, window, scale, current).cursor.locationWorld, Vec2(d.x, -d.y))
  {
  }

  /** The sprite is drawn so that its requested offset, scaled, lands on
    * the world location: with no offset it sits on the cursor itself. */
  lemma SpriteSitsOnCursor(c: CursorState, p: Vec2, camera: Vec2, window: Vec2, scale: Vec2, current: Vec2)
    requires Valid(c)
    ensures var r := Located(c, Some(p), camera, window, scale, current);
            Add2(r.translation, Mul2(SpriteOffset(c), Vec2(scale.x, -scale.y))) == r.cursor.locationWorld
    ensures |c.offsets| == 0 ==> Located(c, Some(p), camera, window, scale, current).translation
                                  == Located(c, Some(p), camera, window, scale, current).cursor.locationWorld
  {
  }

  /** A new cursor is valid, and every operation keeps it so. */
  lemma OperationsKeepValid(c: CursorState, enable: bool, offset: Vec2, index: nat)
    requires Valid(c)
    ensures Valid(NewCursor)
    ensures Valid(WithOsCursor(c, enable)) && Valid(WithOffset(c, offset)) && Valid(ResetRequest(c))
    ensures |c.offsets| > 0 ==> Valid(WithDefaultIndex(c, index)) && Valid(RequestIndex(c, index))
  {
  }

  /** Requesting then resetting shows the default sprite again, whatever
    * was requested; requesting an index that exists shows that sprite. */
  lemma RequestThenReset(c: CursorState, index: nat)
    requires Valid(c) && |c.offsets| > 0
    ensures SpriteOffset(ResetRequest(RequestIndex(c, index))) == c.offsets[c.defaultIndex]
    ensures index < |c.offsets| ==> SpriteOffset(RequestIndex(c, index)) == c.offsets[index]
  {
  }

  /** `Cursor`: the component the builders, the request and the systems
    * update. */
  class Cursor {
    var defaultIndex: nat
    var requestIndex: nat
    var offsets: seq<Vec2>
    var locationScreen: Vec2
    var locationWorld: Vec2
    var osCursor: bool

    function State(): CursorState
      reads this
    {
      CursorState(defaultIndex, requestIndex, offsets, locationScreen, locationWorld, osCursor)
    }

    /** `Cursor::new`. */
    constructor ()
      ensures State() == NewCursor
    {
      defaultIndex, requestIndex := 0, 0;
      offsets := [];
      locationScreen, locationWorld := Zero2, Zero2;
      osCursor := true;
    }

    /** `with_os_cursor`. */
    method SetOsCursor(enable: bool)
      modifies this
      ensures State() == WithOsCursor(old(State()), enable)
    {
      osCursor := enable;
    }

    /** `add_sprite_offset`: a push onto the offsets. */
    method AddSpriteOffset(offset: Vec2)
      modifies this
      ensures State() == WithOffset(old(State()), offset)
    {
      offsets := offsets + [offset];
    }

    /** `with_default_cursor_index`. */
    method SetDefaultIndex(index: nat)
      requires |offsets| > 0
      modifies this
      ensures State() == WithDefaultIndex(old(State()), index)
    {
      defaultIndex := if index <= |offsets| - 1 then index else |offsets| - 1;
    }

    /** `request_cursor_index`. */
    method RequestCursorIndex(index: nat)
      requires |offsets| > 0
      modifies this
      ensures State() == RequestIndex(old(State()), index)
    {
      requestIndex := if index <= |offsets| - 1 then index else |offsets| - 1;
    }

    /** `cursor_update`: records where the cursor is, and hands back the
      * sprite's translation and visibility and the OS cursor's visibility. */
    method Update(position: Option<Vec2>, camera: Vec2, window: Vec2, scale: Vec2, current: Vec2)
      returns (translation: Vec2, visible: bool, osVisible: Option<bool>)
      requires Valid(State())
      modifies this
      ensures Frame(State(), translation, visible, osVisible) == Located(old(State()), position, camera, window, scale, current)
    {
      match position {
        case None =>
          locationScreen, locationWorld := Parked, Parked;
          translation, visible, osVisible := current, false, None;
        case Some(p) =>
          osVisible := Some(osCursor);
          locationScreen := p;
          var o := if |offsets| != 0 then offsets[requestIndex] else Zero2;
          var offsetX := window.x / 2.0;
          var offsetY := window.y / 2.0;
          var worldX := camera.x + p.x;
          var worldY := camera.y + window.y - p.y;
          locationWorld := Vec2(worldX - offsetX, worldY - offsetY);
          translation := Vec2(worldX - offsetX - o.x * scale.x, worldY - offsetY + o.y * scale.y);
          visible := true;
      }
    }

    /** `cursor_preupdate`. */
    method Preupdate()
      modifies this
      ensures State() == ResetRequest(old(State()))
    {
      requestIndex := defaultIndex;
    }

    /** `cursor_update_texture`: the sprite index is the requested one. */
    method TextureIndex() returns (index: nat)
      ensures index == requestIndex
    {
      index := requestIndex;
    }
  }
}
