/** The cursor request rule the cursor components of three generations
  * share (crate/src/cursor.rs `SoftwareCursor`,
  * crates/bevy_lunex/src/interaction/cursor2d.rs and
  * crates/bevy_lunex/src/logic/cursor.rs `Cursor2d`): within a tick a
  * request replaces the held one only with a strictly greater priority, the
  * tick starts from the default icon at priority 0, and an icon is drawn
  * with the atlas index registered for it, or 0. */
module CursorRequests {
  import opened Base

  /** A cursor icon: the default arrow, or another by its name. */
  datatype Icon = Default | Named(name: string)

  /** The icon a cursor holds and the priority it was requested with. */
  datatype Request = Request(icon: Icon, priority: real)

  /** What `cursor_preupdate` resets a cursor to. */
  const Reset := Request(Default, 0.0)

  /** `request_cursor`: a strictly greater priority takes over. */
  function Requested(r: Request, icon: Icon, priority: real): (r': Request)
    ensures r'.priority == Max(r.priority, priority)
    ensures r' == r || r' == Request(icon, priority)
    ensures r' != r ==> priority > r.priority
  {
    if priority > r.priority then Request(icon, priority) else r
  }

  /** Requests made one after the other. */
  function RequestAll(r: Request, requests: seq<Request>): Request
    decreases |requests|
  {
    if |requests| == 0 then r
    else
      var last := requests[|requests| - 1];
      Requested(RequestAll(r, requests[..|requests| - 1]), last.icon, last.priority)
  }

  lemma RequestAllAppend(r: Request, requests: seq<Request>, next: Request)
    ensures RequestAll(r, requests + [next]) == Requested(RequestAll(r, requests), next.icon, next.priority)
  {
    assert (requests + [next])[..|requests|] == requests;
  }

  /** After requests in a row the cursor holds the greatest priority, and
    * the icon of the first request that reached it when that beats the
    * held one; otherwise it keeps what it held. */
  lemma {:induction false} RequestAllFirstGreatest(r: Request, requests: seq<Request>)
    ensures var q := RequestAll(r, requests);
            q.priority >= r.priority && (forall i :: 0 <= i < |requests| ==> q.priority >= requests[i].priority)
    ensures var q := RequestAll(r, requests);
            q == r || exists i :: 0 <= i < |requests| && requests[i] == q && q.priority > r.priority &&
                                  forall j :: 0 <= j < i ==> requests[j].priority < q.priority
    ensures var q := RequestAll(r, requests);
            q == r <==> forall i :: 0 <= i < |requests| ==> requests[i].priority <= r.priority
    decreases |requests|
  {
    if |requests| > 0 {
      var n := |requests|;
      var init, last := requests[..n - 1], requests[n - 1];
      RequestAllFirstGreatest(r, init);
      var p := RequestAll(r, init);
      var q := RequestAll(r, requests);
      assert q == Requested(p, last.icon, last.priority);
      if q != p {
        assert q == last;
        assert forall j :: 0 <= j < n - 1 ==> requests[j] == init[j];
        assert forall j :: 0 <= j < n - 1 ==> requests[j].priority < q.priority;
      } else if q != r {
        var i :| 0 <= i < n - 1 && init[i] == q && q.priority > r.priority &&
                 forall j :: 0 <= j < i ==> init[j].priority < q.priority;
        assert requests[i] == init[i];
        assert forall j :: 0 <= j < i ==> requests[j] == init[j];
      }
      if q == r {
        assert forall i :: 0 <= i < n - 1 ==> requests[i] == init[i];
      } else {
        assert q.priority > r.priority;
      }
    }
  }

  /** So after the reset a cursor shows the default icon until a request
    * with a positive priority arrives. */
  lemma ResetThenNothingPositive(requests: seq<Request>)
    requires forall i :: 0 <= i < |requests| ==> requests[i].priority <= 0.0
    ensures RequestAll(Reset, requests) == Reset
  {
    RequestAllFirstGreatest(Reset, requests);
  }

  /** The atlas index of an icon: the registered one, or 0. */
  function AtlasIndex(atlas: map<Icon, (nat, Vec2)>, icon: Icon): (k: nat)
    ensures icon in atlas ==> k == atlas[icon].0
    ensures icon !in atlas ==> k == 0
  {
    if icon in atlas then atlas[icon].0 else 0
  }

  /** The sprite offset of an icon: the registered one, or zero. */
  function AtlasOffset(atlas: map<Icon, (nat, Vec2)>, icon: Icon): (o: Vec2)
    ensures icon in atlas ==> o == atlas[icon].1
    ensures icon !in atlas ==> o == Zero2
  {
    if icon in atlas then atlas[icon].1 else Zero2
  }

  /** Registering an icon decides its index and offset and no other's. */
  lemma RegisterDecides(atlas: map<Icon, (nat, Vec2)>, icon: Icon, index: nat, offset: Vec2, other: Icon)
    ensures AtlasIndex(atlas[icon := (index, offset)], icon) == index
    ensures AtlasOffset(atlas[icon := (index, offset)], icon) == offset
    ensures other != icon ==> AtlasIndex(atlas[icon := (index, offset)], other) == AtlasIndex(atlas, other)
  {
  }
}
