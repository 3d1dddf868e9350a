/** crate/src/cursor.rs: the cursor icon queue of the newest generation
  * and its `SoftwareCursor`. Each pointer keeps the window it points into,
  * the requests of the entities it hovers (icon and integer priority, one
  * per entity) and the top request chosen from them; hovering an entity
  * that asks for a cursor files its request at priority 1, leaving it
  * cancels it, and a purge drops the requests of despawned entities and the
  * pointers of closed windows. The Bevy systems are modelled by the rule
  * each applies per pointer; which entities and windows still exist are
  * parameters. */
module CrateCursor {
  import opened Base
  import opened CursorRequests

  /** An entity, by its identifier. */
  type Entity = nat

  /** A pointer, by its identifier. */
  type PointerId = nat

  /** The queue's requests of one pointer: by requesting entity, the icon
    * and the priority. */
  type Queue = map<Entity, (Icon, nat)>

  /** `CursorQueueData`. */
  datatype QueueData = QueueData(window: Option<Entity>, topPriority: nat, topRequest: Icon, queue: Queue)

  /** `CursorIconQueue::request_cursor`: the requestee's request is filed
    * (replacing its earlier one) under its pointer, whose window is set;
    * a pointer not seen before starts with no top request. */
  function Filed(pointers: map<PointerId, QueueData>, pointer: PointerId, window: Option<Entity>,
                 requestee: Entity, icon: Icon, priority: nat): (r: map<PointerId, QueueData>)
    ensures r.Keys == pointers.Keys + {pointer}
    ensures forall p :: p in pointers && p != pointer ==> r[p] == pointers[p]
    ensures r[pointer].window == window
    ensures r[pointer].queue.Keys == QueueOf(pointers, pointer).Keys + {requestee}
    ensures r[pointer].queue[requestee] == (icon, priority)
    ensures forall e :: e in r[pointer].queue && e != requestee ==> r[pointer].queue[e] == QueueOf(pointers, pointer)[e]
    ensures pointer in pointers ==> r[pointer].topPriority == pointers[pointer].topPriority &&
                                    r[pointer].topRequest == pointers[pointer].topRequest
    ensures pointer !in pointers ==> r[pointer].topPriority == 0 && r[pointer].topRequest == Default
  {
    if pointer in pointers then
      var data := pointers[pointer];
      pointers[pointer := data.(window := window, queue := data.queue[requestee := (icon, priority)])]
    else
      pointers[pointer := QueueData(window, 0, Default, map[requestee := (icon, priority)])]
  }

  /** The requests filed under a pointer, none for an unknown one. */
  function QueueOf(pointers: map<PointerId, QueueData>, pointer: PointerId): Queue
  {
    if pointer in pointers then pointers[pointer].queue else map[]
  }

  /** `CursorIconQueue::cancel_cursor`: the requestee's request leaves the
    * pointer's queue; an unknown pointer changes nothing. */
  function Cancelled(pointers: map<PointerId, QueueData>, pointer: PointerId, requestee: Entity): (r: map<PointerId, QueueData>)
    ensures r.Keys == pointers.Keys
    ensures forall p :: p in pointers && p != pointer ==> r[p] == pointers[p]
    ensures pointer in pointers ==> r[pointer] == pointers[pointer].(queue := pointers[pointer].queue - {requestee})
    ensures requestee !in QueueOf(r, pointer)
  {
    if pointer in pointers then
      pointers[pointer := pointers[pointer].(queue := pointers[pointer].queue - {requestee})]
    else pointers
  }

  /** The top of a queue, as the selection loop of
    * `system_cursor_icon_queue_apply` finds it: no request has a higher
    * priority, a priority of 0 means the default icon, and a positive one
    * belongs to a request of the queue with that icon. */
  predicate IsTop(queue: Queue, top: nat, icon: Icon)
  {
    (forall e :: e in queue ==> queue[e].1 <= top) &&
    (top == 0 ==> icon == Default) &&
    (top > 0 ==> exists e :: e in queue && queue[e] == (icon, top))
  }

  /** The selection loop, over the queue in whatever order the map gives:
    * a request takes over only with a priority strictly above the running
    * top, which starts at 0 with the default icon. */
  method SelectTop(queue: Queue) returns (top: nat, icon: Icon)
    ensures IsTop(queue, top, icon)
  {
    top, icon := 0, Default;
    var rest := queue.Keys;
    while rest != {}
      invariant rest <= queue.Keys
      invariant forall e :: e in queue && e !in rest ==> queue[e].1 <= top
      invariant top == 0 ==> icon == Default
      invariant top > 0 ==> exists e :: e in queue && queue[e] == (icon, top)
      decreases rest
    {
      var e :| e in rest;
      if queue[e].1 > top {
        top, icon := queue[e].1, queue[e].0;
      }
      rest := rest - {e};
    }
  }

  /** Whatever order the loop visits the queue in, the top priority is the
    * same, and so is the icon unless requests tie at the top with different
    * icons. */
  lemma TopIsUnique(queue: Queue, top1: nat, icon1: Icon, top2: nat, icon2: Icon)
    requires IsTop(queue, top1, icon1) && IsTop(queue, top2, icon2)
    ensures top1 == top2
    ensures (forall e, f :: e in queue && f in queue && queue[e].1 == queue[f].1 == top1 ==> queue[e].0 == queue[f].0) ==> icon1 == icon2
  {
    if top1 > 0 {
      var e :| e in queue && queue[e] == (icon1, top1);
      assert queue[e].1 <= top2;
    }
    if top2 > 0 {
      var f :| f in queue && queue[f] == (icon2, top2);
      assert queue[f].1 <= top1;
    }
  }

  /** The default icon is the top exactly when no request has a positive
    * priority. */
  lemma DefaultTopIffNothingPositive(queue: Queue, top: nat, icon: Icon)
    requires IsTop(queue, top, icon)
    ensures top == 0 <==> forall e :: e in queue ==> queue[e].1 == 0
  {
    if top > 0 {
      var e :| e in queue && queue[e] == (icon, top);
    }
  }

  /** A request above the top becomes the top, whatever the requestee
    * asked for before. */
  lemma HigherRequestTakesTop(queue: Queue, top: nat, icon: Icon, requestee: Entity, icon': Icon, priority: nat)
    requires IsTop(queue, top, icon) && priority > top
    ensures IsTop(queue[requestee := (icon', priority)], priority, icon')
  {
    var q := queue[requestee := (icon', priority)];
    assert q[requestee] == (icon', priority);
  }

  /** A new requestee asking for no more than the top leaves it in place. */
  lemma LowerRequestKeepsTop(queue: Queue, top: nat, icon: Icon, requestee: Entity, icon': Icon, priority: nat)
    requires IsTop(queue, top, icon) && priority <= top && requestee !in queue
    ensures IsTop(queue[requestee := (icon', priority)], top, icon)
  {
    if top > 0 {
      var e :| e in queue && queue[e] == (icon, top);
      assert e != requestee;
      assert queue[requestee := (icon', priority)][e] == (icon, top);
    }
  }

  /** A queue left with the requests of live entities only. */
  function LiveQueue(queue: Queue, alive: set<Entity>): (q: Queue)
    ensures q.Keys == queue.Keys * alive
    ensures forall e :: e in q ==> q[e] == queue[e]
  {
    map e | e in queue && e in alive :: queue[e]
  }

  /** A pointer whose window no longer exists; a pointer with no window
    * (a gamepad's) is never dropped. */
  predicate WindowGone(data: QueueData, windows: set<Entity>)
  {
    data.window.Some? && data.window.value !in windows
  }

  /** `system_cursor_icon_queue_purge` over all pointers. */
  function Purged(pointers: map<PointerId, QueueData>, alive: set<Entity>, windows: set<Entity>): (r: map<PointerId, QueueData>)
    ensures forall p :: p in r <==> p in pointers && !WindowGone(pointers[p], windows)
    ensures forall p :: p in r ==> r[p] == pointers[p].(queue := LiveQueue(pointers[p].queue, alive))
  {
    map p | p in pointers && !WindowGone(pointers[p], windows) :: pointers[p].(queue := LiveQueue(pointers[p].queue, alive))
  }

  /** The inner purge loops for one pointer: collect the despawned
    * requestees, then remove them. */
  method PurgeQueue(queue: Queue, alive: set<Entity>) returns (q: Queue)
    ensures q == LiveQueue(queue, alive)
  {
    var dead: set<Entity> := {};
    var rest := queue.Keys;
    while rest != {}
      invariant rest <= queue.Keys
      invariant dead == set e | e in queue && e !in rest && e !in alive
      decreases rest
    {
      var e :| e in rest;
      if e !in alive {
        dead := dead + {e};
      }
      rest := rest - {e};
    }
    q := queue;
    var gone := dead;
    while gone != {}
      invariant gone <= dead
      invariant q.Keys == queue.Keys - (dead - gone)
      invariant forall e :: e in q ==> q[e] == queue[e]
      decreases gone
    {
      var e :| e in gone;
      q := q - {e};
      gone := gone - {e};
    }
  }

  /** `CursorIconQueue`: the resource the systems and observers update. */
  class CursorIconQueue {
    var pointers: map<PointerId, QueueData>

    /** `CursorIconQueue::default`. */
    constructor ()
      ensures pointers == map[]
    {
      pointers := map[];
    }

    /** `request_cursor`. */
    method RequestCursor(pointer: PointerId, window: Option<Entity>, requestee: Entity, icon: Icon, priority: nat)
      modifies this
      ensures pointers == Filed(old(pointers), pointer, window, requestee, icon, priority)
    {
      if pointer in pointers {
        var data := pointers[pointer];
        pointers := pointers[pointer := data.(window := window, queue := data.queue[requestee := (icon, priority)])];
      } else {
        var queue: Queue := map[];
        queue := queue[requestee := (icon, priority)];
        pointers := pointers[pointer := QueueData(window, 0, Default, queue)];
      }
    }

    /** `cancel_cursor`. */
    method CancelCursor(pointer: PointerId, requestee: Entity)
      modifies this
      ensures pointers == Cancelled(old(pointers), pointer, requestee)
    {
      if pointer in pointers {
        var data := pointers[pointer];
        pointers := pointers[pointer := data.(queue := data.queue - {requestee})];
      }
    }

    /** The loop of `system_cursor_icon_queue_apply` that records each
      * pointer's top request; handing it to the window is left out. */
    method ApplyTops()
      modifies this
      ensures pointers.Keys == old(pointers).Keys
      ensures forall p :: p in pointers ==> pointers[p].window == old(pointers)[p].window &&
                                            pointers[p].queue == old(pointers)[p].queue &&
                                            IsTop(pointers[p].queue, pointers[p].topPriority, pointers[p].topRequest)
    {
      var rest := pointers.Keys;
      while rest != {}
        invariant rest <= pointers.Keys && pointers.Keys == old(pointers).Keys
        invariant forall p :: p in pointers ==> pointers[p].window == old(pointers)[p].window &&
                                                pointers[p].queue == old(pointers)[p].queue
        invariant forall p :: p in pointers && p !in rest ==> IsTop(pointers[p].queue, pointers[p].topPriority, pointers[p].topRequest)
        decreases rest
      {
        var p :| p in rest;
        var top, icon := SelectTop(pointers[p].queue);
        pointers := pointers[p := pointers[p].(topPriority := top, topRequest := icon)];
        rest := rest - {p};
      }
    }

    /** `system_cursor_icon_queue_purge`: one loop purges each pointer's
      * queue and collects every pointer of closed windows, a second removes
      * those. */
    method Purge(alive: set<Entity>, windows: set<Entity>)
      modifies this
      ensures pointers == Purged(old(pointers), alive, windows)
    {
      var before := pointers;
      var closed: set<PointerId> := {};
      var next := pointers;
      var rest := pointers.Keys;
      while rest != {}
        invariant rest <= before.Keys && next.Keys == before.Keys
        invariant closed == set p | p in before && p !in rest && WindowGone(before[p], windows)
        invariant forall p :: p in next && p in rest ==> next[p] == before[p]
        invariant forall p :: p in next && p !in rest ==> next[p] == before[p].(queue := LiveQueue(before[p].queue, alive))
        decreases rest
      {
        var p :| p in rest;
        if WindowGone(next[p], windows) {
          closed := closed + {p};
        }
        var q := PurgeQueue(next[p].queue, alive);
        next := next[p := next[p].(queue := q)];
        rest := rest - {p};
      }
      var gone := closed;
      while gone != {}
        invariant gone <= closed
        invariant next.Keys == before.Keys - (closed - gone)
        invariant forall p :: p in next ==> next[p] == before[p].(queue := LiveQueue(before[p].queue, alive))
        decreases gone
      {
        var p :| p in gone;
        next := next - {p};
        gone := gone - {p};
      }
      pointers := next;
    }
  }

  // ---------------------------------------------------------------------
  // The observers

  /** `observer_cursor_request_cursor_icon`: the hovered entity's cursor is
    * requested at priority 1, with no window for a gamepad's pointer. */
  function HoverRequest(pointers: map<PointerId, QueueData>, pointer: PointerId, window: Entity, isGamepad: bool, target: Entity, icon: Icon): (r: map<PointerId, QueueData>)
    ensures pointer in r && target in r[pointer].queue && r[pointer].queue[target] == (icon, 1) && (r[pointer].window.None? <==> isGamepad)
    ensures forall p :: p in pointers && p != pointer ==> p in r && r[p] == pointers[p]
  {
    Filed(pointers, pointer, if isGamepad then None else Some(window), target, icon, 1)
  }

  /** `observer_cursor_cancel_cursor_icon`. */
  function HoverOut(pointers: map<PointerId, QueueData>, pointer: PointerId, target: Entity): (r: map<PointerId, QueueData>)
    ensures target !in QueueOf(r, pointer)
    ensures forall e :: e in QueueOf(pointers, pointer) && e != target ==>
              e in QueueOf(r, pointer) && QueueOf(r, pointer)[e] == QueueOf(pointers, pointer)[e]
    ensures forall p :: p in pointers && p != pointer ==> p in r && r[p] == pointers[p]
  {
    Cancelled(pointers, pointer, target)
  }

  /** Hovering files priority 1 under its pointer, and a gamepad's pointer
    * survives every purge. */
  lemma HoverFilesPriorityOne(pointers: map<PointerId, QueueData>, pointer: PointerId, window: Entity, isGamepad: bool,
                              target: Entity, icon: Icon, alive: set<Entity>, windows: set<Entity>)
    ensures var r := HoverRequest(pointers, pointer, window, isGamepad, target, icon);
            r[pointer].queue[target] == (icon, 1) && (r[pointer].window.None? <==> isGamepad)
    ensures isGamepad ==> pointer in Purged(HoverRequest(pointers, pointer, window, isGamepad, target, icon), alive, windows)
  {
  }

  /** Over a single hovered entity the top is its cursor at priority 1. */
  lemma HoverAloneIsTop(pointers: map<PointerId, QueueData>, pointer: PointerId, window: Entity, isGamepad: bool,
                        target: Entity, icon: Icon, top: nat, shown: Icon)
    requires QueueOf(pointers, pointer) == map[]
    requires IsTop(HoverRequest(pointers, pointer, window, isGamepad, target, icon)[pointer].queue, top, shown)
    ensures top == 1 && shown == icon
  {
    var q := HoverRequest(pointers, pointer, window, isGamepad, target, icon)[pointer].queue;
    assert q == map[target := (icon, 1)];
    var e :| e in q && q[e] == (shown, top);
  }

  /** Leaving an entity whose request was the only thing filed empties
    * the queue again, so the top falls back to the default icon. */
  lemma {:induction false} HoverThenOutRestoresQueue(pointers: map<PointerId, QueueData>, pointer: PointerId, window: Entity,
                                                     isGamepad: bool, target: Entity, icon: Icon)
    requires target !in QueueOf(pointers, pointer)
    ensures QueueOf(HoverOut(HoverRequest(pointers, pointer, window, isGamepad, target, icon), pointer, target), pointer)
            == QueueOf(pointers, pointer)
  {
    var r := HoverRequest(pointers, pointer, window, isGamepad, target, icon);
    var s := HoverOut(r, pointer, target);
    var before := QueueOf(pointers, pointer);
    assert QueueOf(s, pointer) == r[pointer].queue - {target};
    assert QueueOf(s, pointer).Keys == before.Keys;
  }

  /** After a purge every filed request belongs to a live entity and every
    * pointer has a window that exists or none; purging again changes
    * nothing. */
  lemma PurgeCleansAndSettles(pointers: map<PointerId, QueueData>, alive: set<Entity>, windows: set<Entity>)
    ensures var r := Purged(pointers, alive, windows);
            forall p :: p in r ==> r[p].queue.Keys <= alive && !WindowGone(r[p], windows)
    ensures Purged(Purged(pointers, alive, windows), alive, windows) == Purged(pointers, alive, windows)
  {
    var r := Purged(pointers, alive, windows);
    var r2 := Purged(r, alive, windows);
    assert r2.Keys == r.Keys;
    forall p | p in r
      ensures r2[p] == r[p]
    {
      assert LiveQueue(r[p].queue, alive) == r[p].queue;
    }
  }

  /** A purge keeps the request of a live entity under a pointer whose
    * window exists. */
  lemma PurgeKeepsLiveRequests(pointers: map<PointerId, QueueData>, alive: set<Entity>, windows: set<Entity>,
                               p: PointerId, e: Entity)
    requires p in pointers && e in pointers[p].queue && e in alive && !WindowGone(pointers[p], windows)
    ensures p in Purged(pointers, alive, windows) && Purged(pointers, alive, windows)[p].queue[e] == pointers[p].queue[e]
  {
  }

  // ---------------------------------------------------------------------
  // The software cursor

  /** `SoftwareCursor`. */
  class SoftwareCursor {
    var request: Icon
    var priority: real
    var atlas: map<Icon, (nat, Vec2)>
    var location: Vec2

    function State(): Request
      reads this
    {
      Request(request, priority)
    }

    /** `SoftwareCursor::new`. */
    constructor ()
      ensures State() == Reset && atlas == map[] && location == Zero2
    {
      request, priority := Default, 0.0;
      atlas := map[];
      location := Zero2;
    }

    /** `request_cursor`. */
    method RequestCursor(icon: Icon, p: real)
      modifies this
      ensures State() == Requested(old(State()), icon, p)
      ensures atlas == old(atlas) && location == old(location)
    {
      if p > priority {
        request := icon;
        priority := p;
      }
    }

    /** `set_index`. */
    method SetIndex(icon: Icon, index: nat, offset: Vec2)
      modifies this
      ensures atlas == old(atlas)[icon := (index, offset)]
      ensures State() == old(State()) && location == old(location)
    {
      atlas := atlas[icon := (index, offset)];
    }
  }

  /** `system_cursor_software_change_icon` for one cursor sprite with an
    * atlas: the atlas index of its pointer's top request, or the index it
    * had when the queue does not know that pointer. */
  function SpriteIndex(atlas: map<Icon, (nat, Vec2)>, pointers: map<PointerId, QueueData>, pointer: PointerId, index: nat): (k: nat)
    ensures pointer !in pointers ==> k == index
    ensures pointer in pointers && pointers[pointer].topRequest !in atlas ==> k == 0
  {
    if pointer in pointers then AtlasIndex(atlas, pointers[pointer].topRequest) else index
  }

  /** The sprite shows the index bound to its pointer's top icon. */
  lemma SetIndexShows(atlas: map<Icon, (nat, Vec2)>, pointers: map<PointerId, QueueData>, pointer: PointerId,
                      icon: Icon, index: nat, offset: Vec2, old_index: nat)
    requires pointer in pointers && pointers[pointer].topRequest == icon
    ensures SpriteIndex(atlas[icon := (index, offset)], pointers, pointer, old_index) == index
  {
    RegisterDecides(atlas, icon, index, offset, icon);
  }
}
