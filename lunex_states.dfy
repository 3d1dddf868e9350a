/** crates/bevy_lunex/src/logic/states.rs: `UiAnimation`, the per-entity
  * state transition of the bevy_lunex crate. A tick moves the transition
  * towards 1 while the direction is 1 and towards 0 otherwise, at the
  * speed of that direction, clamped to [0, 1]; the events overwrite the
  * transition or the direction, and a pipe forwards the transition of a
  * changing state to other entities. The Bevy systems around these rules
  * are not modelled: each rule is one method or function here. */
module LunexStates {
  import opened Base

  /** An entity, by its identifier. */
  type Entity = nat

  /** `f32::clamp`. */
  function Clamp(x: real, lo: real, hi: real): (r: real)
    requires lo <= hi
    ensures lo <= r <= hi
    ensures lo <= x <= hi ==> r == x
    ensures x < lo ==> r == lo
    ensures hi < x ==> r == hi
  {
    if x < lo then lo else if hi < x then hi else x
  }

  /** The fields of `UiAnimation`, as one value. */
  datatype Animation = Animation(
    direction: real,
    transition: real,
    previous: real,
    isChanging: bool,
    receiver: bool,
    speedForward: real,
    speedBackward: real)

  /** `UiAnimation::new`. */
  const NewAnimation := Animation(0.0, 0.0, 0.0, false, false, 8.0, 8.0)

  /** `is_forward`: the direction is exactly 1. */
  function IsForward(a: Animation): (r: bool)
    ensures r ==> a.direction > 0.0 && a.direction * a.speedForward == a.speedForward
    ensures a.direction <= 0.0 ==> !r
    ensures a == NewAnimation ==> !r
  {
    a.direction == 1.0
  }

  /** The speed a tick uses: the forward speed when moving forward, the
    * backward speed for any other direction. */
  function Speed(a: Animation): real
  {
    if IsForward(a) then a.speedForward else a.speedBackward
  }

  /** The transition a non-receiver tick of length `dt` reaches. */
  function Advance(a: Animation, dt: real): (t: real)
    ensures 0.0 <= t <= 1.0
    ensures var moved := a.transition + dt * a.direction * Speed(a);
            0.0 <= moved <= 1.0 ==> t == moved
  {
    Clamp(a.transition + dt * a.direction * Speed(a), 0.0, 1.0)
  }

  /** One tick of the `ui_animation` system: the change flag compares the
    * transition with the one of the last tick, which the tick then
    * records; a receiver stops there, any other advances and clamps. */
  function Tick(a: Animation, dt: real): (b: Animation)
    ensures b.isChanging <==> a.previous != a.transition
    ensures b.previous == a.transition
    ensures a.receiver ==> b.transition == a.transition
    ensures !a.receiver ==> 0.0 <= b.transition <= 1.0 && b.transition == Advance(a, dt)
    ensures b.(isChanging := a.isChanging, previous := a.previous, transition := a.transition) == a
  {
    var b := a.(isChanging := a.previous != a.transition, previous := a.transition);
    if b.receiver then b else b.(transition := Advance(b, dt))
  }

  /** `set_ui_state_transition` for one event aimed at this entity. */
  function SetTransition(a: Animation, t: real): (b: Animation)
    ensures b.transition == t && b.(transition := a.transition) == a
  {
    if a.transition != t then a.(transition := t) else a
  }

  /** The events the pipe sends for one state: its transition to each listed
    * entity, in order, but only while it is changing. */
  function PipeEvents(a: Animation, entities: seq<Entity>): (r: seq<(Entity, real)>)
    ensures a.isChanging ==> |r| == |entities| && forall i :: 0 <= i < |r| ==> r[i] == (entities[i], a.transition)
    ensures !a.isChanging ==> r == []
  {
    if a.isChanging then seq(|entities|, i requires 0 <= i < |entities| => (entities[i], a.transition)) else []
  }

  /** `ui_state_pipe_system` for one state: the loop over the pipe's
    * entities. */
  method Pipe(a: Animation, entities: seq<Entity>) returns (events: seq<(Entity, real)>)
    ensures events == PipeEvents(a, entities)
  {
    events := [];
    if !a.isChanging {
      return;
    }
    var i := 0;
    while i < |entities|
      invariant 0 <= i <= |entities|
      invariant |events| == i && forall j :: 0 <= j < i ==> events[j] == (entities[j], a.transition)
    {
      events := events + [(entities[i], a.transition)];
      i := i + 1;
    }
  }

  /** `set_ui_color` for one entity: while its state is changing it asks
    * for the base colour mixed towards the state's colour by the
    * transition; otherwise it sends nothing. The colour type and its mix
    * belong to Bevy and are parameters here. */
  function ColorEvent<C>(a: Animation, base: C, stateColor: C, mix: (C, C, real) -> C): (r: Option<C>)
    ensures r.Some? <==> a.isChanging
    ensures r.Some? ==> r.value == mix(base, stateColor, a.transition)
  {
    if a.isChanging then Some(mix(base, stateColor, a.transition)) else None
  }

  /** `UiAnimation`: the component whose fields the systems update. */
  class UiAnimation {
    var direction: real
    var transition: real
    var previous: real
    var isChanging: bool
    var receiver: bool
    var speedForward: real
    var speedBackward: real

    function Value(): Animation
      reads this
    {
      Animation(direction, transition, previous, isChanging, receiver, speedForward, speedBackward)
    }

    /** `UiAnimation::new`. */
    constructor ()
      ensures Value() == NewAnimation
    {
      direction, transition, previous := 0.0, 0.0, 0.0;
      isChanging, receiver := false, false;
      speedBackward, speedForward := 8.0, 8.0;
    }

    /** `receiver`. */
    method SetReceiver(b: bool)
      modifies this
      ensures Value() == old(Value()).(receiver := b)
    {
      receiver := b;
    }

    /** `forward_speed`. */
    method SetForwardSpeed(speed: real)
      modifies this
      ensures Value() == old(Value()).(speedForward := speed)
    {
      speedForward := speed;
    }

    /** `backward_speed`. */
    method SetBackwardSpeed(speed: real)
      modifies this
      ensures Value() == old(Value()).(speedBackward := speed)
    {
      speedBackward := speed;
    }

    /** The body of the `ui_animation` loop for this entity. */
    method Update(dt: real)
      modifies this
      ensures Value() == Tick(old(Value()), dt)
    {
      isChanging := previous != transition;
      previous := transition;
      if receiver {
        return;
      }
      transition := transition + dt * direction * (if direction == 1.0 then speedForward else speedBackward);
      transition := Clamp(transition, 0.0, 1.0);
    }

    /** A `SetUiStateTransition` event aimed at this entity. */
    method OnSetTransition(t: real)
      modifies this
      ensures Value() == SetTransition(old(Value()), t)
    {
      if transition != t {
        transition := t;
      }
    }

    /** `hover_enter_system`: a pointer moved over the entity. */
    method OnPointerOver()
      modifies this
      ensures Value() == old(Value()).(direction := 1.0)
      ensures IsForward(Value())
    {
      direction := 1.0;
    }

    /** `hover_leave_system`: a pointer left the entity. */
    method OnPointerOut()
      modifies this
      ensures Value() == old(Value()).(direction := -1.0)
      ensures !IsForward(Value())
    {
      direction := -1.0;
    }
  }

  // ---------------------------------------------------------------------
  // Properties

  /** From rest, a forward tick of 0.1 s at speed 5 reaches half way. */
  lemma ForwardTickExample()
    ensures Tick(NewAnimation.(direction := 1.0, speedForward := 5.0), 0.1).transition == 0.5
  {
    var a := NewAnimation.(direction := 1.0, speedForward := 5.0);
    assert a.transition + 0.1 * a.direction * Speed(a) == 0.5;
  }

  /** Moving forward never lowers the transition and moving backward never
    * raises it, when the tick and the speeds are not negative and the
    * transition starts in [0, 1]. */
  lemma {:induction false} TickMonotone(a: Animation, dt: real)
    requires !a.receiver && 0.0 <= a.transition <= 1.0
    requires dt >= 0.0 && a.speedForward >= 0.0 && a.speedBackward >= 0.0
    ensures a.direction == 1.0 ==> Tick(a, dt).transition >= a.transition
    ensures a.direction == -1.0 ==> Tick(a, dt).transition <= a.transition
  {
    var step := dt * a.direction * Speed(a);
    if a.direction == 1.0 {
      assert step == dt * a.speedForward;
      MulNonNegative(dt, a.speedForward);
    } else if a.direction == -1.0 {
      assert step == -(dt * a.speedBackward);
      MulNonNegative(dt, a.speedBackward);
    }
  }

  lemma MulNonNegative(x: real, y: real)
    requires x >= 0.0 && y >= 0.0
    ensures x * y >= 0.0
  {
  }

  /** Two ticks: the second reports a change exactly when the first moved
    * the transition. */
  lemma SecondTickReportsFirstMove(a: Animation, dt1: real, dt2: real)
    ensures Tick(Tick(a, dt1), dt2).isChanging <==> Tick(a, dt1).transition != a.transition
  {
  }

  /** A receiver keeps the transition it is piped until the next event. */
  lemma ReceiverKeepsPipedValue(a: Animation, t: real, dt: real)
    requires a.receiver
    ensures Tick(SetTransition(a, t), dt).transition == t
    ensures Tick(Tick(SetTransition(a, t), dt), dt).isChanging == false
  {
  }

  /** Piping a changing state into a receiver hands it the source's
    * transition. */
  lemma PipeDeliversTransition(source: Animation, target: Animation, entities: seq<Entity>, k: nat)
    requires source.isChanging && k < |entities|
    ensures var e := PipeEvents(source, entities)[k];
            e.0 == entities[k] && SetTransition(target, e.1).transition == source.transition
  {
  }
}
