/** crate/src/states.rs: `UiHover`, the hover state of the newest
  * generation. While enabled its value climbs towards 1 at the forward
  * speed, while disabled it falls towards 0 at the backward speed, each
  * tick capped at the end it moves to; `value()` reads the value through
  * the state's curve. The observers are modelled by what they write. */
module CrateStates {
  /** The numeric fields of `UiHover`, as one value; the curve stays in
    * the component. */
  datatype Hover = Hover(value: real, enable: bool, forwardSpeed: real, backwardSpeed: real)

  /** `UiHover::new`, without its identity curve. */
  const NewHover := Hover(0.0, false, 1.0, 1.0)

  function Min(a: real, b: real): real { if a <= b then a else b }
  function Max(a: real, b: real): real { if a >= b then a else b }

  /** One tick of `system_state_hover_update` for one entity. */
  function Step(h: Hover, dt: real): (r: Hover)
    ensures r.(value := h.value) == h
    ensures h.enable && h.value < 1.0 ==> r.value == Min(h.value + h.forwardSpeed * dt, 1.0)
    ensures !h.enable && h.value > 0.0 ==> r.value == Max(h.value - h.backwardSpeed * dt, 0.0)
    ensures (h.enable && h.value >= 1.0) || (!h.enable && h.value <= 0.0) ==> r == h
  {
    if h.enable && h.value < 1.0 then h.(value := Min(h.value + h.forwardSpeed * dt, 1.0))
    else if !h.enable && h.value > 0.0 then h.(value := Max(h.value - h.backwardSpeed * dt, 0.0))
    else h
  }

  /** `UiHover`: the component the systems and observers update. */
  class UiHover {
    var value: real
    var enable: bool
    var curve: real -> real
    var forwardSpeed: real
    var backwardSpeed: real

    function State(): Hover
      reads this
    {
      Hover(value, enable, forwardSpeed, backwardSpeed)
    }

    /** `UiHover::new`: at rest, disabled, with the identity curve. */
    constructor ()
      ensures State() == NewHover && forall v :: curve(v) == v
    {
      value, enable := 0.0, false;
      curve := v => v;
      forwardSpeed, backwardSpeed := 1.0, 1.0;
    }

    /** `curve`. */
    method SetCurve(f: real -> real)
      modifies this
      ensures State() == old(State()) && curve == f
    {
      curve := f;
    }

    /** `forward_speed`. */
    method SetForwardSpeed(speed: real)
      modifies this
      ensures State() == old(State()).(forwardSpeed := speed) && curve == old(curve)
    {
      forwardSpeed := speed;
    }

    /** `backward_speed`. */
    method SetBackwardSpeed(speed: real)
      modifies this
      ensures State() == old(State()).(backwardSpeed := speed) && curve == old(curve)
    {
      backwardSpeed := speed;
    }

    /** `value()`: the stored value through the curve. */
    function Value(): real
      reads this
    {
      curve(value)
    }

    /** The body of the update loop for this entity: two separate tests,
      * of which at most one holds. */
    method Update(dt: real)
      modifies this
      ensures State() == Step(old(State()), dt) && curve == old(curve)
    {
      if enable == true && value < 1.0 {
        value := Min(value + forwardSpeed * dt, 1.0);
      }
      if enable == false && value > 0.0 {
        value := Max(value - backwardSpeed * dt, 0.0);
      }
    }

    /** `observer_state_hover_set`: a `UiHoverSet(b)` aimed at this entity;
      * `hover_set` sends `true` on pointer over and `false` on pointer out. */
    method OnHoverSet(b: bool)
      modifies this
      ensures State() == old(State()).(enable := b) && curve == old(curve)
    {
      enable := b;
    }
  }

  // ---------------------------------------------------------------------
  // Properties

  /** With a tick and speeds that are not negative, a value in [0, 1]
    * stays there, and it moves towards the end the state points to. */
  lemma StepKeepsRange(h: Hover, dt: real)
    requires 0.0 <= h.value <= 1.0 && dt >= 0.0 && h.forwardSpeed >= 0.0 && h.backwardSpeed >= 0.0
    ensures 0.0 <= Step(h, dt).value <= 1.0
    ensures h.enable ==> Step(h, dt).value >= h.value
    ensures !h.enable ==> Step(h, dt).value <= h.value
  {
    MulNonNegative(h.forwardSpeed, dt);
    MulNonNegative(h.backwardSpeed, dt);
  }

  lemma MulNonNegative(x: real, y: real)
    requires x >= 0.0 && y >= 0.0
    ensures x * y >= 0.0
  {
  }

  /** Repeated ticks of the same length. */
  function Steps(h: Hover, dt: real, n: nat): Hover
    decreases n
  {
    if n == 0 then h else Steps(Step(h, dt), dt, n - 1)
  }

  /** An enabled hover with a positive speed and tick reaches 1 and stays
    * there: after `n` ticks its value is at least the smaller of 1 and its
    * start plus `n` forward steps. */
  lemma {:induction false} EnabledClimbs(h: Hover, dt: real, n: nat)
    requires h.enable && 0.0 <= h.value <= 1.0 && dt >= 0.0 && h.forwardSpeed >= 0.0
    ensures Steps(h, dt, n).value >= Min(h.value + n as real * (h.forwardSpeed * dt), 1.0)
    ensures Steps(h, dt, n).value <= 1.0 && Steps(h, dt, n).enable
    decreases n
  {
    if n > 0 {
      var s := h.forwardSpeed * dt;
      MulNonNegative(h.forwardSpeed, dt);
      var h' := Step(h, dt);
      EnabledClimbs(h', dt, n - 1);
      assert h'.value >= Min(h.value + s, 1.0);
      assert (n - 1) as real * s + s == n as real * s;
    }
  }

  /** A disabled hover falls back to rest likewise. */
  lemma {:induction false} DisabledFalls(h: Hover, dt: real, n: nat)
    requires !h.enable && 0.0 <= h.value <= 1.0 && dt >= 0.0 && h.backwardSpeed >= 0.0
    ensures Steps(h, dt, n).value <= Max(h.value - n as real * (h.backwardSpeed * dt), 0.0)
    ensures Steps(h, dt, n).value >= 0.0 && !Steps(h, dt, n).enable
    decreases n
  {
    if n > 0 {
      var s := h.backwardSpeed * dt;
      MulNonNegative(h.backwardSpeed, dt);
      var h' := Step(h, dt);
      DisabledFalls(h', dt, n - 1);
      assert h'.value <= Max(h.value - s, 0.0);
      assert (n - 1) as real * s + s == n as real * s;
    }
  }
}
