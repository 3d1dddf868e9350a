/** `UiValue` of the newest crate (crate/src/units.rs): eight optional unit
  * coefficients (no space unit), the operators of `init_value!`/`bind_value!`,
  * the cross-unit operators and the f32/Vec2 `evaluate`, which here also reads
  * the vw slot. */
module CrateUnits {
  import opened Base
  import Slots

  datatype Unit = Ab | Rl | Rw | Rh | Em | Vp | Vw | Vh

  datatype UiValue<T> = UiValue(
    ab: Option<T>, rl: Option<T>, rw: Option<T>, rh: Option<T>, em: Option<T>,
    vp: Option<T>, vw: Option<T>, vh: Option<T>)

  /** The field that holds unit `u`. */
  function Slot<T>(v: UiValue<T>, u: Unit): Option<T>
  {
    match u
    case Ab => v.ab case Rl => v.rl case Rw => v.rw case Rh => v.rh case Em => v.em
    case Vp => v.vp case Vw => v.vw case Vh => v.vh
  }

  /** The value whose slot `u` is `f(u)`, the way the macros expand one
    * expression per field. */
  function Build<T>(f: Unit -> Option<T>): (r: UiValue<T>)
    ensures forall u :: Slot(r, u) == f(u)
  {
    UiValue(f(Ab), f(Rl), f(Rw), f(Rh), f(Em), f(Vp), f(Vw), f(Vh))
  }

  /** `UiValue::new()`: every slot absent. */
  function New<T>(): (r: UiValue<T>)
    ensures forall u :: Slot(r, u).None?
  {
    UiValue(None, None, None, None, None, None, None, None)
  }

  /** `From<Unit<T>>`: exactly the unit's slot is set. */
  function FromUnit<T>(unit: Unit, x: T): (r: UiValue<T>)
    ensures Slot(r, unit) == Some(x)
    ensures forall u :: u != unit ==> Slot(r, u).None?
  {
    Build(u => if u == unit then Some(x) else None)
  }

  /** `UiValue + UiValue`. */
  function Add<T>(a: UiValue<T>, b: UiValue<T>, add: (T, T) -> T): (r: UiValue<T>)
    ensures forall u :: Slot(a, u).Some? && Slot(b, u).Some? ==>
      Slot(r, u) == Some(add(Slot(a, u).value, Slot(b, u).value))
    ensures forall u :: Slot(a, u).Some? && Slot(b, u).None? ==> Slot(r, u) == Slot(a, u)
    ensures forall u :: Slot(a, u).None? ==> Slot(r, u) == Slot(b, u)
  {
    Build(u => Slots.Plus(Slot(a, u), Slot(b, u), add))
  }

  /** `-UiValue`. */
  function Neg<T>(a: UiValue<T>, neg: T -> T): (r: UiValue<T>)
    ensures forall u :: Slot(r, u).Some? <==> Slot(a, u).Some?
    ensures forall u :: Slot(a, u).Some? ==> Slot(r, u) == Some(neg(Slot(a, u).value))
  {
    Build(u => Slots.Negate(Slot(a, u), neg))
  }

  /** `UiValue - UiValue` as written: a slot present only on the right is
    * copied into the result without being negated. */
  function Sub<T>(a: UiValue<T>, b: UiValue<T>, sub: (T, T) -> T): (r: UiValue<T>)
    ensures forall u :: Slot(a, u).Some? && Slot(b, u).Some? ==>
      Slot(r, u) == Some(sub(Slot(a, u).value, Slot(b, u).value))
    ensures forall u :: Slot(a, u).Some? && Slot(b, u).None? ==> Slot(r, u) == Slot(a, u)
    ensures forall u :: Slot(a, u).None? ==> Slot(r, u) == Slot(b, u)
  {
    Build(u => Slots.MinusUnnegated(Slot(a, u), Slot(b, u), sub))
  }

  /** `UiValue - UiValue` with a right-only slot negated, as the cross-unit
    * operators and `NodeSize` subtraction do. */
  function SubCorrected<T>(a: UiValue<T>, b: UiValue<T>, sub: (T, T) -> T, neg: T -> T): (r: UiValue<T>)
    ensures forall u :: Slot(a, u).Some? && Slot(b, u).Some? ==>
      Slot(r, u) == Some(sub(Slot(a, u).value, Slot(b, u).value))
    ensures forall u :: Slot(a, u).Some? && Slot(b, u).None? ==> Slot(r, u) == Slot(a, u)
    ensures forall u :: Slot(a, u).None? && Slot(b, u).Some? ==> Slot(r, u) == Some(neg(Slot(b, u).value))
    ensures forall u :: Slot(a, u).None? && Slot(b, u).None? ==> Slot(r, u).None?
  {
    Build(u => Slots.Minus(Slot(a, u), Slot(b, u), sub, neg))
  }

  /** `UiValue * UiValue`: only the slots present in both survive. */
  function Mul<T>(a: UiValue<T>, b: UiValue<T>, mul: (T, T) -> T): (r: UiValue<T>)
    ensures forall u :: Slot(r, u).Some? <==> Slot(a, u).Some? && Slot(b, u).Some?
    ensures forall u :: Slot(r, u).Some? ==> Slot(r, u).value == mul(Slot(a, u).value, Slot(b, u).value)
  {
    Build(u => Slots.Times(Slot(a, u), Slot(b, u), mul))
  }

  /** `UiValue * f32`: every present slot is scaled, absent ones stay absent. */
  function Scale<T>(a: UiValue<T>, s: real, mulS: (T, real) -> T): (r: UiValue<T>)
    ensures forall u :: Slot(r, u).Some? <==> Slot(a, u).Some?
    ensures forall u :: Slot(a, u).Some? ==> Slot(r, u) == Some(mulS(Slot(a, u).value, s))
  {
    Build(u => Slots.Scaled(Slot(a, u), s, mulS))
  }

  /** `UiValue + Unit(x)`: an absent slot becomes `x`; no other slot changes. */
  function AddUnit<T>(a: UiValue<T>, unit: Unit, x: T, add: (T, T) -> T): (r: UiValue<T>)
    ensures Slot(r, unit) == if Slot(a, unit).Some? then Some(add(Slot(a, unit).value, x)) else Some(x)
    ensures forall u :: u != unit ==> Slot(r, u) == Slot(a, u)
  {
    Build(u => if u == unit then Slots.PlusUnit(Slot(a, u), x, add) else Slot(a, u))
  }

  /** `UiValue - Unit(x)`: an absent slot becomes `x`, not `-x`. */
  function SubUnit<T>(a: UiValue<T>, unit: Unit, x: T, sub: (T, T) -> T): (r: UiValue<T>)
    ensures Slot(r, unit) == if Slot(a, unit).Some? then Some(sub(Slot(a, unit).value, x)) else Some(x)
    ensures forall u :: u != unit ==> Slot(r, u) == Slot(a, u)
  {
    Build(u => if u == unit then Slots.MinusUnit(Slot(a, u), x, sub) else Slot(a, u))
  }

  /** `UiValue * Unit(x)`: the slot is scaled only if present. */
  function MulUnit<T>(a: UiValue<T>, unit: Unit, x: T, mul: (T, T) -> T): (r: UiValue<T>)
    ensures Slot(a, unit).None? ==> r == a
    ensures Slot(a, unit).Some? ==> Slot(r, unit) == Some(mul(Slot(a, unit).value, x))
    ensures forall u :: u != unit ==> Slot(r, u) == Slot(a, u)
  {
    var r := Build(u => if u == unit then Slots.TimesUnit(Slot(a, u), x, mul) else Slot(a, u));
    assert Slot(a, unit).None? ==> forall u :: Slot(r, u) == Slot(a, u);
    r
  }

  /** `Unit1(x) + Unit2(y)` for two different units: both coefficients kept. */
  function CrossAdd<T>(u1: Unit, x: T, u2: Unit, y: T): (r: UiValue<T>)
    requires u1 != u2
    ensures Slot(r, u1) == Some(x) && Slot(r, u2) == Some(y)
    ensures forall u :: u != u1 && u != u2 ==> Slot(r, u).None?
  {
    Build(u => if u == u1 then Some(x) else if u == u2 then Some(y) else None)
  }

  /** `Unit1(x) - Unit2(y)` for two different units: the second is negated. */
  function CrossSub<T>(u1: Unit, x: T, u2: Unit, y: T, neg: T -> T): (r: UiValue<T>)
    requires u1 != u2
    ensures Slot(r, u1) == Some(x) && Slot(r, u2) == Some(neg(y))
    ensures forall u :: u != u1 && u != u2 ==> Slot(r, u).None?
  {
    Build(u => if u == u1 then Some(x) else if u == u2 then Some(neg(y)) else None)
  }

  /** `get_x`/`get_y` (and `get_z`/`get_w` on Vec3/Vec4) with the component
    * accessor as a parameter: each present slot yields that component. */
  function GetComponent<T>(v: UiValue<T>, get: T -> real): (r: UiValue<real>)
    ensures forall u :: Slot(r, u).Some? <==> Slot(v, u).Some?
    ensures forall u :: Slot(v, u).Some? ==> Slot(r, u) == Some(get(Slot(v, u).value))
  {
    Build(u => match Slot(v, u) case Some(p) => Some(get(p)) case None => None)
  }

  /** `with_x` (and `set_x`, the same update in place) with the component
    * setter and the constructor of a fresh vector as parameters: for every
    * slot present in `other`, a present slot gets that component replaced and
    * an absent slot is created with all other components 0. */
  function WithComponent<T>(v: UiValue<T>, other: UiValue<real>, put: (T, real) -> T, create: real -> T): (r: UiValue<T>)
    ensures forall u :: Slot(other, u).None? ==> Slot(r, u) == Slot(v, u)
    ensures forall u :: Slot(other, u).Some? && Slot(v, u).Some? ==>
      Slot(r, u) == Some(put(Slot(v, u).value, Slot(other, u).value))
    ensures forall u :: Slot(other, u).Some? && Slot(v, u).None? ==>
      Slot(r, u) == Some(create(Slot(other, u).value))
  {
    Build(u =>
      match Slot(other, u)
      case None => Slot(v, u)
      case Some(c) => (match Slot(v, u) case Some(p) => Some(put(p, c)) case None => Some(create(c))))
  }

  function GetX(v: UiValue<Vec2>): UiValue<real> { GetComponent(v, X2) }
  function GetY(v: UiValue<Vec2>): UiValue<real> { GetComponent(v, Y2) }
  function WithX(v: UiValue<Vec2>, other: UiValue<real>): UiValue<Vec2> { WithComponent(v, other, PutX2, FreshX2) }
  function WithY(v: UiValue<Vec2>, other: UiValue<real>): UiValue<Vec2> { WithComponent(v, other, PutY2, FreshY2) }

  /** `From<(A, B)> for UiValue<Vec2>`: `new().with_x(a).with_y(b)`. */
  function FromPair(a: UiValue<real>, b: UiValue<real>): UiValue<Vec2>
  {
    WithY(WithX(New(), a), b)
  }

  /** `From<f32> for UiValue<f32>`: the float is an `Ab` coefficient. */
  function FromReal(x: real): (r: UiValue<real>)
    ensures r == FromUnit(Ab, x)
  {
    Build(u => if u == Ab then Some(x) else None)
  }

  /** `From<UiValue<f32>> for UiValue<Vec2>`: `set_x(v)` then `set_y(v)` on an empty value. */
  function Splat(v: UiValue<real>): UiValue<Vec2>
  {
    WithY(WithX(New(), v), v)
  }

  /** `From<Unit<f32>> for UiValue<Vec2>`: the unit with both components equal. */
  function FromUnitSplat(unit: Unit, x: real): UiValue<Vec2>
  {
    FromUnit(unit, Splat2(x))
  }

  /** `UiValueEvaluate<f32>`: every slot contributes. */
  function Evaluate(v: UiValue<real>, scale: real, parent: real, viewport: real, font: real): (r: real)
    ensures scale == 0.0 && parent == 0.0 && viewport == 0.0 && font == 0.0 ==> r == 0.0
  {
    Val(v.ab) * scale
    + (Val(v.rl) / 100.0) * parent
    + (Val(v.rw) / 100.0) * parent
    + (Val(v.rh) / 100.0) * parent
    + Val(v.em) * font
    + (Val(v.vp) / 100.0) * viewport
    + (Val(v.vw) / 100.0) * viewport
    + (Val(v.vh) / 100.0) * viewport
  }

  /** `UiValueEvaluate<Vec2>`: rl and vp are taken component-wise of the parent
    * and the viewport, rw and rh of the parent's x and y, vw and vh of the
    * viewport's x and y. */
  function Evaluate2(v: UiValue<Vec2>, scale: Vec2, parent: Vec2, viewport: Vec2, font: Vec2): (r: Vec2)
    ensures scale == Zero2 && parent == Zero2 && viewport == Zero2 && font == Zero2 ==> r == Zero2
  {
    var ab, rl, rw, rh := Val2(v.ab), Val2(v.rl), Val2(v.rw), Val2(v.rh);
    var em, vp, vw, vh := Val2(v.em), Val2(v.vp), Val2(v.vw), Val2(v.vh);
    Vec2(
      ab.x * scale.x + (rl.x / 100.0) * parent.x + (rw.x / 100.0) * parent.x + (rh.x / 100.0) * parent.y
      + em.x * font.x + (vp.x / 100.0) * viewport.x + (vw.x / 100.0) * viewport.x + (vh.x / 100.0) * viewport.y,
      ab.y * scale.y + (rl.y / 100.0) * parent.y + (rw.y / 100.0) * parent.x + (rh.y / 100.0) * parent.y
      + em.y * font.y + (vp.y / 100.0) * viewport.y + (vw.y / 100.0) * viewport.x + (vh.y / 100.0) * viewport.y)
  }

  // ---------------------------------------------------------------------
  // Properties

  /** What one unit of each kind is worth in an evaluation context. */
  function Weight(u: Unit, scale: real, parent: real, viewport: real, font: real): real
  {
    match u
    case Ab => scale
    case Rl => parent / 100.0 case Rw => parent / 100.0 case Rh => parent / 100.0
    case Em => font
    case Vp => viewport / 100.0 case Vw => viewport / 100.0 case Vh => viewport / 100.0
  }

  lemma EvaluateUnit(unit: Unit, x: real, scale: real, parent: real, viewport: real, font: real)
    ensures Evaluate(FromUnit(unit, x), scale, parent, viewport, font) == x * Weight(unit, scale, parent, viewport, font)
  {
    var v := FromUnit(unit, x);
    assert Slot(v, unit) == Some(x);
    match unit
    case Ab => assert v.rl == v.rw == v.rh == v.em == v.vp == v.vw == v.vh == None by { assert Slot(v, Rl) == Slot(v, Rw) == Slot(v, Rh) == Slot(v, Em) == Slot(v, Vp) == Slot(v, Vw) == Slot(v, Vh) == None; }
    case _ => assert Slot(v, Ab) == None;
  }

  lemma EvaluateAdd(a: UiValue<real>, b: UiValue<real>, scale: real, parent: real, viewport: real, font: real)
    ensures Evaluate(Add(a, b, AddReal), scale, parent, viewport, font)
         == Evaluate(a, scale, parent, viewport, font) + Evaluate(b, scale, parent, viewport, font)
  {
    var r := Add(a, b, AddReal);
    forall u ensures Val(Slot(r, u)) == Val(Slot(a, u)) + Val(Slot(b, u)) {
      Slots.ValPlus(Slot(a, u), Slot(b, u));
    }
    EvaluateWeighted(r, scale, parent, viewport, font);
    EvaluateWeighted(a, scale, parent, viewport, font);
    EvaluateWeighted(b, scale, parent, viewport, font);
    WeightedAdd(r, a, b, Weights(scale, parent, viewport, font));
  }

  /** The evaluation context as one weight per unit. */
  function Weights(scale: real, parent: real, viewport: real, font: real): Unit -> real
  {
    u => Weight(u, scale, parent, viewport, font)
  }

  /** The sum of every slot's coefficient times its unit's weight. */
  function Weighted(v: UiValue<real>, w: Unit -> real): real
  {
    Val(v.ab) * w(Ab) + Val(v.rl) * w(Rl) + Val(v.rw) * w(Rw) + Val(v.rh) * w(Rh) + Val(v.em) * w(Em)
    + Val(v.vp) * w(Vp) + Val(v.vw) * w(Vw) + Val(v.vh) * w(Vh)
  }

  lemma EvaluateWeighted(v: UiValue<real>, scale: real, parent: real, viewport: real, font: real)
    ensures Evaluate(v, scale, parent, viewport, font) == Weighted(v, Weights(scale, parent, viewport, font))
  {
    var w := Weights(scale, parent, viewport, font);
    assert (Val(v.rl) / 100.0) * parent == Val(v.rl) * w(Rl);
    assert (Val(v.rw) / 100.0) * parent == Val(v.rw) * w(Rw);
    assert (Val(v.rh) / 100.0) * parent == Val(v.rh) * w(Rh);
    assert (Val(v.vp) / 100.0) * viewport == Val(v.vp) * w(Vp);
    assert (Val(v.vw) / 100.0) * viewport == Val(v.vw) * w(Vw);
    assert (Val(v.vh) / 100.0) * viewport == Val(v.vh) * w(Vh);
  }

  lemma WeightedAdd(r: UiValue<real>, a: UiValue<real>, b: UiValue<real>, w: Unit -> real)
    requires forall u :: Val(Slot(r, u)) == Val(Slot(a, u)) + Val(Slot(b, u))
    ensures Weighted(r, w) == Weighted(a, w) + Weighted(b, w)
  {
    forall u ensures Val(Slot(r, u)) * w(u) == Val(Slot(a, u)) * w(u) + Val(Slot(b, u)) * w(u) {
      Distrib(Val(Slot(a, u)), Val(Slot(b, u)), w(u));
    }
    assert Val(r.ab) * w(Ab) == Val(a.ab) * w(Ab) + Val(b.ab) * w(Ab) by { assert r.ab == Slot(r, Ab); }
  }

  lemma Distrib(x: real, y: real, w: real)
    ensures (x + y) * w == x * w + y * w
  {
  }

  lemma WeightedSub(r: UiValue<real>, a: UiValue<real>, b: UiValue<real>, w: Unit -> real)
    requires forall u :: Val(Slot(r, u)) == Val(Slot(a, u)) - Val(Slot(b, u))
    ensures Weighted(r, w) == Weighted(a, w) - Weighted(b, w)
  {
    forall u ensures Val(Slot(r, u)) * w(u) == Val(Slot(a, u)) * w(u) - Val(Slot(b, u)) * w(u) {
      Distrib(Val(Slot(a, u)), -Val(Slot(b, u)), w(u));
    }
    assert Val(r.ab) * w(Ab) == Val(a.ab) * w(Ab) - Val(b.ab) * w(Ab) by { assert r.ab == Slot(r, Ab); }
  }

  lemma WeightedScale(r: UiValue<real>, a: UiValue<real>, s: real, w: Unit -> real)
    requires forall u :: Val(Slot(r, u)) == Val(Slot(a, u)) * s
    ensures Weighted(r, w) == Weighted(a, w) * s
  {
    forall u ensures Val(Slot(r, u)) * w(u) == Val(Slot(a, u)) * w(u) * s {
      Commute(Val(Slot(a, u)), s, w(u));
    }
    assert Val(r.ab) * w(Ab) == Val(a.ab) * w(Ab) * s by { assert r.ab == Slot(r, Ab); }
  }

  lemma Commute(x: real, s: real, w: real)
    ensures x * s * w == x * w * s
  {
  }

  /** Negation is an involution. */
  lemma NegNeg(v: UiValue<real>)
    ensures Neg(Neg(v, NegReal), NegReal) == v
  {
    var r := Neg(Neg(v, NegReal), NegReal);
    assert forall u :: Slot(r, u) == Slot(v, u);
    assert r.ab == Slot(r, Ab) && r.rl == Slot(r, Rl) && r.rw == Slot(r, Rw) && r.rh == Slot(r, Rh)
      && r.em == Slot(r, Em) && r.vp == Slot(r, Vp) && r.vw == Slot(r, Vw) && r.vh == Slot(r, Vh);
  }

  lemma EvaluateNeg(v: UiValue<real>, scale: real, parent: real, viewport: real, font: real)
    ensures Evaluate(Neg(v, NegReal), scale, parent, viewport, font) == -Evaluate(v, scale, parent, viewport, font)
  {
    var r := Neg(v, NegReal);
    forall u ensures Val(Slot(r, u)) == Val(Slot(New(), u)) - Val(Slot(v, u)) {
      Slots.ValNegate(Slot(v, u));
    }
    var w := Weights(scale, parent, viewport, font);
    EvaluateWeighted(r, scale, parent, viewport, font);
    EvaluateWeighted(v, scale, parent, viewport, font);
    WeightedSub(r, New(), v, w);
  }

  lemma EvaluateScale(v: UiValue<real>, s: real, scale: real, parent: real, viewport: real, font: real)
    ensures Evaluate(Scale(v, s, MulReal), scale, parent, viewport, font) == Evaluate(v, scale, parent, viewport, font) * s
  {
    var r := Scale(v, s, MulReal);
    forall u ensures Val(Slot(r, u)) == Val(Slot(v, u)) * s {
      Slots.ValScaled(Slot(v, u), s);
    }
    EvaluateOfMultiples(r, v, s, scale, parent, viewport, font);
  }

  lemma EvaluateOfMultiples(r: UiValue<real>, v: UiValue<real>, s: real, scale: real, parent: real, viewport: real, font: real)
    requires forall u :: Val(Slot(r, u)) == Val(Slot(v, u)) * s
    ensures Evaluate(r, scale, parent, viewport, font) == Evaluate(v, scale, parent, viewport, font) * s
  {
    EvaluateWeighted(r, scale, parent, viewport, font);
    EvaluateWeighted(v, scale, parent, viewport, font);
    WeightedScale(r, v, s, Weights(scale, parent, viewport, font));
  }

  /** The corrected subtraction is the inverse of addition under evaluation. */
  lemma EvaluateSubCorrected(a: UiValue<real>, b: UiValue<real>, scale: real, parent: real, viewport: real, font: real)
    ensures Evaluate(SubCorrected(a, b, SubReal, NegReal), scale, parent, viewport, font)
         == Evaluate(a, scale, parent, viewport, font) - Evaluate(b, scale, parent, viewport, font)
  {
    var r := SubCorrected(a, b, SubReal, NegReal);
    forall u ensures Val(Slot(r, u)) == Val(Slot(a, u)) - Val(Slot(b, u)) {
      Slots.ValMinus(Slot(a, u), Slot(b, u));
    }
    EvaluateWeighted(r, scale, parent, viewport, font);
    EvaluateWeighted(a, scale, parent, viewport, font);
    EvaluateWeighted(b, scale, parent, viewport, font);
    WeightedSub(r, a, b, Weights(scale, parent, viewport, font));
  }

  /** The subtraction as written agrees with the corrected one exactly when no
    * slot is present on the right only. */
  lemma SubAgreesWhenLeftCovers(a: UiValue<real>, b: UiValue<real>)
    ensures (Sub(a, b, SubReal) == SubCorrected(a, b, SubReal, NegReal))
        <==> (forall u :: Slot(b, u).Some? && Slot(a, u).None? ==> Slot(b, u).value == 0.0)
  {
    var s, c := Sub(a, b, SubReal), SubCorrected(a, b, SubReal, NegReal);
    if forall u :: Slot(b, u).Some? && Slot(a, u).None? ==> Slot(b, u).value == 0.0 {
      assert forall u :: Slot(s, u) == Slot(c, u);
      assert s.ab == Slot(s, Ab) && s.rl == Slot(s, Rl) && s.rw == Slot(s, Rw) && s.rh == Slot(s, Rh)
        && s.em == Slot(s, Em) && s.vp == Slot(s, Vp) && s.vw == Slot(s, Vw) && s.vh == Slot(s, Vh);
      assert c.ab == Slot(c, Ab) && c.rl == Slot(c, Rl) && c.rw == Slot(c, Rw) && c.rh == Slot(c, Rh)
        && c.em == Slot(c, Em) && c.vp == Slot(c, Vp) && c.vw == Slot(c, Vw) && c.vh == Slot(c, Vh);
    } else {
      var u :| Slot(b, u).Some? && Slot(a, u).None? && Slot(b, u).value != 0.0;
      assert Slot(s, u) != Slot(c, u);
    }
  }

  /** The subtraction as written is not the inverse of addition:
    * `new() - Rl(3)` keeps `rl = 3`, which evaluates to +3% of the parent. */
  lemma SubUnnegatedCounterexample()
    ensures Sub(New(), FromUnit(Rl, 3.0), SubReal) == FromUnit(Rl, 3.0)
    ensures Evaluate(Sub(New(), FromUnit(Rl, 3.0), SubReal), 1.0, 100.0, 0.0, 0.0) == 3.0
    ensures Evaluate(New(), 1.0, 100.0, 0.0, 0.0) - Evaluate(FromUnit(Rl, 3.0), 1.0, 100.0, 0.0, 0.0) == -3.0
  {
    var e: UiValue<real> := New();
    var f: UiValue<real> := FromUnit(Rl, 3.0);
    assert Sub(e, f, SubReal) == f by {
      var r := Sub(e, f, SubReal);
      forall u ensures Slot(r, u) == Slot(f, u) {
        assert Slot(e, u).None?;
      }
      SameSlots(r, f);
    }
    EvaluateUnit(Rl, 3.0, 1.0, 100.0, 0.0, 0.0);
  }

  /** Cross-unit addition is value addition of the two single units. */
  lemma CrossAddIsAdd<T>(u1: Unit, x: T, u2: Unit, y: T, add: (T, T) -> T)
    requires u1 != u2
    ensures CrossAdd(u1, x, u2, y) == Add(FromUnit(u1, x), FromUnit(u2, y), add)
  {
    var p, q := CrossAdd(u1, x, u2, y), Add(FromUnit(u1, x), FromUnit(u2, y), add);
    forall u ensures Slot(p, u) == Slot(q, u) {
      if u == u1 {
        assert Slot(FromUnit(u2, y), u).None?;
      }
    }
    SameSlots(p, q);
  }

  /** Cross-unit subtraction matches the corrected value subtraction of the two
    * single units, while the subtraction as written keeps `y` un-negated. */
  lemma CrossSubIsSubCorrected<T>(u1: Unit, x: T, u2: Unit, y: T, sub: (T, T) -> T, neg: T -> T)
    requires u1 != u2
    ensures CrossSub(u1, x, u2, y, neg) == SubCorrected(FromUnit(u1, x), FromUnit(u2, y), sub, neg)
    ensures Slot(Sub(FromUnit(u1, x), FromUnit(u2, y), sub), u2) == Some(y)
  {
    var p, q := CrossSub(u1, x, u2, y, neg), SubCorrected(FromUnit(u1, x), FromUnit(u2, y), sub, neg);
    forall u ensures Slot(p, u) == Slot(q, u) {
      if u == u1 {
        assert Slot(FromUnit(u2, y), u).None?;
      }
    }
    SameSlots(p, q);
  }

  /** `UiValue - Unit(x)` is the subtraction of the single unit as written,
    * flaw included: an absent slot receives `x`, where the corrected
    * difference holds `-x`. */
  lemma SubUnitIsSub(a: UiValue<real>, unit: Unit, x: real)
    ensures SubUnit(a, unit, x, SubReal) == Sub(a, FromUnit(unit, x), SubReal)
    ensures Slot(a, unit).None? ==> Slot(SubCorrected(a, FromUnit(unit, x), SubReal, NegReal), unit) == Some(-x)
  {
    var p, q := SubUnit(a, unit, x, SubReal), Sub(a, FromUnit(unit, x), SubReal);
    forall u ensures Slot(p, u) == Slot(q, u) {
      if u != unit {
        assert Slot(FromUnit(unit, x), u).None?;
      }
    }
    SameSlots(p, q);
  }

  /** The corrected subtraction adds the negation; the subtraction as written
    * does not: `new() - Rl(3)` differs from `new() + (-Rl(3))`. */
  lemma SubCorrectedIsAddNeg(a: UiValue<real>, b: UiValue<real>)
    ensures SubCorrected(a, b, SubReal, NegReal) == Add(a, Neg(b, NegReal), AddReal)
    ensures Sub(New(), FromUnit(Rl, 3.0), SubReal) != Add(New(), Neg(FromUnit(Rl, 3.0), NegReal), AddReal)
  {
    var p, q := SubCorrected(a, b, SubReal, NegReal), Add(a, Neg(b, NegReal), AddReal);
    forall u ensures Slot(p, u) == Slot(q, u) {
      if Slot(a, u).Some? && Slot(b, u).Some? {
        assert Slot(q, u) == Some(Slot(a, u).value + -Slot(b, u).value);
      }
    }
    SameSlots(p, q);
    var e: UiValue<real> := New();
    assert Slot(Sub(e, FromUnit(Rl, 3.0), SubReal), Rl) == Some(3.0);
    assert Slot(Add(e, Neg(FromUnit(Rl, 3.0), NegReal), AddReal), Rl) == Some(-3.0);
  }

  /** Two values with the same slots are equal. */
  lemma SameSlots<T>(p: UiValue<T>, q: UiValue<T>)
    requires forall u :: Slot(p, u) == Slot(q, u)
    ensures p == q
  {
    assert Slot(p, Ab) == Slot(q, Ab) && Slot(p, Rl) == Slot(q, Rl) && Slot(p, Rw) == Slot(q, Rw);
    assert Slot(p, Rh) == Slot(q, Rh) && Slot(p, Em) == Slot(q, Em);
    assert Slot(p, Vp) == Slot(q, Vp) && Slot(p, Vw) == Slot(q, Vw) && Slot(p, Vh) == Slot(q, Vh);
  }

  /** Reading back the axis written by `with_x` gives the new coefficient on
    * every slot `other` has, and the old x elsewhere; the y axis keeps its old
    * value, or 0 on a slot `with_x` created. */
  lemma WithXGet(v: UiValue<Vec2>, other: UiValue<real>)
    ensures forall u :: Slot(GetX(WithX(v, other)), u) == if Slot(other, u).Some? then Slot(other, u) else Slot(GetX(v), u)
    ensures forall u :: Slot(GetY(WithX(v, other)), u) ==
                if Slot(v, u).Some? then Slot(GetY(v), u) else if Slot(other, u).Some? then Some(0.0) else None
  {
  }

  lemma WithYGet(v: UiValue<Vec2>, other: UiValue<real>)
    ensures forall u :: Slot(GetY(WithY(v, other)), u) == if Slot(other, u).Some? then Slot(other, u) else Slot(GetY(v), u)
    ensures forall u :: Slot(GetX(WithY(v, other)), u) ==
                if Slot(v, u).Some? then Slot(GetX(v), u) else if Slot(other, u).Some? then Some(0.0) else None
  {
  }

  /** `(a, b).into()` takes x from `a` and y from `b`; a slot only one side has
    * gets 0 on the other axis. */
  lemma FromPairAxes(a: UiValue<real>, b: UiValue<real>)
    ensures forall u :: Slot(GetX(FromPair(a, b)), u) == if Slot(a, u).Some? then Slot(a, u) else if Slot(b, u).Some? then Some(0.0) else None
    ensures forall u :: Slot(GetY(FromPair(a, b)), u) == if Slot(b, u).Some? then Slot(b, u) else if Slot(a, u).Some? then Some(0.0) else None
  {
    WithXGet(New(), a);
    WithYGet(WithX(New(), a), b);
  }

  /** Converting a scalar value to a Vec2 value puts each coefficient on both axes. */
  lemma SplatAxes(v: UiValue<real>)
    ensures GetX(Splat(v)) == v && GetY(Splat(v)) == v
    ensures forall u :: Slot(Splat(v), u).Some? <==> Slot(v, u).Some?
  {
    FromPairAxes(v, v);
    SameSlots(GetX(Splat(v)), v);
    SameSlots(GetY(Splat(v)), v);
  }

  lemma FromUnitSplatIsSplat(unit: Unit, x: real)
    ensures FromUnitSplat(unit, x) == Splat(FromUnit(unit, x))
  {
    var p, q := FromUnitSplat(unit, x), Splat(FromUnit(unit, x));
    WithXGet(New(), FromUnit(unit, x));
    WithYGet(WithX(New(), FromUnit(unit, x)), FromUnit(unit, x));
    forall u ensures Slot(p, u) == Slot(q, u) {
      if u == unit {
        assert Slot(GetX(q), u) == Some(x) && Slot(GetY(q), u) == Some(x);
      }
    }
    SameSlots(p, q);
  }

  // ---------------------------------------------------------------------
  // Vec2 evaluation, one axis at a time

  /** Unit weights of the x component of a Vec2 evaluation. */
  function WeightsX(scale: Vec2, parent: Vec2, viewport: Vec2, font: Vec2): Unit -> real
  {
    (u: Unit) => match u
      case Ab => scale.x
      case Rl => parent.x / 100.0 case Rw => parent.x / 100.0 case Rh => parent.y / 100.0
      case Em => font.x
      case Vp => viewport.x / 100.0 case Vw => viewport.x / 100.0 case Vh => viewport.y / 100.0
  }

  /** Unit weights of the y component: rw and vw still scale by the x of the
    * parent and of the viewport. */
  function WeightsY(scale: Vec2, parent: Vec2, viewport: Vec2, font: Vec2): Unit -> real
  {
    (u: Unit) => match u
      case Ab => scale.y
      case Rl => parent.y / 100.0 case Rw => parent.x / 100.0 case Rh => parent.y / 100.0
      case Em => font.y
      case Vp => viewport.y / 100.0 case Vw => viewport.x / 100.0 case Vh => viewport.y / 100.0
  }

  lemma Evaluate2Axes(v: UiValue<Vec2>, scale: Vec2, parent: Vec2, viewport: Vec2, font: Vec2)
    ensures Evaluate2(v, scale, parent, viewport, font).x == Weighted(GetX(v), WeightsX(scale, parent, viewport, font))
    ensures Evaluate2(v, scale, parent, viewport, font).y == Weighted(GetY(v), WeightsY(scale, parent, viewport, font))
  {
    var gx, gy := GetX(v), GetY(v);
    assert Val(gx.ab) == Val2(v.ab).x && Val(gy.ab) == Val2(v.ab).y by { assert gx.ab == Slot(gx, Ab) && gy.ab == Slot(gy, Ab); }
    assert Val(gx.rl) == Val2(v.rl).x && Val(gy.rl) == Val2(v.rl).y by { assert gx.rl == Slot(gx, Rl) && gy.rl == Slot(gy, Rl); }
    assert Val(gx.rw) == Val2(v.rw).x && Val(gy.rw) == Val2(v.rw).y by { assert gx.rw == Slot(gx, Rw) && gy.rw == Slot(gy, Rw); }
    assert Val(gx.rh) == Val2(v.rh).x && Val(gy.rh) == Val2(v.rh).y by { assert gx.rh == Slot(gx, Rh) && gy.rh == Slot(gy, Rh); }
    assert Val(gx.em) == Val2(v.em).x && Val(gy.em) == Val2(v.em).y by { assert gx.em == Slot(gx, Em) && gy.em == Slot(gy, Em); }
    assert Val(gx.vp) == Val2(v.vp).x && Val(gy.vp) == Val2(v.vp).y by { assert gx.vp == Slot(gx, Vp) && gy.vp == Slot(gy, Vp); }
    assert Val(gx.vw) == Val2(v.vw).x && Val(gy.vw) == Val2(v.vw).y by { assert gx.vw == Slot(gx, Vw) && gy.vw == Slot(gy, Vw); }
    assert Val(gx.vh) == Val2(v.vh).x && Val(gy.vh) == Val2(v.vh).y by { assert gx.vh == Slot(gx, Vh) && gy.vh == Slot(gy, Vh); }
  }

  /** Vec2 evaluation is additive too. */
  lemma Evaluate2Add(a: UiValue<Vec2>, b: UiValue<Vec2>, scale: Vec2, parent: Vec2, viewport: Vec2, font: Vec2)
    ensures Evaluate2(Add(a, b, Add2Fn), scale, parent, viewport, font)
         == Add2(Evaluate2(a, scale, parent, viewport, font), Evaluate2(b, scale, parent, viewport, font))
  {
    var r, ea, eb := Evaluate2(Add(a, b, Add2Fn), scale, parent, viewport, font), Evaluate2(a, scale, parent, viewport, font), Evaluate2(b, scale, parent, viewport, font);
    Evaluate2AddX(a, b, scale, parent, viewport, font);
    Evaluate2AddY(a, b, scale, parent, viewport, font);
    assert r == Vec2(r.x, r.y) == Vec2(ea.x + eb.x, ea.y + eb.y);
  }

  lemma Evaluate2AddX(a: UiValue<Vec2>, b: UiValue<Vec2>, scale: Vec2, parent: Vec2, viewport: Vec2, font: Vec2)
    ensures Evaluate2(Add(a, b, Add2Fn), scale, parent, viewport, font).x
         == Evaluate2(a, scale, parent, viewport, font).x + Evaluate2(b, scale, parent, viewport, font).x
  {
    var r := Add(a, b, Add2Fn);
    AxesAdd(a, b);
    Evaluate2Axes(r, scale, parent, viewport, font);
    Evaluate2Axes(a, scale, parent, viewport, font);
    Evaluate2Axes(b, scale, parent, viewport, font);
    SummedWeights(GetX(r), GetX(a), GetX(b), WeightsX(scale, parent, viewport, font), Evaluate2(r, scale, parent, viewport, font).x,
                  Evaluate2(a, scale, parent, viewport, font).x, Evaluate2(b, scale, parent, viewport, font).x);
  }

  lemma Evaluate2AddY(a: UiValue<Vec2>, b: UiValue<Vec2>, scale: Vec2, parent: Vec2, viewport: Vec2, font: Vec2)
    ensures Evaluate2(Add(a, b, Add2Fn), scale, parent, viewport, font).y
         == Evaluate2(a, scale, parent, viewport, font).y + Evaluate2(b, scale, parent, viewport, font).y
  {
    var r := Add(a, b, Add2Fn);
    AxesAdd(a, b);
    Evaluate2Axes(r, scale, parent, viewport, font);
    Evaluate2Axes(a, scale, parent, viewport, font);
    Evaluate2Axes(b, scale, parent, viewport, font);
    SummedWeights(GetY(r), GetY(a), GetY(b), WeightsY(scale, parent, viewport, font), Evaluate2(r, scale, parent, viewport, font).y,
                  Evaluate2(a, scale, parent, viewport, font).y, Evaluate2(b, scale, parent, viewport, font).y);
  }

  lemma SummedWeights(r: UiValue<real>, a: UiValue<real>, b: UiValue<real>, w: Unit -> real, er: real, ea: real, eb: real)
    requires forall u :: Val(Slot(r, u)) == Val(Slot(a, u)) + Val(Slot(b, u))
    requires er == Weighted(r, w) && ea == Weighted(a, w) && eb == Weighted(b, w)
    ensures er == ea + eb
  {
    WeightedAdd(r, a, b, w);
  }

  lemma AxesAdd(a: UiValue<Vec2>, b: UiValue<Vec2>)
    ensures forall u :: Val(Slot(GetX(Add(a, b, Add2Fn)), u)) == Val(Slot(GetX(a), u)) + Val(Slot(GetX(b), u))
    ensures forall u :: Val(Slot(GetY(Add(a, b, Add2Fn)), u)) == Val(Slot(GetY(a), u)) + Val(Slot(GetY(b), u))
  {
    var r := Add(a, b, Add2Fn);
    forall u
      ensures Val(Slot(GetX(r), u)) == Val(Slot(GetX(a), u)) + Val(Slot(GetX(b), u))
      ensures Val(Slot(GetY(r), u)) == Val(Slot(GetY(a), u)) + Val(Slot(GetY(b), u))
    {
      if Slot(a, u).Some? && Slot(b, u).Some? {
        assert Slot(r, u) == Some(Add2(Slot(a, u).value, Slot(b, u).value));
      }
    }
  }

  /** The negating Vec2 subtraction is the difference of the evaluations. */
  lemma Evaluate2SubCorrected(a: UiValue<Vec2>, b: UiValue<Vec2>, scale: Vec2, parent: Vec2, viewport: Vec2, font: Vec2)
    ensures Evaluate2(SubCorrected(a, b, Sub2Fn, Neg2Fn), scale, parent, viewport, font)
         == Sub2(Evaluate2(a, scale, parent, viewport, font), Evaluate2(b, scale, parent, viewport, font))
  {
    var r, ea, eb := Evaluate2(SubCorrected(a, b, Sub2Fn, Neg2Fn), scale, parent, viewport, font), Evaluate2(a, scale, parent, viewport, font), Evaluate2(b, scale, parent, viewport, font);
    Evaluate2SubCorrectedX(a, b, scale, parent, viewport, font);
    Evaluate2SubCorrectedY(a, b, scale, parent, viewport, font);
    assert r == Vec2(r.x, r.y) == Vec2(ea.x - eb.x, ea.y - eb.y);
  }

  lemma Evaluate2SubCorrectedX(a: UiValue<Vec2>, b: UiValue<Vec2>, scale: Vec2, parent: Vec2, viewport: Vec2, font: Vec2)
    ensures Evaluate2(SubCorrected(a, b, Sub2Fn, Neg2Fn), scale, parent, viewport, font).x
         == Evaluate2(a, scale, parent, viewport, font).x - Evaluate2(b, scale, parent, viewport, font).x
  {
    var r := SubCorrected(a, b, Sub2Fn, Neg2Fn);
    AxesSubCorrected(a, b);
    Evaluate2Axes(r, scale, parent, viewport, font);
    Evaluate2Axes(a, scale, parent, viewport, font);
    Evaluate2Axes(b, scale, parent, viewport, font);
    DifferenceWeights(GetX(r), GetX(a), GetX(b), WeightsX(scale, parent, viewport, font), Evaluate2(r, scale, parent, viewport, font).x,
                      Evaluate2(a, scale, parent, viewport, font).x, Evaluate2(b, scale, parent, viewport, font).x);
  }

  lemma Evaluate2SubCorrectedY(a: UiValue<Vec2>, b: UiValue<Vec2>, scale: Vec2, parent: Vec2, viewport: Vec2, font: Vec2)
    ensures Evaluate2(SubCorrected(a, b, Sub2Fn, Neg2Fn), scale, parent, viewport, font).y
         == Evaluate2(a, scale, parent, viewport, font).y - Evaluate2(b, scale, parent, viewport, font).y
  {
    var r := SubCorrected(a, b, Sub2Fn, Neg2Fn);
    AxesSubCorrected(a, b);
    Evaluate2Axes(r, scale, parent, viewport, font);
    Evaluate2Axes(a, scale, parent, viewport, font);
    Evaluate2Axes(b, scale, parent, viewport, font);
    DifferenceWeights(GetY(r), GetY(a), GetY(b), WeightsY(scale, parent, viewport, font), Evaluate2(r, scale, parent, viewport, font).y,
                      Evaluate2(a, scale, parent, viewport, font).y, Evaluate2(b, scale, parent, viewport, font).y);
  }

  lemma DifferenceWeights(r: UiValue<real>, a: UiValue<real>, b: UiValue<real>, w: Unit -> real, er: real, ea: real, eb: real)
    requires forall u :: Val(Slot(r, u)) == Val(Slot(a, u)) - Val(Slot(b, u))
    requires er == Weighted(r, w) && ea == Weighted(a, w) && eb == Weighted(b, w)
    ensures er == ea - eb
  {
    WeightedSub(r, a, b, w);
  }

  lemma AxesSubCorrected(a: UiValue<Vec2>, b: UiValue<Vec2>)
    ensures forall u :: Val(Slot(GetX(SubCorrected(a, b, Sub2Fn, Neg2Fn)), u)) == Val(Slot(GetX(a), u)) - Val(Slot(GetX(b), u))
    ensures forall u :: Val(Slot(GetY(SubCorrected(a, b, Sub2Fn, Neg2Fn)), u)) == Val(Slot(GetY(a), u)) - Val(Slot(GetY(b), u))
  {
    var r := SubCorrected(a, b, Sub2Fn, Neg2Fn);
    forall u
      ensures Val(Slot(GetX(r), u)) == Val(Slot(GetX(a), u)) - Val(Slot(GetX(b), u))
      ensures Val(Slot(GetY(r), u)) == Val(Slot(GetY(a), u)) - Val(Slot(GetY(b), u))
    {
      if Slot(a, u).Some? && Slot(b, u).Some? {
        assert Slot(r, u) == Some(Sub2(Slot(a, u).value, Slot(b, u).value));
      } else if Slot(b, u).Some? {
        assert Slot(r, u) == Some(Neg2(Slot(b, u).value));
      }
    }
  }
}
