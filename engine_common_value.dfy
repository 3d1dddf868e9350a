/** `UiValue` of the older lunex_engine module
  * (crates/lunex_engine/src/common/value.rs): the same nine unit slots and
  * slot-wise operators as the later core module, without multiplication by a
  * float and without evaluation; conversions are written as `Into`. */
module EngineCommonValue {
  import opened Base
  import Slots

  datatype Unit = Ab | Rl | Rw | Rh | Em | Sp | Vp | Vw | Vh

  datatype UiValue<T> = UiValue(
    ab: Option<T>, rl: Option<T>, rw: Option<T>, rh: Option<T>, em: Option<T>,
    sp: Option<T>, vp: Option<T>, vw: Option<T>, vh: Option<T>)

  /** The field that holds unit `u`. */
  function Slot<T>(v: UiValue<T>, u: Unit): Option<T>
  {
    match u
    case Ab => v.ab case Rl => v.rl case Rw => v.rw case Rh => v.rh case Em => v.em
    case Sp => v.sp case Vp => v.vp case Vw => v.vw case Vh => v.vh
  }

  /** The value whose slot `u` is `f(u)`, the way the macros expand one
    * expression per field. */
  function Build<T>(f: Unit -> Option<T>): (r: UiValue<T>)
    ensures forall u :: Slot(r, u) == f(u)
  {
    UiValue(f(Ab), f(Rl), f(Rw), f(Rh), f(Em), f(Sp), f(Vp), f(Vw), f(Vh))
  }

  /** `UiValue::new()`: every slot absent. */
  function New<T>(): (r: UiValue<T>)
    ensures forall u :: Slot(r, u).None?
  {
    UiValue(None, None, None, None, None, None, None, None, None)
  }

  /** `From<Unit<T>>`: exactly the unit's slot is set. */
  function FromUnit<T>(unit: Unit, x: T): (r: UiValue<T>)
    ensures Slot(r, unit) == Some(x)
    ensures forall u :: u != unit ==> Slot(r, u).None?
  {
    Build(u => if u == unit then Some(x) else None)
  }

  /** `UiValue + UiValue`. */
  function Add<T>(a: UiValue<T>, b: UiValue<T>, add: (T, T) -> T): (r: UiValue<T>)
    ensures forall u :: Slot(a, u).Some? && Slot(b, u).Some? ==>
      Slot(r, u) == Some(add(Slot(a, u).value, Slot(b, u).value))
    ensures forall u :: Slot(a, u).Some? && Slot(b, u).None? ==> Slot(r, u) == Slot(a, u)
    ensures forall u :: Slot(a, u).None? ==> Slot(r, u) == Slot(b, u)
  {
    Build(u => Slots.Plus(Slot(a, u), Slot(b, u), add))
  }

  /** `-UiValue`. */
  function Neg<T>(a: UiValue<T>, neg: T -> T): (r: UiValue<T>)
    ensures forall u :: Slot(r, u).Some? <==> Slot(a, u).Some?
    ensures forall u :: Slot(a, u).Some? ==> Slot(r, u) == Some(neg(Slot(a, u).value))
  {
    Build(u => Slots.Negate(Slot(a, u), neg))
  }

  /** `UiValue - UiValue` as written: a slot present only on the right is
    * copied into the result without being negated. */
  function Sub<T>(a: UiValue<T>, b: UiValue<T>, sub: (T, T) -> T): (r: UiValue<T>)
    ensures forall u :: Slot(a, u).Some? && Slot(b, u).Some? ==>
      Slot(r, u) == Some(sub(Slot(a, u).value, Slot(b, u).value))
    ensures forall u :: Slot(a, u).Some? && Slot(b, u).None? ==> Slot(r, u) == Slot(a, u)
    ensures forall u :: Slot(a, u).None? ==> Slot(r, u) == Slot(b, u)
  {
    Build(u => Slots.MinusUnnegated(Slot(a, u), Slot(b, u), sub))
  }

  /** `UiValue - UiValue` with a right-only slot negated, as the cross-unit
    * operators and `NodeSize` subtraction do. */
  function SubCorrected<T>(a: UiValue<T>, b: UiValue<T>, sub: (T, T) -> T, neg: T -> T): (r: UiValue<T>)
    ensures forall u :: Slot(a, u).Some? && Slot(b, u).Some? ==>
      Slot(r, u) == Some(sub(Slot(a, u).value, Slot(b, u).value))
    ensures forall u :: Slot(a, u).Some? && Slot(b, u).None? ==> Slot(r, u) == Slot(a, u)
    ensures forall u :: Slot(a, u).None? && Slot(b, u).Some? ==> Slot(r, u) == Some(neg(Slot(b, u).value))
    ensures forall u :: Slot(a, u).None? && Slot(b, u).None? ==> Slot(r, u).None?
  {
    Build(u => Slots.Minus(Slot(a, u), Slot(b, u), sub, neg))
  }

  /** `UiValue * UiValue`: only the slots present in both survive. */
  function Mul<T>(a: UiValue<T>, b: UiValue<T>, mul: (T, T) -> T): (r: UiValue<T>)
    ensures forall u :: Slot(r, u).Some? <==> Slot(a, u).Some? && Slot(b, u).Some?
    ensures forall u :: Slot(r, u).Some? ==> Slot(r, u).value == mul(Slot(a, u).value, Slot(b, u).value)
  {
    Build(u => Slots.Times(Slot(a, u), Slot(b, u), mul))
  }

  /** `UiValue + Unit(x)`: an absent slot becomes `x`; no other slot changes. */
  function AddUnit<T>(a: UiValue<T>, unit: Unit, x: T, add: (T, T) -> T): (r: UiValue<T>)
    ensures Slot(r, unit) == if Slot(a, unit).Some? then Some(add(Slot(a, unit).value, x)) else Some(x)
    ensures forall u :: u != unit ==> Slot(r, u) == Slot(a, u)
  {
    Build(u => if u == unit then Slots.PlusUnit(Slot(a, u), x, add) else Slot(a, u))
  }

  /** `UiValue - Unit(x)`: an absent slot becomes `x`, not `-x`. */
  function SubUnit<T>(a: UiValue<T>, unit: Unit, x: T, sub: (T, T) -> T): (r: UiValue<T>)
    ensures Slot(r, unit) == if Slot(a, unit).Some? then Some(sub(Slot(a, unit).value, x)) else Some(x)
    ensures forall u :: u != unit ==> Slot(r, u) == Slot(a, u)
  {
    Build(u => if u == unit then Slots.MinusUnit(Slot(a, u), x, sub) else Slot(a, u))
  }

  /** `UiValue * Unit(x)`: the slot is scaled only if present. */
  function MulUnit<T>(a: UiValue<T>, unit: Unit, x: T, mul: (T, T) -> T): (r: UiValue<T>)
    ensures Slot(a, unit).None? ==> r == a
    ensures Slot(a, unit).Some? ==> Slot(r, unit) == Some(mul(Slot(a, unit).value, x))
    ensures forall u :: u != unit ==> Slot(r, u) == Slot(a, u)
  {
    var r := Build(u => if u == unit then Slots.TimesUnit(Slot(a, u), x, mul) else Slot(a, u));
    assert Slot(a, unit).None? ==> forall u :: Slot(r, u) == Slot(a, u);
    r
  }

  /** `Unit1(x) + Unit2(y)` for two different units: both coefficients kept. */
  function CrossAdd<T>(u1: Unit, x: T, u2: Unit, y: T): (r: UiValue<T>)
    requires u1 != u2
    ensures Slot(r, u1) == Some(x) && Slot(r, u2) == Some(y)
    ensures forall u :: u != u1 && u != u2 ==> Slot(r, u).None?
  {
    Build(u => if u == u1 then Some(x) else if u == u2 then Some(y) else None)
  }

  /** `Unit1(x) - Unit2(y)` for two different units: the second is negated. */
  function CrossSub<T>(u1: Unit, x: T, u2: Unit, y: T, neg: T -> T): (r: UiValue<T>)
    requires u1 != u2
    ensures Slot(r, u1) == Some(x) && Slot(r, u2) == Some(neg(y))
    ensures forall u :: u != u1 && u != u2 ==> Slot(r, u).None?
  {
    Build(u => if u == u1 then Some(x) else if u == u2 then Some(neg(y)) else None)
  }

  /** `get_x`/`get_y` (and `get_z`/`get_w` on Vec3/Vec4) with the component
    * accessor as a parameter: each present slot yields that component. */
  function GetComponent<T>(v: UiValue<T>, get: T -> real): (r: UiValue<real>)
    ensures forall u :: Slot(r, u).Some? <==> Slot(v, u).Some?
    ensures forall u :: Slot(v, u).Some? ==> Slot(r, u) == Some(get(Slot(v, u).value))
  {
    Build(u => match Slot(v, u) case Some(p) => Some(get(p)) case None => None)
  }

  /** `with_x` (and `set_x`, the same update in place) with the component
    * setter and the constructor of a fresh vector as parameters: for every
    * slot present in `other`, a present slot gets that component replaced and
    * an absent slot is created with all other components 0. */
  function WithComponent<T>(v: UiValue<T>, other: UiValue<real>, put: (T, real) -> T, create: real -> T): (r: UiValue<T>)
    ensures forall u :: Slot(other, u).None? ==> Slot(r, u) == Slot(v, u)
    ensures forall u :: Slot(other, u).Some? && Slot(v, u).Some? ==>
      Slot(r, u) == Some(put(Slot(v, u).value, Slot(other, u).value))
    ensures forall u :: Slot(other, u).Some? && Slot(v, u).None? ==>
      Slot(r, u) == Some(create(Slot(other, u).value))
  {
    Build(u =>
      match Slot(other, u)
      case None => Slot(v, u)
      case Some(c) => (match Slot(v, u) case Some(p) => Some(put(p, c)) case None => Some(create(c))))
  }

  function GetX(v: UiValue<Vec2>): UiValue<real> { GetComponent(v, X2) }
  function GetY(v: UiValue<Vec2>): UiValue<real> { GetComponent(v, Y2) }
  function WithX(v: UiValue<Vec2>, other: UiValue<real>): UiValue<Vec2> { WithComponent(v, other, PutX2, FreshX2) }
  function WithY(v: UiValue<Vec2>, other: UiValue<real>): UiValue<Vec2> { WithComponent(v, other, PutY2, FreshY2) }

  /** `From<f32> for UiValue<f32>`: the float is an `Ab` coefficient. */
  function FromReal(x: real): (r: UiValue<real>)
    ensures r == FromUnit(Ab, x)
  {
    Build(u => if u == Ab then Some(x) else None)
  }

  /** `From<UiValue<f32>> for UiValue<Vec2>`: `set_x(v)` then `set_y(v)` on an empty value. */
  function Splat(v: UiValue<real>): UiValue<Vec2>
  {
    WithY(WithX(New(), v), v)
  }

  /** `From<Unit<f32>> for UiValue<Vec2>`: the unit with both components equal. */
  function FromUnitSplat(unit: Unit, x: real): UiValue<Vec2>
  {
    FromUnit(unit, Splat2(x))
  }

  /** Negation is an involution. */
  lemma NegNeg(v: UiValue<real>)
    ensures Neg(Neg(v, NegReal), NegReal) == v
  {
    var r := Neg(Neg(v, NegReal), NegReal);
    assert forall u :: Slot(r, u) == Slot(v, u);
    assert r.ab == Slot(r, Ab) && r.rl == Slot(r, Rl) && r.rw == Slot(r, Rw) && r.rh == Slot(r, Rh)
      && r.em == Slot(r, Em) && r.sp == Slot(r, Sp) && r.vp == Slot(r, Vp) && r.vw == Slot(r, Vw) && r.vh == Slot(r, Vh);
  }

  /** The subtraction as written agrees with the corrected one exactly when no
    * slot is present on the right only. */
  lemma SubAgreesWhenLeftCovers(a: UiValue<real>, b: UiValue<real>)
    ensures (Sub(a, b, SubReal) == SubCorrected(a, b, SubReal, NegReal))
        <==> (forall u :: Slot(b, u).Some? && Slot(a, u).None? ==> Slot(b, u).value == 0.0)
  {
    var s, c := Sub(a, b, SubReal), SubCorrected(a, b, SubReal, NegReal);
    if forall u :: Slot(b, u).Some? && Slot(a, u).None? ==> Slot(b, u).value == 0.0 {
      assert forall u :: Slot(s, u) == Slot(c, u);
      assert s.ab == Slot(s, Ab) && s.rl == Slot(s, Rl) && s.rw == Slot(s, Rw) && s.rh == Slot(s, Rh)
        && s.em == Slot(s, Em) && s.sp == Slot(s, Sp) && s.vp == Slot(s, Vp) && s.vw == Slot(s, Vw) && s.vh == Slot(s, Vh);
      assert c.ab == Slot(c, Ab) && c.rl == Slot(c, Rl) && c.rw == Slot(c, Rw) && c.rh == Slot(c, Rh)
        && c.em == Slot(c, Em) && c.sp == Slot(c, Sp) && c.vp == Slot(c, Vp) && c.vw == Slot(c, Vw) && c.vh == Slot(c, Vh);
    } else {
      var u :| Slot(b, u).Some? && Slot(a, u).None? && Slot(b, u).value != 0.0;
      assert Slot(s, u) != Slot(c, u);
    }
  }

  /** Cross-unit addition is value addition of the two single units. */
  lemma CrossAddIsAdd<T>(u1: Unit, x: T, u2: Unit, y: T, add: (T, T) -> T)
    requires u1 != u2
    ensures CrossAdd(u1, x, u2, y) == Add(FromUnit(u1, x), FromUnit(u2, y), add)
  {
    var p, q := CrossAdd(u1, x, u2, y), Add(FromUnit(u1, x), FromUnit(u2, y), add);
    forall u ensures Slot(p, u) == Slot(q, u) {
      if u == u1 {
        assert Slot(FromUnit(u2, y), u).None?;
      }
    }
    SameSlots(p, q);
  }

  /** Cross-unit subtraction matches the corrected value subtraction of the two
    * single units, while the subtraction as written keeps `y` un-negated. */
  lemma CrossSubIsSubCorrected<T>(u1: Unit, x: T, u2: Unit, y: T, sub: (T, T) -> T, neg: T -> T)
    requires u1 != u2
    ensures CrossSub(u1, x, u2, y, neg) == SubCorrected(FromUnit(u1, x), FromUnit(u2, y), sub, neg)
    ensures Slot(Sub(FromUnit(u1, x), FromUnit(u2, y), sub), u2) == Some(y)
  {
    var p, q := CrossSub(u1, x, u2, y, neg), SubCorrected(FromUnit(u1, x), FromUnit(u2, y), sub, neg);
    forall u ensures Slot(p, u) == Slot(q, u) {
      if u == u1 {
        assert Slot(FromUnit(u2, y), u).None?;
      }
    }
    SameSlots(p, q);
  }

  /** `UiValue - Unit(x)` is the subtraction of the single unit as written,
    * flaw included: an absent slot receives `x`, where the corrected
    * difference holds `-x`. */
  lemma SubUnitIsSub(a: UiValue<real>, unit: Unit, x: real)
    ensures SubUnit(a, unit, x, SubReal) == Sub(a, FromUnit(unit, x), SubReal)
    ensures Slot(a, unit).None? ==> Slot(SubCorrected(a, FromUnit(unit, x), SubReal, NegReal), unit) == Some(-x)
  {
    var p, q := SubUnit(a, unit, x, SubReal), Sub(a, FromUnit(unit, x), SubReal);
    forall u ensures Slot(p, u) == Slot(q, u) {
      if u != unit {
        assert Slot(FromUnit(unit, x), u).None?;
      }
    }
    SameSlots(p, q);
  }

  /** The corrected subtraction adds the negation; the subtraction as written
    * does not: `new() - Rl(3)` differs from `new() + (-Rl(3))`. */
  lemma SubCorrectedIsAddNeg(a: UiValue<real>, b: UiValue<real>)
    ensures SubCorrected(a, b, SubReal, NegReal) == Add(a, Neg(b, NegReal), AddReal)
    ensures Sub(New(), FromUnit(Rl, 3.0), SubReal) != Add(New(), Neg(FromUnit(Rl, 3.0), NegReal), AddReal)
  {
    var p, q := SubCorrected(a, b, SubReal, NegReal), Add(a, Neg(b, NegReal), AddReal);
    forall u ensures Slot(p, u) == Slot(q, u) {
      if Slot(a, u).Some? && Slot(b, u).Some? {
        assert Slot(q, u) == Some(Slot(a, u).value + -Slot(b, u).value);
      }
    }
    SameSlots(p, q);
    var e: UiValue<real> := New();
    assert Slot(Sub(e, FromUnit(Rl, 3.0), SubReal), Rl) == Some(3.0);
    assert Slot(Add(e, Neg(FromUnit(Rl, 3.0), NegReal), AddReal), Rl) == Some(-3.0);
  }

  /** Two values with the same slots are equal. */
  lemma SameSlots<T>(p: UiValue<T>, q: UiValue<T>)
    requires forall u :: Slot(p, u) == Slot(q, u)
    ensures p == q
  {
    assert Slot(p, Ab) == Slot(q, Ab) && Slot(p, Rl) == Slot(q, Rl) && Slot(p, Rw) == Slot(q, Rw);
    assert Slot(p, Rh) == Slot(q, Rh) && Slot(p, Em) == Slot(q, Em) && Slot(p, Sp) == Slot(q, Sp);
    assert Slot(p, Vp) == Slot(q, Vp) && Slot(p, Vw) == Slot(q, Vw) && Slot(p, Vh) == Slot(q, Vh);
  }

  /** Reading back the axis written by `with_x` gives the new coefficient on
    * every slot `other` has, and the old x elsewhere; the y axis keeps its old
    * value, or 0 on a slot `with_x` created. */
  lemma WithXGet(v: UiValue<Vec2>, other: UiValue<real>)
    ensures forall u :: Slot(GetX(WithX(v, other)), u) == if Slot(other, u).Some? then Slot(other, u) else Slot(GetX(v), u)
    ensures forall u :: Slot(GetY(WithX(v, other)), u) ==
                if Slot(v, u).Some? then Slot(GetY(v), u) else if Slot(other, u).Some? then Some(0.0) else None
  {
  }

  lemma WithYGet(v: UiValue<Vec2>, other: UiValue<real>)
    ensures forall u :: Slot(GetY(WithY(v, other)), u) == if Slot(other, u).Some? then Slot(other, u) else Slot(GetY(v), u)
    ensures forall u :: Slot(GetX(WithY(v, other)), u) ==
                if Slot(v, u).Some? then Slot(GetX(v), u) else if Slot(other, u).Some? then Some(0.0) else None
  {
  }

  lemma FromUnitSplatIsSplat(unit: Unit, x: real)
    ensures FromUnitSplat(unit, x) == Splat(FromUnit(unit, x))
  {
    var p, q := FromUnitSplat(unit, x), Splat(FromUnit(unit, x));
    WithXGet(New(), FromUnit(unit, x));
    WithYGet(WithX(New(), FromUnit(unit, x)), FromUnit(unit, x));
    forall u ensures Slot(p, u) == Slot(q, u) {
      if u == unit {
        assert Slot(GetX(q), u) == Some(x) && Slot(GetY(q), u) == Some(x);
      }
    }
    SameSlots(p, q);
  }

  /** `Into<UiValue<Vec2>> for f32`: an `Ab` vector with both components equal. */
  function FromRealSplat(x: real): UiValue<Vec2>
  {
    FromUnit(Ab, Splat2(x))
  }

  /** `Into<UiValue<Vec2>> for (f32, f32)`: an `Ab` vector. */
  function FromRealPair(x: real, y: real): (r: UiValue<Vec2>)
    ensures GetX(r) == FromReal(x) && GetY(r) == FromReal(y)
  {
    var r := FromUnit(Ab, Vec2(x, y));
    SameSlots(GetX(r), FromReal(x));
    SameSlots(GetY(r), FromReal(y));
    r
  }

  /** Converting a scalar value to a Vec2 value puts each coefficient on both axes. */
  lemma SplatAxes(v: UiValue<real>)
    ensures GetX(Splat(v)) == v && GetY(Splat(v)) == v
    ensures forall u :: Slot(Splat(v), u).Some? <==> Slot(v, u).Some?
  {
    WithXGet(New(), v);
    WithYGet(WithX(New(), v), v);
    SameSlots(GetX(Splat(v)), v);
    SameSlots(GetY(Splat(v)), v);
  }

  lemma FromRealSplatIsSplat(x: real)
    ensures FromRealSplat(x) == Splat(FromReal(x))
  {
    FromUnitSplatIsSplat(Ab, x);
  }
}
