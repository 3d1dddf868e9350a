/** `NodeSize` of the lunex_engine crate (crates/lunex_engine/src/common/size.rs):
  * a record of three optional coefficients, absolute (`Abs`), percentage of
  * the parent (`Prc`) and font-relative (`Rem`), with slot-wise operators,
  * replacement builders and evaluation against a scale, a parent size and a
  * font size. */
module EngineSize {
  import opened Base
  import Slots

  datatype Unit = Abs | Prc | Rem

  datatype NodeSize<T> = NodeSize(abs: Option<T>, prc: Option<T>, rem: Option<T>)

  /** The field that holds unit `u`. */
  function Slot<T>(v: NodeSize<T>, u: Unit): Option<T>
  {
    match u
    case Abs => v.abs
    case Prc => v.prc
    case Rem => v.rem
  }

  /** The value whose slot `u` is `f(u)`. */
  function Build<T>(f: Unit -> Option<T>): (r: NodeSize<T>)
    ensures forall u :: Slot(r, u) == f(u)
  {
    NodeSize(f(Abs), f(Prc), f(Rem))
  }

  /** Two values with the same slots are equal. */
  lemma SameSlots<T>(p: NodeSize<T>, q: NodeSize<T>)
    requires forall u :: Slot(p, u) == Slot(q, u)
    ensures p == q
  {
    assert Slot(p, Abs) == Slot(q, Abs) && Slot(p, Prc) == Slot(q, Prc) && Slot(p, Rem) == Slot(q, Rem);
  }

  /** `NodeSize::new()`: every slot absent. */
  function New<T>(): (r: NodeSize<T>)
    ensures forall u :: Slot(r, u).None?
  {
    NodeSize(None, None, None)
  }

  /** `from_abs`/`from_prc`/`from_rem`, and the `Into<NodeSize<T>>` of a
    * single unit (`new().with_abs(..)` and its siblings): exactly that slot set. */
  function FromUnit<T>(unit: Unit, x: T): (r: NodeSize<T>)
    ensures Slot(r, unit) == Some(x)
    ensures forall u :: u != unit ==> Slot(r, u).None?
  {
    Build(u => if u == unit then Some(x) else None)
  }

  /** `with_abs`/`with_prc`/`with_rem` (and `set_abs`/`set_prc`/`set_rem`,
    * the same update in place): the unit's slot becomes `x`, whatever it held. */
  function WithUnit<T>(v: NodeSize<T>, unit: Unit, x: T): (r: NodeSize<T>)
    ensures Slot(r, unit) == Some(x)
    ensures forall u :: u != unit ==> Slot(r, u) == Slot(v, u)
  {
    Build(u => if u == unit then Some(x) else Slot(v, u))
  }

  /** `with` (and `set`, the same update in place): every slot present in
    * `other` replaces the corresponding slot; the others are kept. */
  function With<T>(v: NodeSize<T>, other: NodeSize<T>): (r: NodeSize<T>)
    ensures forall u :: Slot(other, u).Some? ==> Slot(r, u) == Slot(other, u)
    ensures forall u :: Slot(other, u).None? ==> Slot(r, u) == Slot(v, u)
  {
    Build(u => if Slot(other, u).Some? then Slot(other, u) else Slot(v, u))
  }

  /** `from_standard`: the Tailwind spacing scale, one step being a quarter rem. */
  function FromStandard<T>(size: T, mulS: (T, real) -> T): (r: NodeSize<T>)
    ensures Slot(r, Rem) == Some(mulS(size, 0.25))
    ensures Slot(r, Abs).None? && Slot(r, Prc).None?
  {
    FromUnit(Rem, mulS(size, 0.25))
  }

  /** `NodeSize + NodeSize`. */
  function Add<T>(a: NodeSize<T>, b: NodeSize<T>, add: (T, T) -> T): (r: NodeSize<T>)
    ensures forall u :: Slot(a, u).Some? && Slot(b, u).Some? ==>
      Slot(r, u) == Some(add(Slot(a, u).value, Slot(b, u).value))
    ensures forall u :: Slot(a, u).Some? && Slot(b, u).None? ==> Slot(r, u) == Slot(a, u)
    ensures forall u :: Slot(a, u).None? ==> Slot(r, u) == Slot(b, u)
  {
    Build(u => Slots.Plus(Slot(a, u), Slot(b, u), add))
  }

  /** `NodeSize + Abs/Prc/Rem` (and `+=`): an absent slot becomes `x`. */
  function AddUnit<T>(a: NodeSize<T>, unit: Unit, x: T, add: (T, T) -> T): (r: NodeSize<T>)
    ensures Slot(r, unit) == if Slot(a, unit).Some? then Some(add(Slot(a, unit).value, x)) else Some(x)
    ensures forall u :: u != unit ==> Slot(r, u) == Slot(a, u)
  {
    Build(u => if u == unit then Slots.PlusUnit(Slot(a, u), x, add) else Slot(a, u))
  }

  /** `Unit1(x) + Unit2(y)` of two different units (`from_abs_prc` and its
    * siblings, with the arguments ordered by unit): both coefficients kept. */
  function CrossAdd<T>(u1: Unit, x: T, u2: Unit, y: T): (r: NodeSize<T>)
    requires u1 != u2
    ensures Slot(r, u1) == Some(x) && Slot(r, u2) == Some(y)
    ensures forall u :: u != u1 && u != u2 ==> Slot(r, u).None?
  {
    Build(u => if u == u1 then Some(x) else if u == u2 then Some(y) else None)
  }

  /** `-NodeSize`. */
  function Neg<T>(a: NodeSize<T>, neg: T -> T): (r: NodeSize<T>)
    ensures forall u :: Slot(r, u).Some? <==> Slot(a, u).Some?
    ensures forall u :: Slot(a, u).Some? ==> Slot(r, u) == Some(neg(Slot(a, u).value))
  {
    Build(u => Slots.Negate(Slot(a, u), neg))
  }

  /** `NodeSize - NodeSize` (and `-=`): a slot present only on the right is negated. */
  function Sub<T>(a: NodeSize<T>, b: NodeSize<T>, sub: (T, T) -> T, neg: T -> T): (r: NodeSize<T>)
    ensures forall u :: Slot(a, u).Some? && Slot(b, u).Some? ==>
      Slot(r, u) == Some(sub(Slot(a, u).value, Slot(b, u).value))
    ensures forall u :: Slot(a, u).Some? && Slot(b, u).None? ==> Slot(r, u) == Slot(a, u)
    ensures forall u :: Slot(a, u).None? && Slot(b, u).Some? ==> Slot(r, u) == Some(neg(Slot(b, u).value))
    ensures forall u :: Slot(a, u).None? && Slot(b, u).None? ==> Slot(r, u).None?
  {
    Build(u => Slots.Minus(Slot(a, u), Slot(b, u), sub, neg))
  }

  /** `NodeSize - Abs/Prc/Rem` (and `-=`) as written: an absent slot becomes
    * `x`, not `-x`. */
  function SubUnit<T>(a: NodeSize<T>, unit: Unit, x: T, sub: (T, T) -> T): (r: NodeSize<T>)
    ensures Slot(r, unit) == if Slot(a, unit).Some? then Some(sub(Slot(a, unit).value, x)) else Some(x)
    ensures forall u :: u != unit ==> Slot(r, u) == Slot(a, u)
  {
    Build(u => if u == unit then Slots.MinusUnit(Slot(a, u), x, sub) else Slot(a, u))
  }

  /** `NodeSize - Abs/Prc/Rem` with an absent slot becoming `-x`, as
    * `NodeSize - NodeSize` does. */
  function SubUnitCorrected<T>(a: NodeSize<T>, unit: Unit, x: T, sub: (T, T) -> T, neg: T -> T): (r: NodeSize<T>)
    ensures Slot(r, unit) == if Slot(a, unit).Some? then Some(sub(Slot(a, unit).value, x)) else Some(neg(x))
    ensures forall u :: u != unit ==> Slot(r, u) == Slot(a, u)
  {
    Build(u => if u == unit then Slots.Minus(Slot(a, u), Some(x), sub, neg) else Slot(a, u))
  }

  /** `Unit1(x) - Unit2(y)` of two different units: the second is negated. */
  function CrossSub<T>(u1: Unit, x: T, u2: Unit, y: T, neg: T -> T): (r: NodeSize<T>)
    requires u1 != u2
    ensures Slot(r, u1) == Some(x) && Slot(r, u2) == Some(neg(y))
    ensures forall u :: u != u1 && u != u2 ==> Slot(r, u).None?
  {
    Build(u => if u == u1 then Some(x) else if u == u2 then Some(neg(y)) else None)
  }

  /** `NodeSize * NodeSize` (and `*=`): only the slots present in both survive. */
  function Mul<T>(a: NodeSize<T>, b: NodeSize<T>, mul: (T, T) -> T): (r: NodeSize<T>)
    ensures forall u :: Slot(r, u).Some? <==> Slot(a, u).Some? && Slot(b, u).Some?
    ensures forall u :: Slot(r, u).Some? ==> Slot(r, u).value == mul(Slot(a, u).value, Slot(b, u).value)
  {
    Build(u => Slots.Times(Slot(a, u), Slot(b, u), mul))
  }

  /** `NodeSize * Abs/Prc/Rem` (and `*=`): the slot is multiplied only if present. */
  function MulUnit<T>(a: NodeSize<T>, unit: Unit, x: T, mul: (T, T) -> T): (r: NodeSize<T>)
    ensures Slot(a, unit).None? ==> r == a
    ensures Slot(a, unit).Some? ==> Slot(r, unit) == Some(mul(Slot(a, unit).value, x))
    ensures forall u :: u != unit ==> Slot(r, u) == Slot(a, u)
  {
    var r := Build(u => if u == unit then Slots.TimesUnit(Slot(a, u), x, mul) else Slot(a, u));
    assert Slot(a, unit).None? ==> forall u :: Slot(r, u) == Slot(a, u);
    r
  }

  /** `NodeSize * f32` (and `*= f32`): every present slot scaled, absent stay absent. */
  function Scale<T>(a: NodeSize<T>, s: real, mulS: (T, real) -> T): (r: NodeSize<T>)
    ensures forall u :: Slot(r, u).Some? <==> Slot(a, u).Some?
    ensures forall u :: Slot(a, u).Some? ==> Slot(r, u) == Some(mulS(Slot(a, u).value, s))
  {
    Build(u => Slots.Scaled(Slot(a, u), s, mulS))
  }

  // ---------------------------------------------------------------------
  // Axes of NodeSize<Vec2>

  /** `get_x`/`get_y`: a scalar size with the same present slots, each holding
    * that component. */
  function GetComponent<T>(v: NodeSize<T>, get: T -> real): (r: NodeSize<real>)
    ensures forall u :: Slot(r, u).Some? <==> Slot(v, u).Some?
    ensures forall u :: Slot(v, u).Some? ==> Slot(r, u) == Some(get(Slot(v, u).value))
  {
    Build(u => match Slot(v, u) case Some(p) => Some(get(p)) case None => None)
  }

  /** `with_x`/`with_y` (and `set_x`/`set_y` in place): for every slot present
    * in `other`, a present slot gets that axis replaced and an absent slot is
    * created with 0 on the other axis. */
  function WithComponent<T>(v: NodeSize<T>, other: NodeSize<real>, put: (T, real) -> T, create: real -> T): (r: NodeSize<T>)
    ensures forall u :: Slot(other, u).None? ==> Slot(r, u) == Slot(v, u)
    ensures forall u :: Slot(other, u).Some? && Slot(v, u).Some? ==>
      Slot(r, u) == Some(put(Slot(v, u).value, Slot(other, u).value))
    ensures forall u :: Slot(other, u).Some? && Slot(v, u).None? ==>
      Slot(r, u) == Some(create(Slot(other, u).value))
  {
    Build(u =>
      match Slot(other, u)
      case None => Slot(v, u)
      case Some(c) => (match Slot(v, u) case Some(p) => Some(put(p, c)) case None => Some(create(c))))
  }

  function GetX(v: NodeSize<Vec2>): NodeSize<real> { GetComponent(v, X2) }
  function GetY(v: NodeSize<Vec2>): NodeSize<real> { GetComponent(v, Y2) }
  function WithX(v: NodeSize<Vec2>, other: NodeSize<real>): NodeSize<Vec2> { WithComponent(v, other, PutX2, FreshX2) }
  function WithY(v: NodeSize<Vec2>, other: NodeSize<real>): NodeSize<Vec2> { WithComponent(v, other, PutY2, FreshY2) }

  /** The same accessors on `NodeSize<Vec4>`, whose z and w axes are also used. */
  function GetX4(v: NodeSize<Vec4>): NodeSize<real> { GetComponent(v, X4) }
  function GetY4(v: NodeSize<Vec4>): NodeSize<real> { GetComponent(v, Y4) }
  function GetZ4(v: NodeSize<Vec4>): NodeSize<real> { GetComponent(v, Z4) }
  function GetW4(v: NodeSize<Vec4>): NodeSize<real> { GetComponent(v, W4) }
  function WithX4(v: NodeSize<Vec4>, other: NodeSize<real>): NodeSize<Vec4> { WithComponent(v, other, PutX4, FreshX4) }
  function WithY4(v: NodeSize<Vec4>, other: NodeSize<real>): NodeSize<Vec4> { WithComponent(v, other, PutY4, FreshY4) }
  function WithZ4(v: NodeSize<Vec4>, other: NodeSize<real>): NodeSize<Vec4> { WithComponent(v, other, PutZ4, FreshZ4) }
  function WithW4(v: NodeSize<Vec4>, other: NodeSize<real>): NodeSize<Vec4> { WithComponent(v, other, PutW4, FreshW4) }

  /** `Into<NodeSize<Vec2>> for NodeSize<f32>`: `set_x` then `set_y` on an empty size. */
  function Splat(v: NodeSize<real>): NodeSize<Vec2>
  {
    WithY(WithX(New(), v), v)
  }

  /** `Into<NodeSize<Vec2>>` for `Abs<f32>`, `Prc<f32>`, `Rem<f32>`: both axes equal. */
  function FromUnitSplat(unit: Unit, x: real): NodeSize<Vec2>
  {
    FromUnit(unit, Splat2(x))
  }

  /** `Into<NodeSize<Vec2>>` for `Abs<(f32, f32)>` and its siblings. */
  function FromUnitPair(unit: Unit, x: real, y: real): NodeSize<Vec2>
  {
    FromUnit(unit, Vec2(x, y))
  }

  // ---------------------------------------------------------------------
  // Evaluation

  /** `NodeSizeEvaluate<f32, f32>::evaluate`: absent slots contribute 0. */
  function Evaluate(v: NodeSize<real>, scale: real, parent: real, font: real): (r: real)
    ensures scale == 0.0 && parent == 0.0 && font == 0.0 ==> r == 0.0
  {
    Formula(Val(v.abs), Val(v.prc), Val(v.rem), scale, parent, font)
  }

  /** The f32 evaluation formula on the three coefficients. */
  function Formula(abs: real, prc: real, rem: real, scale: real, parent: real, font: real): real
  {
    abs * scale + (prc / 100.0) * parent + rem * font
  }

  /** `evaluate_abs`: the evaluation of the `abs` slot alone. */
  function EvaluateAbs(v: NodeSize<real>, scale: real): (r: real)
    ensures r == Evaluate(v.(prc := None, rem := None), scale, 0.0, 0.0)
  {
    Val(v.abs) * scale
  }

  /** `evaluate_prc`: the evaluation of the `prc` slot alone. */
  function EvaluatePrc(v: NodeSize<real>, parent: real): (r: real)
    ensures r == Evaluate(v.(abs := None, rem := None), 0.0, parent, 0.0)
  {
    (Val(v.prc) / 100.0) * parent
  }

  /** `evaluate_rem`: the evaluation of the `rem` slot alone. */
  function EvaluateRem(v: NodeSize<real>, font: real): (r: real)
    ensures r == Evaluate(v.(abs := None, prc := None), 0.0, 0.0, font)
  {
    Val(v.rem) * font
  }

  /** `evaluate_abs_rem`: the evaluation with the `prc` slot left out. */
  function EvaluateAbsRem(v: NodeSize<real>, scale: real, font: real): (r: real)
    ensures r == Evaluate(v.(prc := None), scale, 0.0, font)
    ensures r == EvaluateAbs(v, scale) + EvaluateRem(v, font)
  {
    Val(v.abs) * scale + Val(v.rem) * font
  }

  /** The Vec2 evaluation formula on the three coefficient vectors: `prc` is
    * taken component-wise of the parent. */
  function Formula2(abs: Vec2, prc: Vec2, rem: Vec2, scale: real, parent: Vec2, font: real): Vec2
  {
    Vec2(abs.x * scale + (prc.x / 100.0) * parent.x + rem.x * font,
         abs.y * scale + (prc.y / 100.0) * parent.y + rem.y * font)
  }

  /** `NodeSizeEvaluate<Vec2, f32>::evaluate`: `prc` is taken component-wise of
    * the parent; scale and font size are scalars. */
  function Evaluate2(v: NodeSize<Vec2>, scale: real, parent: Vec2, font: real): (r: Vec2)
    ensures scale == 0.0 && parent == Zero2 && font == 0.0 ==> r == Zero2
  {
    Formula2(Val2(v.abs), Val2(v.prc), Val2(v.rem), scale, parent, font)
  }

  /** `NodeSizeEvaluate<Vec4, f32>::evaluate`: `prc` is taken component-wise
    * of the parent. */
  function Evaluate4(v: NodeSize<Vec4>, scale: real, parent: Vec4, font: real): (r: Vec4)
    ensures scale == 0.0 && parent == Vec4(0.0, 0.0, 0.0, 0.0) && font == 0.0 ==> r == Vec4(0.0, 0.0, 0.0, 0.0)
  {
    var abs, prc, rem := Val4(v.abs), Val4(v.prc), Val4(v.rem);
    Vec4(abs.x * scale + (prc.x / 100.0) * parent.x + rem.x * font,
         abs.y * scale + (prc.y / 100.0) * parent.y + rem.y * font,
         abs.z * scale + (prc.z / 100.0) * parent.z + rem.z * font,
         abs.w * scale + (prc.w / 100.0) * parent.w + rem.w * font)
  }

  // ---------------------------------------------------------------------
  // Properties

  /** The whole evaluation is the sum of the per-unit evaluations. */
  lemma EvaluateParts(v: NodeSize<real>, scale: real, parent: real, font: real)
    ensures Evaluate(v, scale, parent, font) == EvaluateAbs(v, scale) + EvaluatePrc(v, parent) + EvaluateRem(v, font)
    ensures EvaluateAbsRem(v, scale, font) == EvaluateAbs(v, scale) + EvaluateRem(v, font)
    ensures v.prc.None? ==> Evaluate(v, scale, parent, font) == EvaluateAbsRem(v, scale, font)
  {
  }

  /** What one unit of each kind is worth. */
  lemma EvaluateUnit(unit: Unit, x: real, scale: real, parent: real, font: real)
    ensures Evaluate(FromUnit(unit, x), scale, parent, font)
         == match unit case Abs => x * scale case Prc => x / 100.0 * parent case Rem => x * font
  {
    var v := FromUnit(unit, x);
    assert v.abs == Slot(v, Abs) && v.prc == Slot(v, Prc) && v.rem == Slot(v, Rem);
  }

  /** Evaluation is additive: absent slots contribute 0 on both sides. */
  lemma EvaluateAdd(a: NodeSize<real>, b: NodeSize<real>, scale: real, parent: real, font: real)
    ensures Evaluate(Add(a, b, AddReal), scale, parent, font) == Evaluate(a, scale, parent, font) + Evaluate(b, scale, parent, font)
  {
    var r := Add(a, b, AddReal);
    assert r.abs == Slot(r, Abs) && r.prc == Slot(r, Prc) && r.rem == Slot(r, Rem);
    Slots.ValPlus(a.abs, b.abs);
    Slots.ValPlus(a.prc, b.prc);
    Slots.ValPlus(a.rem, b.rem);
    EvaluateOfSums(r, a, b, scale, parent, font);
  }

  lemma EvaluateOfSums(r: NodeSize<real>, a: NodeSize<real>, b: NodeSize<real>, scale: real, parent: real, font: real)
    requires Val(r.abs) == Val(a.abs) + Val(b.abs) && Val(r.prc) == Val(a.prc) + Val(b.prc) && Val(r.rem) == Val(a.rem) + Val(b.rem)
    ensures Evaluate(r, scale, parent, font) == Evaluate(a, scale, parent, font) + Evaluate(b, scale, parent, font)
  {
    Distrib(Val(a.abs), Val(b.abs), scale);
    Distrib(Val(a.prc) / 100.0, Val(b.prc) / 100.0, parent);
    Distrib(Val(a.rem), Val(b.rem), font);
  }

  lemma Distrib(x: real, y: real, w: real)
    ensures (x + y) * w == x * w + y * w
  {
  }

  /** `NodeSize - NodeSize` is the inverse of addition under evaluation. */
  lemma EvaluateSub(a: NodeSize<real>, b: NodeSize<real>, scale: real, parent: real, font: real)
    ensures Evaluate(Sub(a, b, SubReal, NegReal), scale, parent, font) == Evaluate(a, scale, parent, font) - Evaluate(b, scale, parent, font)
  {
    var r := Sub(a, b, SubReal, NegReal);
    assert r.abs == Slot(r, Abs) && r.prc == Slot(r, Prc) && r.rem == Slot(r, Rem);
    Slots.ValMinus(a.abs, b.abs);
    Slots.ValMinus(a.prc, b.prc);
    Slots.ValMinus(a.rem, b.rem);
    EvaluateOfDifferences(r, a, b, scale, parent, font);
  }

  lemma EvaluateOfDifferences(r: NodeSize<real>, a: NodeSize<real>, b: NodeSize<real>, scale: real, parent: real, font: real)
    requires Val(r.abs) == Val(a.abs) - Val(b.abs) && Val(r.prc) == Val(a.prc) - Val(b.prc) && Val(r.rem) == Val(a.rem) - Val(b.rem)
    ensures Evaluate(r, scale, parent, font) == Evaluate(a, scale, parent, font) - Evaluate(b, scale, parent, font)
  {
    var aa, ap, ar := Val(a.abs), Val(a.prc), Val(a.rem);
    var ba, bp, br := Val(b.abs), Val(b.prc), Val(b.rem);
    assert Evaluate(r, scale, parent, font) == Formula(aa - ba, ap - bp, ar - br, scale, parent, font);
    LinearSub(aa, ap, ar, ba, bp, br, scale, parent, font);
  }

  /** Scaling by a float scales the evaluation. */
  lemma EvaluateScale(v: NodeSize<real>, s: real, scale: real, parent: real, font: real)
    ensures Evaluate(Scale(v, s, MulReal), scale, parent, font) == Evaluate(v, scale, parent, font) * s
  {
    var r := Scale(v, s, MulReal);
    assert r.abs == Slot(r, Abs) && r.prc == Slot(r, Prc) && r.rem == Slot(r, Rem);
    Slots.ValScaled(v.abs, s);
    Slots.ValScaled(v.prc, s);
    Slots.ValScaled(v.rem, s);
    EvaluateOfScaled(r, v, s, scale, parent, font);
  }

  lemma EvaluateOfScaled(r: NodeSize<real>, v: NodeSize<real>, s: real, scale: real, parent: real, font: real)
    requires Val(r.abs) == Val(v.abs) * s && Val(r.prc) == Val(v.prc) * s && Val(r.rem) == Val(v.rem) * s
    ensures Evaluate(r, scale, parent, font) == Evaluate(v, scale, parent, font) * s
  {
    LinearScale(Val(v.abs), Val(v.prc), Val(v.rem), s, scale, parent, font);
  }

  lemma Commute(x: real, s: real, w: real)
    ensures x * s * w == x * w * s
  {
  }

  /** Adding a single unit is adding the size that holds only that unit. */
  lemma AddUnitIsAdd<T>(a: NodeSize<T>, unit: Unit, x: T, add: (T, T) -> T)
    ensures AddUnit(a, unit, x, add) == Add(a, FromUnit(unit, x), add)
  {
    SameSlots(AddUnit(a, unit, x, add), Add(a, FromUnit(unit, x), add));
  }

  /** The corrected single-unit subtraction is subtracting the size that holds
    * only that unit; the subtraction as written agrees with it exactly when
    * the slot is present or `x` is 0. */
  lemma SubUnitCorrectedIsSub(a: NodeSize<real>, unit: Unit, x: real)
    ensures SubUnitCorrected(a, unit, x, SubReal, NegReal) == Sub(a, FromUnit(unit, x), SubReal, NegReal)
    ensures (SubUnit(a, unit, x, SubReal) == SubUnitCorrected(a, unit, x, SubReal, NegReal)) <==> (Slot(a, unit).Some? || x == 0.0)
  {
    SameSlots(SubUnitCorrected(a, unit, x, SubReal, NegReal), Sub(a, FromUnit(unit, x), SubReal, NegReal));
    if Slot(a, unit).Some? || x == 0.0 {
      SameSlots(SubUnit(a, unit, x, SubReal), SubUnitCorrected(a, unit, x, SubReal, NegReal));
    } else {
      assert Slot(SubUnit(a, unit, x, SubReal), unit) != Slot(SubUnitCorrected(a, unit, x, SubReal, NegReal), unit);
    }
  }

  /** `new() - Abs(5)` holds `abs = 5` and evaluates to +5, while
    * `new() - from_abs(5)` holds `abs = -5`. */
  lemma SubUnitCounterexample()
    ensures SubUnit(New(), Abs, 5.0, SubReal) == FromUnit(Abs, 5.0)
    ensures Sub(New(), FromUnit(Abs, 5.0), SubReal, NegReal) == FromUnit(Abs, -5.0)
    ensures Evaluate(SubUnit(New(), Abs, 5.0, SubReal), 1.0, 0.0, 0.0) == 5.0
  {
    var e: NodeSize<real> := New();
    SameSlots(SubUnit(e, Abs, 5.0, SubReal), FromUnit(Abs, 5.0));
    SameSlots(Sub(e, FromUnit(Abs, 5.0), SubReal, NegReal), FromUnit(Abs, -5.0));
    EvaluateUnit(Abs, 5.0, 1.0, 0.0, 0.0);
  }

  /** The corrected single-unit subtraction undoes the single-unit addition
    * under evaluation, whether or not the slot was present. */
  lemma EvaluateSubUnitCorrected(a: NodeSize<real>, unit: Unit, x: real, scale: real, parent: real, font: real)
    ensures Evaluate(SubUnitCorrected(a, unit, x, SubReal, NegReal), scale, parent, font)
         == Evaluate(a, scale, parent, font) - Evaluate(FromUnit(unit, x), scale, parent, font)
  {
    SubUnitCorrectedIsSub(a, unit, x);
    EvaluateSub(a, FromUnit(unit, x), scale, parent, font);
  }

  /** `with` keeps what `other` lacks, and is idempotent. */
  lemma WithIdempotent<T>(v: NodeSize<T>, other: NodeSize<T>)
    ensures With(With(v, other), other) == With(v, other)
    ensures With(v, New()) == v
  {
    SameSlots(With(With(v, other), other), With(v, other));
    SameSlots(With(v, New()), v);
  }

  /** `with_x` on a slot reads back the new coefficient and leaves the y axis;
    * a slot it creates has y = 0. */
  lemma WithXGet(v: NodeSize<Vec2>, other: NodeSize<real>)
    ensures forall u :: Slot(GetX(WithX(v, other)), u) == if Slot(other, u).Some? then Slot(other, u) else Slot(GetX(v), u)
    ensures forall u :: Slot(GetY(WithX(v, other)), u) ==
                if Slot(v, u).Some? then Slot(GetY(v), u) else if Slot(other, u).Some? then Some(0.0) else None
  {
  }

  lemma WithYGet(v: NodeSize<Vec2>, other: NodeSize<real>)
    ensures forall u :: Slot(GetY(WithY(v, other)), u) == if Slot(other, u).Some? then Slot(other, u) else Slot(GetY(v), u)
    ensures forall u :: Slot(GetX(WithY(v, other)), u) ==
                if Slot(v, u).Some? then Slot(GetX(v), u) else if Slot(other, u).Some? then Some(0.0) else None
  {
  }

  /** The source builds `get_x` by `+=` of each present unit onto an empty
    * size; that accumulation gives the same size. */
  lemma GetComponentAccumulates<T>(v: NodeSize<T>, get: T -> real)
    ensures GetComponent(v, get)
         == var o1 := if v.abs.Some? then AddUnit(New(), Abs, get(v.abs.value), AddReal) else New();
            var o2 := if v.prc.Some? then AddUnit(o1, Prc, get(v.prc.value), AddReal) else o1;
            if v.rem.Some? then AddUnit(o2, Rem, get(v.rem.value), AddReal) else o2
  {
    var o1 := if v.abs.Some? then AddUnit(New(), Abs, get(v.abs.value), AddReal) else New();
    var o2 := if v.prc.Some? then AddUnit(o1, Prc, get(v.prc.value), AddReal) else o1;
    var o3 := if v.rem.Some? then AddUnit(o2, Rem, get(v.rem.value), AddReal) else o2;
    assert v.abs == Slot(v, Abs) && v.prc == Slot(v, Prc) && v.rem == Slot(v, Rem);
    SameSlots(GetComponent(v, get), o3);
  }

  /** Converting a scalar size to a Vec2 size puts each coefficient on both axes. */
  lemma SplatAxes(v: NodeSize<real>)
    ensures GetX(Splat(v)) == v && GetY(Splat(v)) == v
    ensures forall u :: Slot(Splat(v), u).Some? <==> Slot(v, u).Some?
  {
    WithXGet(New(), v);
    WithYGet(WithX(New(), v), v);
    SameSlots(GetX(Splat(v)), v);
    SameSlots(GetY(Splat(v)), v);
  }

  /** The single-unit conversion is the general conversion of that unit. */
  lemma FromUnitSplatIsSplat(unit: Unit, x: real)
    ensures FromUnitSplat(unit, x) == Splat(FromUnit(unit, x))
  {
    var p, q := FromUnitSplat(unit, x), Splat(FromUnit(unit, x));
    WithXGet(New(), FromUnit(unit, x));
    WithYGet(WithX(New(), FromUnit(unit, x)), FromUnit(unit, x));
    forall u ensures Slot(p, u) == Slot(q, u) {
      if u == unit {
        assert Slot(GetX(q), u) == Some(x) && Slot(GetY(q), u) == Some(x);
      }
    }
    SameSlots(p, q);
  }

  /** Vec2 evaluation is the scalar evaluation of each axis. */
  lemma Evaluate2Axes(v: NodeSize<Vec2>, scale: real, parent: Vec2, font: real)
    ensures Evaluate2(v, scale, parent, font).x == Evaluate(GetX(v), scale, parent.x, font)
    ensures Evaluate2(v, scale, parent, font).y == Evaluate(GetY(v), scale, parent.y, font)
  {
    var gx, gy := GetX(v), GetY(v);
    assert Val(gx.abs) == Val2(v.abs).x && Val(gy.abs) == Val2(v.abs).y by { assert gx.abs == Slot(gx, Abs) && gy.abs == Slot(gy, Abs); }
    assert Val(gx.prc) == Val2(v.prc).x && Val(gy.prc) == Val2(v.prc).y by { assert gx.prc == Slot(gx, Prc) && gy.prc == Slot(gy, Prc); }
    assert Val(gx.rem) == Val2(v.rem).x && Val(gy.rem) == Val2(v.rem).y by { assert gx.rem == Slot(gx, Rem) && gy.rem == Slot(gy, Rem); }
  }

  /** Vec2 subtraction is the inverse of addition under evaluation. */
  lemma Evaluate2Sub(a: NodeSize<Vec2>, b: NodeSize<Vec2>, scale: real, parent: Vec2, font: real)
    ensures Evaluate2(Sub(a, b, Sub2Fn, Neg2Fn), scale, parent, font) == Sub2(Evaluate2(a, scale, parent, font), Evaluate2(b, scale, parent, font))
  {
    var r := Sub(a, b, Sub2Fn, Neg2Fn);
    assert r.abs == Slot(r, Abs) && r.prc == Slot(r, Prc) && r.rem == Slot(r, Rem);
    Slots.ValMinus2(a.abs, b.abs);
    Slots.ValMinus2(a.prc, b.prc);
    Slots.ValMinus2(a.rem, b.rem);
    Evaluate2OfDifferences(r, a, b, scale, parent, font);
  }

  lemma Evaluate2OfDifferences(r: NodeSize<Vec2>, a: NodeSize<Vec2>, b: NodeSize<Vec2>, scale: real, parent: Vec2, font: real)
    requires Val2(r.abs) == Sub2(Val2(a.abs), Val2(b.abs))
    requires Val2(r.prc) == Sub2(Val2(a.prc), Val2(b.prc))
    requires Val2(r.rem) == Sub2(Val2(a.rem), Val2(b.rem))
    ensures Evaluate2(r, scale, parent, font) == Sub2(Evaluate2(a, scale, parent, font), Evaluate2(b, scale, parent, font))
  {
    var aa, ap, ar := Val2(a.abs), Val2(a.prc), Val2(a.rem);
    var ba, bp, br := Val2(b.abs), Val2(b.prc), Val2(b.rem);
    assert Evaluate2(r, scale, parent, font) == Formula2(Sub2(aa, ba), Sub2(ap, bp), Sub2(ar, br), scale, parent, font);
    assert Evaluate2(a, scale, parent, font) == Formula2(aa, ap, ar, scale, parent, font);
    assert Evaluate2(b, scale, parent, font) == Formula2(ba, bp, br, scale, parent, font);
    Formula2Sub(aa, ap, ar, ba, bp, br, scale, parent, font);
  }

  lemma Formula2Sub(aa: Vec2, ap: Vec2, ar: Vec2, ba: Vec2, bp: Vec2, br: Vec2, scale: real, parent: Vec2, font: real)
    ensures Formula2(Sub2(aa, ba), Sub2(ap, bp), Sub2(ar, br), scale, parent, font)
         == Sub2(Formula2(aa, ap, ar, scale, parent, font), Formula2(ba, bp, br, scale, parent, font))
  {
    LinearSub(aa.x, ap.x, ar.x, ba.x, bp.x, br.x, scale, parent.x, font);
    LinearSub(aa.y, ap.y, ar.y, ba.y, bp.y, br.y, scale, parent.y, font);
  }

  lemma Formula2Scale(va: Vec2, vp: Vec2, vr: Vec2, s: real, scale: real, parent: Vec2, font: real)
    ensures Formula2(Scale2(va, s), Scale2(vp, s), Scale2(vr, s), scale, parent, font)
         == Scale2(Formula2(va, vp, vr, scale, parent, font), s)
  {
    LinearScale(va.x, vp.x, vr.x, s, scale, parent.x, font);
    LinearScale(va.y, vp.y, vr.y, s, scale, parent.y, font);
  }

  /** Scaling a Vec2 size by a float scales its evaluation. */
  lemma Evaluate2Scale(v: NodeSize<Vec2>, s: real, scale: real, parent: Vec2, font: real)
    ensures Evaluate2(Scale(v, s, Scale2), scale, parent, font) == Scale2(Evaluate2(v, scale, parent, font), s)
  {
    var r := Scale(v, s, Scale2);
    assert r.abs == Slot(r, Abs) && r.prc == Slot(r, Prc) && r.rem == Slot(r, Rem);
    Slots.ValScaled2(v.abs, s);
    Slots.ValScaled2(v.prc, s);
    Slots.ValScaled2(v.rem, s);
    Evaluate2OfMultiples(r, v, s, scale, parent, font);
  }

  lemma Evaluate2OfMultiples(r: NodeSize<Vec2>, v: NodeSize<Vec2>, s: real, scale: real, parent: Vec2, font: real)
    requires Val2(r.abs) == Scale2(Val2(v.abs), s)
    requires Val2(r.prc) == Scale2(Val2(v.prc), s)
    requires Val2(r.rem) == Scale2(Val2(v.rem), s)
    ensures Evaluate2(r, scale, parent, font) == Scale2(Evaluate2(v, scale, parent, font), s)
  {
    var va, vp, vr := Val2(v.abs), Val2(v.prc), Val2(v.rem);
    assert Evaluate2(r, scale, parent, font) == Formula2(Scale2(va, s), Scale2(vp, s), Scale2(vr, s), scale, parent, font);
    assert Evaluate2(v, scale, parent, font) == Formula2(va, vp, vr, scale, parent, font);
    Formula2Scale(va, vp, vr, s, scale, parent, font);
  }


  /** The evaluation formula is linear in the coefficients: differences. */
  lemma LinearSub(a1: real, p1: real, r1: real, a2: real, p2: real, r2: real, scale: real, parent: real, font: real)
    ensures (a1 - a2) * scale + ((p1 - p2) / 100.0) * parent + (r1 - r2) * font
         == (a1 * scale + (p1 / 100.0) * parent + r1 * font) - (a2 * scale + (p2 / 100.0) * parent + r2 * font)
  {
    Distrib(a1, -a2, scale);
    Distrib(p1 / 100.0, -p2 / 100.0, parent);
    Distrib(r1, -r2, font);
  }

  /** The evaluation formula is linear in the coefficients: multiples. */
  lemma LinearScale(a: real, p: real, r: real, s: real, scale: real, parent: real, font: real)
    ensures (a * s) * scale + ((p * s) / 100.0) * parent + (r * s) * font
         == (a * scale + (p / 100.0) * parent + r * font) * s
  {
    Commute(a, s, scale);
    Commute(p / 100.0, s, parent);
    Commute(r, s, font);
  }

  /** Vec4 evaluation is the scalar evaluation of each axis. */
  lemma Evaluate4Axes(v: NodeSize<Vec4>, scale: real, parent: Vec4, font: real)
    ensures Evaluate4(v, scale, parent, font).x == Evaluate(GetX4(v), scale, parent.x, font)
    ensures Evaluate4(v, scale, parent, font).y == Evaluate(GetY4(v), scale, parent.y, font)
    ensures Evaluate4(v, scale, parent, font).z == Evaluate(GetZ4(v), scale, parent.z, font)
    ensures Evaluate4(v, scale, parent, font).w == Evaluate(GetW4(v), scale, parent.w, font)
  {
    var gx, gy, gz, gw := GetX4(v), GetY4(v), GetZ4(v), GetW4(v);
    assert gx.abs == Slot(gx, Abs) && gx.prc == Slot(gx, Prc) && gx.rem == Slot(gx, Rem);
    assert gy.abs == Slot(gy, Abs) && gy.prc == Slot(gy, Prc) && gy.rem == Slot(gy, Rem);
    assert gz.abs == Slot(gz, Abs) && gz.prc == Slot(gz, Prc) && gz.rem == Slot(gz, Rem);
    assert gw.abs == Slot(gw, Abs) && gw.prc == Slot(gw, Prc) && gw.rem == Slot(gw, Rem);
  }

  // ---------------------------------------------------------------------
  // The crate's unit tests

  /** `with_abs(Abs(5)) + Abs(5) + Abs(5) == with_abs(Abs(15))`, and likewise
    * for `Prc` and `Rem`. */
  lemma TestRepeatedAdd(unit: Unit)
    ensures AddUnit(AddUnit(WithUnit(New(), unit, 5.0), unit, 5.0, AddReal), unit, 5.0, AddReal)
         == WithUnit(New(), unit, 15.0)
  {
    var e: NodeSize<real> := New();
    SameSlots(AddUnit(AddUnit(WithUnit(e, unit, 5.0), unit, 5.0, AddReal), unit, 5.0, AddReal), WithUnit(e, unit, 15.0));
  }

  /** `Abs(5) + Prc(10) + Rem(15)` holds the three coefficients; `+ Abs(20)`,
    * `+= Prc(20)` and `+= amount` give {25, 10, 15}, {25, 30, 15} and {30, 40, 30}. */
  lemma TestMixedAdd()
    ensures AddUnit(CrossAdd(Abs, 5.0, Prc, 10.0), Rem, 15.0, AddReal) == NodeSize(Some(5.0), Some(10.0), Some(15.0))
    ensures AddUnit(NodeSize(Some(5.0), Some(10.0), Some(15.0)), Abs, 20.0, AddReal) == NodeSize(Some(25.0), Some(10.0), Some(15.0))
    ensures AddUnit(NodeSize(Some(25.0), Some(10.0), Some(15.0)), Prc, 20.0, AddReal) == NodeSize(Some(25.0), Some(30.0), Some(15.0))
    ensures Add(NodeSize(Some(25.0), Some(30.0), Some(15.0)), NodeSize(Some(5.0), Some(10.0), Some(15.0)), AddReal)
         == NodeSize(Some(30.0), Some(40.0), Some(30.0))
  {
    var a := CrossAdd(Abs, 5.0, Prc, 10.0);
    assert a.abs == Slot(a, Abs) && a.prc == Slot(a, Prc) && a.rem == Slot(a, Rem);
  }

  /** `Rem(Vec2(10, 12)).into() == new().with_x(Rem(10)).with_y(Rem(12))`. */
  lemma TestAxes()
    ensures FromUnit(Rem, Vec2(10.0, 12.0)) == WithY(WithX(New(), FromUnit(Rem, 10.0)), FromUnit(Rem, 12.0))
  {
    var p, q := FromUnit(Rem, Vec2(10.0, 12.0)), WithY(WithX(New(), FromUnit(Rem, 10.0)), FromUnit(Rem, 12.0));
    assert Slot(WithX(New(), FromUnit(Rem, 10.0)), Rem) == Some(Vec2(10.0, 0.0));
    SameSlots(p, q);
  }
}
