/** The per-slot Option rules that every generation's unit-value macros apply
  * to each unit field independently (`UiValue` and `NodeSize` alike). */
module Slots {
  import opened Base

  /** `a + b` on one slot: the sum when both are present, else whichever is present. */
  function Plus<T>(a: Option<T>, b: Option<T>, add: (T, T) -> T): Option<T>
  {
    match a
    case Some(v1) => (match b case Some(v2) => Some(add(v1, v2)) case None => Some(v1))
    case None => b
  }

  /** `a - b` on one slot as the `UiValue` macros write it: a slot present only
    * on the right is copied without being negated. */
  function MinusUnnegated<T>(a: Option<T>, b: Option<T>, sub: (T, T) -> T): Option<T>
  {
    match a
    case Some(v1) => (match b case Some(v2) => Some(sub(v1, v2)) case None => Some(v1))
    case None => b
  }

  /** `a - b` on one slot with a right-only slot negated. */
  function Minus<T>(a: Option<T>, b: Option<T>, sub: (T, T) -> T, neg: T -> T): Option<T>
  {
    match a
    case Some(v1) => (match b case Some(v2) => Some(sub(v1, v2)) case None => Some(v1))
    case None => (match b case Some(v2) => Some(neg(v2)) case None => None)
  }

  /** `a * b` on one slot: present only when both are. */
  function Times<T>(a: Option<T>, b: Option<T>, mul: (T, T) -> T): Option<T>
  {
    match a
    case Some(v1) => (match b case Some(v2) => Some(mul(v1, v2)) case None => None)
    case None => None
  }

  function Negate<T>(a: Option<T>, neg: T -> T): Option<T>
  {
    match a
    case Some(v) => Some(neg(v))
    case None => None
  }

  /** Multiplication of one slot by a float. */
  function Scaled<T>(a: Option<T>, s: real, mulS: (T, real) -> T): Option<T>
  {
    match a
    case Some(v) => Some(mulS(v, s))
    case None => None
  }

  /** `value + Unit(u)` on the unit's slot: an absent slot becomes `u`. */
  function PlusUnit<T>(a: Option<T>, u: T, add: (T, T) -> T): Option<T>
  {
    match a
    case Some(v) => Some(add(v, u))
    case None => Some(u)
  }

  /** `value - Unit(u)` on the unit's slot: an absent slot becomes `u`, not `-u`. */
  function MinusUnit<T>(a: Option<T>, u: T, sub: (T, T) -> T): Option<T>
  {
    match a
    case Some(v) => Some(sub(v, u))
    case None => Some(u)
  }

  /** `value * Unit(u)` on the unit's slot: only a present slot is scaled. */
  function TimesUnit<T>(a: Option<T>, u: T, mul: (T, T) -> T): Option<T>
  {
    match a
    case Some(v) => Some(mul(v, u))
    case None => None
  }

  lemma ValPlus(a: Option<real>, b: Option<real>)
    ensures Val(Plus(a, b, AddReal)) == Val(a) + Val(b)
  {
  }

  lemma ValMinus(a: Option<real>, b: Option<real>)
    ensures Val(Minus(a, b, SubReal, NegReal)) == Val(a) - Val(b)
  {
  }

  lemma ValNegate(a: Option<real>)
    ensures Val(Negate(a, NegReal)) == -Val(a)
  {
  }

  lemma ValScaled(a: Option<real>, s: real)
    ensures Val(Scaled(a, s, MulReal)) == Val(a) * s
  {
  }

  lemma ValMinus2(a: Option<Vec2>, b: Option<Vec2>)
    ensures Val2(Minus(a, b, Sub2Fn, Neg2Fn)) == Sub2(Val2(a), Val2(b))
  {
  }

  lemma ValScaled2(a: Option<Vec2>, s: real)
    ensures Val2(Scaled(a, s, Scale2)) == Scale2(Val2(a), s)
  {
  }
}
