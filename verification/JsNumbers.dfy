/** JavaScript numbers as far as the metrics reader uses them: reals, the infinities and NaN. */
module JsNumbers {
  datatype Number = Finite(r: real) | PlusInfinity | MinusInfinity | NaN

  /** `a - b`. */
  function Minus(a: Number, b: Number): Number {
    if a.NaN? || b.NaN? then NaN
    else if a.Finite? && b.Finite? then Finite(a.r - b.r)
    else if a == b then NaN
    else if a.Finite? then (if b.PlusInfinity? then MinusInfinity else PlusInfinity)
    else a
  }

  /** `p * a` for a finite `p`. */
  function Times(p: real, a: Number): Number {
    match a
    case NaN => NaN
    case Finite(r) => Finite(p * r)
    case PlusInfinity => if p > 0.0 then PlusInfinity else if p < 0.0 then MinusInfinity else NaN
    case MinusInfinity => if p > 0.0 then MinusInfinity else if p < 0.0 then PlusInfinity else NaN
  }

  /** `a <= b`, false as soon as NaN is involved. */
  predicate AtMost(a: Number, b: Number) {
    !a.NaN? && !b.NaN? && (a == b || a.MinusInfinity? || b.PlusInfinity? || (a.Finite? && b.Finite? && a.r <= b.r))
  }

  /** `Math.max(0, a)`. */
  function AtLeastZero(a: Number): Number {
    if a.NaN? || AtMost(Finite(0.0), a) then a else Finite(0.0)
  }

  /** A difference is a number unless an operand is none or the two are the same infinity; it is finite for finite operands only. */
  lemma MinusIs(a: Number, b: Number)
    ensures Minus(a, b).NaN? <==> a.NaN? || b.NaN? || (a == b && !a.Finite?)
    ensures Minus(a, b).Finite? <==> a.Finite? && b.Finite?
    ensures Minus(a, b).Finite? ==> Minus(a, b).r + b.r == a.r
    ensures !Minus(a, b).NaN? ==> (AtMost(Finite(0.0), Minus(a, b)) <==> AtMost(b, a))
  {
  }

  /** The larger of the two, and no number only if `a` is none. */
  lemma AtLeastZeroIs(a: Number)
    ensures AtLeastZero(a).NaN? <==> a.NaN?
    ensures !a.NaN? ==> AtMost(a, AtLeastZero(a)) && AtMost(Finite(0.0), AtLeastZero(a))
    ensures AtLeastZero(a) == a || AtLeastZero(a) == Finite(0.0)
  {
  }
}
