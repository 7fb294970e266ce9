/** Numbers with an empty value and a tolerant order, as prices and volumes use them. */
module Doubles {
  datatype Double = Empty | Finite(value: real) | Infinite(positive: bool)

  const EPSILON := 0.000001

  const ZERO := Finite(0.0)

  datatype Quote = Quote(price: Double, volume: Double)

  datatype BestQuotes = BestQuotes(buy: Quote, sell: Quote)

  function Times(x: real, y: real): real { x * y }

  function Over(x: real, y: real): real
    requires y != 0.0
  {
    x / y
  }

  function Neg(a: Double): Double {
    match a
    case Empty => Empty
    case Finite(x) => Finite(-x)
    case Infinite(positive) => Infinite(!positive)
  }

  function Add(a: Double, b: Double): Double {
    if a.Empty? || b.Empty? then Empty
    else if a.Finite? && b.Finite? then Finite(a.value + b.value)
    else if a.Finite? then b
    else if b.Finite? || a == b then a
    else Empty
  }

  function Sub(a: Double, b: Double): Double { Add(a, Neg(b)) }

  /** Above zero, or not. */
  predicate Up(a: Double) { (a.Finite? && a.value > 0.0) || a == Infinite(true) }

  function Mul(a: Double, b: Double): Double {
    if a.Empty? || b.Empty? then Empty
    else if a.Finite? && b.Finite? then Finite(Times(a.value, b.value))
    else if a == ZERO || b == ZERO then Empty
    else Infinite(Up(a) == Up(b))
  }

  /** Zero has no sign here. */
  function Div(a: Double, b: Double): Double {
    if a.Empty? || b.Empty? || (a.Infinite? && b.Infinite?) then Empty
    else if b.Infinite? then ZERO
    else if a.Infinite? then Infinite(a.positive == (b.value >= 0.0))
    else if b.value != 0.0 then Finite(Over(a.value, b.value))
    else if a.value == 0.0 then Empty
    else Infinite(a.value > 0.0)
  }

  /** There is no sum exactly where an operand has no value or infinities cancel out. */
  lemma SumIsEmptyIff(a: Double, b: Double)
    ensures Add(a, b).Empty? <==> a.Empty? || b.Empty? || (a.Infinite? && b.Infinite? && a != b)
    ensures Add(a, b) == Add(b, a) && Neg(Add(a, b)) == Add(Neg(a), Neg(b))
  {
  }

  lemma ProductSigns(x: real, y: real)
    ensures Times(x, y) == Times(y, x) && Times(-x, y) == -Times(x, y)
  {
  }

  /** There is no product exactly where a factor has no value or zero meets an infinity. */
  lemma ProductIsEmptyIff(a: Double, b: Double)
    ensures Mul(a, b).Empty? <==> a.Empty? || b.Empty? || (a == ZERO && b.Infinite?) || (a.Infinite? && b == ZERO)
    ensures Mul(a, b) == Mul(b, a) && Mul(Neg(a), b) == Neg(Mul(a, b))
  {
    if a.Finite? && b.Finite? {
      ProductSigns(a.value, b.value);
    }
  }

  lemma DivideBack(x: real, y: real)
    requires y != 0.0
    ensures Times(Over(x, y), y) == x
  {
  }

  /** There is no quotient exactly where an operand has no value, or infinities or zeros meet. It takes a product
      back, and is zero for a divisor without bound. */
  lemma QuotientIsEmptyIff(a: Double, b: Double)
    ensures Div(a, b).Empty? <==> a.Empty? || b.Empty? || (a.Infinite? && b.Infinite?) || (a == ZERO && b == ZERO)
    ensures a.Finite? && b.Finite? && b != ZERO ==> Mul(Div(a, b), b) == a
    ensures a.Finite? && b.Infinite? ==> Div(a, b) == ZERO
    ensures a.Infinite? && b.Finite? && b.value > 0.0 ==> Div(a, b) == a
  {
    if a.Finite? && b.Finite? && b != ZERO {
      DivideBack(a.value, b.value);
    }
  }

  /** Tolerant comparison. The empty value is equal to itself and below all others. */
  function Compare(a: Double, b: Double): int {
    if a.Empty? then if b.Empty? then 0 else -1
    else if b.Empty? then 1
    else match Sub(a, b)
      case Finite(d) => if d > EPSILON then 1 else if d < -EPSILON then -1 else 0
      case Infinite(positive) => if positive then 1 else -1
      case Empty => 0
  }

  predicate Less(a: Double, b: Double) { Compare(a, b) < 0 }

  function Min(a: Double, b: Double): Double { if Less(b, a) then b else a }

  function Max(a: Double, b: Double): Double { if Less(a, b) then b else a }

  /** At most a real number, exactly; infinities are what they are. */
  predicate AtMost(a: Double, x: real) { (a.Finite? && a.value <= x) || a == Infinite(false) }

  predicate AtLeast(a: Double, x: real) { (a.Finite? && a.value >= x) || a == Infinite(true) }

  /** Minimum and maximum agree with the exact ones unless the two are within the tolerance, and then
      they take the first. */
  lemma MinIsExactIff(x: real, y: real)
    ensures Min(Finite(x), Finite(y)) == Finite(if x <= y then x else y) <==> !(y < x <= y + EPSILON)
    ensures Max(Finite(x), Finite(y)) == Finite(if x >= y then x else y) <==> !(x < y <= x + EPSILON)
  {
  }
}
