/** The operations of the pricing nodes: interval arithmetic over the quotes of the nodes referred to. */
module PricingNodes {
  import opened Doubles
  import opened PricingGraph

  datatype Quotes = Quotes(buy: Double, sell: Double)

  datatype Ref = Ref(node: NodeId, weight: Double)

  datatype Op = Sum | Product | QuoteSpread(spread: Double)

  type Values = map<NodeId, Quotes>

  const NOTHING := Quotes(Empty, Empty)

  // ----- weights ------------------------------------------------------------------------------

  /** The sign of a weight, up to the tolerance. A missing weight is below every number. */
  function Sign(w: Double): int { Compare(w, ZERO) }

  predicate IsOne(w: Double) { Compare(w, Finite(1.0)) == 0 }

  predicate IsMinusOne(w: Double) { Compare(w, Finite(-1.0)) == 0 }

  predicate Between(q: Quotes, x: real) { q.buy.Finite? && q.sell.Finite? && q.buy.value <= x <= q.sell.value }

  predicate Uncrossed(q: Quotes) { q.buy.Finite? && q.sell.Finite? && q.buy.value <= q.sell.value }

  predicate Positive(q: Quotes) { q.buy.Finite? && q.sell.Finite? && q.buy.value > 0.0 && q.sell.value > 0.0 }

  predicate Known(refs: seq<Ref>, values: Values) { forall r | r in refs :: r.node in values }

  // ----- sum ----------------------------------------------------------------------------------

  function SumStep(acc: Quotes, w: Double, q: Quotes): Quotes {
    if Sign(w) > 0 then Quotes(Add(acc.buy, Mul(q.buy, w)), Add(acc.sell, Mul(q.sell, w)))
    else if Sign(w) < 0 then Quotes(Add(acc.buy, Mul(q.sell, w)), Add(acc.sell, Mul(q.buy, w)))
    else acc
  }

  function SumOf(refs: seq<Ref>, values: Values): Quotes
    requires Known(refs, values)
  {
    if refs == [] then Quotes(Finite(0.0), Finite(0.0)) else
    var n := |refs| - 1;
    SumStep(SumOf(refs[..n], values), refs[n].weight, values[refs[n].node])
  }

  /** What a reference adds: nothing when the tolerance takes its weight for zero. */
  function Weighted(w: Double, x: real): real { if !w.Finite? || Sign(w) == 0 then 0.0 else Times(x, w.value) }

  /** The weighted sum of one price for each reference. */
  function WeightedSum(refs: seq<Ref>, xs: seq<real>): real
    requires |xs| == |refs|
  {
    if refs == [] then 0.0 else
    var n := |refs| - 1;
    WeightedSum(refs[..n], xs[..n]) + Weighted(refs[n].weight, xs[n])
  }

  /** One price for each reference, inside its bid and ask unless its weight does not count. */
  predicate Inside(refs: seq<Ref>, values: Values, xs: seq<real>)
    requires Known(refs, values)
  {
    && |xs| == |refs|
    && forall i | 0 <= i < |refs| && Sign(refs[i].weight) != 0 :: refs[i].weight.Finite? && Between(values[refs[i].node], xs[i])
  }

  lemma ScaleUp(w: real, x: real, y: real)
    requires x <= y
    ensures w >= 0.0 ==> Times(x, w) <= Times(y, w)
    ensures w <= 0.0 ==> Times(y, w) <= Times(x, w)
  {
    assert y * w - x * w == (y - x) * w;
  }

  lemma SumStepIsSound(acc: Quotes, w: Double, q: Quotes, s: real, x: real)
    requires Between(acc, s) && (Sign(w) != 0 ==> w.Finite? && Between(q, x))
    ensures Between(SumStep(acc, w, q), s + Weighted(w, x))
  {
    if Sign(w) != 0 {
      ScaleUp(w.value, q.buy.value, x);
      ScaleUp(w.value, x, q.sell.value);
    }
  }

  /** Interval soundness of the sum, for any number of references and any weights. */
  lemma {:induction false} SumIsSound(refs: seq<Ref>, values: Values, xs: seq<real>)
    requires Known(refs, values) && Inside(refs, values, xs)
    ensures Between(SumOf(refs, values), WeightedSum(refs, xs))
  {
    if refs != [] {
      var n := |refs| - 1;
      SumIsSound(refs[..n], values, xs[..n]);
      assert refs[n] in refs;
      SumStepIsSound(SumOf(refs[..n], values), refs[n].weight, values[refs[n].node], WeightedSum(refs[..n], xs[..n]), xs[n]);
    }
  }

  predicate SumInputs(refs: seq<Ref>, values: Values)
    requires Known(refs, values)
  {
    forall i | 0 <= i < |refs| && Sign(refs[i].weight) != 0 :: refs[i].weight.Finite? && Uncrossed(values[refs[i].node])
  }

  lemma SumStepIsTight(acc: Quotes, w: Double, q: Quotes) returns (l: real, h: real)
    requires acc.buy.Finite? && acc.sell.Finite? && (Sign(w) != 0 ==> w.Finite? && Uncrossed(q))
    ensures Sign(w) != 0 ==> Between(q, l) && Between(q, h)
    ensures SumStep(acc, w, q) == Quotes(Finite(acc.buy.value + Weighted(w, l)), Finite(acc.sell.value + Weighted(w, h)))
  {
    if Sign(w) > 0 {
      l, h := q.buy.value, q.sell.value;
    } else if Sign(w) < 0 {
      l, h := q.sell.value, q.buy.value;
    } else {
      l, h := 0.0, 0.0;
    }
  }

  lemma InsideSnoc(refs: seq<Ref>, values: Values, xs: seq<real>, x: real)
    requires Known(refs, values) && refs != [] && Inside(refs[..|refs| - 1], values, xs)
    requires var r := refs[|refs| - 1];
             r in refs && (Sign(r.weight) != 0 ==> r.weight.Finite? && Between(values[r.node], x))
    ensures Inside(refs, values, xs + [x])
    ensures WeightedSum(refs, xs + [x]) == WeightedSum(refs[..|refs| - 1], xs) + Weighted(refs[|refs| - 1].weight, x)
  {
    assert (xs + [x])[..|refs| - 1] == xs;
  }

  /** And no narrower interval would do: both ends are weighted sums of prices inside. */
  lemma {:induction false} SumIsTight(refs: seq<Ref>, values: Values) returns (low: seq<real>, high: seq<real>)
    requires Known(refs, values) && SumInputs(refs, values)
    ensures Inside(refs, values, low) && Inside(refs, values, high)
    ensures SumOf(refs, values) == Quotes(Finite(WeightedSum(refs, low)), Finite(WeightedSum(refs, high)))
  {
    if refs == [] {
      low, high := [], [];
    } else {
      var n := |refs| - 1;
      var lows, highs := SumIsTight(refs[..n], values);
      assert refs[n] in refs;
      var l, h := SumStepIsTight(SumOf(refs[..n], values), refs[n].weight, values[refs[n].node]);
      InsideSnoc(refs, values, lows, l);
      InsideSnoc(refs, values, highs, h);
      low, high := lows + [l], highs + [h];
    }
  }

  lemma SumIsUncrossed(refs: seq<Ref>, values: Values)
    requires Known(refs, values) && SumInputs(refs, values)
    ensures Uncrossed(SumOf(refs, values))
  {
    var low, high := SumIsTight(refs, values);
    SumIsSound(refs, values, low);
  }

  lemma TimesPositive(x: real, w: real)
    requires x > 0.0 && w > 0.0
    ensures Times(x, w) > 0.0
  {
  }

  predicate NotNegative(q: Quotes) { q.buy.Finite? && q.sell.Finite? && q.buy.value >= 0.0 && q.sell.value >= 0.0 }

  lemma SumStepIsPositive(acc: Quotes, w: Double, q: Quotes)
    requires NotNegative(acc) && Sign(w) >= 0 && (Sign(w) > 0 ==> w.Finite? && Positive(q))
    ensures NotNegative(SumStep(acc, w, q)) && (Sign(w) > 0 || Positive(acc) ==> Positive(SumStep(acc, w, q)))
  {
    if Sign(w) > 0 {
      TimesPositive(q.buy.value, w.value);
      TimesPositive(q.sell.value, w.value);
    }
  }

  /** Positive prices and weights that are not negative, one of them counted, give positive sums. */
  lemma {:induction false} SumIsPositive(refs: seq<Ref>, values: Values)
    requires Known(refs, values)
    requires forall r | r in refs :: Sign(r.weight) >= 0 && (Sign(r.weight) > 0 ==> r.weight.Finite? && Positive(values[r.node]))
    ensures NotNegative(SumOf(refs, values))
    ensures (exists r :: r in refs && Sign(r.weight) > 0) ==> Positive(SumOf(refs, values))
  {
    if refs != [] {
      var n := |refs| - 1;
      SumIsPositive(refs[..n], values);
      assert refs[n] in refs;
      SumStepIsPositive(SumOf(refs[..n], values), refs[n].weight, values[refs[n].node]);
      assert refs == refs[..n] + [refs[n]];
    }
  }

  /** The sum with the weights as they are, small ones included. */
  function PlainSum(refs: seq<Ref>, xs: seq<real>): real
    requires |xs| == |refs| && forall r | r in refs :: r.weight.Finite?
  {
    if refs == [] then 0.0 else
    var n := |refs| - 1;
    assert refs[n] in refs;
    PlainSum(refs[..n], xs[..n]) + Times(xs[n], refs[n].weight.value)
  }

  predicate Countable(w: real) { w == 0.0 || Sign(Finite(w)) != 0 }

  lemma {:induction false} CountableSum(refs: seq<Ref>, xs: seq<real>)
    requires |xs| == |refs| && forall r | r in refs :: r.weight.Finite? && Countable(r.weight.value)
    ensures PlainSum(refs, xs) == WeightedSum(refs, xs)
  {
    if refs != [] {
      var n := |refs| - 1;
      CountableSum(refs[..n], xs[..n]);
      assert refs[n] in refs;
    }
  }

  /** The plain sum of one weighted reference lies inside its computed quotes. */
  predicate Safe(w: real, q: Quotes, x: real) {
    Between(SumOf([Ref(0, Finite(w))], map[0 := q]), PlainSum([Ref(0, Finite(w))], [x]))
  }

  lemma SafeMeans(w: real, q: Quotes, x: real)
    ensures Safe(w, q, x) <==> Between(SumStep(Quotes(Finite(0.0), Finite(0.0)), Finite(w), q), Times(x, w))
  {
    var refs, values := [Ref(0, Finite(w))], map[0 := q];
    assert refs[..0] == [] && [x][..0] == [];
    assert SumOf(refs[..0], values) == Quotes(Finite(0.0), Finite(0.0));
    assert PlainSum(refs[..0], [x][..0]) == 0.0;
  }

  /** A weight is safe, for all quotes and every price inside them, exactly when it is zero or large
      enough to count. */
  lemma SafeIffCountable(w: real)
    ensures Countable(w) <==> forall q: Quotes, x: real | Between(q, x) :: Safe(w, q, x)
  {
    if Countable(w) {
      forall q: Quotes, x: real | Between(q, x)
        ensures Safe(w, q, x)
      {
        SafeMeans(w, q, x);
        SumStepIsSound(Quotes(Finite(0.0), Finite(0.0)), Finite(w), q, 0.0, x);
      }
    } else {
      var one := Quotes(Finite(1.0), Finite(1.0));
      SafeMeans(w, one, 1.0);
      assert Between(one, 1.0) && !Safe(w, one, 1.0);
    }
  }

  // ----- product ------------------------------------------------------------------------------

  type Power = (real, real) -> Double

  function Raise(pow: Power, x: Double, w: Double): Double {
    if x.Finite? && w.Finite? then pow(x.value, w.value) else Empty
  }

  function ProductStep(pow: Power, acc: Quotes, w: Double, q: Quotes): Quotes {
    if IsOne(w) then Quotes(Mul(acc.buy, q.buy), Mul(acc.sell, q.sell))
    else if IsMinusOne(w) then Quotes(Div(acc.buy, q.sell), Div(acc.sell, q.buy))
    else if Sign(w) > 0 then Quotes(Mul(acc.buy, Raise(pow, q.buy, w)), Mul(acc.sell, Raise(pow, q.sell, w)))
    else if Sign(w) < 0 then Quotes(Mul(acc.buy, Raise(pow, q.sell, w)), Mul(acc.sell, Raise(pow, q.buy, w)))
    else acc
  }

  function ProductOf(pow: Power, refs: seq<Ref>, values: Values): Quotes
    requires Known(refs, values)
  {
    if refs == [] then Quotes(Finite(1.0), Finite(1.0)) else
    var n := |refs| - 1;
    ProductStep(pow, ProductOf(pow, refs[..n], values), refs[n].weight, values[refs[n].node])
  }

  /** What the product relies on for weights other than 1 and -1: powers of positive prices are positive
      and monotonic. */
  ghost predicate PowerLaws(pow: Power) {
    && (forall x: real, w: real | x > 0.0 :: pow(x, w).Finite? && pow(x, w).value > 0.0)
    && (forall x: real, y: real, w: real | 0.0 < x <= y && w > 0.0 ::
          pow(x, w).Finite? && pow(y, w).Finite? && pow(x, w).value <= pow(y, w).value)
    && (forall x: real, y: real, w: real | 0.0 < x <= y && w < 0.0 ::
          pow(x, w).Finite? && pow(y, w).Finite? && pow(y, w).value <= pow(x, w).value)
  }

  predicate Ignored(w: Double) { !IsOne(w) && !IsMinusOne(w) && Sign(w) == 0 }

  /** A product with one more positive price in it. */
  function Applied(pow: Power, s: real, w: Double, x: real): real
    requires x > 0.0
  {
    if IsOne(w) then Times(s, x)
    else if IsMinusOne(w) then Over(s, x)
    else if !w.Finite? || Sign(w) == 0 || !pow(x, w.value).Finite? then s
    else Times(s, pow(x, w.value).value)
  }

  predicate AllPositive(xs: seq<real>) { forall i | 0 <= i < |xs| :: xs[i] > 0.0 }

  /** The weighted product of one price for each reference. */
  function WeightedProduct(pow: Power, refs: seq<Ref>, xs: seq<real>): real
    requires |xs| == |refs| && AllPositive(xs)
  {
    if refs == [] then 1.0 else
    var n := |refs| - 1;
    Applied(pow, WeightedProduct(pow, refs[..n], xs[..n]), refs[n].weight, xs[n])
  }

  lemma TimesMono(a: real, b: real, x: real, y: real)
    requires 0.0 < a <= b && 0.0 < x <= y
    ensures 0.0 < Times(a, x) <= Times(b, y)
  {
    assert b * y - a * x == b * (y - x) + (b - a) * x;
    assert b * (y - x) >= 0.0 && (b - a) * x >= 0.0;
    assert a * x > 0.0;
  }

  lemma OverMono(a: real, b: real, x: real, y: real)
    requires 0.0 < a <= b && 0.0 < x <= y
    ensures 0.0 < Over(a, y) <= Over(b, x)
  {
    var l, h := a / y, b / x;
    assert l * y == a && h * x == b;
    if l > h {
      TimesMono(h, l, x, y);
    }
  }

  lemma MulBetween(acc: Quotes, q: Quotes, s: real, x: real)
    requires Positive(acc) && Between(acc, s) && Positive(q) && Between(q, x)
    ensures Positive(Quotes(Mul(acc.buy, q.buy), Mul(acc.sell, q.sell)))
    ensures Between(Quotes(Mul(acc.buy, q.buy), Mul(acc.sell, q.sell)), Times(s, x))
  {
    TimesMono(acc.buy.value, s, q.buy.value, x);
    TimesMono(s, acc.sell.value, x, q.sell.value);
  }

  lemma DivBetween(acc: Quotes, q: Quotes, s: real, x: real)
    requires Positive(acc) && Between(acc, s) && Positive(q) && Between(q, x)
    ensures Positive(Quotes(Div(acc.buy, q.sell), Div(acc.sell, q.buy)))
    ensures Between(Quotes(Div(acc.buy, q.sell), Div(acc.sell, q.buy)), Over(s, x))
  {
    OverMono(acc.buy.value, s, x, q.sell.value);
    OverMono(s, acc.sell.value, q.buy.value, x);
  }

  function Raised(pow: Power, w: Double, q: Quotes): Quotes {
    if Sign(w) > 0 then Quotes(Raise(pow, q.buy, w), Raise(pow, q.sell, w))
    else Quotes(Raise(pow, q.sell, w), Raise(pow, q.buy, w))
  }

  lemma RaisedBetween(pow: Power, w: Double, q: Quotes, x: real)
    requires PowerLaws(pow) && w.Finite? && Sign(w) != 0 && Positive(q) && Between(q, x)
    ensures pow(x, w.value).Finite? && Positive(Raised(pow, w, q)) && Between(Raised(pow, w, q), pow(x, w.value).value)
  {
  }

  predicate Plain(w: Double) { IsOne(w) || IsMinusOne(w) || Ignored(w) }

  lemma ProductStepIsSound(pow: Power, acc: Quotes, w: Double, q: Quotes, s: real, x: real)
    requires (Plain(w) || PowerLaws(pow)) && Between(acc, s) && Positive(acc) && x > 0.0
    requires !Ignored(w) ==> w.Finite? && Between(q, x) && Positive(q)
    ensures Between(ProductStep(pow, acc, w, q), Applied(pow, s, w, x)) && Positive(ProductStep(pow, acc, w, q))
  {
    if IsOne(w) {
      MulBetween(acc, q, s, x);
    } else if IsMinusOne(w) {
      DivBetween(acc, q, s, x);
    } else if Sign(w) != 0 {
      RaisedBetween(pow, w, q, x);
      MulBetween(acc, Raised(pow, w, q), s, pow(x, w.value).value);
    }
  }

  predicate ProductInputs(refs: seq<Ref>, values: Values)
    requires Known(refs, values)
  {
    forall i | 0 <= i < |refs| && !Ignored(refs[i].weight) ::
      refs[i].weight.Finite? && Uncrossed(values[refs[i].node]) && Positive(values[refs[i].node])
  }

  predicate InsideProduct(refs: seq<Ref>, values: Values, xs: seq<real>)
    requires Known(refs, values)
  {
    && |xs| == |refs| && AllPositive(xs)
    && forall i | 0 <= i < |refs| && !Ignored(refs[i].weight) :: Between(values[refs[i].node], xs[i])
  }

  /** All weights are 1, -1 or not counted, or powers do what is expected of them. */
  ghost predicate GoodPowers(pow: Power, refs: seq<Ref>) {
    PowerLaws(pow) || forall r | r in refs :: Plain(r.weight)
  }

  /** Interval soundness of the product, for any number of references with positive prices. */
  lemma {:induction false} ProductIsSound(pow: Power, refs: seq<Ref>, values: Values, xs: seq<real>)
    requires GoodPowers(pow, refs) && Known(refs, values) && ProductInputs(refs, values) && InsideProduct(refs, values, xs)
    ensures Between(ProductOf(pow, refs, values), WeightedProduct(pow, refs, xs)) && Positive(ProductOf(pow, refs, values))
  {
    if refs != [] {
      var n := |refs| - 1;
      ProductIsSound(pow, refs[..n], values, xs[..n]);
      assert refs[n] in refs;
      ProductStepIsSound(pow, ProductOf(pow, refs[..n], values), refs[n].weight, values[refs[n].node],
                         WeightedProduct(pow, refs[..n], xs[..n]), xs[n]);
    }
  }

  lemma ProductStepIsTight(pow: Power, acc: Quotes, w: Double, q: Quotes) returns (l: real, h: real)
    requires Plain(w) || PowerLaws(pow)
    requires acc.buy.Finite? && acc.sell.Finite?
    requires !Ignored(w) ==> w.Finite? && Uncrossed(q) && Positive(q)
    ensures l > 0.0 && h > 0.0 && (!Ignored(w) ==> Between(q, l) && Between(q, h))
    ensures ProductStep(pow, acc, w, q) == Quotes(Finite(Applied(pow, acc.buy.value, w, l)), Finite(Applied(pow, acc.sell.value, w, h)))
  {
    if Ignored(w) {
      l, h := 1.0, 1.0;
    } else if IsOne(w) || (!IsMinusOne(w) && Sign(w) > 0) {
      l, h := q.buy.value, q.sell.value;
    } else {
      l, h := q.sell.value, q.buy.value;
    }
  }

  lemma InsideProductSnoc(pow: Power, refs: seq<Ref>, values: Values, xs: seq<real>, x: real)
    requires Known(refs, values) && refs != [] && InsideProduct(refs[..|refs| - 1], values, xs) && x > 0.0
    requires var r := refs[|refs| - 1];
             r in refs && (!Ignored(r.weight) ==> Between(values[r.node], x))
    ensures InsideProduct(refs, values, xs + [x])
    ensures WeightedProduct(pow, refs, xs + [x]) == Applied(pow, WeightedProduct(pow, refs[..|refs| - 1], xs), refs[|refs| - 1].weight, x)
  {
    assert (xs + [x])[..|refs| - 1] == xs;
  }

  lemma {:induction false} ProductIsTight(pow: Power, refs: seq<Ref>, values: Values) returns (low: seq<real>, high: seq<real>)
    requires GoodPowers(pow, refs) && Known(refs, values) && ProductInputs(refs, values)
    ensures InsideProduct(refs, values, low) && InsideProduct(refs, values, high)
    ensures ProductOf(pow, refs, values) == Quotes(Finite(WeightedProduct(pow, refs, low)), Finite(WeightedProduct(pow, refs, high)))
  {
    if refs == [] {
      low, high := [], [];
    } else {
      var n := |refs| - 1;
      var lows, highs := ProductIsTight(pow, refs[..n], values);
      assert refs[n] in refs;
      var l, h := ProductStepIsTight(pow, ProductOf(pow, refs[..n], values), refs[n].weight, values[refs[n].node]);
      InsideProductSnoc(pow, refs, values, lows, l);
      InsideProductSnoc(pow, refs, values, highs, h);
      low, high := lows + [l], highs + [h];
    }
  }

  lemma ProductIsUncrossed(pow: Power, refs: seq<Ref>, values: Values)
    requires GoodPowers(pow, refs) && Known(refs, values) && ProductInputs(refs, values)
    ensures Uncrossed(ProductOf(pow, refs, values)) && Positive(ProductOf(pow, refs, values))
  {
    var low, high := ProductIsTight(pow, refs, values);
    ProductIsSound(pow, refs, values, low);
  }

  // ----- missing weights ----------------------------------------------------------------------

  predicate NoPrice(q: Quotes) { q.buy.Empty? && q.sell.Empty? }

  /** One reference whose weight was never set leaves sums and products without a price. */
  lemma {:induction false} MissingWeightGivesNoPrice(pow: Power, refs: seq<Ref>, values: Values)
    requires Known(refs, values) && exists r :: r in refs && r.weight.Empty?
    ensures NoPrice(SumOf(refs, values)) && NoPrice(ProductOf(pow, refs, values))
  {
    var n := |refs| - 1;
    assert refs == refs[..n] + [refs[n]];
    if !refs[n].weight.Empty? {
      MissingWeightGivesNoPrice(pow, refs[..n], values);
    }
  }

  // ----- the loops ----------------------------------------------------------------------------

  method AddUp(refs: seq<Ref>, values: Values) returns (q: Quotes)
    requires Known(refs, values)
    ensures q == SumOf(refs, values)
  {
    q := Quotes(Finite(0.0), Finite(0.0));
    for i := 0 to |refs|
      invariant q == SumOf(refs[..i], values)
    {
      assert refs[..i + 1][..i] == refs[..i];
      var w := refs[i].weight;
      var Quotes(buy, sell) := values[refs[i].node];
      if Sign(w) > 0 {
        q := q.(buy := Add(q.buy, Mul(buy, w)));
        q := q.(sell := Add(q.sell, Mul(sell, w)));
      } else if Sign(w) < 0 {
        q := q.(buy := Add(q.buy, Mul(sell, w)));
        q := q.(sell := Add(q.sell, Mul(buy, w)));
      }
    }
    assert refs[..|refs|] == refs;
  }

  method Multiply(pow: Power, refs: seq<Ref>, values: Values) returns (q: Quotes)
    requires Known(refs, values)
    ensures q == ProductOf(pow, refs, values)
  {
    q := Quotes(Finite(1.0), Finite(1.0));
    for i := 0 to |refs|
      invariant q == ProductOf(pow, refs[..i], values)
    {
      assert refs[..i + 1][..i] == refs[..i];
      var w := refs[i].weight;
      var Quotes(buy, sell) := values[refs[i].node];
      if IsOne(w) {
        q := q.(buy := Mul(q.buy, buy));
        q := q.(sell := Mul(q.sell, sell));
      } else if IsMinusOne(w) {
        q := q.(buy := Div(q.buy, sell));
        q := q.(sell := Div(q.sell, buy));
      } else if Sign(w) > 0 {
        q := q.(buy := Mul(q.buy, Raise(pow, buy, w)));
        q := q.(sell := Mul(q.sell, Raise(pow, sell, w)));
      } else if Sign(w) < 0 {
        q := q.(buy := Mul(q.buy, Raise(pow, sell, w)));
        q := q.(sell := Mul(q.sell, Raise(pow, buy, w)));
      }
    }
    assert refs[..|refs|] == refs;
  }
}
