/** A leg of the spreader: the fills since it was last hedged, recovered from running averages. */
module SpreaderLeg {
  import opened Doubles

  // ----- fills, and the averages kept of them ---------------------------------------------------------

  /** One trade of one side. */
  datatype Trade = Trade(price: real, quantity: real)

  predicate Real(trades: seq<Trade>) { forall t | t in trades :: t.quantity > 0.0 }

  function Amount(trades: seq<Trade>): real {
    if trades == [] then 0.0 else
    var n := |trades| - 1;
    Amount(trades[..n]) + Times(trades[n].price, trades[n].quantity)
  }

  function Quantity(trades: seq<Trade>): real {
    if trades == [] then 0.0 else Quantity(trades[..|trades| - 1]) + trades[|trades| - 1].quantity
  }

  /** The running average and the total quantity; no average before the first trade. */
  function Averaged(trades: seq<Trade>): Quote
    requires Real(trades)
  {
    if trades == [] then Quote(Empty, ZERO) else
    var n := |trades| - 1;
    assert trades[n] in trades;
    var before := Averaged(trades[..n]);
    AverageOf(before, trades[n])
  }

  function AverageOf(q: Quote, t: Trade): Quote
    requires t.quantity > 0.0
  {
    var volume := Add(q.volume, Finite(t.quantity));
    if q.price.Empty? then Quote(Finite(t.price), volume)
    else Quote(Div(Add(Mul(q.price, q.volume), Finite(Times(t.price, t.quantity))), volume), volume)
  }

  /** The average times the volume is what was paid. */
  predicate Averages(q: Quote, amount: real, quantity: real) {
    q.price.Finite? && q.volume == Finite(quantity) && quantity > 0.0 && Times(q.price.value, quantity) == amount
  }

  lemma AverageStep(q: Quote, t: Trade, amount: real, quantity: real)
    requires Averages(q, amount, quantity) && t.quantity > 0.0
    ensures Averages(AverageOf(q, t), amount + Times(t.price, t.quantity), quantity + t.quantity)
  {
    var total := amount + t.price * t.quantity;
    assert total / (quantity + t.quantity) * (quantity + t.quantity) == total;
  }

  lemma {:induction false} AveragedMeans(trades: seq<Trade>)
    requires Real(trades)
    ensures trades == [] ==> Averaged(trades) == Quote(Empty, ZERO) && Quantity(trades) == 0.0
    ensures trades != [] ==> Averages(Averaged(trades), Amount(trades), Quantity(trades))
  {
    if trades != [] {
      var n := |trades| - 1;
      assert trades[n] in trades;
      AveragedMeans(trades[..n]);
      if n > 0 {
        AverageStep(Averaged(trades[..n]), trades[n], Amount(trades[..n]), Quantity(trades[..n]));
      } else {
        assert Averaged(trades[..n]) == Quote(Empty, ZERO);
      }
    }
  }

  lemma {:induction false} SumsAdd(a: seq<Trade>, b: seq<Trade>)
    ensures Amount(a + b) == Amount(a) + Amount(b) && Quantity(a + b) == Quantity(a) + Quantity(b)
  {
    if b == [] {
      assert a + b == a;
    } else {
      var n := |b| - 1;
      assert (a + b)[..|a + b| - 1] == a + b[..n];
      SumsAdd(a, b[..n]);
    }
  }

  // ----- the leg ----------------------------------------------------------------------------------

  /** The average price of what one side traded between two positions. */
  function FillPrice(now: Quote, snapshot: Quote): Double {
    Div(Sub(Mul(now.price, now.volume), Mul(snapshot.price, snapshot.volume)), Sub(now.volume, snapshot.volume))
  }

  function Fills(now: BestQuotes, snapshot: BestQuotes): BestQuotes {
    var bought := Sub(now.buy.volume, snapshot.buy.volume);
    var sold := Sub(now.sell.volume, snapshot.sell.volume);
    BestQuotes(Quote(FillPrice(now.buy, snapshot.buy), Sub(bought, Min(bought, sold))),
               Quote(FillPrice(now.sell, snapshot.sell), Sub(sold, Min(bought, sold))))
  }

  /** What must be bought of the underlying of an exposure, or sold of that of the opposite one. */
  function Delta(exposure: Double, multiplier: Double): Double { Mul(Max(exposure, ZERO), multiplier) }

  class Leg {
    var position: BestQuotes
    var position0: BestQuotes
    var fills: BestQuotes
    var exposure: Double
    var multiplier: Double
    var deltaBuy: Double
    var deltaSell: Double

    constructor (multiplier: Double)
      ensures this.multiplier == multiplier
    {
      var none := BestQuotes(Quote(Empty, Empty), Quote(Empty, Empty));
      position, position0, fills, exposure, this.multiplier, deltaBuy, deltaSell := none, none, none, Empty, multiplier, ZERO, ZERO;
    }

    method OnExposure(buy: Quote, sell: Quote)
      modifies this
      ensures position == BestQuotes(buy, sell) && fills == Fills(position, position0)
      ensures position0 == old(position0) && exposure == old(exposure) && multiplier == old(multiplier)
      ensures deltaBuy == Delta(exposure, multiplier) && deltaSell == Delta(Neg(exposure), multiplier)
    {
      position := BestQuotes(position.buy.(volume := buy.volume), position.sell.(volume := sell.volume));
      position := BestQuotes(position.buy.(price := buy.price), position.sell.(price := sell.price));
      ComputeDelta();
      ComputeFills();
    }

    method ComputeDelta()
      modifies this`deltaBuy, this`deltaSell
      ensures deltaBuy == Delta(exposure, multiplier) && deltaSell == Delta(Neg(exposure), multiplier)
    {
      deltaBuy := Mul(Max(exposure, ZERO), multiplier);
      deltaSell := Mul(Max(Neg(exposure), ZERO), multiplier);
    }

    method ComputeFills()
      modifies this`fills
      ensures fills == Fills(position, position0)
    {
      var gb, nb := position.buy.price, position.buy.volume;
      var gb0, nb0 := position0.buy.price, position0.buy.volume;
      var gs, ns := position.sell.price, position.sell.volume;
      var gs0, ns0 := position0.sell.price, position0.sell.volume;
      var ub, us := Sub(nb, nb0), Sub(ns, ns0);
      var fb := Div(Sub(Mul(gb, nb), Mul(gb0, nb0)), ub);
      var fs := Div(Sub(Mul(gs, ns), Mul(gs0, ns0)), us);
      fills := BestQuotes(Quote(fb, Sub(ub, Min(ub, us))), Quote(fs, Sub(us, Min(ub, us))));
    }
  }

  // ----- what the fills mean ----------------------------------------------------------------------

  lemma Difference(total: real, before: real, quantity: real)
    requires quantity > 0.0
    ensures Times((total - before) / quantity, quantity) == total - before
  {
  }

  lemma PriceOfDifference(now: Quote, snapshot: Quote, a: real, m: real, b: real, n: real)
    requires Averages(snapshot, a, m) && Averages(now, a + b, m + n) && n > 0.0
    ensures FillPrice(now, snapshot).Finite? && Times(FillPrice(now, snapshot).value, n) == b
  {
    Difference(a + b, a, n);
    assert Mul(now.price, now.volume) == Finite(a + b) && Mul(snapshot.price, snapshot.volume) == Finite(a);
    assert Sub(now.volume, snapshot.volume) == Finite(n);
  }

  /** The price of the fills times their quantity is what was paid since the snapshot, for any trades
      before and after it. */
  lemma FillPriceIsExact(before: seq<Trade>, since: seq<Trade>)
    requires Real(before) && Real(since) && before != [] && since != []
    ensures Sub(Averaged(before + since).volume, Averaged(before).volume) == Finite(Quantity(since)) && Quantity(since) > 0.0
    ensures FillPrice(Averaged(before + since), Averaged(before)).Finite?
    ensures Times(FillPrice(Averaged(before + since), Averaged(before)).value, Quantity(since)) == Amount(since)
  {
    AveragedMeans(before);
    AveragedMeans(since);
    AveragedMeans(before + since);
    SumsAdd(before, since);
    PriceOfDifference(Averaged(before + since), Averaged(before), Amount(before), Quantity(before), Amount(since), Quantity(since));
  }

  function Positions(bought: seq<Trade>, sold: seq<Trade>): BestQuotes
    requires Real(bought) && Real(sold)
  {
    BestQuotes(Averaged(bought), Averaged(sold))
  }

  /** So the fills of a leg carry on each side the price at which that side traded since the snapshot. */
  lemma FillsArePriced(b0: seq<Trade>, b: seq<Trade>, s0: seq<Trade>, s: seq<Trade>)
    requires Real(b0) && Real(b) && Real(s0) && Real(s) && b0 != [] && b != [] && s0 != [] && s != []
    ensures var fills := Fills(Positions(b0 + b, s0 + s), Positions(b0, s0));
            && fills.buy.price.Finite? && Times(fills.buy.price.value, Quantity(b)) == Amount(b)
            && fills.sell.price.Finite? && Times(fills.sell.price.value, Quantity(s)) == Amount(s)
  {
    FillPriceIsExact(b0, b);
    FillPriceIsExact(s0, s);
  }

  /** There is such a price exactly when the side traded both before and after the snapshot: a side
      that had not traded by then has no average, and none times zero is none. */
  lemma FillPriceIff(before: seq<Trade>, since: seq<Trade>)
    requires Real(before) && Real(since)
    ensures FillPrice(Averaged(before + since), Averaged(before)).Finite? <==> before != [] && since != []
  {
    if before != [] && since != [] {
      FillPriceIsExact(before, since);
    } else if before == [] {
      assert Averaged(before) == Quote(Empty, ZERO);
    } else {
      assert before + since == before;
      AveragedMeans(before);
    }
  }

  /** The volumes left over differ by the net volume since the snapshot, and one of them is zero; the
      other is negative exactly when the sides differ by no more than the tolerance, sales being less. */
  lemma LeftOver(now: BestQuotes, snapshot: BestQuotes)
    requires now.buy.volume.Finite? && now.sell.volume.Finite? && snapshot.buy.volume.Finite? && snapshot.sell.volume.Finite?
    ensures var bought, sold := now.buy.volume.value - snapshot.buy.volume.value, now.sell.volume.value - snapshot.sell.volume.value;
            var buy, sell := Fills(now, snapshot).buy.volume, Fills(now, snapshot).sell.volume;
            && buy.Finite? && sell.Finite? && buy.value - sell.value == bought - sold
            && (buy == ZERO || sell == ZERO)
            && (buy.value < 0.0 || sell.value < 0.0 <==> sold < bought <= sold + EPSILON)
  {
  }

  /** A difference from zero that the tolerance does not see. */
  predicate Slight(x: real) { x != 0.0 && -EPSILON <= x <= EPSILON }

  lemma TimesZero(x: real, m: real)
    ensures Times(0.0, m) == 0.0 && Times(-x, m) == -Times(x, m) && (Times(x, m) == 0.0 <==> x == 0.0 || m == 0.0)
  {
  }

  lemma PartsAre(x: real)
    ensures Max(Finite(x), ZERO) == Finite(if x < -EPSILON then 0.0 else x)
    ensures Max(Finite(-x), ZERO) == Finite(if x > EPSILON then 0.0 else -x)
  {
  }

  /** The deltas of an exposure differ by the exposure in units of the underlying, exactly when the tolerance
      does not take one that is not zero for zero: it then counts on both sides. */
  lemma DeltasDifferByExposureIff(x: real, m: real)
    requires m != 0.0
    ensures var buy, sell := Delta(Finite(x), Finite(m)), Delta(Finite(-x), Finite(m));
            && buy.Finite? && sell.Finite?
            && (buy.value - sell.value == Times(x, m) <==> !Slight(x))
            && (buy.value == 0.0 || sell.value == 0.0 <==> !Slight(x))
            && (x > EPSILON ==> buy.value == Times(x, m)) && (x < -EPSILON ==> sell.value == -Times(x, m))
            && (Slight(x) ==> buy.value - sell.value == Times(x, m) + Times(x, m))
  {
    PartsAre(x);
    TimesZero(x, m);
  }
}
