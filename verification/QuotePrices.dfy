/** Where the quotes of a leg stand against the market, and how much they are for. */
module QuotePrices {
  import opened Wrappers
  import opened Doubles
  import opened Sizing

  /** A market with both prices, the bid not above the ask, and a tick size. */
  predicate Uncrossed(leg: Leg) {
    && leg.market.buy.price.Finite? && leg.market.sell.price.Finite? && leg.tickSize.Finite?
    && leg.market.buy.price.value <= leg.market.sell.price.value && leg.tickSize.value >= 0.0
  }

  function Bid(leg: Leg): real
    requires Uncrossed(leg)
  {
    leg.market.buy.price.value
  }

  function Ask(leg: Leg): real
    requires Uncrossed(leg)
  {
    leg.market.sell.price.value
  }

  function Tick(leg: Leg): real
    requires Uncrossed(leg)
  {
    leg.tickSize.value
  }

  /** A side of the quotes that is for more than the tolerance. */
  predicate Offers(q: Quote) { q.volume.Finite? && q.volume.value > EPSILON }

  /** Where a bid stands for each way of quoting: on the ask, on the bid, one tick above the bid but one below
      the ask at most, one tick below the ask. */
  predicate BidStands(leg: Leg, price: Double)
    requires Uncrossed(leg)
  {
    match leg.mode
    case Cross => price == Finite(Ask(leg))
    case Join => price == Finite(Bid(leg))
    case JoinPlus =>
      && price.Finite? && (price.value == Bid(leg) + Tick(leg) || price.value == Ask(leg) - Tick(leg))
      && price.value <= Bid(leg) + Tick(leg) && price.value <= Ask(leg) - Tick(leg) + EPSILON
    case CrossMinus => price == Finite(Ask(leg) - Tick(leg))
    case NoMode => price == leg.exec.buy.price
  }

  predicate AskStands(leg: Leg, price: Double)
    requires Uncrossed(leg)
  {
    match leg.mode
    case Cross => price == Finite(Bid(leg))
    case Join => price == Finite(Ask(leg))
    case JoinPlus =>
      && price.Finite? && (price.value == Ask(leg) - Tick(leg) || price.value == Bid(leg) + Tick(leg))
      && price.value >= Ask(leg) - Tick(leg) && price.value >= Bid(leg) + Tick(leg) - EPSILON
    case CrossMinus => price == Finite(Bid(leg) + Tick(leg))
    case NoMode => price == leg.exec.sell.price
  }

  /** A quote for more than the tolerance stands where its way of quoting says; one for less keeps the
      price it had. */
  lemma QuotesStand(leg: Leg, under: Option<Underlying>)
    requires Uncrossed(leg) && GoodMarket(leg)
    ensures var q := Sized(leg, true, under);
            && (Offers(q.buy) ==> BidStands(leg, q.buy.price))
            && (Offers(q.sell) ==> AskStands(leg, q.sell.price))
            && (q.buy.volume.Finite? && !Offers(q.buy) ==> q.buy.price == leg.exec.buy.price)
            && (q.sell.volume.Finite? && !Offers(q.sell) ==> q.sell.price == leg.exec.sell.price)
  {
    var q := Sized(leg, true, under);
    if q.buy.volume.Finite? {
      PositiveMeans(q.buy.volume.value);
    }
    if q.sell.volume.Finite? {
      PositiveMeans(q.sell.volume.value);
    }
    BidStandsIn(leg);
    AskStandsIn(leg);
  }

  lemma BidStandsIn(leg: Leg)
    requires Uncrossed(leg)
    ensures BidStands(leg, BuyPrice(leg))
  {
  }

  lemma AskStandsIn(leg: Leg)
    requires Uncrossed(leg)
    ensures AskStands(leg, SellPrice(leg))
  {
  }

  /** A quote meets the other side of the market when it is priced there or beyond. */
  predicate MeetsAsk(leg: Leg, price: Double)
    requires Uncrossed(leg)
  {
    price.Finite? && price.value >= Ask(leg)
  }

  predicate MeetsBid(leg: Leg, price: Double)
    requires Uncrossed(leg)
  {
    price.Finite? && price.value <= Bid(leg)
  }

  /** When a quote can trade at once: always for Cross; for Join in a locked market only; for CrossMinus with no
      tick only; for JoinPlus when one tick spans the spread, which takes a tick within the tolerance. */
  predicate CanTrade(leg: Leg)
    requires Uncrossed(leg)
  {
    match leg.mode
    case Cross => true
    case Join => Bid(leg) == Ask(leg)
    case JoinPlus => Tick(leg) >= Ask(leg) - Bid(leg) >= 2.0 * Tick(leg) - EPSILON
    case CrossMinus => Tick(leg) == 0.0
    case NoMode => false
  }

  lemma CanTradeIff(leg: Leg, under: Option<Underlying>)
    requires Uncrossed(leg) && GoodMarket(leg) && leg.mode != NoMode
    ensures var q := Sized(leg, true, under);
            && (Offers(q.buy) ==> (MeetsAsk(leg, q.buy.price) <==> CanTrade(leg)))
            && (Offers(q.sell) ==> (MeetsBid(leg, q.sell.price) <==> CanTrade(leg)))
  {
    var q := Sized(leg, true, under);
    if Offers(q.buy) {
      PositiveMeans(q.buy.volume.value);
      BidMeetsIff(leg);
    }
    if Offers(q.sell) {
      PositiveMeans(q.sell.volume.value);
      AskMeetsIff(leg);
    }
  }

  lemma JoinPlusStands(b: real, a: real, t: real)
    requires b <= a && t >= 0.0
    ensures Min(Finite(b + t), Finite(a - t)) == Finite(if a - t < b + t - EPSILON then a - t else b + t)
    ensures Max(Finite(a - t), Finite(b + t)) == Finite(if a - t < b + t - EPSILON then b + t else a - t)
  {
  }

  lemma JoinPlusMeets(b: real, a: real, t: real)
    requires b <= a && t >= 0.0
    ensures (if a - t < b + t - EPSILON then a - t else b + t) >= a <==> t >= a - b >= 2.0 * t - EPSILON
    ensures (if a - t < b + t - EPSILON then b + t else a - t) <= b <==> t >= a - b >= 2.0 * t - EPSILON
  {
  }

  lemma JoinPlusBidIs(leg: Leg)
    requires Uncrossed(leg) && leg.mode == JoinPlus
    ensures var b, a, t := Bid(leg), Ask(leg), Tick(leg);
            BuyPrice(leg) == Finite(if a - t < b + t - EPSILON then a - t else b + t)
  {
    JoinPlusStands(Bid(leg), Ask(leg), Tick(leg));
  }

  lemma JoinPlusBidMeetsIff(leg: Leg, price: Double)
    requires Uncrossed(leg) && leg.mode == JoinPlus
    requires var b, a, t := Bid(leg), Ask(leg), Tick(leg); price == Finite(if a - t < b + t - EPSILON then a - t else b + t)
    ensures MeetsAsk(leg, price) <==> CanTrade(leg)
  {
    JoinPlusMeets(Bid(leg), Ask(leg), Tick(leg));
  }

  lemma PlainBidMeetsIff(leg: Leg, price: Double)
    requires Uncrossed(leg) && leg.mode != NoMode && leg.mode != JoinPlus && BidStands(leg, price)
    ensures MeetsAsk(leg, price) <==> CanTrade(leg)
  {
  }

  lemma BidMeetsIff(leg: Leg)
    requires Uncrossed(leg) && leg.mode != NoMode
    ensures MeetsAsk(leg, BuyPrice(leg)) <==> CanTrade(leg)
  {
    if leg.mode == JoinPlus {
      JoinPlusBidIs(leg);
      JoinPlusBidMeetsIff(leg, BuyPrice(leg));
    } else {
      PlainBidMeetsIff(leg, BuyPrice(leg));
    }
  }

  lemma JoinPlusAskIs(leg: Leg)
    requires Uncrossed(leg) && leg.mode == JoinPlus
    ensures var b, a, t := Bid(leg), Ask(leg), Tick(leg);
            SellPrice(leg) == Finite(if a - t < b + t - EPSILON then b + t else a - t)
  {
    JoinPlusStands(Bid(leg), Ask(leg), Tick(leg));
  }

  lemma JoinPlusAskMeetsIff(leg: Leg, price: Double)
    requires Uncrossed(leg) && leg.mode == JoinPlus
    requires var b, a, t := Bid(leg), Ask(leg), Tick(leg); price == Finite(if a - t < b + t - EPSILON then b + t else a - t)
    ensures MeetsBid(leg, price) <==> CanTrade(leg)
  {
    JoinPlusMeets(Bid(leg), Ask(leg), Tick(leg));
  }

  lemma PlainAskMeetsIff(leg: Leg, price: Double)
    requires Uncrossed(leg) && leg.mode != NoMode && leg.mode != JoinPlus && AskStands(leg, price)
    ensures MeetsBid(leg, price) <==> CanTrade(leg)
  {
  }

  lemma AskMeetsIff(leg: Leg)
    requires Uncrossed(leg) && leg.mode != NoMode
    ensures MeetsBid(leg, SellPrice(leg)) <==> CanTrade(leg)
  {
    if leg.mode == JoinPlus {
      JoinPlusAskIs(leg);
      JoinPlusAskMeetsIff(leg, SellPrice(leg));
    } else {
      PlainAskMeetsIff(leg, SellPrice(leg));
    }
  }

  /** So with a tick above the tolerance JoinPlus never trades at once. */
  lemma JoinPlusIsPassive(leg: Leg)
    requires Uncrossed(leg) && leg.mode == JoinPlus && Tick(leg) > EPSILON
    ensures !CanTrade(leg)
  {
  }

  // ----- how much ---------------------------------------------------------------------------------

  /** The delta may grow, or shrink, by what a volume comes to. */
  predicate MayGrow(leg: Leg, under: Option<Underlying>, x: real)
    requires Sizable(leg) && (under.Some? ==> under.value.delta.Finite?)
  {
    under.Some? ==>
      under.value.deltaMax == Infinite(true)
      || (under.value.deltaMax.Finite? && Times(x, leg.deltaByVolume.value) <= under.value.deltaMax.value - under.value.delta.value)
  }

  predicate MayShrink(leg: Leg, under: Option<Underlying>, x: real)
    requires Sizable(leg) && (under.Some? ==> under.value.delta.Finite?)
  {
    under.Some? ==>
      under.value.deltaMin == Infinite(false)
      || (under.value.deltaMin.Finite? && Times(x, leg.deltaByVolume.value) <= under.value.delta.value - under.value.deltaMin.value)
  }

  lemma PositivePartIsNoLess(a: Double, x: real)
    requires AtLeast(a, x)
    ensures AtLeast(Max(a, ZERO), x)
  {
  }

  lemma DivideDown(a: Double, d: real, x: real)
    requires d > 0.0 && AtLeast(a, Times(x, d))
    ensures AtLeast(Div(a, Finite(d)), x)
  {
    if a.Finite? {
      var q := a.value / d;
      assert q * d == a.value;
      assert (x - q) * d == x * d - a.value;
      assert x > q ==> (x - q) * d > 0.0;
    }
  }

  lemma RoomAboveIsThere(leg: Leg, u: Underlying, x: real)
    requires Sizable(leg) && Ranged(u) && MayGrow(leg, Some(u), x)
    ensures AtLeast(Div(RoomAbove(u), leg.deltaByVolume), x)
  {
    PositivePartIsNoLess(Sub(u.deltaMax, u.delta), Times(x, leg.deltaByVolume.value));
    DivideDown(RoomAbove(u), leg.deltaByVolume.value, x);
  }

  lemma RoomBelowIsThere(leg: Leg, u: Underlying, x: real)
    requires Sizable(leg) && Ranged(u) && MayShrink(leg, Some(u), x)
    ensures AtLeast(Div(RoomBelow(u), leg.deltaByVolume), x)
  {
    PositivePartIsNoLess(Sub(u.delta, u.deltaMin), Times(x, leg.deltaByVolume.value));
    DivideDown(RoomBelow(u), leg.deltaByVolume.value, x);
  }

  lemma VolumeIsNoLess(step: real, need: real, room: Option<Double>, x: real)
    requires x <= step && x <= Larger(need, 0.0) && (room.Some? ==> AtLeast(room.value, x)) && Usable(room)
    ensures AtLeast(Volume(Finite(step), Finite(Wish(need)), room), x - EPSILON)
  {
    var first := if Wish(need) < step - EPSILON then Wish(need) else step;
    assert Min(Finite(step), Finite(Wish(need))) == Finite(first);
  }

  /** The bid is for all that the step, the way to the target and the delta allow, up to the tolerance. */
  lemma BidIsForAll(leg: Leg, under: Option<Underlying>, x: real)
    requires Sizable(leg) && GoodMarket(leg) && (under.Some? ==> Ranged(under.value))
    requires x <= leg.buyVolume.value && x <= Larger(leg.target.value - Held(leg), 0.0) && MayGrow(leg, under, x)
    ensures AtLeast(Sized(leg, true, under).buy.volume, x - EPSILON)
  {
    RoomIsThere(leg, under);
    VolumesAre(leg, under);
    if under.Some? {
      RoomAboveIsThere(leg, under.value, x);
    }
    VolumeIsNoLess(leg.buyVolume.value, Need(leg), Room(leg, Above(under)), x);
  }

  /** And so is the ask. */
  lemma AskIsForAll(leg: Leg, under: Option<Underlying>, x: real)
    requires Sizable(leg) && GoodMarket(leg) && (under.Some? ==> Ranged(under.value))
    requires x <= leg.sellVolume.value && x <= Larger(Held(leg) - leg.target.value, 0.0) && MayShrink(leg, under, x)
    ensures AtLeast(Sized(leg, true, under).sell.volume, x - EPSILON)
  {
    RoomIsThere(leg, under);
    VolumesAre(leg, under);
    if under.Some? {
      RoomBelowIsThere(leg, under.value, x);
    }
    VolumeIsNoLess(leg.sellVolume.value, Excess(leg), Room(leg, Below(under)), x);
  }

  // ----- whether ----------------------------------------------------------------------------------

  /** The spread in basis points of the bid. */
  function Spread(b: real, a: real): real
    requires b != 0.0
  {
    Times(Over(a, b) - 1.0, 10000.0)
  }

  lemma SpreadMeans(b: real, a: real, limit: real)
    requires b > 0.0
    ensures Spread(b, a) <= limit <==> Times(a - b, 10000.0) <= Times(limit, b)
  {
    var x := a / b;
    assert x * b == a;
    assert (limit - (x - 1.0) * 10000.0) * b == limit * b - (a - b) * 10000.0;
    SignOf(limit - (x - 1.0) * 10000.0, b);
  }

  lemma SignOf(x: real, b: real)
    requires b > 0.0
    ensures x * b >= 0.0 <==> x >= 0.0
  {
    assert x < 0.0 ==> -x * b > 0.0;
    assert -x * b == -(x * b);
  }

  lemma SpreadIs(leg: Leg)
    requires leg.market.buy.price.Finite? && leg.market.sell.price.Finite? && leg.market.buy.price.value > 0.0
    ensures Mul(Sub(Div(leg.market.sell.price, leg.market.buy.price), Finite(1.0)), Finite(10000.0))
            == Finite(Spread(leg.market.buy.price.value, leg.market.sell.price.value))
  {
  }

  lemma WithinTolerance(x: real, y: real)
    ensures Compare(Finite(x), Finite(y)) <= 0 <==> x <= y + EPSILON
  {
  }

  /** The market is good when the spread, in basis points of the bid, is within the slippage, up to the tolerance. */
  lemma GoodMarketMeans(leg: Leg)
    requires leg.market.buy.price.Finite? && leg.market.sell.price.Finite? && leg.market.buy.price.value > 0.0
    requires leg.slippage.Finite?
    ensures var b, a := leg.market.buy.price.value, leg.market.sell.price.value;
            GoodMarket(leg) <==> Times(a - b, 10000.0) <= Times(leg.slippage.value + EPSILON, b)
  {
    var b, a := leg.market.buy.price.value, leg.market.sell.price.value;
    SpreadIs(leg);
    WithinTolerance(Spread(b, a), leg.slippage.value);
    SpreadMeans(b, a, leg.slippage.value + EPSILON);
  }

  /** Without both prices no market is good; with both, any is if the slippage is not limited. */
  lemma GoodMarketNeedsPrices(leg: Leg)
    ensures leg.market.buy.price.Empty? || leg.market.sell.price.Empty? ==> !GoodMarket(leg)
    ensures !leg.market.buy.price.Empty? && !leg.market.sell.price.Empty? && leg.slippage.Empty? ==> GoodMarket(leg)
  {
  }

  /** Nothing is quoted when the market is not good or the strategy not enabled; both sides are for a known
      volume otherwise. */
  lemma QuotedIff(leg: Leg, enabled: bool, under: Option<Underlying>)
    requires Sizable(leg) && (under.Some? ==> Ranged(under.value))
    ensures var q := Sized(leg, enabled, under);
            if GoodMarket(leg) && enabled then q.buy.volume.Finite? && q.sell.volume.Finite? else q == CLEARED
  {
    if GoodMarket(leg) && enabled {
      BuyMeans(leg, under, 0.0);
      SellMeans(leg, under, 0.0);
    }
  }
}
