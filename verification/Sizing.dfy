/** The liquidation strategy: how much of a leg is quoted, given its position and the delta of its
    underlying, and what filling those quotes can do to either. */
module Sizing {
  import opened Wrappers
  import opened Doubles

  const CLEARED := BestQuotes(Quote(Empty, Empty), Quote(Empty, Empty))

  datatype Mode = Cross | Join | JoinPlus | CrossMinus | NoMode

  datatype Style = Linear | Inverse | NoStyle

  datatype LegKey = LegKey(account: string, market: nat)

  datatype Leg = Leg(
    underlying: nat,
    style: Style,
    position: BestQuotes,
    target: Double,
    mode: Mode,
    exec: BestQuotes,
    market: BestQuotes,
    buyVolume: Double,
    sellVolume: Double,
    slippage: Double,
    deltaByVolume: Double,
    tickSize: Double)

  datatype Underlying = Underlying(
    delta: Double,
    deltaMin: Double,
    deltaMax: Double,
    market: BestQuotes,
    legs: seq<LegKey>)

  const NEW_LEG := Leg(0xFFFF_FFFF, NoStyle, BestQuotes(Quote(Empty, ZERO), Quote(Empty, ZERO)), ZERO, Cross, CLEARED, CLEARED,
                       Empty, Empty, Empty, Finite(1.0), ZERO)

  // ----- one leg ------------------------------------------------------------------------------

  function Position(leg: Leg): Double { Sub(leg.position.buy.volume, leg.position.sell.volume) }

  function Exposure(leg: Leg): Double { Sub(Position(leg), leg.target) }

  predicate Positive(a: Double) { Compare(a, ZERO) > 0 }

  /** Both market prices are there and no further apart than the slippage, in basis points. */
  predicate GoodMarket(leg: Leg) {
    var m := leg.market;
    && !m.buy.price.Empty? && !m.sell.price.Empty?
    && (leg.slippage.Empty?
        || Compare(Mul(Sub(Div(m.sell.price, m.buy.price), Finite(1.0)), Finite(10000.0)), leg.slippage) <= 0)
  }

  /** What the delta of the underlying may still grow and shrink by. */
  function RoomAbove(u: Underlying): Double { Max(Sub(u.deltaMax, u.delta), ZERO) }

  function RoomBelow(u: Underlying): Double { Max(Sub(u.delta, u.deltaMin), ZERO) }

  /** At most a step, at most what is wanted, at most what there is room for. */
  function Volume(step: Double, wanted: Double, room: Option<Double>): Double {
    var volume := Min(step, wanted);
    if room.Some? then Min(volume, room.value) else volume
  }

  function Room(leg: Leg, room: Option<Double>): Option<Double> {
    if room.Some? then Some(Div(room.value, leg.deltaByVolume)) else None
  }

  function Above(under: Option<Underlying>): Option<Double> { if under.Some? then Some(RoomAbove(under.value)) else None }

  function Below(under: Option<Underlying>): Option<Double> { if under.Some? then Some(RoomBelow(under.value)) else None }

  function BuyVolume(leg: Leg, under: Option<Underlying>): Double {
    Volume(leg.buyVolume, Max(Neg(Exposure(leg)), ZERO), Room(leg, Above(under)))
  }

  function SellVolume(leg: Leg, under: Option<Underlying>): Double {
    Volume(leg.sellVolume, Max(Exposure(leg), ZERO), Room(leg, Below(under)))
  }

  function BuyPrice(leg: Leg): Double {
    var m := leg.market;
    match leg.mode
    case Cross => m.sell.price
    case Join => m.buy.price
    case JoinPlus => Min(Add(m.buy.price, leg.tickSize), Sub(m.sell.price, leg.tickSize))
    case CrossMinus => Sub(m.sell.price, leg.tickSize)
    case NoMode => leg.exec.buy.price
  }

  function SellPrice(leg: Leg): Double {
    var m := leg.market;
    match leg.mode
    case Cross => m.buy.price
    case Join => m.sell.price
    case JoinPlus => Max(Sub(m.sell.price, leg.tickSize), Add(m.buy.price, leg.tickSize))
    case CrossMinus => Add(m.buy.price, leg.tickSize)
    case NoMode => leg.exec.sell.price
  }

  /** The quotes of a leg. A side without volume keeps the price it had. */
  function Sized(leg: Leg, enabled: bool, under: Option<Underlying>): BestQuotes {
    if !GoodMarket(leg) || !enabled then CLEARED else
    var buy, sell := BuyVolume(leg, under), SellVolume(leg, under);
    BestQuotes(Quote(if Positive(buy) then BuyPrice(leg) else leg.exec.buy.price, buy),
               Quote(if Positive(sell) then SellPrice(leg) else leg.exec.sell.price, sell))
  }

  /** The quotes are set step by step. */
  method ComputeLeg(leg: Leg, enabled: bool, under: Option<Underlying>) returns (r: Leg)
    ensures r == leg.(exec := Sized(leg, enabled, under))
  {
    if !GoodMarket(leg) {
      return leg.(exec := CLEARED);
    }
    if !enabled {
      return leg.(exec := CLEARED);
    }
    var q, m := leg.exec, leg.market;
    var exposure := Sub(Sub(leg.position.buy.volume, leg.position.sell.volume), leg.target);
    q := q.(buy := q.buy.(volume := Min(leg.buyVolume, Max(Neg(exposure), ZERO))));
    q := q.(sell := q.sell.(volume := Min(leg.sellVolume, Max(exposure, ZERO))));
    if under.Some? {
      var u := under.value;
      var plus := Max(Sub(u.deltaMax, u.delta), ZERO);
      var minus := Max(Sub(u.delta, u.deltaMin), ZERO);
      q := q.(buy := q.buy.(volume := Min(q.buy.volume, Div(plus, leg.deltaByVolume))));
      q := q.(sell := q.sell.(volume := Min(q.sell.volume, Div(minus, leg.deltaByVolume))));
    }
    if Positive(q.buy.volume) {
      q := q.(buy := q.buy.(price := BuyPrice(leg)));
    }
    if Positive(q.sell.volume) {
      q := q.(sell := q.sell.(price := SellPrice(leg)));
    }
    r := leg.(exec := q);
  }

  lemma SizedFrom(leg: Leg, exec: BestQuotes, enabled: bool, under: Option<Underlying>)
    ensures GoodMarket(leg.(exec := exec)) == GoodMarket(leg)
    ensures BuyVolume(leg.(exec := exec), under) == BuyVolume(leg, under)
    ensures SellVolume(leg.(exec := exec), under) == SellVolume(leg, under)
  {
    assert Exposure(leg.(exec := exec)) == Exposure(leg);
  }

  /** Sizing a leg again gives the same quotes. */
  lemma SizedAgain(leg: Leg, enabled: bool, under: Option<Underlying>)
    ensures Sized(leg.(exec := Sized(leg, enabled, under)), enabled, under) == Sized(leg, enabled, under)
  {
    SizedFrom(leg, Sized(leg, enabled, under), enabled, under);
    PriceAgain(leg, Sized(leg, enabled, under));
  }

  lemma PriceAgain(leg: Leg, exec: BestQuotes)
    ensures leg.mode != NoMode ==> BuyPrice(leg.(exec := exec)) == BuyPrice(leg) && SellPrice(leg.(exec := exec)) == SellPrice(leg)
    ensures leg.mode == NoMode ==> BuyPrice(leg.(exec := exec)) == exec.buy.price && SellPrice(leg.(exec := exec)) == exec.sell.price
  {
  }

  // ----- the position bound -------------------------------------------------------------------

  /** Position and target are numbers, volumes are set and not negative, a unit of volume has positive
      delta. */
  predicate Sizable(leg: Leg) {
    && leg.position.buy.volume.Finite? && leg.position.sell.volume.Finite? && leg.target.Finite?
    && leg.buyVolume.Finite? && leg.buyVolume.value >= 0.0
    && leg.sellVolume.Finite? && leg.sellVolume.value >= 0.0
    && leg.deltaByVolume.Finite? && leg.deltaByVolume.value > 0.0
  }

  /** The delta is known and its bounds are set. */
  predicate Ranged(u: Underlying) { u.delta.Finite? && !u.deltaMin.Empty? && !u.deltaMax.Empty? }

  function Larger(x: real, y: real): real { if x >= y then x else y }

  function Smaller(x: real, y: real): real { if x <= y then x else y }

  lemma DivideFinite(a: Double, d: real)
    requires d > 0.0
    ensures !a.Empty? ==> !Div(a, Finite(d)).Empty?
    ensures a != Infinite(false) ==> Div(a, Finite(d)) != Infinite(false)
  {
  }

  /** Dividing by a positive number keeps bounds. */
  lemma DivideUp(a: Double, d: real, x: real)
    requires d > 0.0
    ensures AtMost(a, Times(x, d)) ==> AtMost(Div(a, Finite(d)), x)
  {
    if a.Finite? {
      var q := a.value / d;
      assert q * d == a.value;
      assert (q - x) * d == a.value - x * d;
      assert q > x ==> (q - x) * d > 0.0;
    }
  }

  predicate Usable(room: Option<Double>) { room.Some? ==> !room.value.Empty? && room.value != Infinite(false) }

  lemma VolumeMeans(step: real, wanted: real, room: Option<Double>, x: real)
    requires Usable(room)
    ensures Volume(Finite(step), Finite(wanted), room).Finite?
    ensures var v := Volume(Finite(step), Finite(wanted), room).value;
            v <= step && v <= wanted + EPSILON && (room.Some? && AtMost(room.value, x) ==> v <= x + EPSILON)
  {
  }

  lemma PositivePartIsUsable(a: Double)
    requires !a.Empty?
    ensures !Max(a, ZERO).Empty? && Max(a, ZERO) != Infinite(false)
  {
  }

  lemma RoomIsThere(leg: Leg, under: Option<Underlying>)
    requires Sizable(leg) && (under.Some? ==> Ranged(under.value))
    ensures Usable(Room(leg, Above(under))) && Usable(Room(leg, Below(under)))
  {
    if under.Some? {
      var u := under.value;
      PositivePartIsUsable(Sub(u.deltaMax, u.delta));
      PositivePartIsUsable(Sub(u.delta, u.deltaMin));
      DivideFinite(RoomAbove(u), leg.deltaByVolume.value);
      DivideFinite(RoomBelow(u), leg.deltaByVolume.value);
    }
  }

  /** What is wanted of either side is no more than the way to the target. */
  lemma WantedMeans(leg: Leg)
    requires Sizable(leg)
    ensures Position(leg).Finite? && Exposure(leg) == Finite(Position(leg).value - leg.target.value)
    ensures var e := Exposure(leg).value;
            && Max(Neg(Exposure(leg)), ZERO).Finite? && Max(Neg(Exposure(leg)), ZERO).value <= Larger(-e, 0.0)
            && Max(Exposure(leg), ZERO).Finite? && Max(Exposure(leg), ZERO).value <= Larger(e, 0.0)
  {
  }

  lemma BuyMeans(leg: Leg, under: Option<Underlying>, x: real)
    requires Sizable(leg) && (under.Some? ==> Ranged(under.value))
    ensures BuyVolume(leg, under).Finite? && Position(leg).Finite?
    ensures BuyVolume(leg, under).value <= Larger(leg.target.value - Position(leg).value, 0.0) + EPSILON
    ensures BuyVolume(leg, under).value <= leg.buyVolume.value
    ensures under.Some? && AtMost(Room(leg, Above(under)).value, x) ==> BuyVolume(leg, under).value <= x + EPSILON
  {
    WantedMeans(leg);
    RoomIsThere(leg, under);
    VolumeMeans(leg.buyVolume.value, Max(Neg(Exposure(leg)), ZERO).value, Room(leg, Above(under)), x);
  }

  lemma SellMeans(leg: Leg, under: Option<Underlying>, x: real)
    requires Sizable(leg) && (under.Some? ==> Ranged(under.value))
    ensures SellVolume(leg, under).Finite? && Position(leg).Finite?
    ensures SellVolume(leg, under).value <= Larger(Position(leg).value - leg.target.value, 0.0) + EPSILON
    ensures SellVolume(leg, under).value <= leg.sellVolume.value
    ensures under.Some? && AtMost(Room(leg, Below(under)).value, x) ==> SellVolume(leg, under).value <= x + EPSILON
  {
    WantedMeans(leg);
    RoomIsThere(leg, under);
    VolumeMeans(leg.sellVolume.value, Max(Exposure(leg), ZERO).value, Room(leg, Below(under)), x);
  }

  /** No fill of either side takes the position past its target by more than the tolerance, nor away
      from it by more than that when it is on the other side already. */
  lemma FillStopsAtTarget(leg: Leg, under: Option<Underlying>, fill: real)
    requires Sizable(leg) && (under.Some? ==> Ranged(under.value)) && fill >= 0.0
    ensures BuyVolume(leg, under).Finite? && SellVolume(leg, under).Finite? && Position(leg).Finite?
    ensures fill <= BuyVolume(leg, under).value ==>
              Position(leg).value + fill <= Larger(Position(leg).value, leg.target.value) + EPSILON
    ensures fill <= SellVolume(leg, under).value ==>
              Position(leg).value - fill >= Smaller(Position(leg).value, leg.target.value) - EPSILON
  {
    BuyMeans(leg, under, 0.0);
    SellMeans(leg, under, 0.0);
  }

  /** How far a leg is below its target, and what is wanted of the buy side for it: a small surplus
      counts as a negative wish. */
  function Need(leg: Leg): real
    requires Sizable(leg)
  {
    leg.target.value - (leg.position.buy.volume.value - leg.position.sell.volume.value)
  }

  function Excess(leg: Leg): real
    requires Sizable(leg)
  {
    (leg.position.buy.volume.value - leg.position.sell.volume.value) - leg.target.value
  }

  function Wish(need: real): real { if need < -EPSILON then 0.0 else need }

  /** The room is what bounds the volume, up to the tolerance. */
  predicate Tighter(room: Option<Double>, step: real) { room.Some? && Less(room.value, Finite(step)) }

  /** A step volume is above a limit, but within the tolerance of what is wanted, and there is room for it. */
  predicate Slips(step: real, need: real, room: Option<Double>, limit: real) {
    limit < step <= Wish(need) + EPSILON && !Tighter(room, step)
  }

  lemma WishMeans(need: real)
    ensures Max(Finite(need), ZERO) == Finite(Wish(need))
  {
  }

  lemma ExceedsIff(step: real, need: real, room: Option<Double>, limit: real)
    requires Usable(room) && limit >= Wish(need)
    ensures var v := Volume(Finite(step), Finite(Wish(need)), room);
            v.Finite? && (v.value > limit <==> Slips(step, need, room, limit)) && (v.value > limit ==> v.value == step)
  {
    var first := if Wish(need) < step - EPSILON then Wish(need) else step;
    assert Min(Finite(step), Finite(Wish(need))) == Finite(first);
    assert Volume(Finite(step), Finite(Wish(need)), room) == if Tighter(room, first) then room.value else Finite(first);
  }

  lemma VolumesAre(leg: Leg, under: Option<Underlying>)
    requires Sizable(leg)
    ensures BuyVolume(leg, under) == Volume(Finite(leg.buyVolume.value), Finite(Wish(Need(leg))), Room(leg, Above(under)))
    ensures SellVolume(leg, under) == Volume(Finite(leg.sellVolume.value), Finite(Wish(Excess(leg))), Room(leg, Below(under)))
  {
    WantedMeans(leg);
    assert Neg(Exposure(leg)) == Finite(Need(leg)) && Exposure(leg) == Finite(Excess(leg));
    WishMeans(Need(leg));
    WishMeans(Excess(leg));
  }

  /** A quote with a price takes a fill up to its volume. */
  predicate Takes(q: Quote, fill: real) { !q.price.Empty? && 0.0 <= fill && AtLeast(q.volume, fill) }

  predicate TakesAbove(q: Quote, limit: real, fill: real) { Takes(q, fill) && fill > limit }

  /** A quote can take more than a limit. */
  predicate Exceeds(q: Quote, limit: real) { !q.price.Empty? && q.volume.Finite? && q.volume.value > limit }

  lemma TakesAboveIff(q: Quote, limit: real, exceeds: bool)
    requires limit >= 0.0 && (q.volume.Finite? || q.price.Empty?) && (Exceeds(q, limit) <==> exceeds)
    ensures (exists fill: real :: TakesAbove(q, limit, fill)) <==> exceeds
  {
    if exceeds {
      assert TakesAbove(q, limit, q.volume.value);
    }
  }

  function Abs(x: real): real { if x >= 0.0 then x else -x }

  /** The position, and what it is the other way round. */
  function Held(leg: Leg): real
    requires Sizable(leg)
  {
    leg.position.buy.volume.value - leg.position.sell.volume.value
  }

  function Owed(leg: Leg): real
    requires Sizable(leg)
  {
    leg.position.sell.volume.value - leg.position.buy.volume.value
  }

  /** A fill of a quote that leaves the position larger in size than it was. */
  predicate Grows(position: real, q: Quote, fill: real) { Takes(q, fill) && Abs(position + fill) > Abs(position) }

  lemma GrowsSomewhere(position: real, q: Quote, limit: real, exceeds: bool)
    requires limit == Larger(-2.0 * position, 0.0) && (q.volume.Finite? || q.price.Empty?) && (Exceeds(q, limit) <==> exceeds)
    ensures (exists fill: real :: Grows(position, q, fill)) <==> exceeds
  {
    if exceeds {
      assert Grows(position, q, q.volume.value);
    }
  }

  lemma HeldIs(leg: Leg)
    requires Sizable(leg) && leg.target == ZERO
    ensures Larger(-2.0 * Held(leg), 0.0) == Larger(2.0 * Need(leg), 0.0)
    ensures Larger(-2.0 * Owed(leg), 0.0) == Larger(2.0 * Excess(leg), 0.0)
  {
  }

  lemma WishIsLess(need: real)
    ensures Wish(need) <= Larger(2.0 * need, 0.0)
  {
  }

  lemma PositiveMeans(x: real)
    ensures Positive(Finite(x)) <==> x > EPSILON
  {
  }

  /** The price of the bid once it is quoted for the whole step: a step within the tolerance gets no new one. */
  function BuyPriceInForce(leg: Leg): Double
    requires leg.buyVolume.Finite?
  {
    if leg.buyVolume.value > EPSILON then BuyPrice(leg) else leg.exec.buy.price
  }

  predicate BuysOffered(leg: Leg, enabled: bool)
    requires leg.buyVolume.Finite?
  {
    GoodMarket(leg) && enabled && !BuyPriceInForce(leg).Empty?
  }

  lemma BuyVolumeIs(leg: Leg, under: Option<Underlying>, limit: real)
    requires Sizable(leg) && (under.Some? ==> Ranged(under.value)) && limit >= Wish(Need(leg))
    ensures BuyVolume(leg, under).Finite?
    ensures BuyVolume(leg, under).value > limit <==> Slips(leg.buyVolume.value, Need(leg), Room(leg, Above(under)), limit)
    ensures BuyVolume(leg, under).value > limit ==> BuyVolume(leg, under) == leg.buyVolume
  {
    RoomIsThere(leg, under);
    VolumesAre(leg, under);
    ExceedsIff(leg.buyVolume.value, Need(leg), Room(leg, Above(under)), limit);
  }

  lemma BuyQuoteIs(leg: Leg, enabled: bool, under: Option<Underlying>, limit: real)
    requires Sizable(leg) && (under.Some? ==> Ranged(under.value)) && limit >= Wish(Need(leg))
    ensures var q := Sized(leg, enabled, under).buy;
            && (q.volume.Finite? || q.price.Empty?)
            && (Exceeds(q, limit) <==>
                  Slips(leg.buyVolume.value, Need(leg), Room(leg, Above(under)), limit) && BuysOffered(leg, enabled))
  {
    BuyVolumeIs(leg, under, limit);
    PositiveMeans(leg.buyVolume.value);
  }

  /** The price of the ask once it is quoted for the whole step: a step within the tolerance gets no new one. */
  function SellPriceInForce(leg: Leg): Double
    requires leg.sellVolume.Finite?
  {
    if leg.sellVolume.value > EPSILON then SellPrice(leg) else leg.exec.sell.price
  }

  predicate SellsOffered(leg: Leg, enabled: bool)
    requires leg.sellVolume.Finite?
  {
    GoodMarket(leg) && enabled && !SellPriceInForce(leg).Empty?
  }

  lemma SellVolumeIs(leg: Leg, under: Option<Underlying>, limit: real)
    requires Sizable(leg) && (under.Some? ==> Ranged(under.value)) && limit >= Wish(Excess(leg))
    ensures SellVolume(leg, under).Finite?
    ensures SellVolume(leg, under).value > limit <==> Slips(leg.sellVolume.value, Excess(leg), Room(leg, Below(under)), limit)
    ensures SellVolume(leg, under).value > limit ==> SellVolume(leg, under) == leg.sellVolume
  {
    RoomIsThere(leg, under);
    VolumesAre(leg, under);
    ExceedsIff(leg.sellVolume.value, Excess(leg), Room(leg, Below(under)), limit);
  }

  lemma SellQuoteIs(leg: Leg, enabled: bool, under: Option<Underlying>, limit: real)
    requires Sizable(leg) && (under.Some? ==> Ranged(under.value)) && limit >= Wish(Excess(leg))
    ensures var q := Sized(leg, enabled, under).sell;
            && (q.volume.Finite? || q.price.Empty?)
            && (Exceeds(q, limit) <==>
                  Slips(leg.sellVolume.value, Excess(leg), Room(leg, Below(under)), limit) && SellsOffered(leg, enabled))
  {
    SellVolumeIs(leg, under, limit);
    PositiveMeans(leg.sellVolume.value);
  }

  /** Some fill of the bid takes the position past both its target and where it was exactly when the step
      volume is above what is needed but within the tolerance of it, there is room for it, and the bid
      has a price. */
  lemma BuysPastIff(leg: Leg, enabled: bool, under: Option<Underlying>)
    requires Sizable(leg) && (under.Some? ==> Ranged(under.value))
    ensures (exists fill: real :: TakesAbove(Sized(leg, enabled, under).buy, Larger(Need(leg), 0.0), fill)) <==>
              Slips(leg.buyVolume.value, Need(leg), Room(leg, Above(under)), Larger(Need(leg), 0.0)) && BuysOffered(leg, enabled)
  {
    var limit := Larger(Need(leg), 0.0);
    BuyQuoteIs(leg, enabled, under, limit);
    TakesAboveIff(Sized(leg, enabled, under).buy, limit,
                  Slips(leg.buyVolume.value, Need(leg), Room(leg, Above(under)), limit) && BuysOffered(leg, enabled));
  }

  lemma SellsPastIff(leg: Leg, enabled: bool, under: Option<Underlying>)
    requires Sizable(leg) && (under.Some? ==> Ranged(under.value))
    ensures (exists fill: real :: TakesAbove(Sized(leg, enabled, under).sell, Larger(Excess(leg), 0.0), fill)) <==>
              Slips(leg.sellVolume.value, Excess(leg), Room(leg, Below(under)), Larger(Excess(leg), 0.0)) && SellsOffered(leg, enabled)
  {
    var limit := Larger(Excess(leg), 0.0);
    SellQuoteIs(leg, enabled, under, limit);
    TakesAboveIff(Sized(leg, enabled, under).sell, limit,
                  Slips(leg.sellVolume.value, Excess(leg), Room(leg, Below(under)), limit) && SellsOffered(leg, enabled));
  }

  lemma BuysGrowFrom(leg: Leg, enabled: bool, under: Option<Underlying>)
    requires Sizable(leg) && (under.Some? ==> Ranged(under.value)) && Larger(-2.0 * Held(leg), 0.0) == Larger(2.0 * Need(leg), 0.0)
    ensures (exists fill: real :: Grows(Held(leg), Sized(leg, enabled, under).buy, fill)) <==>
              Slips(leg.buyVolume.value, Need(leg), Room(leg, Above(under)), Larger(2.0 * Need(leg), 0.0)) && BuysOffered(leg, enabled)
  {
    var limit := Larger(2.0 * Need(leg), 0.0);
    WishIsLess(Need(leg));
    BuyQuoteIs(leg, enabled, under, limit);
    GrowsSomewhere(Held(leg), Sized(leg, enabled, under).buy, limit,
                   Slips(leg.buyVolume.value, Need(leg), Room(leg, Above(under)), limit) && BuysOffered(leg, enabled));
  }

  /** The promise that the absolute position never increases is broken by some fill of the bid exactly when
      the step volume is above twice the way to zero but within the tolerance of the way, there is room
      for it, and the bid has a price: the market is good, the strategy enabled, and the step more than
      the tolerance or an earlier price kept. */
  lemma BuysGrowIff(leg: Leg, enabled: bool, under: Option<Underlying>)
    requires Sizable(leg) && (under.Some? ==> Ranged(under.value)) && leg.target == ZERO
    ensures (exists fill: real :: Grows(Held(leg), Sized(leg, enabled, under).buy, fill)) <==>
              Slips(leg.buyVolume.value, Need(leg), Room(leg, Above(under)), Larger(2.0 * Need(leg), 0.0)) && BuysOffered(leg, enabled)
  {
    HeldIs(leg);
    BuysGrowFrom(leg, enabled, under);
  }

  lemma SellsGrowFrom(leg: Leg, enabled: bool, under: Option<Underlying>)
    requires Sizable(leg) && (under.Some? ==> Ranged(under.value)) && Larger(-2.0 * Owed(leg), 0.0) == Larger(2.0 * Excess(leg), 0.0)
    ensures (exists fill: real :: Grows(Owed(leg), Sized(leg, enabled, under).sell, fill)) <==>
              Slips(leg.sellVolume.value, Excess(leg), Room(leg, Below(under)), Larger(2.0 * Excess(leg), 0.0)) && SellsOffered(leg, enabled)
  {
    var limit := Larger(2.0 * Excess(leg), 0.0);
    WishIsLess(Excess(leg));
    SellQuoteIs(leg, enabled, under, limit);
    GrowsSomewhere(Owed(leg), Sized(leg, enabled, under).sell, limit,
                   Slips(leg.sellVolume.value, Excess(leg), Room(leg, Below(under)), limit) && SellsOffered(leg, enabled));
  }

  lemma SellsGrowIff(leg: Leg, enabled: bool, under: Option<Underlying>)
    requires Sizable(leg) && (under.Some? ==> Ranged(under.value)) && leg.target == ZERO
    ensures (exists fill: real :: Grows(Owed(leg), Sized(leg, enabled, under).sell, fill)) <==>
              Slips(leg.sellVolume.value, Excess(leg), Room(leg, Below(under)), Larger(2.0 * Excess(leg), 0.0)) && SellsOffered(leg, enabled)
  {
    HeldIs(leg);
    SellsGrowFrom(leg, enabled, under);
  }

  // ----- the delta bound ----------------------------------------------------------------------

  function Spot(spot: BestQuotes): Double { Div(Add(spot.buy.price, spot.sell.price), Finite(2.0)) }

  /** The spot price is the middle of the market, where there are both prices, and none otherwise. */
  lemma SpotIsMiddle(spot: BestQuotes)
    ensures spot.buy.price.Empty? || spot.sell.price.Empty? ==> Spot(spot).Empty?
    ensures spot.buy.price.Finite? && spot.sell.price.Finite? ==>
              Spot(spot).Finite? && Spot(spot).value - spot.buy.price.value == spot.sell.price.value - Spot(spot).value
  {
  }

  /** The delta of one unit of volume; a linear contract counts it times the spot price. */
  function DeltaPerVolume(leg: Leg, spot: BestQuotes): Double {
    if leg.style == Linear then Mul(leg.deltaByVolume, Spot(spot)) else leg.deltaByVolume
  }

  type Legs = map<LegKey, Leg>

  /** The delta of an underlying: one term for each entry of its list. */
  function DeltaOf(legs: Legs, spot: BestQuotes, entries: seq<LegKey>): Double {
    if entries == [] then ZERO else
    var n := |entries| - 1;
    var before := DeltaOf(legs, spot, entries[..n]);
    if entries[n] in legs then Add(before, Mul(Position(legs[entries[n]]), DeltaPerVolume(legs[entries[n]], spot))) else before
  }

  /** Every leg of the list has a known position and a known delta per volume. */
  predicate KnownDelta(legs: Legs, spot: BestQuotes, entries: seq<LegKey>) {
    forall k | k in entries && k in legs :: Position(legs[k]).Finite? && DeltaPerVolume(legs[k], spot).Finite?
  }

  function Count(entries: seq<LegKey>, k: LegKey): nat {
    if entries == [] then 0 else
    var n := |entries| - 1;
    Count(entries[..n], k) + if entries[n] == k then 1 else 0
  }

  /** The leg after buying, or selling for a negative fill. */
  function Filled(leg: Leg, fill: real): Leg {
    if fill >= 0.0
    then leg.(position := leg.position.(buy := leg.position.buy.(volume := Add(leg.position.buy.volume, Finite(fill)))))
    else leg.(position := leg.position.(sell := leg.position.sell.(volume := Add(leg.position.sell.volume, Finite(-fill)))))
  }

  lemma FilledPosition(leg: Leg, fill: real)
    requires Position(leg).Finite?
    ensures Position(Filled(leg, fill)) == Finite(Position(leg).value + fill)
  {
  }

  lemma OneMoreTerm(total: real, n: nat, p: real, fill: real, c: real)
    ensures total + Times(n as real, Times(fill, c)) + Times(p + fill, c) ==
            total + Times(p, c) + Times((n + 1) as real, Times(fill, c))
  {
  }

  /** A fill moves the delta once for each time the leg is listed. */
  lemma {:induction false} FillMovesDelta(legs: Legs, spot: BestQuotes, entries: seq<LegKey>, k: LegKey, fill: real)
    requires KnownDelta(legs, spot, entries) && k in legs && Position(legs[k]).Finite? && DeltaPerVolume(legs[k], spot).Finite?
    ensures DeltaOf(legs, spot, entries).Finite?
    ensures DeltaOf(legs[k := Filled(legs[k], fill)], spot, entries) ==
            Finite(DeltaOf(legs, spot, entries).value + Times(Count(entries, k) as real, Times(fill, DeltaPerVolume(legs[k], spot).value)))
  {
    var after := legs[k := Filled(legs[k], fill)];
    if entries != [] {
      var n := |entries| - 1;
      FillMovesDelta(legs, spot, entries[..n], k, fill);
      assert entries[n] in entries;
      FilledPosition(legs[k], fill);
      if entries[n] == k {
        var c := DeltaPerVolume(legs[k], spot).value;
        OneMoreTerm(DeltaOf(legs, spot, entries[..n]).value, Count(entries[..n], k), Position(legs[k]).value, fill, c);
      }
    }
  }

  /** The delta stays below its upper bound, or below where it was if it is above that already. */
  predicate UnderCeiling(u: Underlying, delta: real, slack: real)
    requires u.delta.Finite?
  {
    match u.deltaMax
    case Finite(max) => delta <= Larger(max, u.delta.value) + slack
    case Infinite(positive) => positive || delta <= u.delta.value + slack
    case Empty => false
  }

  predicate OverFloor(u: Underlying, delta: real, slack: real)
    requires u.delta.Finite?
  {
    match u.deltaMin
    case Finite(min) => delta >= Smaller(min, u.delta.value) - slack
    case Infinite(positive) => !positive || delta >= u.delta.value - slack
    case Empty => false
  }

  /** How much of the room above there is, as a number. */
  function Height(u: Underlying): real
    requires u.delta.Finite?
  {
    match u.deltaMax
    case Finite(max) => Larger(max - u.delta.value, 0.0)
    case _ => 0.0
  }

  function Depth(u: Underlying): real
    requires u.delta.Finite?
  {
    match u.deltaMin
    case Finite(min) => Larger(u.delta.value - min, 0.0)
    case _ => 0.0
  }

  lemma PositivePart(x: real)
    ensures Max(Finite(x), ZERO).Finite? && Max(Finite(x), ZERO).value <= Larger(x, 0.0)
  {
  }

  lemma RoomAboveMeans(u: Underlying)
    requires Ranged(u) && u.deltaMax != Infinite(true)
    ensures AtMost(RoomAbove(u), Height(u))
  {
    if u.deltaMax.Finite? {
      PositivePart(u.deltaMax.value - u.delta.value);
      assert Sub(u.deltaMax, u.delta) == Finite(u.deltaMax.value - u.delta.value);
    } else {
      assert RoomAbove(u) == ZERO;
    }
  }

  lemma RoomBelowMeans(u: Underlying)
    requires Ranged(u) && u.deltaMin != Infinite(false)
    ensures AtMost(RoomBelow(u), Depth(u))
  {
    if u.deltaMin.Finite? {
      PositivePart(u.delta.value - u.deltaMin.value);
      assert Sub(u.delta, u.deltaMin) == Finite(u.delta.value - u.deltaMin.value);
    } else {
      assert RoomBelow(u) == ZERO;
    }
  }

  lemma BuyWithinRoom(leg: Leg, u: Underlying, x: real)
    requires Sizable(leg) && Ranged(u) && AtMost(RoomAbove(u), Times(x, leg.deltaByVolume.value))
    ensures BuyVolume(leg, Some(u)).Finite? && BuyVolume(leg, Some(u)).value <= x + EPSILON
  {
    DivideUp(RoomAbove(u), leg.deltaByVolume.value, x);
    assert Room(leg, Above(Some(u))) == Some(Div(RoomAbove(u), leg.deltaByVolume));
    BuyMeans(leg, Some(u), x);
  }

  lemma SellWithinRoom(leg: Leg, u: Underlying, x: real)
    requires Sizable(leg) && Ranged(u) && AtMost(RoomBelow(u), Times(x, leg.deltaByVolume.value))
    ensures SellVolume(leg, Some(u)).Finite? && SellVolume(leg, Some(u)).value <= x + EPSILON
  {
    DivideUp(RoomBelow(u), leg.deltaByVolume.value, x);
    assert Room(leg, Below(Some(u))) == Some(Div(RoomBelow(u), leg.deltaByVolume));
    SellMeans(leg, Some(u), x);
  }

  lemma Split(height: real, d: real) returns (x: real)
    requires d > 0.0
    ensures Times(x, d) == height
  {
    x := height / d;
  }

  lemma Scaled(fill: real, x: real, d: real)
    requires d > 0.0 && fill <= x + EPSILON
    ensures Times(fill, d) <= Times(x, d) + Times(EPSILON, d)
  {
    assert (x + EPSILON - fill) * d == x * d + EPSILON * d - fill * d;
    assert (x + EPSILON - fill) * d >= 0.0;
  }

  lemma BuyStays(leg: Leg, u: Underlying, fill: real)
    requires Sizable(leg) && Ranged(u) && AtLeast(BuyVolume(leg, Some(u)), fill)
    ensures UnderCeiling(u, u.delta.value + Times(fill, leg.deltaByVolume.value), Times(EPSILON, leg.deltaByVolume.value))
  {
    if u.deltaMax != Infinite(true) {
      RoomAboveMeans(u);
      var x := Split(Height(u), leg.deltaByVolume.value);
      BuyWithinRoom(leg, u, x);
      Scaled(fill, x, leg.deltaByVolume.value);
      UnderHeight(u, Times(fill, leg.deltaByVolume.value), Times(EPSILON, leg.deltaByVolume.value));
    }
  }

  lemma UnderHeight(u: Underlying, gain: real, slack: real)
    requires Ranged(u) && gain <= Height(u) + slack
    ensures UnderCeiling(u, u.delta.value + gain, slack)
  {
  }

  lemma LossIsSmall(leg: Leg, u: Underlying, fill: real)
    requires Sizable(leg) && Ranged(u) && AtLeast(SellVolume(leg, Some(u)), -fill) && u.deltaMin != Infinite(false)
    ensures -Times(fill, leg.deltaByVolume.value) <= Depth(u) + Times(EPSILON, leg.deltaByVolume.value)
  {
    RoomBelowMeans(u);
    var x := Split(Depth(u), leg.deltaByVolume.value);
    SellWithinRoom(leg, u, x);
    ScaledBack(fill, x, leg.deltaByVolume.value);
  }

  lemma ScaledBack(fill: real, x: real, d: real)
    requires d > 0.0 && -fill <= x + EPSILON
    ensures -Times(fill, d) <= Times(x, d) + Times(EPSILON, d)
  {
    Scaled(-fill, x, d);
    TimesSign(fill, d);
  }

  lemma SellStays(leg: Leg, u: Underlying, fill: real)
    requires Sizable(leg) && Ranged(u) && AtLeast(SellVolume(leg, Some(u)), -fill)
    ensures OverFloor(u, u.delta.value + Times(fill, leg.deltaByVolume.value), Times(EPSILON, leg.deltaByVolume.value))
  {
    if u.deltaMin != Infinite(false) {
      LossIsSmall(leg, u, fill);
      OverDepth(u, -Times(fill, leg.deltaByVolume.value), Times(EPSILON, leg.deltaByVolume.value));
    }
  }

  lemma OverDepth(u: Underlying, loss: real, slack: real)
    requires Ranged(u) && loss <= Depth(u) + slack
    ensures OverFloor(u, u.delta.value - loss, slack)
  {
  }

  /** A fill of what is quoted, either side, negative for a sale. */
  predicate Fillable(leg: Leg, under: Option<Underlying>, fill: real) {
    if fill >= 0.0 then AtLeast(BuyVolume(leg, under), fill) else AtLeast(SellVolume(leg, under), -fill)
  }

  /** The delta after a fill is within bounds, up to the tolerance on one volume, if the leg counts
      `factor` times its delta per volume. */
  predicate InRange(leg: Leg, u: Underlying, factor: real, fill: real)
    requires Sizable(leg) && Ranged(u)
  {
    var delta := u.delta.value + Times(factor, Times(fill, leg.deltaByVolume.value));
    var slack := Times(EPSILON, leg.deltaByVolume.value);
    if fill >= 0.0 then UnderCeiling(u, delta, slack) else OverFloor(u, delta, slack)
  }

  lemma Shrink(factor: real, y: real)
    requires factor <= 1.0
    ensures y >= 0.0 ==> Times(factor, y) <= y
    ensures y <= 0.0 ==> y <= Times(factor, y)
  {
    assert y - factor * y == (1.0 - factor) * y;
  }

  lemma TimesSign(x: real, d: real)
    requires d > 0.0
    ensures x >= 0.0 ==> Times(x, d) >= 0.0
    ensures x <= 0.0 ==> Times(x, d) <= 0.0
    ensures Times(-x, d) == -Times(x, d)
  {
  }

  lemma Nearer(u: Underlying, a: real, b: real, slack: real)
    requires u.delta.Finite?
    ensures UnderCeiling(u, b, slack) && a <= b ==> UnderCeiling(u, a, slack)
    ensures OverFloor(u, a, slack) && a <= b ==> OverFloor(u, b, slack)
  {
  }

  lemma BuyStaysInRange(leg: Leg, u: Underlying, factor: real, fill: real)
    requires Sizable(leg) && Ranged(u) && AtLeast(BuyVolume(leg, Some(u)), fill) && factor <= 1.0 && fill >= 0.0
    ensures InRange(leg, u, factor, fill)
  {
    BuyStays(leg, u, fill);
    var y := Times(fill, leg.deltaByVolume.value);
    TimesSign(fill, leg.deltaByVolume.value);
    Shrink(factor, y);
    Nearer(u, u.delta.value + Times(factor, y), u.delta.value + y, Times(EPSILON, leg.deltaByVolume.value));
  }

  lemma SellStaysInRange(leg: Leg, u: Underlying, factor: real, fill: real)
    requires Sizable(leg) && Ranged(u) && AtLeast(SellVolume(leg, Some(u)), -fill) && factor <= 1.0 && fill < 0.0
    ensures InRange(leg, u, factor, fill)
  {
    SellStays(leg, u, fill);
    var y := Times(fill, leg.deltaByVolume.value);
    TimesSign(fill, leg.deltaByVolume.value);
    Shrink(factor, y);
    Nearer(u, u.delta.value + y, u.delta.value + Times(factor, y), Times(EPSILON, leg.deltaByVolume.value));
  }

  lemma FillStaysInRange(leg: Leg, u: Underlying, factor: real, fill: real)
    requires Sizable(leg) && Ranged(u) && Fillable(leg, Some(u), fill) && factor <= 1.0
    ensures InRange(leg, u, factor, fill)
  {
    if fill >= 0.0 {
      BuyStaysInRange(leg, u, factor, fill);
    } else {
      SellStaysInRange(leg, u, factor, fill);
    }
  }

  // ----- the delta bound, for the delta as it is computed -----------------------------------------

  /** How often the delta per volume of a leg counts in the delta of the underlying. */
  function Factor(style: Style, spot: BestQuotes, count: nat): real
    requires style == Linear ==> Spot(spot).Finite?
  {
    if style == Linear then Times(count as real, Spot(spot).value) else count as real
  }

  lemma FactorMeans(leg: Leg, spot: BestQuotes, count: nat, fill: real)
    requires leg.deltaByVolume.Finite? && (leg.style == Linear ==> Spot(spot).Finite?)
    ensures DeltaPerVolume(leg, spot).Finite?
    ensures Times(count as real, Times(fill, DeltaPerVolume(leg, spot).value)) ==
            Times(Factor(leg.style, spot, count), Times(fill, leg.deltaByVolume.value))
  {
    if leg.style == Linear {
      var n, s, d := count as real, Spot(spot).value, leg.deltaByVolume.value;
      assert DeltaPerVolume(leg, spot) == Finite(Times(d, s));
      assert n * (fill * (d * s)) == (n * s) * (fill * d);
    }
  }

  /** A state of the strategy just computed: the delta is the sum over the list. */
  predicate Current(legs: Legs, u: Underlying) {
    KnownDelta(legs, u.market, u.legs) && Ranged(u) && u.delta == DeltaOf(legs, u.market, u.legs)
  }

  /** The delta recomputed after a fill. */
  function DeltaAfter(legs: Legs, u: Underlying, k: LegKey, fill: real): Double
    requires k in legs
  {
    DeltaOf(legs[k := Filled(legs[k], fill)], u.market, u.legs)
  }

  predicate WithinRange(u: Underlying, fill: real, delta: Double, slack: real)
    requires u.delta.Finite?
  {
    delta.Finite? && if fill >= 0.0 then UnderCeiling(u, delta.value, slack) else OverFloor(u, delta.value, slack)
  }

  lemma AfterIs(legs: Legs, u: Underlying, k: LegKey, fill: real)
    requires Current(legs, u) && k in legs && Sizable(legs[k]) && (legs[k].style == Linear ==> Spot(u.market).Finite?)
    ensures DeltaAfter(legs, u, k, fill) == Finite(u.delta.value +
              Times(Factor(legs[k].style, u.market, Count(u.legs, k)), Times(fill, legs[k].deltaByVolume.value)))
  {
    FactorMeans(legs[k], u.market, Count(u.legs, k), fill);
    FillMovesDelta(legs, u.market, u.legs, k, fill);
  }

  /** Filling any part of one side of a leg keeps the delta, computed anew, within its bounds, or within
      where it was if it is outside already, up to the tolerance on one volume: for legs that are listed
      once, and for linear ones when the spot price is at most 1. */
  lemma FillKeepsDelta(legs: Legs, u: Underlying, k: LegKey, fill: real)
    requires Current(legs, u) && k in legs && Sizable(legs[k]) && (legs[k].style == Linear ==> Spot(u.market).Finite?)
    requires Fillable(legs[k], Some(u), fill) && Factor(legs[k].style, u.market, Count(u.legs, k)) <= 1.0
    ensures WithinRange(u, fill, DeltaAfter(legs, u, k, fill), Times(EPSILON, legs[k].deltaByVolume.value))
  {
    AfterIs(legs, u, k, fill);
    FillStaysInRange(legs[k], u, Factor(legs[k].style, u.market, Count(u.legs, k)), fill);
  }

  /** A fill of a quote the leg has, with a price; negative for a sale. */
  predicate Taken(leg: Leg, fill: real) {
    if fill >= 0.0 then Takes(leg.exec.buy, fill) else Takes(leg.exec.sell, -fill)
  }

  lemma TakenIsFillable(leg: Leg, enabled: bool, under: Option<Underlying>, fill: real)
    requires leg.exec == Sized(leg, enabled, under) && Taken(leg, fill)
    ensures Fillable(leg, under, fill)
  {
  }

  /** A state in which a fill of what is quoted takes the delta out of its range. */
  ghost predicate Escapes(style: Style, spot: BestQuotes, count: nat, legs: Legs, u: Underlying, k: LegKey, fill: real) {
    && Current(legs, u) && u.market == spot && Count(u.legs, k) == count
    && k in legs && Sizable(legs[k]) && legs[k].style == style
    && legs[k].exec == Sized(legs[k], true, Some(u)) && Taken(legs[k], fill)
    && !WithinRange(u, fill, DeltaAfter(legs, u, k, fill), Times(EPSILON, legs[k].deltaByVolume.value))
  }

  /** The promise to keep the delta within its thresholds holds exactly for legs that count at most
      once: a leg listed twice breaks it, and so does a linear leg when the spot price is above 1. */
  lemma DeltaIsKeptIff(style: Style, spot: BestQuotes, count: nat)
    requires style == Linear ==> Spot(spot).Finite?
    ensures (forall legs: Legs, u: Underlying, k: LegKey, fill: real :: !Escapes(style, spot, count, legs, u, k, fill)) <==> Factor(style, spot, count) <= 1.0
  {
    if Factor(style, spot, count) <= 1.0 {
      forall legs: Legs, u: Underlying, k: LegKey, fill: real
        ensures !Escapes(style, spot, count, legs, u, k, fill)
      {
        if Current(legs, u) && u.market == spot && Count(u.legs, k) == count && k in legs && Sizable(legs[k]) && legs[k].style == style
           && legs[k].exec == Sized(legs[k], true, Some(u)) && Taken(legs[k], fill) {
          TakenIsFillable(legs[k], true, Some(u), fill);
          FillKeepsDelta(legs, u, k, fill);
        }
      }
    } else {
      TooMuch(style, spot, count);
    }
  }

  /** A leg short of `x`, which it bids for at the market price. */
  function Short(style: Style, x: real): Leg {
    var one := Quote(Finite(1.0), ZERO);
    NEW_LEG.(style := style, underlying := 1, buyVolume := Finite(x), sellVolume := ZERO,
             position := BestQuotes(Quote(Empty, ZERO), Quote(Empty, Finite(x))),
             market := BestQuotes(one, one),
             exec := BestQuotes(Quote(Finite(1.0), Finite(x)), Quote(Empty, ZERO)))
  }

  lemma {:induction false} Copies(k: LegKey, count: nat) returns (entries: seq<LegKey>)
    ensures Count(entries, k) == count && forall e | e in entries :: e == k
  {
    if count == 0 {
      entries := [];
    } else {
      var fewer := Copies(k, count - 1);
      entries := fewer + [k];
      assert entries[..|fewer|] == fewer;
    }
  }

  lemma ShortIsKnown(style: Style, spot: BestQuotes, x: real)
    requires x > 0.0 && (style == Linear ==> Spot(spot).Finite?)
    ensures Sizable(Short(style, x)) && Position(Short(style, x)) == Finite(-x)
    ensures DeltaPerVolume(Short(style, x), spot).Finite?
  {
  }

  lemma ShortDelta(style: Style, spot: BestQuotes, entries: seq<LegKey>, k: LegKey, x: real)
    requires x > 0.0 && (style == Linear ==> Spot(spot).Finite?)
    ensures KnownDelta(map[k := Short(style, x)], spot, entries)
    ensures DeltaOf(map[k := Short(style, x)], spot, entries).Finite?
  {
    ShortIsKnown(style, spot, x);
    FillMovesDelta(map[k := Short(style, x)], spot, entries, k, 0.0);
  }

  lemma ShortBuys(style: Style, x: real, u: Underlying)
    requires x > 0.0 && u.delta.Finite? && u.deltaMax == Finite(u.delta.value + x)
    ensures BuyVolume(Short(style, x), Some(u)) == Finite(x)
  {
    assert RoomAbove(u) == Finite(x) && x / 1.0 == x;
    assert Exposure(Short(style, x)) == Finite(-x);
  }

  lemma ShortSells(style: Style, x: real, u: Underlying)
    requires x > EPSILON && u.delta.Finite? && u.deltaMin == Infinite(false)
    ensures SellVolume(Short(style, x), Some(u)) == ZERO
  {
    assert Exposure(Short(style, x)) == Finite(-x);
    assert Max(Finite(-x), ZERO) == ZERO;
    assert RoomBelow(u) == Infinite(true);
  }

  lemma ShortMarketIsGood(style: Style, x: real)
    ensures GoodMarket(Short(style, x))
  {
  }

  /** Its quotes are those of its sizing where the delta may grow by `x`, and can be taken in full. */
  lemma ShortIsQuoted(style: Style, x: real, u: Underlying)
    requires x > EPSILON && u.delta.Finite? && u.deltaMax == Finite(u.delta.value + x) && u.deltaMin == Infinite(false)
    ensures Short(style, x).exec == Sized(Short(style, x), true, Some(u)) && Taken(Short(style, x), x)
  {
    ShortBuys(style, x, u);
    ShortSells(style, x, u);
    ShortMarketIsGood(style, x);
    PositiveMeans(x);
    PositiveMeans(0.0);
  }

  lemma ShortEscapes(style: Style, u: Underlying, k: LegKey, x: real, factor: real)
    requires x > EPSILON && (style == Linear ==> Spot(u.market).Finite?)
    requires Current(map[k := Short(style, x)], u) && u.deltaMax == Finite(u.delta.value + x) && u.deltaMin == Infinite(false)
    requires factor == Factor(style, u.market, Count(u.legs, k)) && Times(factor, x) > x + EPSILON
    ensures Escapes(style, u.market, Count(u.legs, k), map[k := Short(style, x)], u, k, x)
  {
    ShortIsKnown(style, u.market, x);
    ShortIsQuoted(style, x, u);
    AfterIs(map[k := Short(style, x)], u, k, x);
    assert Times(x, 1.0) == x && Times(EPSILON, 1.0) == EPSILON;
  }

  lemma TooMuch(style: Style, spot: BestQuotes, count: nat)
    requires (style == Linear ==> Spot(spot).Finite?) && Factor(style, spot, count) > 1.0
    ensures exists legs: Legs, u: Underlying, k: LegKey, fill: real :: Escapes(style, spot, count, legs, u, k, fill)
  {
    var factor := Factor(style, spot, count);
    var x := Surplus(factor);
    var k := LegKey("a", 1);
    var entries := Copies(k, count);
    ShortDelta(style, spot, entries, k, x);
    var delta := DeltaOf(map[k := Short(style, x)], spot, entries);
    ShortEscapes(style, Underlying(delta, Infinite(false), Finite(delta.value + x), spot, entries), k, x, factor);
  }

  lemma FactorPositive(a: real, b: real)
    requires a > 0.0 && a * b > 0.0
    ensures b > 0.0
  {
  }

  /** A volume above 1 that a factor above 1 takes past any tolerance. */
  lemma Surplus(factor: real) returns (x: real)
    requires factor > 1.0
    ensures x > 1.0 && Times(factor, x) == x + factor
  {
    x := factor / (factor - 1.0);
    assert (factor - 1.0) * x == factor;
    assert (factor - 1.0) * (x - 1.0) == 1.0;
    FactorPositive(factor - 1.0, x - 1.0);
  }

  /** Already a leg short of half the tolerance, quoted for a little more than the tolerance, may end up long
      of more than it was short of. */
  lemma SmallShortGrows()
    ensures var leg := Short(NoStyle, 0.5 * EPSILON).(buyVolume := Finite(1.25 * EPSILON));
            Sizable(leg) && exists fill: real :: Grows(Held(leg), Sized(leg, true, None).buy, fill)
  {
    var leg := Short(NoStyle, 0.5 * EPSILON).(buyVolume := Finite(1.25 * EPSILON));
    SmallShortIs(leg);
    BuysGrowIff(leg, true, None);
  }

  lemma SmallShortIs(leg: Leg)
    requires leg == Short(NoStyle, 0.5 * EPSILON).(buyVolume := Finite(1.25 * EPSILON))
    ensures Sizable(leg) && leg.target == ZERO && BuysOffered(leg, true)
    ensures Slips(leg.buyVolume.value, Need(leg), Room(leg, Above(None)), Larger(2.0 * Need(leg), 0.0))
  {
    ShortMarketIsGood(NoStyle, 0.5 * EPSILON);
  }
}
