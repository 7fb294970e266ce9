/** Several quotes of one underlying filled together. Every leg is sized against the whole room the delta
    has, so what one leg keeps, several need not. */
module JointFills {
  import opened Wrappers
  import opened Doubles
  import opened Sizing

  /** What is filled of each leg, negative for a sale. */
  type Fills = map<LegKey, real>

  function FillOf(fills: Fills, k: LegKey): real { if k in fills then fills[k] else 0.0 }

  function FilledAll(legs: Legs, fills: Fills): Legs {
    map k | k in legs :: if k in fills then Filled(legs[k], fills[k]) else legs[k]
  }

  /** What the fills add to the delta, entry by entry. */
  function Gain(legs: Legs, spot: BestQuotes, entries: seq<LegKey>, fills: Fills): real
    requires KnownDelta(legs, spot, entries)
  {
    if entries == [] then 0.0 else
    var n := |entries| - 1;
    assert entries[n] in entries;
    Gain(legs, spot, entries[..n], fills)
    + if entries[n] in legs then Times(FillOf(fills, entries[n]), DeltaPerVolume(legs[entries[n]], spot).value) else 0.0
  }

  lemma TimesAdd(p: real, fill: real, c: real)
    ensures Times(p + fill, c) == Times(p, c) + Times(fill, c) && Times(0.0, c) == 0.0
  {
  }

  lemma FilledMoves(leg: Leg, fill: real, spot: BestQuotes)
    requires Position(leg).Finite? && DeltaPerVolume(leg, spot).Finite?
    ensures Position(Filled(leg, fill)) == Finite(Position(leg).value + fill)
    ensures DeltaPerVolume(Filled(leg, fill), spot) == DeltaPerVolume(leg, spot)
  {
    FilledPosition(leg, fill);
  }

  /** Fills move the delta by what they add. */
  lemma {:induction false} FillsMoveDelta(legs: Legs, spot: BestQuotes, entries: seq<LegKey>, fills: Fills)
    requires KnownDelta(legs, spot, entries)
    ensures DeltaOf(legs, spot, entries).Finite?
    ensures DeltaOf(FilledAll(legs, fills), spot, entries) == Finite(DeltaOf(legs, spot, entries).value + Gain(legs, spot, entries, fills))
  {
    if entries != [] {
      var n := |entries| - 1;
      var k := entries[n];
      FillsMoveDelta(legs, spot, entries[..n], fills);
      assert k in entries;
      if k in legs {
        FilledMoves(legs[k], FillOf(fills, k), spot);
        TimesAdd(Position(legs[k]).value, FillOf(fills, k), DeltaPerVolume(legs[k], spot).value);
      }
    }
  }

  predicate AllSizable(legs: Legs) { forall k | k in legs :: Sizable(legs[k]) }

  /** Every leg may be filled in part or in whole, on either side. */
  predicate OnOffer(legs: Legs, u: Underlying, fills: Fills) {
    forall k | k in fills :: k in legs && Fillable(legs[k], Some(u), fills[k])
  }

  function DeltaAfterAll(legs: Legs, u: Underlying, fills: Fills): Double {
    DeltaOf(FilledAll(legs, fills), u.market, u.legs)
  }

  // ----- for one state --------------------------------------------------------------------------

  /** No delta per volume is negative. */
  predicate Upward(legs: Legs, u: Underlying)
    requires KnownDelta(legs, u.market, u.legs)
  {
    forall k | k in u.legs && k in legs :: DeltaPerVolume(legs[k], u.market).value >= 0.0
  }

  /** Every leg has the quotes of its sizing. */
  predicate InForce(legs: Legs, u: Underlying, enabled: bool) { forall k | k in legs :: legs[k].exec == Sized(legs[k], enabled, Some(u)) }

  /** Fills of quotes that have a price. */
  predicate TakenAll(legs: Legs, fills: Fills) { forall k | k in fills :: k in legs && Taken(legs[k], fills[k]) }

  lemma TakenAreOnOffer(legs: Legs, u: Underlying, enabled: bool, fills: Fills)
    requires InForce(legs, u, enabled) && TakenAll(legs, fills)
    ensures OnOffer(legs, u, fills)
  {
    forall k | k in fills
      ensures Fillable(legs[k], Some(u), fills[k])
    {
      TakenIsFillable(legs[k], enabled, Some(u), fills[k]);
    }
  }

  predicate Offered(q: Quote) { !q.price.Empty? && q.volume.Finite? && q.volume.value > 0.0 }

  /** All bids, or all asks, filled in full. */
  function AllBuys(legs: Legs): Fills {
    map k | k in legs && Offered(legs[k].exec.buy) :: legs[k].exec.buy.volume.value
  }

  function AllSells(legs: Legs): Fills {
    map k | k in legs && Offered(legs[k].exec.sell) :: -legs[k].exec.sell.volume.value
  }

  lemma TimesMono(x: real, y: real, c: real)
    requires x <= y && c >= 0.0
    ensures Times(x, c) <= Times(y, c)
  {
    assert y * c - x * c == (y - x) * c;
  }

  lemma {:induction false} GainMono(legs: Legs, spot: BestQuotes, entries: seq<LegKey>, a: Fills, b: Fills)
    requires KnownDelta(legs, spot, entries)
    requires forall k | k in entries && k in legs :: DeltaPerVolume(legs[k], spot).value >= 0.0 && FillOf(a, k) <= FillOf(b, k)
    ensures Gain(legs, spot, entries, a) <= Gain(legs, spot, entries, b)
  {
    if entries != [] {
      var n := |entries| - 1;
      GainMono(legs, spot, entries[..n], a, b);
      assert entries[n] in entries;
      if entries[n] in legs {
        TimesMono(FillOf(a, entries[n]), FillOf(b, entries[n]), DeltaPerVolume(legs[entries[n]], spot).value);
      }
    }
  }

  predicate NotUnbounded(leg: Leg) { leg.exec.buy.volume != Infinite(true) && leg.exec.sell.volume != Infinite(true) }

  lemma SizedIsBounded(leg: Leg, enabled: bool, u: Underlying)
    requires Sizable(leg) && Ranged(u) && leg.exec == Sized(leg, enabled, Some(u))
    ensures NotUnbounded(leg)
  {
    BuyMeans(leg, Some(u), 0.0);
    SellMeans(leg, Some(u), 0.0);
  }

  lemma OneBetweenAll(legs: Legs, fills: Fills, k: LegKey)
    requires TakenAll(legs, fills) && k in legs && NotUnbounded(legs[k])
    ensures FillOf(AllSells(legs), k) <= FillOf(fills, k) <= FillOf(AllBuys(legs), k)
  {
  }

  lemma AllAreTaken(legs: Legs)
    ensures TakenAll(legs, AllBuys(legs)) && TakenAll(legs, AllSells(legs))
  {
  }

  lemma GainBetweenAll(legs: Legs, u: Underlying, enabled: bool, fills: Fills)
    requires Current(legs, u) && AllSizable(legs) && Upward(legs, u) && InForce(legs, u, enabled) && TakenAll(legs, fills)
    ensures Gain(legs, u.market, u.legs, AllSells(legs)) <= Gain(legs, u.market, u.legs, fills) <= Gain(legs, u.market, u.legs, AllBuys(legs))
  {
    forall k | k in legs
      ensures FillOf(AllSells(legs), k) <= FillOf(fills, k) <= FillOf(AllBuys(legs), k)
    {
      SizedIsBounded(legs[k], enabled, u);
      OneBetweenAll(legs, fills, k);
    }
    GainMono(legs, u.market, u.legs, fills, AllBuys(legs));
    GainMono(legs, u.market, u.legs, AllSells(legs), fills);
  }

  predicate DeltaAtMost(legs: Legs, u: Underlying, fills: Fills, bound: real) {
    DeltaAfterAll(legs, u, fills).Finite? && DeltaAfterAll(legs, u, fills).value <= bound
  }

  predicate DeltaAtLeast(legs: Legs, u: Underlying, fills: Fills, bound: real) {
    DeltaAfterAll(legs, u, fills).Finite? && DeltaAfterAll(legs, u, fills).value >= bound
  }

  /** In a given state no fills together take the delta above a bound exactly when the delta with all bids
      filled is not above it; and below a bound, with all asks filled. */
  lemma OffersFitIff(legs: Legs, u: Underlying, enabled: bool, bound: real)
    requires Current(legs, u) && AllSizable(legs) && Upward(legs, u) && InForce(legs, u, enabled)
    ensures (forall fills :: TakenAll(legs, fills) ==> DeltaAtMost(legs, u, fills, bound)) <==>
              u.delta.value + Gain(legs, u.market, u.legs, AllBuys(legs)) <= bound
    ensures (forall fills :: TakenAll(legs, fills) ==> DeltaAtLeast(legs, u, fills, bound)) <==>
              u.delta.value + Gain(legs, u.market, u.legs, AllSells(legs)) >= bound
  {
    forall fills | TakenAll(legs, fills)
      ensures DeltaAtMost(legs, u, fills, u.delta.value + Gain(legs, u.market, u.legs, AllBuys(legs)))
      ensures DeltaAtLeast(legs, u, fills, u.delta.value + Gain(legs, u.market, u.legs, AllSells(legs)))
    {
      FillsMoveDelta(legs, u.market, u.legs, fills);
      GainBetweenAll(legs, u, enabled, fills);
    }
    AllAreTaken(legs);
    FillsMoveDelta(legs, u.market, u.legs, AllBuys(legs));
    FillsMoveDelta(legs, u.market, u.legs, AllSells(legs));
  }

  // ----- for all states -------------------------------------------------------------------------

  type Styles = map<LegKey, Style>

  predicate Shaped(legs: Legs, styles: Styles) { legs.Keys == styles.Keys && forall k | k in legs :: legs[k].style == styles[k] }

  /** A spot price is known, and not negative, wherever a contract counts it. */
  predicate Priced(styles: Styles, spot: BestQuotes) {
    forall k | k in styles && styles[k] == Linear :: Spot(spot).Finite? && Spot(spot).value >= 0.0
  }

  /** How often the room of the underlying is given away: once for each entry that is not linear, and as
      often as the spot price says for each that is. */
  function TotalFactor(styles: Styles, spot: BestQuotes, entries: seq<LegKey>): real
    requires Priced(styles, spot)
  {
    if entries == [] then 0.0 else
    var n := |entries| - 1;
    TotalFactor(styles, spot, entries[..n])
    + if entries[n] in styles then UnitFactor(styles[entries[n]], spot) else 0.0
  }

  function UnitFactor(style: Style, spot: BestQuotes): real
    requires style == Linear ==> Spot(spot).Finite?
  {
    if style == Linear then Spot(spot).value else 1.0
  }

  /** The tolerance of one volume for each entry. */
  function Slack(legs: Legs, spot: BestQuotes, entries: seq<LegKey>): real
    requires KnownDelta(legs, spot, entries)
  {
    if entries == [] then 0.0 else
    var n := |entries| - 1;
    assert entries[n] in entries;
    Slack(legs, spot, entries[..n])
    + if entries[n] in legs then Times(EPSILON, DeltaPerVolume(legs[entries[n]], spot).value) else 0.0
  }

  lemma UnitMeans(leg: Leg, spot: BestQuotes)
    requires Sizable(leg) && (leg.style == Linear ==> Spot(spot).Finite? && Spot(spot).value >= 0.0)
    ensures DeltaPerVolume(leg, spot) == Finite(Times(UnitFactor(leg.style, spot), leg.deltaByVolume.value))
    ensures UnitFactor(leg.style, spot) >= 0.0
  {
  }

  /** One fill gives away no more than its factor times the room, up to the tolerance. */
  lemma OneGain(fill: real, x: real, d: real, factor: real, room: real)
    requires fill <= x + EPSILON && Times(x, d) == room && d > 0.0 && factor >= 0.0
    ensures Times(fill, Times(factor, d)) <= Times(factor, room) + Times(EPSILON, Times(factor, d))
  {
    var c := factor * d;
    assert c >= 0.0;
    assert (x + EPSILON - fill) * c >= 0.0;
    assert x * c == factor * (x * d);
    assert (x + EPSILON - fill) * c == x * c + EPSILON * c - fill * c;
  }

  lemma OneLoss(fill: real, x: real, d: real, factor: real, room: real)
    requires -fill <= x + EPSILON && Times(x, d) == room && d > 0.0 && factor >= 0.0
    ensures -Times(fill, Times(factor, d)) <= Times(factor, room) + Times(EPSILON, Times(factor, d))
  {
    OneGain(-fill, x, d, factor, room);
    TimesNegated(fill, Times(factor, d));
  }

  lemma NotNegative(x: real, d: real)
    requires d > 0.0 && Times(x, d) >= 0.0
    ensures x >= 0.0
  {
    assert x < 0.0 ==> -x * d > 0.0;
    assert -x * d == -(x * d);
  }

  lemma BoughtIsInRoom(leg: Leg, u: Underlying, fill: real, x: real)
    requires Sizable(leg) && Ranged(u) && u.deltaMax != Infinite(true) && Times(x, leg.deltaByVolume.value) == Height(u)
    requires fill == 0.0 || Fillable(leg, Some(u), fill)
    ensures fill <= x + EPSILON
  {
    NotNegative(x, leg.deltaByVolume.value);
    if fill > 0.0 {
      RoomAboveMeans(u);
      BuyWithinRoom(leg, u, x);
    }
  }

  lemma SoldIsInRoom(leg: Leg, u: Underlying, fill: real, x: real)
    requires Sizable(leg) && Ranged(u) && u.deltaMin != Infinite(false) && Times(x, leg.deltaByVolume.value) == Depth(u)
    requires fill == 0.0 || Fillable(leg, Some(u), fill)
    ensures -fill <= x + EPSILON
  {
    NotNegative(x, leg.deltaByVolume.value);
    if fill < 0.0 {
      RoomBelowMeans(u);
      SellWithinRoom(leg, u, x);
    }
  }

  lemma LegGain(leg: Leg, u: Underlying, spot: BestQuotes, fill: real)
    requires Sizable(leg) && Ranged(u) && (leg.style == Linear ==> Spot(spot).Finite? && Spot(spot).value >= 0.0)
    requires fill == 0.0 || Fillable(leg, Some(u), fill)
    ensures DeltaPerVolume(leg, spot).Finite?
    ensures u.deltaMax != Infinite(true) ==>
              Times(fill, DeltaPerVolume(leg, spot).value) <=
              Times(UnitFactor(leg.style, spot), Height(u)) + Times(EPSILON, DeltaPerVolume(leg, spot).value)
    ensures u.deltaMin != Infinite(false) ==>
              -Times(fill, DeltaPerVolume(leg, spot).value) <=
              Times(UnitFactor(leg.style, spot), Depth(u)) + Times(EPSILON, DeltaPerVolume(leg, spot).value)
  {
    UnitMeans(leg, spot);
    var d, f := leg.deltaByVolume.value, UnitFactor(leg.style, spot);
    if u.deltaMax != Infinite(true) {
      var x := Split(Height(u), d);
      BoughtIsInRoom(leg, u, fill, x);
      OneGain(fill, x, d, f, Height(u));
    }
    if u.deltaMin != Infinite(false) {
      var x := Split(Depth(u), d);
      SoldIsInRoom(leg, u, fill, x);
      OneLoss(fill, x, d, f, Depth(u));
    }
  }

  lemma TimesNegated(x: real, c: real)
    ensures Times(-x, c) == -Times(x, c)
  {
  }

  /** What all fills together add is bounded by a sum over the list: the room, as often as it is given
      away, and the tolerance of one volume for each entry. */
  lemma {:induction false} GainIsBounded(legs: Legs, styles: Styles, u: Underlying, entries: seq<LegKey>, fills: Fills)
    requires Ranged(u) && AllSizable(legs) && Shaped(legs, styles) && Priced(styles, u.market) && OnOffer(legs, u, fills)
    requires KnownDelta(legs, u.market, entries)
    ensures u.deltaMax != Infinite(true) ==>
              Gain(legs, u.market, entries, fills) <= Times(TotalFactor(styles, u.market, entries), Height(u)) + Slack(legs, u.market, entries)
    ensures u.deltaMin != Infinite(false) ==>
              -Gain(legs, u.market, entries, fills) <= Times(TotalFactor(styles, u.market, entries), Depth(u)) + Slack(legs, u.market, entries)
  {
    if entries == [] {
      TimesAdd(0.0, 0.0, Height(u));
      TimesAdd(0.0, 0.0, Depth(u));
    } else {
      GainIsBounded(legs, styles, u, entries[..|entries| - 1], fills);
      assert entries[|entries| - 1] in entries;
      if entries[|entries| - 1] in legs {
        OneMoreBounded(legs, styles, u, entries, fills, Height(u));
        OneMoreBounded(legs, styles, u, entries, fills, Depth(u));
        OneGainIsBounded(legs, styles, u, entries, fills);
      }
    }
  }

  /** The last terms of the sums over a list. */
  lemma OneMoreBounded(legs: Legs, styles: Styles, u: Underlying, entries: seq<LegKey>, fills: Fills, room: real)
    requires Shaped(legs, styles) && Priced(styles, u.market) && KnownDelta(legs, u.market, entries)
    requires entries != [] && entries[|entries| - 1] in legs
    ensures var n := |entries| - 1; var k := entries[n];
            && DeltaPerVolume(legs[k], u.market).Finite?
            && Times(TotalFactor(styles, u.market, entries), room)
               == Times(TotalFactor(styles, u.market, entries[..n]), room) + Times(UnitFactor(styles[k], u.market), room)
            && Gain(legs, u.market, entries, fills)
               == Gain(legs, u.market, entries[..n], fills) + Times(FillOf(fills, k), DeltaPerVolume(legs[k], u.market).value)
            && Slack(legs, u.market, entries)
               == Slack(legs, u.market, entries[..n]) + Times(EPSILON, DeltaPerVolume(legs[k], u.market).value)
  {
    var n := |entries| - 1;
    assert entries[n] in entries;
    TimesAdd(TotalFactor(styles, u.market, entries[..n]), UnitFactor(styles[entries[n]], u.market), room);
  }

  lemma OfferOf(legs: Legs, u: Underlying, fills: Fills, k: LegKey)
    requires OnOffer(legs, u, fills) && k in legs
    ensures FillOf(fills, k) == 0.0 || Fillable(legs[k], Some(u), FillOf(fills, k))
  {
  }

  lemma OneGainIsBounded(legs: Legs, styles: Styles, u: Underlying, entries: seq<LegKey>, fills: Fills)
    requires Ranged(u) && AllSizable(legs) && Shaped(legs, styles) && Priced(styles, u.market) && OnOffer(legs, u, fills)
    requires entries != [] && entries[|entries| - 1] in legs
    ensures var k := entries[|entries| - 1];
            && DeltaPerVolume(legs[k], u.market).Finite?
            && (u.deltaMax != Infinite(true) ==>
                  Times(FillOf(fills, k), DeltaPerVolume(legs[k], u.market).value) <=
                  Times(UnitFactor(styles[k], u.market), Height(u)) + Times(EPSILON, DeltaPerVolume(legs[k], u.market).value))
            && (u.deltaMin != Infinite(false) ==>
                  -Times(FillOf(fills, k), DeltaPerVolume(legs[k], u.market).value) <=
                  Times(UnitFactor(styles[k], u.market), Depth(u)) + Times(EPSILON, DeltaPerVolume(legs[k], u.market).value))
  {
    var k := entries[|entries| - 1];
    OfferOf(legs, u, fills, k);
    LegGain(legs[k], u, u.market, FillOf(fills, k));
  }

  predicate InBounds(u: Underlying, delta: Double, slack: real)
    requires u.delta.Finite?
  {
    delta.Finite? && UnderCeiling(u, delta.value, slack) && OverFloor(u, delta.value, slack)
  }

  lemma NotMore(factor: real, room: real)
    requires factor <= 1.0 && room >= 0.0
    ensures Times(factor, room) <= room
  {
    assert room - factor * room == (1.0 - factor) * room;
  }

  lemma GainInBounds(u: Underlying, gain: real, slack: real)
    requires Ranged(u)
    requires u.deltaMax != Infinite(true) ==> gain <= Height(u) + slack
    requires u.deltaMin != Infinite(false) ==> -gain <= Depth(u) + slack
    ensures InBounds(u, Finite(u.delta.value + gain), slack)
  {
    if u.deltaMax != Infinite(true) {
      UnderHeight(u, gain, slack);
    }
    if u.deltaMin != Infinite(false) {
      OverDepth(u, -gain, slack);
    }
  }

  /** Filled together, in part or in whole and on either side, the quotes of all legs keep the delta within
      its bounds, or within where it was, up to the tolerance, if the room is given away once at most. */
  lemma JointFillsKeepDelta(legs: Legs, styles: Styles, u: Underlying, fills: Fills)
    requires Current(legs, u) && AllSizable(legs) && Shaped(legs, styles) && Priced(styles, u.market) && OnOffer(legs, u, fills)
    requires TotalFactor(styles, u.market, u.legs) <= 1.0
    ensures InBounds(u, DeltaAfterAll(legs, u, fills), Slack(legs, u.market, u.legs))
  {
    FillsMoveDelta(legs, u.market, u.legs, fills);
    GainIsBounded(legs, styles, u, u.legs, fills);
    NotMore(TotalFactor(styles, u.market, u.legs), Height(u));
    NotMore(TotalFactor(styles, u.market, u.legs), Depth(u));
    GainInBounds(u, Gain(legs, u.market, u.legs, fills), Slack(legs, u.market, u.legs));
  }

  /** A state just computed, in which fills of the quotes of its legs take the delta out of its bounds. */
  ghost predicate JointlyEscapes(styles: Styles, spot: BestQuotes, entries: seq<LegKey>, legs: Legs, u: Underlying, fills: Fills) {
    && Current(legs, u) && u.market == spot && u.legs == entries && AllSizable(legs) && Shaped(legs, styles)
    && InForce(legs, u, true) && TakenAll(legs, fills)
    && !InBounds(u, DeltaAfterAll(legs, u, fills), Slack(legs, u.market, u.legs))
  }

  /** The promise to keep the delta within its thresholds holds, whatever is filled of the legs of a list
      together, exactly when the list gives the room away once at most: one entry that is not linear, or
      linear ones with spot prices that add up to no more than 1. */
  lemma DeltaIsKeptJointlyIff(styles: Styles, spot: BestQuotes, entries: seq<LegKey>)
    requires Priced(styles, spot)
    ensures (forall legs: Legs, u: Underlying, fills: Fills :: !JointlyEscapes(styles, spot, entries, legs, u, fills)) <==>
              TotalFactor(styles, spot, entries) <= 1.0
  {
    if TotalFactor(styles, spot, entries) <= 1.0 {
      forall legs: Legs, u: Underlying, fills: Fills
        ensures !JointlyEscapes(styles, spot, entries, legs, u, fills)
      {
        if Current(legs, u) && u.market == spot && u.legs == entries && AllSizable(legs) && Shaped(legs, styles)
           && InForce(legs, u, true) && TakenAll(legs, fills) {
          TakenAreOnOffer(legs, u, true, fills);
          JointFillsKeepDelta(legs, styles, u, fills);
        }
      }
    } else {
      TooManyFills(styles, spot, entries);
    }
  }

  /** Short positions of the same size throughout. */
  function AllShort(styles: Styles, x: real): Legs { map k | k in styles :: Short(styles[k], x) }

  function AllOf(styles: Styles, x: real): Fills { map k | k in styles :: x }

  lemma {:induction false} GainOfAll(styles: Styles, spot: BestQuotes, entries: seq<LegKey>, x: real)
    requires Priced(styles, spot) && x > 0.0
    ensures KnownDelta(AllShort(styles, x), spot, entries)
    ensures Gain(AllShort(styles, x), spot, entries, AllOf(styles, x)) == Times(TotalFactor(styles, spot, entries), x)
    ensures Slack(AllShort(styles, x), spot, entries) == Times(TotalFactor(styles, spot, entries), EPSILON)
  {
    forall k | k in styles
      ensures Position(AllShort(styles, x)[k]).Finite? && DeltaPerVolume(AllShort(styles, x)[k], spot).Finite?
    {
      ShortIsKnown(styles[k], spot, x);
    }
    if entries != [] {
      var n := |entries| - 1;
      GainOfAll(styles, spot, entries[..n], x);
      var k := entries[n];
      if k in styles {
        ShortUnit(styles[k], spot, x);
        TimesAdd(TotalFactor(styles, spot, entries[..n]), UnitFactor(styles[k], spot), x);
        TimesAdd(TotalFactor(styles, spot, entries[..n]), UnitFactor(styles[k], spot), EPSILON);
      }
    } else {
      TimesAdd(0.0, 0.0, x);
      TimesAdd(0.0, 0.0, EPSILON);
    }
  }

  lemma ShortUnit(style: Style, spot: BestQuotes, x: real)
    requires x > 0.0 && (style == Linear ==> Spot(spot).Finite? && Spot(spot).value >= 0.0)
    ensures DeltaPerVolume(Short(style, x), spot).Finite?
    ensures Times(x, DeltaPerVolume(Short(style, x), spot).value) == Times(UnitFactor(style, spot), x)
    ensures Times(EPSILON, DeltaPerVolume(Short(style, x), spot).value) == Times(UnitFactor(style, spot), EPSILON)
  {
    ShortIsKnown(style, spot, x);
    UnitMeans(Short(style, x), spot);
    assert Times(UnitFactor(style, spot), 1.0) == UnitFactor(style, spot);
  }

  lemma ShortsAreCurrent(styles: Styles, spot: BestQuotes, entries: seq<LegKey>, x: real) returns (u: Underlying)
    requires Priced(styles, spot) && x > EPSILON
    ensures u.market == spot && u.legs == entries && Current(AllShort(styles, x), u) && u.deltaMax == Finite(u.delta.value + x)
    ensures AllSizable(AllShort(styles, x)) && Shaped(AllShort(styles, x), styles)
    ensures InForce(AllShort(styles, x), u, true) && TakenAll(AllShort(styles, x), AllOf(styles, x))
  {
    GainOfAll(styles, spot, entries, x);
    FillsMoveDelta(AllShort(styles, x), spot, entries, map[]);
    var delta := DeltaOf(AllShort(styles, x), spot, entries);
    u := Underlying(delta, Infinite(false), Finite(delta.value + x), spot, entries);
    forall k | k in styles
      ensures Sizable(Short(styles[k], x)) && Short(styles[k], x).exec == Sized(Short(styles[k], x), true, Some(u)) && Taken(Short(styles[k], x), x)
    {
      ShortIsKnown(styles[k], spot, x);
      ShortIsQuoted(styles[k], x, u);
    }
  }

  lemma PastTheCeiling(u: Underlying, x: real, gain: real, slack: real)
    requires u.delta.Finite? && x > 0.0 && u.deltaMax == Finite(u.delta.value + x) && gain > x + slack
    ensures !InBounds(u, Finite(u.delta.value + gain), slack)
  {
  }

  lemma TimesSlack(factor: real)
    requires factor > 1.0
    ensures Times(factor, EPSILON) < factor
  {
  }

  lemma TooManyFills(styles: Styles, spot: BestQuotes, entries: seq<LegKey>)
    requires Priced(styles, spot) && TotalFactor(styles, spot, entries) > 1.0
    ensures exists legs: Legs, u: Underlying, fills: Fills :: JointlyEscapes(styles, spot, entries, legs, u, fills)
  {
    var factor := TotalFactor(styles, spot, entries);
    var x := Surplus(factor);
    TimesSlack(factor);
    var u := ShortsAreCurrent(styles, spot, entries, x);
    var legs, fills := AllShort(styles, x), AllOf(styles, x);
    GainOfAll(styles, spot, entries, x);
    FillsMoveDelta(legs, spot, entries, fills);
    PastTheCeiling(u, x, Gain(legs, spot, entries, fills), Slack(legs, spot, entries));
    assert JointlyEscapes(styles, spot, entries, legs, u, fills);
  }

  function Both(a: LegKey, b: LegKey): Styles { map[a := NoStyle, b := NoStyle] }

  lemma BothListedOnce(a: LegKey, b: LegKey)
    requires a != b
    ensures Count([a, b], a) == 1 && Count([a, b], b) == 1 && TotalFactor(Both(a, b), CLEARED, [a, b]) == 2.0
  {
    assert [a, b][..1] == [a] && [a][..0] == [];
    assert Count([a][..0], a) == 0 && Count([a][..0], b) == 0;
    assert Count([a], a) == 1 && Count([a], b) == 0;
    assert TotalFactor(Both(a, b), CLEARED, [a][..0]) == 0.0 && TotalFactor(Both(a, b), CLEARED, [a]) == 1.0;
  }

  lemma BothFilled(a: LegKey, b: LegKey, x: real)
    requires a != b && x > 0.0
    ensures var legs := AllShort(Both(a, b), x);
            && DeltaOf(legs, CLEARED, [a, b]).Finite?
            && DeltaOf(FilledAll(legs, AllOf(Both(a, b), x)), CLEARED, [a, b]) == Finite(DeltaOf(legs, CLEARED, [a, b]).value + x + x)
  {
    BothListedOnce(a, b);
    GainOfAll(Both(a, b), CLEARED, [a, b], x);
    FillsMoveDelta(AllShort(Both(a, b), x), CLEARED, [a, b], AllOf(Both(a, b), x));
    TwiceIs(x);
  }

  lemma TwiceIs(x: real)
    ensures Times(2.0, x) == x + x
  {
  }

  /** So already with two legs, each listed once and each within the bounds on its own: short `x` each where
      the delta may grow by `x`, both bid for `x`, and filled together they take it `x` too far. */
  lemma TwoLegsAreTooMany(a: LegKey, b: LegKey, x: real) returns (u: Underlying)
    requires a != b && x > EPSILON
    ensures var legs, fills := AllShort(Both(a, b), x), AllOf(Both(a, b), x);
            && Current(legs, u) && u.legs == [a, b] && Count(u.legs, a) == 1 && Count(u.legs, b) == 1
            && InForce(legs, u, true) && TakenAll(legs, fills)
            && u.deltaMax == Finite(u.delta.value + x) && DeltaAfterAll(legs, u, fills) == Finite(u.deltaMax.value + x)
  {
    BothListedOnce(a, b);
    u := ShortsAreCurrent(Both(a, b), CLEARED, [a, b], x);
    BothFilled(a, b, x);
  }
}
