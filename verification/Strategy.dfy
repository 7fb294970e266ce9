/** The liquidation strategy as it runs: exposure and market updates that recompute every leg of an
    underlying, and what its quotes then promise. */
module Strategy {
  import opened Wrappers
  import opened Doubles
  import opened Sizing
  import JointFills

  datatype Targets = Targets(key: LegKey, quotes: BestQuotes)

  datatype State = State(legs: Legs, underlyings: map<nat, Underlying>, sent: seq<Targets>)

  // ----- the steps ----------------------------------------------------------------------------

  /** A leg without any price is not sent on. */
  predicate Sends(k: LegKey, quotes: BestQuotes) {
    k.account != "" && !(quotes.buy.price.Empty? && quotes.sell.price.Empty?)
  }

  function SizedLeg(st: State, enabled: bool, under: Option<Underlying>, k: LegKey): State {
    if k !in st.legs then st else
    var leg := st.legs[k].(exec := Sized(st.legs[k], enabled, under));
    st.(legs := st.legs[k := leg], sent := st.sent + if Sends(k, leg.exec) then [Targets(k, leg.exec)] else [])
  }

  function SizedAll(st: State, enabled: bool, under: Option<Underlying>, entries: seq<LegKey>): State {
    if entries == [] then st else
    var n := |entries| - 1;
    SizedLeg(SizedAll(st, enabled, under, entries[..n]), enabled, under, entries[n])
  }

  function WithDelta(st: State, id: nat): State
    requires id in st.underlyings
  {
    var u := st.underlyings[id];
    st.(underlyings := st.underlyings[id := u.(delta := DeltaOf(st.legs, u.market, u.legs))])
  }

  function Recomputed(st: State, enabled: bool, k: LegKey): State
    requires k in st.legs
  {
    var id := st.legs[k].underlying;
    if id != 0 && id in st.underlyings then
      var ready := WithDelta(st, id);
      SizedAll(ready, enabled, Some(ready.underlyings[id]), ready.underlyings[id].legs)
    else SizedLeg(st, enabled, None, k)
  }

  function LegOf(st: State, k: LegKey): Leg { if k in st.legs then st.legs[k] else NEW_LEG }

  function WithPosition(leg: Leg, buy: Double, sell: Double): Leg {
    leg.(position := BestQuotes(leg.position.buy.(volume := buy), leg.position.sell.(volume := sell)))
  }

  function Exposed(st: State, enabled: bool, k: LegKey, buy: Double, sell: Double, tickSize: Double): State {
    var leg := WithPosition(LegOf(st, k).(tickSize := tickSize), buy, sell);
    Recomputed(st.(legs := st.legs[k := leg]), enabled, k)
  }

  function Requoted(st: State, enabled: bool, k: LegKey, quotes: Option<BestQuotes>): State {
    if k !in st.legs then st else
    var leg := st.legs[k];
    Recomputed(st.(legs := st.legs[k := if quotes.Some? then leg.(market := quotes.value) else leg]), enabled, k)
  }

  /** New quotes of a market, for its leg of each account. */
  function RequotedAll(st: State, enabled: bool, keys: seq<LegKey>, quotes: Option<BestQuotes>): State {
    if keys == [] then st else
    var n := |keys| - 1;
    Requoted(RequotedAll(st, enabled, keys[..n], quotes), enabled, keys[n], quotes)
  }

  /** The same quotes for an underlying are kept and nothing is recomputed. */
  function Spotted(st: State, market: nat, quotes: Option<BestQuotes>): State {
    if market in st.underlyings && quotes.Some?
    then st.(underlyings := st.underlyings[market := st.underlyings[market].(market := quotes.value)]) else st
  }

  datatype Event =
    | OnExposure(key: LegKey, buy: Double, sell: Double, tickSize: Double)
    | OnMarket(market: nat, quotes: Option<BestQuotes>, order: seq<LegKey>)

  function After(st: State, enabled: bool, e: Event): State {
    match e
    case OnExposure(k, buy, sell, tickSize) => Exposed(st, enabled, k, buy, sell, tickSize)
    case OnMarket(market, quotes, order) => Spotted(RequotedAll(st, enabled, order, quotes), market, quotes)
  }

  function AfterAll(st: State, enabled: bool, es: seq<Event>): State {
    if es == [] then st else After(AfterAll(st, enabled, es[..|es| - 1]), enabled, es[|es| - 1])
  }

  // ----- what the steps keep --------------------------------------------------------------------

  function UnderlyingOf(st: State, leg: Leg): Option<Underlying> {
    if leg.underlying != 0 && leg.underlying in st.underlyings then Some(st.underlyings[leg.underlying]) else None
  }

  /** Legs are listed under the underlying they name and under no other. */
  predicate Listed(st: State) {
    && (forall id, k | id in st.underlyings && k in st.underlyings[id].legs :: k in st.legs && st.legs[k].underlying == id)
    && (forall k | k in st.legs && UnderlyingOf(st, st.legs[k]).Some? :: k in UnderlyingOf(st, st.legs[k]).value.legs)
    && 0 !in st.underlyings && NEW_LEG.underlying !in st.underlyings
  }

  predicate DeltaCurrent(st: State, id: nat)
    requires id in st.underlyings
  {
    var u := st.underlyings[id];
    u.delta == DeltaOf(st.legs, u.market, u.legs)
  }

  predicate LegCurrent(st: State, enabled: bool, k: LegKey)
    requires k in st.legs
  {
    st.legs[k].exec == Sized(st.legs[k], enabled, UnderlyingOf(st, st.legs[k]))
  }

  /** Every delta is the sum over its list, and every leg is quoted for the state it is in. */
  predicate Consistent(st: State, enabled: bool) {
    && (forall id | id in st.underlyings :: DeltaCurrent(st, id))
    && (forall k | k in st.legs :: LegCurrent(st, enabled, k))
  }

  /** Sizing changes nothing but the quotes of the legs that are listed, once or often. */
  lemma {:induction false} SizedAllMeans(st: State, enabled: bool, under: Option<Underlying>, entries: seq<LegKey>)
    ensures SizedAll(st, enabled, under, entries).underlyings == st.underlyings
    ensures SizedAll(st, enabled, under, entries).legs.Keys == st.legs.Keys
    ensures forall k | k in st.legs ::
              SizedAll(st, enabled, under, entries).legs[k] ==
              if k in entries then st.legs[k].(exec := Sized(st.legs[k], enabled, under)) else st.legs[k]
  {
    if entries != [] {
      var n := |entries| - 1;
      SizedAllMeans(st, enabled, under, entries[..n]);
      if entries[n] in st.legs {
        SizedAgain(st.legs[entries[n]], enabled, under);
      }
      assert entries == entries[..n] + [entries[n]];
    }
  }

  /** The delta reads positions and contracts, never quotes. */
  lemma {:induction false} DeltaReads(legs: Legs, legs': Legs, spot: BestQuotes, entries: seq<LegKey>)
    requires forall k | k in entries && k in legs :: k in legs' && legs'[k].(exec := legs[k].exec, market := legs[k].market) == legs[k]
    requires forall k | k in entries && k in legs' :: k in legs
    ensures DeltaOf(legs', spot, entries) == DeltaOf(legs, spot, entries)
  {
    if entries != [] {
      var n := |entries| - 1;
      DeltaReads(legs, legs', spot, entries[..n]);
      assert entries[n] in entries;
      if entries[n] in legs {
        var a, b := legs[entries[n]], legs'[entries[n]];
        assert b.position == a.position && b.style == a.style && b.deltaByVolume == a.deltaByVolume;
      }
    }
  }

  /** Consistent but for one leg, and the delta of its underlying. */
  predicate ConsistentBut(st: State, enabled: bool, k: LegKey)
    requires k in st.legs
  {
    && (forall id | id in st.underlyings && id != st.legs[k].underlying :: DeltaCurrent(st, id))
    && (forall j | j in st.legs && j != k && st.legs[j].underlying != st.legs[k].underlying :: LegCurrent(st, enabled, j))
    && (forall j | j in st.legs && j != k && UnderlyingOf(st, st.legs[j]).None? :: LegCurrent(st, enabled, j))
  }

  lemma SizingKeepsDelta(st: State, st': State, id: nat)
    requires id in st.underlyings && st'.underlyings == st.underlyings && st'.legs.Keys == st.legs.Keys
    requires forall k | k in st.legs :: st'.legs[k].(exec := st.legs[k].exec) == st.legs[k]
    ensures DeltaCurrent(st', id) == DeltaCurrent(st, id)
  {
    var u := st.underlyings[id];
    DeltaReads(st.legs, st'.legs, u.market, u.legs);
  }

  lemma ResizedIsCurrent(st: State, enabled: bool, k: LegKey, leg: Leg)
    requires k in st.legs && st.legs[k] == leg.(exec := Sized(leg, enabled, UnderlyingOf(st, leg)))
    ensures LegCurrent(st, enabled, k)
  {
    SizedAgain(leg, enabled, UnderlyingOf(st, leg));
  }

  lemma UntouchedIsCurrent(st: State, st': State, enabled: bool, k: LegKey)
    requires k in st.legs && LegCurrent(st, enabled, k) && k in st'.legs && st'.legs[k] == st.legs[k]
    requires UnderlyingOf(st', st.legs[k]) == UnderlyingOf(st, st.legs[k])
    ensures LegCurrent(st', enabled, k)
  {
  }

  /** Recomputing a leg brings its underlying up to date, and then all legs of that underlying. */
  lemma RecomputedMeans(st: State, enabled: bool, k: LegKey) returns (u: Underlying)
    requires k in st.legs && Listed(st) && UnderlyingOf(st, st.legs[k]).Some?
    ensures var id := st.legs[k].underlying; id in st.underlyings && u == WithDelta(st, id).underlyings[id]
    ensures Recomputed(st, enabled, k).underlyings == st.underlyings[st.legs[k].underlying := u]
    ensures Recomputed(st, enabled, k).legs.Keys == st.legs.Keys
    ensures forall j | j in st.legs ::
              Recomputed(st, enabled, k).legs[j] ==
              if st.legs[j].underlying == st.legs[k].underlying then st.legs[j].(exec := Sized(st.legs[j], enabled, Some(u))) else st.legs[j]
  {
    var id := st.legs[k].underlying;
    var ready := WithDelta(st, id);
    u := ready.underlyings[id];
    SizedAllMeans(ready, enabled, Some(u), u.legs);
    forall j | j in st.legs
      ensures j in u.legs <==> st.legs[j].underlying == id
    {
      if st.legs[j].underlying == id {
        assert UnderlyingOf(st, st.legs[j]).Some?;
      }
    }
  }

  lemma RecomputedStaysListed(st: State, st': State)
    requires Listed(st) && st'.underlyings.Keys == st.underlyings.Keys && st'.legs.Keys == st.legs.Keys
    requires forall id | id in st.underlyings :: st'.underlyings[id].legs == st.underlyings[id].legs
    requires forall j | j in st.legs :: st'.legs[j].underlying == st.legs[j].underlying
    ensures Listed(st')
  {
    forall k | k in st'.legs && UnderlyingOf(st', st'.legs[k]).Some?
      ensures k in UnderlyingOf(st', st'.legs[k]).value.legs
    {
      assert UnderlyingOf(st, st.legs[k]).Some?;
    }
  }

  lemma RecomputedDeltas(st: State, enabled: bool, k: LegKey)
    requires k in st.legs && Listed(st) && UnderlyingOf(st, st.legs[k]).Some? && ConsistentBut(st, enabled, k)
    ensures forall i | i in Recomputed(st, enabled, k).underlyings :: DeltaCurrent(Recomputed(st, enabled, k), i)
  {
    var id := st.legs[k].underlying;
    var u := RecomputedMeans(st, enabled, k);
    var after := Recomputed(st, enabled, k);
    forall i | i in after.underlyings
      ensures DeltaCurrent(after, i)
    {
      SizingKeepsDelta(WithDelta(st, id), after, i);
      assert i != id ==> DeltaCurrent(st, i);
    }
  }

  lemma RecomputedLegs(st: State, enabled: bool, k: LegKey)
    requires k in st.legs && Listed(st) && UnderlyingOf(st, st.legs[k]).Some? && ConsistentBut(st, enabled, k)
    ensures forall j | j in Recomputed(st, enabled, k).legs :: LegCurrent(Recomputed(st, enabled, k), enabled, j)
  {
    var u := RecomputedMeans(st, enabled, k);
    var after := Recomputed(st, enabled, k);
    forall j | j in after.legs
      ensures LegCurrent(after, enabled, j)
    {
      if st.legs[j].underlying == st.legs[k].underlying {
        ResizedIsCurrent(after, enabled, j, st.legs[j]);
      } else {
        UntouchedIsCurrent(st, after, enabled, j);
      }
    }
  }

  lemma RecomputedListed(st: State, enabled: bool, k: LegKey)
    requires k in st.legs && Listed(st) && UnderlyingOf(st, st.legs[k]).Some? && ConsistentBut(st, enabled, k)
    ensures Listed(Recomputed(st, enabled, k)) && Consistent(Recomputed(st, enabled, k), enabled)
  {
    var u := RecomputedMeans(st, enabled, k);
    RecomputedStaysListed(st, Recomputed(st, enabled, k));
    RecomputedDeltas(st, enabled, k);
    RecomputedLegs(st, enabled, k);
  }

  lemma RecomputedAlone(st: State, enabled: bool, k: LegKey)
    requires k in st.legs && Listed(st) && UnderlyingOf(st, st.legs[k]).None? && ConsistentBut(st, enabled, k)
    ensures Listed(Recomputed(st, enabled, k)) && Consistent(Recomputed(st, enabled, k), enabled)
  {
    var after := Recomputed(st, enabled, k);
    SizedAgain(st.legs[k], enabled, None);
    forall i | i in after.underlyings
      ensures DeltaCurrent(after, i)
    {
      SizingKeepsDelta(st, after, i);
    }
    forall j | j in after.legs && j != k
      ensures LegCurrent(after, enabled, j)
    {
      assert LegCurrent(st, enabled, j);
    }
  }

  lemma RecomputedIsConsistent(st: State, enabled: bool, k: LegKey)
    requires k in st.legs && Listed(st) && ConsistentBut(st, enabled, k)
    ensures Listed(Recomputed(st, enabled, k)) && Consistent(Recomputed(st, enabled, k), enabled)
  {
    if UnderlyingOf(st, st.legs[k]).Some? {
      RecomputedListed(st, enabled, k);
    } else {
      RecomputedAlone(st, enabled, k);
    }
  }

  lemma OneLegListed(st: State, k: LegKey, leg: Leg)
    requires Listed(st) && leg.underlying == LegOf(st, k).underlying
    ensures Listed(st.(legs := st.legs[k := leg]))
  {
    var st' := st.(legs := st.legs[k := leg]);
    forall j | j in st'.legs && UnderlyingOf(st', st'.legs[j]).Some?
      ensures j in UnderlyingOf(st', st'.legs[j]).value.legs
    {
      if j in st.legs {
        assert UnderlyingOf(st, st.legs[j]).Some?;
      }
    }
  }

  lemma OtherDeltaStays(st: State, k: LegKey, leg: Leg, id: nat)
    requires Listed(st) && leg.underlying == LegOf(st, k).underlying && id in st.underlyings && id != leg.underlying && DeltaCurrent(st, id)
    ensures DeltaCurrent(st.(legs := st.legs[k := leg]), id)
  {
    var u := st.underlyings[id];
    DeltaReads(st.legs, st.legs[k := leg], u.market, u.legs);
  }

  /** Changing one leg, not its underlying or contract, leaves the rest consistent. */
  lemma OneLegChanged(st: State, enabled: bool, k: LegKey, leg: Leg)
    requires Listed(st) && Consistent(st, enabled) && leg.underlying == LegOf(st, k).underlying
    ensures Listed(st.(legs := st.legs[k := leg])) && ConsistentBut(st.(legs := st.legs[k := leg]), enabled, k)
  {
    var st' := st.(legs := st.legs[k := leg]);
    OneLegListed(st, k, leg);
    forall id | id in st'.underlyings && id != leg.underlying
      ensures DeltaCurrent(st', id)
    {
      OtherDeltaStays(st, k, leg, id);
    }
    forall j | j in st'.legs && j != k
      ensures LegCurrent(st', enabled, j)
    {
      UntouchedIsCurrent(st, st', enabled, j);
    }
  }

  /** An exposure update leaves every leg quoted for the position and the delta it now has. */
  lemma ExposedIsConsistent(st: State, enabled: bool, k: LegKey, buy: Double, sell: Double, tickSize: Double)
    requires Listed(st) && Consistent(st, enabled)
    ensures Listed(Exposed(st, enabled, k, buy, sell, tickSize)) && Consistent(Exposed(st, enabled, k, buy, sell, tickSize), enabled)
  {
    var leg := WithPosition(LegOf(st, k).(tickSize := tickSize), buy, sell);
    OneLegChanged(st, enabled, k, leg);
    RecomputedIsConsistent(st.(legs := st.legs[k := leg]), enabled, k);
  }

  lemma RequotedIsConsistent(st: State, enabled: bool, k: LegKey, quotes: Option<BestQuotes>)
    requires Listed(st) && Consistent(st, enabled)
    ensures Listed(Requoted(st, enabled, k, quotes)) && Consistent(Requoted(st, enabled, k, quotes), enabled)
  {
    if k in st.legs {
      var leg := if quotes.Some? then st.legs[k].(market := quotes.value) else st.legs[k];
      OneLegChanged(st, enabled, k, leg);
      RecomputedIsConsistent(st.(legs := st.legs[k := leg]), enabled, k);
    }
  }

  lemma {:induction false} RequotedAllIsConsistent(st: State, enabled: bool, keys: seq<LegKey>, quotes: Option<BestQuotes>)
    requires Listed(st) && Consistent(st, enabled)
    ensures Listed(RequotedAll(st, enabled, keys, quotes)) && Consistent(RequotedAll(st, enabled, keys, quotes), enabled)
  {
    if keys != [] {
      var n := |keys| - 1;
      RequotedAllIsConsistent(st, enabled, keys[..n], quotes);
      RequotedIsConsistent(RequotedAll(st, enabled, keys[..n], quotes), enabled, keys[n], quotes);
    }
  }

  predicate NoLinear(st: State) { forall k | k in st.legs :: st.legs[k].style != Linear }

  lemma {:induction false} DeltaIgnoresSpot(legs: Legs, spot: BestQuotes, spot': BestQuotes, entries: seq<LegKey>)
    requires forall k | k in legs :: legs[k].style != Linear
    ensures DeltaOf(legs, spot', entries) == DeltaOf(legs, spot, entries)
  {
    if entries != [] {
      DeltaIgnoresSpot(legs, spot, spot', entries[..|entries| - 1]);
    }
  }

  lemma SizedIgnoresSpot(leg: Leg, enabled: bool, u: Underlying, spot: BestQuotes)
    ensures Sized(leg, enabled, Some(u.(market := spot))) == Sized(leg, enabled, Some(u))
  {
    assert RoomAbove(u.(market := spot)) == RoomAbove(u) && RoomBelow(u.(market := spot)) == RoomBelow(u);
  }

  lemma SpottedLeg(st: State, enabled: bool, market: nat, quotes: BestQuotes, k: LegKey)
    requires k in st.legs && LegCurrent(st, enabled, k) && market in st.underlyings
    ensures LegCurrent(Spotted(st, market, Some(quotes)), enabled, k)
  {
    var leg := st.legs[k];
    if UnderlyingOf(st, leg).Some? && leg.underlying == market {
      SizedIgnoresSpot(leg, enabled, st.underlyings[market], quotes);
    } else {
      UntouchedIsCurrent(st, Spotted(st, market, Some(quotes)), enabled, k);
    }
  }

  /** What was current stays so under a new spot price exactly when the sum over the list does. */
  lemma SpottedIsConsistentIff(st: State, enabled: bool, market: nat, quotes: BestQuotes)
    requires Listed(st) && Consistent(st, enabled) && market in st.underlyings
    ensures Listed(Spotted(st, market, Some(quotes)))
    ensures Consistent(Spotted(st, market, Some(quotes)), enabled) <==>
              DeltaOf(st.legs, quotes, st.underlyings[market].legs) == st.underlyings[market].delta
  {
    var st' := Spotted(st, market, Some(quotes));
    RecomputedStaysListed(st, st');
    assert DeltaCurrent(st', market) <==> DeltaOf(st.legs, quotes, st.underlyings[market].legs) == st.underlyings[market].delta;
    forall id | id in st'.underlyings && id != market
      ensures DeltaCurrent(st', id)
    {
      assert DeltaCurrent(st, id);
    }
    forall k | k in st'.legs
      ensures LegCurrent(st', enabled, k)
    {
      SpottedLeg(st, enabled, market, quotes, k);
    }
  }

  /** The volume of the linear entries of a list, in units of delta at a spot price of 1. */
  function Net(legs: Legs, entries: seq<LegKey>): real
    requires KnownVolumes(legs, entries)
  {
    if entries == [] then 0.0 else
    var n := |entries| - 1;
    assert entries[n] in entries;
    Net(legs, entries[..n])
    + if entries[n] in legs && legs[entries[n]].style == Linear
      then Times(Position(legs[entries[n]]).value, legs[entries[n]].deltaByVolume.value) else 0.0
  }

  predicate KnownVolumes(legs: Legs, entries: seq<LegKey>) {
    forall k | k in entries && k in legs :: Position(legs[k]).Finite? && legs[k].deltaByVolume.Finite?
  }

  lemma LinearTerm(p: real, d: real, s: real)
    ensures Times(p, Times(d, s)) == Times(Times(p, d), s)
  {
    assert p * (d * s) == (p * d) * s;
  }

  lemma TermAdds(net: real, term: real, s: real)
    ensures Times(net + term, s) == Times(net, s) + Times(term, s) && Times(0.0, s) == 0.0
  {
  }

  /** What the rest of a list comes to does not depend on the spot price. */
  function Base(legs: Legs, entries: seq<LegKey>): real
    requires KnownVolumes(legs, entries)
  {
    if entries == [] then 0.0 else
    var n := |entries| - 1;
    assert entries[n] in entries;
    Base(legs, entries[..n])
    + if entries[n] in legs && legs[entries[n]].style != Linear
      then Times(Position(legs[entries[n]]).value, legs[entries[n]].deltaByVolume.value) else 0.0
  }

  /** The delta splits into the volume of the linear entries times the spot price, and the rest. */
  lemma {:induction false} DeltaSplits(legs: Legs, spot: BestQuotes, entries: seq<LegKey>)
    requires KnownVolumes(legs, entries) && Spot(spot).Finite?
    ensures DeltaOf(legs, spot, entries) == Finite(Base(legs, entries) + Times(Net(legs, entries), Spot(spot).value))
  {
    var s := Spot(spot).value;
    if entries == [] {
      TermAdds(0.0, 0.0, s);
    } else {
      var n := |entries| - 1;
      DeltaSplits(legs, spot, entries[..n]);
      assert entries[n] in entries;
      if entries[n] in legs {
        var leg := legs[entries[n]];
        var term := Times(Position(leg).value, leg.deltaByVolume.value);
        if leg.style == Linear {
          LinearTerm(Position(leg).value, leg.deltaByVolume.value, s);
          TermAdds(Net(legs, entries[..n]), term, s);
        } else {
          TermAdds(Net(legs, entries[..n]), 0.0, s);
        }
      }
    }
  }

  lemma SameProduct(net: real, s: real, s': real)
    ensures Times(net, s) == Times(net, s') <==> net == 0.0 || s == s'
  {
    assert net * s - net * s' == net * (s - s');
  }

  /** A new spot price leaves all as it should be exactly when the linear legs of the list cancel out, or
      the spot price is the old one: nothing is recomputed for it. */
  lemma NewSpotIsConsistentIff(st: State, enabled: bool, market: nat, quotes: BestQuotes)
    requires Listed(st) && Consistent(st, enabled) && market in st.underlyings
    requires KnownVolumes(st.legs, st.underlyings[market].legs) && Spot(st.underlyings[market].market).Finite? && Spot(quotes).Finite?
    ensures Listed(Spotted(st, market, Some(quotes)))
    ensures Consistent(Spotted(st, market, Some(quotes)), enabled) <==>
              Net(st.legs, st.underlyings[market].legs) == 0.0 || Spot(quotes) == Spot(st.underlyings[market].market)
  {
    var u := st.underlyings[market];
    SpottedIsConsistentIff(st, enabled, market, quotes);
    assert DeltaCurrent(st, market);
    DeltaSplits(st.legs, u.market, u.legs);
    DeltaSplits(st.legs, quotes, u.legs);
    SameProduct(Net(st.legs, u.legs), Spot(u.market).value, Spot(quotes).value);
  }

  // ----- a state that goes stale ----------------------------------------------------------------

  /** A linear leg long one unit, listed under one underlying and quoted for the delta that has. */
  function OneLinear(k: LegKey, spot: BestQuotes): State {
    var plain := NEW_LEG.(style := Linear, underlying := 1,
                          position := BestQuotes(Quote(Empty, Finite(1.0)), Quote(Empty, ZERO)));
    var u := Underlying(DeltaOf(map[k := plain], spot, [k]), Infinite(false), Infinite(true), spot, [k]);
    State(map[k := plain.(exec := Sized(plain, true, Some(u)))], map[1 := u], [])
  }

  lemma OneLinearIsConsistent(k: LegKey, spot: BestQuotes)
    ensures Listed(OneLinear(k, spot)) && Consistent(OneLinear(k, spot), true)
  {
    var st := OneLinear(k, spot);
    var u := st.underlyings[1];
    var plain := st.legs[k].(exec := CLEARED);
    assert st.legs[k] == plain.(exec := Sized(plain, true, UnderlyingOf(st, plain)));
    ResizedIsCurrent(st, true, k, plain);
    DeltaReads(map[k := plain], st.legs, spot, [k]);
    assert DeltaCurrent(st, 1);
  }

  lemma NetOfOne(legs: Legs, k: LegKey, p: real, d: real)
    requires k in legs && legs[k].style == Linear && Position(legs[k]) == Finite(p) && legs[k].deltaByVolume == Finite(d)
    ensures KnownVolumes(legs, [k]) && Net(legs, [k]) == Times(p, d)
  {
    assert [k][..0] == [] && Net(legs, [k][..0]) == 0.0;
  }

  lemma OneUnitHeld(k: LegKey, spot: BestQuotes)
    ensures var leg := OneLinear(k, spot).legs[k];
            leg.style == Linear && Position(leg) == Finite(1.0) && leg.deltaByVolume == Finite(1.0)
  {
  }

  lemma OneLinearCounts(k: LegKey, spot: BestQuotes)
    ensures KnownVolumes(OneLinear(k, spot).legs, [k]) && Net(OneLinear(k, spot).legs, [k]) == Times(1.0, 1.0)
  {
    OneUnitHeld(k, spot);
    NetOfOne(OneLinear(k, spot).legs, k, 1.0, 1.0);
  }

  /** Already with one linear leg, any other spot price leaves a consistent state inconsistent. */
  lemma NewSpotGoesStale(k: LegKey, spot: BestQuotes, quotes: BestQuotes)
    requires Spot(spot).Finite? && Spot(quotes).Finite? && Spot(quotes) != Spot(spot)
    ensures Listed(OneLinear(k, spot)) && Consistent(OneLinear(k, spot), true)
    ensures !Consistent(Spotted(OneLinear(k, spot), 1, Some(quotes)), true)
  {
    OneLinearIsConsistent(k, spot);
    OneLinearCounts(k, spot);
    assert Times(1.0, 1.0) == 1.0;
    NewSpotIsConsistentIff(OneLinear(k, spot), true, 1, quotes);
  }

  /** So it does without linear legs. */
  lemma SpottedIsConsistent(st: State, enabled: bool, market: nat, quotes: Option<BestQuotes>)
    requires Listed(st) && Consistent(st, enabled) && NoLinear(st)
    ensures Listed(Spotted(st, market, quotes)) && Consistent(Spotted(st, market, quotes), enabled)
  {
    if market in st.underlyings && quotes.Some? {
      SpottedIsConsistentIff(st, enabled, market, quotes.value);
      DeltaIgnoresSpot(st.legs, st.underlyings[market].market, quotes.value, st.underlyings[market].legs);
      assert DeltaCurrent(st, market);
    }
  }

  lemma {:induction false} SizedAllKeepsContracts(st: State, enabled: bool, under: Option<Underlying>, entries: seq<LegKey>)
    requires NoLinear(st)
    ensures NoLinear(SizedAll(st, enabled, under, entries))
    ensures SizedAll(st, enabled, under, entries).underlyings == st.underlyings
  {
    if entries != [] {
      SizedAllKeepsContracts(st, enabled, under, entries[..|entries| - 1]);
    }
  }

  lemma RecomputedKeepsContracts(st: State, enabled: bool, k: LegKey)
    requires k in st.legs && NoLinear(st)
    ensures NoLinear(Recomputed(st, enabled, k)) && Recomputed(st, enabled, k).underlyings.Keys == st.underlyings.Keys
  {
    var id := st.legs[k].underlying;
    if id != 0 && id in st.underlyings {
      var ready := WithDelta(st, id);
      SizedAllKeepsContracts(ready, enabled, Some(ready.underlyings[id]), ready.underlyings[id].legs);
    }
  }

  lemma {:induction false} RequotedAllKeepsContracts(st: State, enabled: bool, keys: seq<LegKey>, quotes: Option<BestQuotes>)
    requires NoLinear(st)
    ensures NoLinear(RequotedAll(st, enabled, keys, quotes))
  {
    if keys != [] {
      var n := |keys| - 1;
      RequotedAllKeepsContracts(st, enabled, keys[..n], quotes);
      var before := RequotedAll(st, enabled, keys[..n], quotes);
      var k := keys[n];
      if k in before.legs {
        var leg := if quotes.Some? then before.legs[k].(market := quotes.value) else before.legs[k];
        RecomputedKeepsContracts(before.(legs := before.legs[k := leg]), enabled, k);
      }
    }
  }

  lemma AfterIsConsistent(st: State, enabled: bool, e: Event)
    requires Listed(st) && Consistent(st, enabled) && NoLinear(st)
    ensures Listed(After(st, enabled, e)) && Consistent(After(st, enabled, e), enabled) && NoLinear(After(st, enabled, e))
  {
    match e
    case OnExposure(k, buy, sell, tickSize) =>
      ExposedIsConsistent(st, enabled, k, buy, sell, tickSize);
      RecomputedKeepsContracts(st.(legs := st.legs[k := WithPosition(LegOf(st, k).(tickSize := tickSize), buy, sell)]), enabled, k);
    case OnMarket(market, quotes, order) =>
      RequotedAllIsConsistent(st, enabled, order, quotes);
      RequotedAllKeepsContracts(st, enabled, order, quotes);
      SpottedIsConsistent(RequotedAll(st, enabled, order, quotes), enabled, market, quotes);
  }

  /** Over every run of exposure and market updates, deltas are the sums over their lists and every leg
      is quoted for the state it is in. */
  lemma {:induction false} RunIsConsistent(st: State, enabled: bool, es: seq<Event>)
    requires Listed(st) && Consistent(st, enabled) && NoLinear(st)
    ensures Listed(AfterAll(st, enabled, es)) && Consistent(AfterAll(st, enabled, es), enabled) && NoLinear(AfterAll(st, enabled, es))
  {
    if es != [] {
      RunIsConsistent(st, enabled, es[..|es| - 1]);
      AfterIsConsistent(AfterAll(st, enabled, es[..|es| - 1]), enabled, es[|es| - 1]);
    }
  }

  // ----- what the quotes promise ------------------------------------------------------------------

  /** A fill of what a leg has on quote; negative for a sale. */
  predicate OnQuote(leg: Leg, fill: real) {
    if fill >= 0.0 then AtLeast(leg.exec.buy.volume, fill) else AtLeast(leg.exec.sell.volume, -fill)
  }

  lemma QuotedIsFillable(leg: Leg, enabled: bool, under: Option<Underlying>, fill: real)
    requires leg.exec == Sized(leg, enabled, under) && OnQuote(leg, fill)
    ensures Fillable(leg, under, fill)
  {
  }

  lemma NoFurther(p: real, p': real, target: real)
    requires p' <= Larger(p, target) + EPSILON && p' >= Smaller(p, target) - EPSILON
    ensures target == 0.0 ==> Abs(p') <= Abs(p) + EPSILON
  {
  }

  lemma FillableStopsAtTarget(leg: Leg, under: Option<Underlying>, fill: real)
    requires Sizable(leg) && (under.Some? ==> Ranged(under.value)) && Fillable(leg, under, fill)
    ensures Position(leg).Finite?
    ensures var p' := Position(leg).value + fill;
            && p' <= Larger(Position(leg).value, leg.target.value) + EPSILON
            && p' >= Smaller(Position(leg).value, leg.target.value) - EPSILON
  {
    FillStopsAtTarget(leg, under, if fill >= 0.0 then fill else -fill);
  }

  /** The position after a fill goes no further past the target than the tolerance. */
  predicate Bounded(p: real, p': real, target: real) {
    && p' <= Larger(p, target) + EPSILON && p' >= Smaller(p, target) - EPSILON
    && (target == 0.0 ==> Abs(p') <= Abs(p) + EPSILON)
  }

  lemma LegFillIsBounded(leg: Leg, under: Option<Underlying>, fill: real)
    requires Sizable(leg) && (under.Some? ==> Ranged(under.value)) && Fillable(leg, under, fill)
    ensures Position(leg).Finite? && Bounded(Position(leg).value, Position(leg).value + fill, leg.target.value)
  {
    FillableStopsAtTarget(leg, under, fill);
    NoFurther(Position(leg).value, Position(leg).value + fill, leg.target.value);
  }

  lemma QuotedFillIsBounded(leg: Leg, enabled: bool, under: Option<Underlying>, fill: real)
    requires leg.exec == Sized(leg, enabled, under) && Sizable(leg) && OnQuote(leg, fill) && (under.Some? ==> Ranged(under.value))
    ensures Position(leg).Finite? && Position(Filled(leg, fill)).Finite?
    ensures Bounded(Position(leg).value, Position(Filled(leg, fill)).value, leg.target.value)
  {
    QuotedIsFillable(leg, enabled, under, fill);
    LegFillIsBounded(leg, under, fill);
    FilledPosition(leg, fill);
  }

  /** Whatever is filled of a quote, the position goes no further past its target than the tolerance;
      for a target of zero its size never grows by more than that. */
  lemma QuotedFillStopsAtTarget(st: State, enabled: bool, k: LegKey, fill: real)
    requires Consistent(st, enabled) && k in st.legs && Sizable(st.legs[k]) && OnQuote(st.legs[k], fill)
    requires UnderlyingOf(st, st.legs[k]).Some? ==> Ranged(UnderlyingOf(st, st.legs[k]).value)
    ensures Position(st.legs[k]).Finite? && Position(Filled(st.legs[k], fill)).Finite?
    ensures var p, p' := Position(st.legs[k]).value, Position(Filled(st.legs[k], fill)).value;
            && p' <= Larger(p, st.legs[k].target.value) + EPSILON
            && p' >= Smaller(p, st.legs[k].target.value) - EPSILON
            && (st.legs[k].target == ZERO ==> Abs(p') <= Abs(p) + EPSILON)
  {
    assert LegCurrent(st, enabled, k);
    QuotedFillIsBounded(st.legs[k], enabled, UnderlyingOf(st, st.legs[k]), fill);
    TargetIsZero(st.legs[k]);
  }

  lemma TargetIsZero(leg: Leg)
    ensures leg.target == ZERO ==> leg.target.value == 0.0
  {
  }

  /** And the delta recomputed afterwards is within its range, or within where it was. */
  lemma QuotedFillKeepsDelta(st: State, enabled: bool, k: LegKey, fill: real)
    requires Consistent(st, enabled) && k in st.legs && Sizable(st.legs[k]) && OnQuote(st.legs[k], fill)
    requires UnderlyingOf(st, st.legs[k]).Some?
    requires var u := UnderlyingOf(st, st.legs[k]).value;
             && Ranged(u) && KnownDelta(st.legs, u.market, u.legs) && st.legs[k].style != Linear && Count(u.legs, k) <= 1
    ensures var u := UnderlyingOf(st, st.legs[k]).value;
            WithinRange(u, fill, DeltaAfter(st.legs, u, k, fill), Times(EPSILON, st.legs[k].deltaByVolume.value))
  {
    var leg := st.legs[k];
    var u := UnderlyingOf(st, leg).value;
    assert LegCurrent(st, enabled, k) && DeltaCurrent(st, leg.underlying);
    QuotedIsFillable(leg, enabled, Some(u), fill);
    FillKeepsDelta(st.legs, u, k, fill);
  }

  function LegsOf(st: State, id: nat): Legs { map k | k in st.legs && st.legs[k].underlying == id :: st.legs[k] }

  lemma LegsOfAreCurrent(st: State, enabled: bool, id: nat)
    requires Listed(st) && Consistent(st, enabled) && id in st.underlyings && Ranged(st.underlyings[id])
    requires KnownDelta(LegsOf(st, id), st.underlyings[id].market, st.underlyings[id].legs)
    ensures Current(LegsOf(st, id), st.underlyings[id])
  {
    var u := st.underlyings[id];
    assert DeltaCurrent(st, id);
    DeltaReads(st.legs, LegsOf(st, id), u.market, u.legs);
  }

  lemma QuotesAreOnOffer(st: State, enabled: bool, id: nat, fills: JointFills.Fills)
    requires Listed(st) && Consistent(st, enabled) && id in st.underlyings
    requires forall k | k in fills :: k in LegsOf(st, id) && OnQuote(st.legs[k], fills[k])
    ensures JointFills.OnOffer(LegsOf(st, id), st.underlyings[id], fills)
  {
    forall k | k in fills
      ensures Fillable(LegsOf(st, id)[k], Some(st.underlyings[id]), fills[k])
    {
      assert LegCurrent(st, enabled, k);
      QuotedIsFillable(st.legs[k], enabled, Some(st.underlyings[id]), fills[k]);
    }
  }

  /** Whatever is filled together of the quotes of all legs of an underlying, the delta recomputed afterwards
      is within its thresholds, up to the tolerance, if the list gives the room away once at most. */
  lemma QuotedFillsKeepDelta(st: State, enabled: bool, id: nat, styles: JointFills.Styles, fills: JointFills.Fills)
    requires Listed(st) && Consistent(st, enabled) && id in st.underlyings && Ranged(st.underlyings[id])
    requires KnownDelta(LegsOf(st, id), st.underlyings[id].market, st.underlyings[id].legs)
    requires JointFills.AllSizable(LegsOf(st, id)) && JointFills.Shaped(LegsOf(st, id), styles)
    requires JointFills.Priced(styles, st.underlyings[id].market)
    requires JointFills.TotalFactor(styles, st.underlyings[id].market, st.underlyings[id].legs) <= 1.0
    requires forall k | k in fills :: k in LegsOf(st, id) && OnQuote(st.legs[k], fills[k])
    ensures var u, legs := st.underlyings[id], LegsOf(st, id);
            JointFills.InBounds(u, JointFills.DeltaAfterAll(legs, u, fills), JointFills.Slack(legs, u.market, u.legs))
  {
    LegsOfAreCurrent(st, enabled, id);
    QuotesAreOnOffer(st, enabled, id, fills);
    JointFills.JointFillsKeepDelta(LegsOf(st, id), styles, st.underlyings[id], fills);
  }

  /** A state with the legs of one underlying and no other. */
  ghost predicate Alone(st: State, legs: Legs, u: Underlying) {
    && st.legs == legs && st.underlyings == map[1 := u]
    && (forall k :: k in legs <==> k in u.legs) && forall k | k in legs :: legs[k].underlying == 1
  }

  lemma AloneIsConsistent(st: State, legs: Legs, u: Underlying)
    requires Alone(st, legs, u) && Current(legs, u) && JointFills.InForce(legs, u, true)
    ensures Listed(st) && Consistent(st, true)
  {
    assert DeltaCurrent(st, 1);
    forall k | k in st.legs
      ensures LegCurrent(st, true, k)
    {
      assert UnderlyingOf(st, st.legs[k]) == Some(u);
    }
  }

  lemma TwoAreAlone(a: LegKey, b: LegKey, x: real, u: Underlying)
    requires u.legs == [a, b]
    ensures var legs := JointFills.AllShort(JointFills.Both(a, b), x);
            Alone(State(legs, map[1 := u], []), legs, u)
  {
  }

  lemma BothAreTaken(a: LegKey, b: LegKey, legs: Legs, fills: JointFills.Fills, x: real)
    requires JointFills.TakenAll(legs, fills) && fills == map[a := x, b := x]
    ensures a in legs && b in legs && Taken(legs[a], x) && Taken(legs[b], x)
  {
    assert a in fills && b in fills;
  }

  /** The promise on the delta broken, in a state the strategy may be in: two legs, each listed once under
      the one underlying, both bid for `x` where its delta may grow by `x`. */
  lemma TwoLegsBreakThresholds(a: LegKey, b: LegKey, x: real) returns (st: State, u: Underlying)
    requires a != b && x > EPSILON
    ensures Listed(st) && Consistent(st, true) && st.underlyings == map[1 := u] && u.legs == [a, b]
    ensures a in st.legs && b in st.legs && Taken(st.legs[a], x) && Taken(st.legs[b], x)
    ensures u.delta.Finite? && u.deltaMax == Finite(u.delta.value + x)
    ensures JointFills.DeltaAfterAll(st.legs, u, map[a := x, b := x]) == Finite(u.deltaMax.value + x)
  {
    u := JointFills.TwoLegsAreTooMany(a, b, x);
    var legs, fills := JointFills.AllShort(JointFills.Both(a, b), x), JointFills.AllOf(JointFills.Both(a, b), x);
    st := State(legs, map[1 := u], []);
    TwoAreAlone(a, b, x, u);
    AloneIsConsistent(st, legs, u);
    assert fills == map[a := x, b := x];
    BothAreTaken(a, b, legs, fills, x);
  }

  // ----- the strategy -----------------------------------------------------------------------------

  /** Each key of `all` is either done, once, or still to do. */
  ghost predicate Underway(order: seq<LegKey>, todo: set<LegKey>, all: set<LegKey>) {
    && (forall i, j | 0 <= i < j < |order| :: order[i] != order[j])
    && (forall k :: k in order || k in todo <==> k in all)
    && (forall k | k in todo :: k !in order)
  }

  lemma OneMoreDone(order: seq<LegKey>, todo: set<LegKey>, all: set<LegKey>, k: LegKey)
    requires Underway(order, todo, all) && k in todo
    ensures Underway(order + [k], todo - {k}, all) && k in all && |todo - {k}| == |todo| - 1
  {
  }

  lemma OneMoreRequoted(st: State, enabled: bool, order: seq<LegKey>, k: LegKey, quotes: Option<BestQuotes>)
    ensures RequotedAll(st, enabled, order + [k], quotes) == Requoted(RequotedAll(st, enabled, order, quotes), enabled, k, quotes)
  {
    assert (order + [k])[..|order|] == order;
  }

  class Liquidator {
    var enabled: bool
    var legs: Legs
    var underlyings: map<nat, Underlying>
    var sent: seq<Targets>

    ghost function View(): State
      reads this
    {
      State(legs, underlyings, sent)
    }

    constructor (enabled: bool)
      ensures this.enabled == enabled && View() == State(map[], map[], [])
    {
      this.enabled, legs, underlyings, sent := enabled, map[], map[], [];
    }

    /** Size one leg and send its quotes on. */
    method SizeLeg(under: Option<Underlying>, k: LegKey)
      modifies this`legs, this`sent
      ensures View() == SizedLeg(old(View()), enabled, under, k)
    {
      if k in legs {
        var leg := ComputeLeg(legs[k], enabled, under);
        legs := legs[k := leg];
        if k.account != "" {
          if !(leg.exec.buy.price.Empty? && leg.exec.sell.price.Empty?) {
            sent := sent + [Targets(k, leg.exec)];
          }
        }
      }
    }

    /** Add up the delta over the list. */
    method ComputeDelta(id: nat)
      requires id in underlyings
      modifies this`underlyings
      ensures View() == WithDelta(old(View()), id)
    {
      var u := underlyings[id];
      var delta := ZERO;
      for i := 0 to |u.legs|
        invariant underlyings == old(underlyings) && delta == DeltaOf(legs, u.market, u.legs[..i])
      {
        assert u.legs[..i + 1][..i] == u.legs[..i];
        if u.legs[i] in legs {
          var leg := legs[u.legs[i]];
          delta := Add(delta, Mul(Sub(leg.position.buy.volume, leg.position.sell.volume), DeltaPerVolume(leg, u.market)));
        }
      }
      assert u.legs[..|u.legs|] == u.legs;
      underlyings := underlyings[id := u.(delta := delta)];
    }

    /** A leg has changed: recompute the delta of its underlying and then all legs of that underlying. */
    method Compute(k: LegKey)
      requires k in legs
      modifies this`legs, this`underlyings, this`sent
      ensures View() == Recomputed(old(View()), enabled, k)
    {
      var id := legs[k].underlying;
      if id != 0 && id in underlyings {
        ComputeDelta(id);
        ghost var ready := View();
        var u := underlyings[id];
        for i := 0 to |u.legs|
          invariant View() == SizedAll(ready, enabled, Some(u), u.legs[..i])
        {
          assert u.legs[..i + 1][..i] == u.legs[..i];
          SizeLeg(Some(u), u.legs[i]);
        }
        assert u.legs[..|u.legs|] == u.legs;
      } else {
        SizeLeg(None, k);
      }
    }

    method OnExposure(k: LegKey, buy: Double, sell: Double, tickSize: Double)
      modifies this`legs, this`underlyings, this`sent
      ensures View() == After(old(View()), enabled, Event.OnExposure(k, buy, sell, tickSize))
    {
      var leg := if k in legs then legs[k] else NEW_LEG;
      leg := leg.(tickSize := tickSize);
      leg := leg.(position := leg.position.(buy := leg.position.buy.(volume := buy)));
      leg := leg.(position := leg.position.(sell := leg.position.sell.(volume := sell)));
      legs := legs[k := leg];
      Compute(k);
    }

    method Requote(k: LegKey, quotes: Option<BestQuotes>)
      requires k in legs
      modifies this`legs, this`underlyings, this`sent
      ensures View() == Requoted(old(View()), enabled, k, quotes) && legs.Keys == old(legs.Keys)
    {
      var leg := legs[k];
      if quotes.Some? {
        leg := leg.(market := quotes.value);
      }
      legs := legs[k := leg];
      RecomputedKeepsKeys(View(), enabled, k);
      Compute(k);
    }

    /** New quotes for the legs a market has in the accounts, in some order. */
    method RequoteLegs(market: nat, quotes: Option<BestQuotes>) returns (ghost order: seq<LegKey>)
      modifies this`legs, this`underlyings, this`sent
      ensures View() == RequotedAll(old(View()), enabled, order, quotes)
      ensures Underway(order, {}, set k | k in old(legs) && k.market == market)
    {
      order := [];
      var todo := set k | k in legs && k.market == market;
      ghost var all := todo;
      while todo != {}
        invariant Underway(order, todo, all) && all <= legs.Keys
        invariant View() == RequotedAll(old(View()), enabled, order, quotes)
        decreases |todo|
      {
        var k :| k in todo;
        OneMoreDone(order, todo, all, k);
        Requote(k, quotes);
        OneMoreRequoted(old(View()), enabled, order, k, quotes);
        order, todo := order + [k], todo - {k};
      }
    }

    /** New quotes of a market, for its legs and then for the underlying it is. */
    method OnMarket(market: nat, quotes: Option<BestQuotes>) returns (ghost order: seq<LegKey>)
      modifies this`legs, this`underlyings, this`sent
      ensures View() == After(old(View()), enabled, Event.OnMarket(market, quotes, order))
      ensures forall i, j | 0 <= i < j < |order| :: order[i] != order[j]
      ensures forall k :: k in order <==> k in old(legs) && k.market == market
    {
      order := RequoteLegs(market, quotes);
      if market in underlyings && quotes.Some? {
        underlyings := underlyings[market := underlyings[market].(market := quotes.value)];
      }
    }
  }

  lemma RecomputedKeepsKeys(st: State, enabled: bool, k: LegKey)
    requires k in st.legs
    ensures Recomputed(st, enabled, k).legs.Keys == st.legs.Keys
  {
    var id := st.legs[k].underlying;
    if id != 0 && id in st.underlyings {
      var ready := WithDelta(st, id);
      SizedAllMeans(ready, enabled, Some(ready.underlyings[id]), ready.underlyings[id].legs);
    }
  }
}
