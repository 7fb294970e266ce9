/** What an exposure or a market update does: the position it reports, the market it brings, what it leaves
    alone, the quotes that come of it and what of them is sent. */
module Updates {
  import opened Wrappers
  import opened Doubles
  import opened Sizing
  import opened Strategy
  import opened QuotePrices

  // ----- what recomputing leaves alone ------------------------------------------------------------

  /** How a leg is to be traded. */
  predicate SameTerms(a: Leg, b: Leg) {
    && a.underlying == b.underlying && a.style == b.style && a.target == b.target && a.mode == b.mode
    && a.buyVolume == b.buyVolume && a.sellVolume == b.sellVolume && a.slippage == b.slippage
    && a.deltaByVolume == b.deltaByVolume
  }

  /** Another leg may be quoted anew, and that is all. */
  predicate SameLeg(a: Leg, b: Leg) {
    SameTerms(a, b) && a.position == b.position && a.market == b.market && a.tickSize == b.tickSize
  }

  /** The delta may be another. */
  predicate SameBounds(a: Underlying, b: Underlying) {
    a.deltaMin == b.deltaMin && a.deltaMax == b.deltaMax && a.market == b.market && a.legs == b.legs
  }

  predicate SameLegs(st: State, st': State) {
    st'.legs.Keys == st.legs.Keys && forall j | j in st.legs :: SameLeg(st'.legs[j], st.legs[j])
  }

  predicate SameUnderlyings(st: State, st': State) {
    && st'.underlyings.Keys == st.underlyings.Keys
    && forall id | id in st.underlyings :: SameBounds(st'.underlyings[id], st.underlyings[id])
  }

  lemma RecomputedLeaves(st: State, enabled: bool, k: LegKey)
    requires k in st.legs
    ensures SameLegs(st, Recomputed(st, enabled, k)) && SameUnderlyings(st, Recomputed(st, enabled, k))
  {
    var id := st.legs[k].underlying;
    if id != 0 && id in st.underlyings {
      var ready := WithDelta(st, id);
      SizedAllMeans(ready, enabled, Some(ready.underlyings[id]), ready.underlyings[id].legs);
    }
  }

  // ----- exposure ---------------------------------------------------------------------------------

  /** The position of the leg is what was bought less what was sold, as reported; nothing else of this leg but
      the tick size, and nothing of any other leg, is another than before, but for quotes and deltas. */
  lemma ExposureIsPosition(st: State, enabled: bool, k: LegKey, buy: Double, sell: Double, tickSize: Double)
    ensures var after := After(st, enabled, OnExposure(k, buy, sell, tickSize));
            && after.legs.Keys == st.legs.Keys + {k} && SameUnderlyings(st, after)
            && Position(after.legs[k]) == Sub(buy, sell) && after.legs[k].tickSize == tickSize
            && SameTerms(after.legs[k], LegOf(st, k)) && after.legs[k].market == LegOf(st, k).market
            && forall j | j in st.legs && j != k :: SameLeg(after.legs[j], st.legs[j])
  {
    var leg := WithPosition(LegOf(st, k).(tickSize := tickSize), buy, sell);
    var told := st.(legs := st.legs[k := leg]);
    RecomputedLeaves(told, enabled, k);
    var after := Recomputed(told, enabled, k);
    assert SameLeg(after.legs[k], told.legs[k]);
    forall j | j in st.legs && j != k
      ensures SameLeg(after.legs[j], st.legs[j])
    {
      assert told.legs[j] == st.legs[j];
    }
  }

  /** A leg that can be sized, under bounds that can be used. */
  predicate Quotable(st: State, k: LegKey) {
    && k in st.legs && Sizable(st.legs[k])
    && (UnderlyingOf(st, st.legs[k]).Some? ==> Ranged(UnderlyingOf(st, st.legs[k]).value))
  }

  lemma OneSided(leg: Leg, enabled: bool, under: Option<Underlying>)
    requires Sizable(leg) && (under.Some? ==> Ranged(under.value)) && leg.exec == Sized(leg, enabled, under)
    ensures Position(leg).Finite?
    ensures Position(leg).value >= leg.target.value ==> !Offers(leg.exec.buy)
    ensures Position(leg).value <= leg.target.value ==> !Offers(leg.exec.sell)
  {
    BuyMeans(leg, under, 0.0);
    SellMeans(leg, under, 0.0);
  }

  lemma ExposedLegIsCurrent(st: State, enabled: bool, k: LegKey, buy: Double, sell: Double, tickSize: Double)
    requires Listed(st) && Consistent(st, enabled)
    ensures var after := After(st, enabled, OnExposure(k, buy, sell, tickSize));
            k in after.legs && LegCurrent(after, enabled, k)
  {
    ExposedIsConsistent(st, enabled, k, buy, sell, tickSize);
    ExposureIsPosition(st, enabled, k, buy, sell, tickSize);
  }

  /** A volume within the step and the way to the target from what is held, and that the delta may move by. */
  predicate RoomToBuy(leg: Leg, under: Option<Underlying>, held: real, x: real)
    requires Sizable(leg) && (under.Some? ==> Ranged(under.value))
  {
    x <= leg.buyVolume.value && x <= Larger(leg.target.value - held, 0.0) && MayGrow(leg, under, x)
  }

  predicate RoomToSell(leg: Leg, under: Option<Underlying>, held: real, x: real)
    requires Sizable(leg) && (under.Some? ==> Ranged(under.value))
  {
    x <= leg.sellVolume.value && x <= Larger(held - leg.target.value, 0.0) && MayShrink(leg, under, x)
  }

  lemma QuotesCover(leg: Leg, under: Option<Underlying>, held: real, x: real)
    requires Sizable(leg) && GoodMarket(leg) && (under.Some? ==> Ranged(under.value)) && leg.exec == Sized(leg, true, under)
    requires Position(leg) == Finite(held)
    ensures RoomToBuy(leg, under, held, x) ==> AtLeast(leg.exec.buy.volume, x - EPSILON)
    ensures RoomToSell(leg, under, held, x) ==> AtLeast(leg.exec.sell.volume, x - EPSILON)
  {
    assert Held(leg) == held;
    if RoomToBuy(leg, under, held, x) {
      BidIsForAll(leg, under, x);
    }
    if RoomToSell(leg, under, held, x) {
      AskIsForAll(leg, under, x);
    }
  }

  /** What a leg is short of its target is bid for, or long of it offered, as far as the step and the bounds
      of the delta allow. */
  predicate Covers(st: State, k: LegKey, held: real, x: real)
    requires Quotable(st, k)
  {
    var leg, under := st.legs[k], UnderlyingOf(st, st.legs[k]);
    && (RoomToBuy(leg, under, held, x) ==> AtLeast(leg.exec.buy.volume, x - EPSILON))
    && (RoomToSell(leg, under, held, x) ==> AtLeast(leg.exec.sell.volume, x - EPSILON))
  }

  lemma CurrentCovers(st: State, k: LegKey, held: real, x: real)
    requires Quotable(st, k) && GoodMarket(st.legs[k]) && LegCurrent(st, true, k) && Position(st.legs[k]) == Finite(held)
    ensures Covers(st, k, held, x)
  {
    QuotesCover(st.legs[k], UnderlyingOf(st, st.legs[k]), held, x);
  }

  lemma ExposedHolds(st: State, enabled: bool, k: LegKey, buy: real, sell: real, tickSize: Double)
    requires Listed(st) && Consistent(st, enabled)
    ensures var after := After(st, enabled, OnExposure(k, Finite(buy), Finite(sell), tickSize));
            k in after.legs && LegCurrent(after, enabled, k) && Position(after.legs[k]) == Finite(buy - sell)
  {
    ExposureIsPosition(st, enabled, k, Finite(buy), Finite(sell), tickSize);
    ExposedLegIsCurrent(st, enabled, k, Finite(buy), Finite(sell), tickSize);
  }

  /** So after an exposure update the quotes of the leg cover what the reported position is off its target. */
  lemma ExposureIsQuoted(st: State, k: LegKey, buy: real, sell: real, tickSize: Double, x: real)
    requires Listed(st) && Consistent(st, true)
    requires var after := After(st, true, OnExposure(k, Finite(buy), Finite(sell), tickSize));
             Quotable(after, k) && GoodMarket(after.legs[k])
    ensures Covers(After(st, true, OnExposure(k, Finite(buy), Finite(sell), tickSize)), k, buy - sell, x)
  {
    ExposedHolds(st, true, k, buy, sell, tickSize);
    CurrentCovers(After(st, true, OnExposure(k, Finite(buy), Finite(sell), tickSize)), k, buy - sell, x);
  }

  /** And a leg reported at its target or long of it is not bid for, one at it or short of it not offered, for
      more than the tolerance. */
  lemma ExposureIsReduced(st: State, enabled: bool, k: LegKey, buy: real, sell: real, tickSize: Double)
    requires Listed(st) && Consistent(st, enabled)
    requires Quotable(After(st, enabled, OnExposure(k, Finite(buy), Finite(sell), tickSize)), k)
    ensures var leg := After(st, enabled, OnExposure(k, Finite(buy), Finite(sell), tickSize)).legs[k];
            && (buy - sell >= leg.target.value ==> !Offers(leg.exec.buy))
            && (buy - sell <= leg.target.value ==> !Offers(leg.exec.sell))
  {
    var after := After(st, enabled, OnExposure(k, Finite(buy), Finite(sell), tickSize));
    ExposedHolds(st, enabled, k, buy, sell, tickSize);
    OneSided(after.legs[k], enabled, UnderlyingOf(after, after.legs[k]));
  }

  // ----- markets ----------------------------------------------------------------------------------

  /** The leg has the quotes as its market if they are for it, and else nothing but its own quotes has changed. */
  predicate MarketSet(a: Leg, b: Leg, concerned: bool, quotes: Option<BestQuotes>) {
    SameLeg(a, b.(market := if concerned then Brought(quotes, b.market) else b.market))
  }

  /** The quotes of an update, or what is known if it has none. */
  function Brought(quotes: Option<BestQuotes>, known: BestQuotes): BestQuotes { if quotes.Some? then quotes.value else known }

  lemma RequotedMeans(st: State, enabled: bool, k: LegKey, quotes: Option<BestQuotes>)
    requires k in st.legs
    ensures var after := Requoted(st, enabled, k, quotes);
            && after.legs.Keys == st.legs.Keys && SameUnderlyings(st, after)
            && forall j | j in st.legs :: MarketSet(after.legs[j], st.legs[j], j == k, quotes)
  {
    var told := st.(legs := st.legs[k := st.legs[k].(market := Brought(quotes, st.legs[k].market))]);
    RecomputedLeaves(told, enabled, k);
    var after := Recomputed(told, enabled, k);
    forall j | j in st.legs
      ensures MarketSet(after.legs[j], st.legs[j], j == k, quotes)
    {
      assert SameLeg(after.legs[j], told.legs[j]);
    }
  }

  lemma {:induction false} RequotedAllMeans(st: State, enabled: bool, keys: seq<LegKey>, quotes: Option<BestQuotes>)
    requires forall k | k in keys :: k in st.legs
    ensures var after := RequotedAll(st, enabled, keys, quotes);
            && after.legs.Keys == st.legs.Keys && SameUnderlyings(st, after)
            && forall j | j in st.legs :: MarketSet(after.legs[j], st.legs[j], j in keys, quotes)
  {
    if keys != [] {
      var n := |keys| - 1;
      var before := RequotedAll(st, enabled, keys[..n], quotes);
      assert keys[n] in keys && keys == keys[..n] + [keys[n]];
      RequotedAllMeans(st, enabled, keys[..n], quotes);
      RequotedMeans(before, enabled, keys[n], quotes);
      var after := RequotedAll(st, enabled, keys, quotes);
      forall j | j in st.legs
        ensures MarketSet(after.legs[j], st.legs[j], j in keys, quotes)
      {
        assert MarketSet(before.legs[j], st.legs[j], j in keys[..n], quotes);
      }
    }
  }

  /** The listed legs have the new quotes as their market, no other leg has another market, and no position and no terms
      change; the underlying of that market takes the quotes, and no other does. */
  lemma MarketIsSet(st: State, enabled: bool, market: nat, quotes: Option<BestQuotes>, order: seq<LegKey>)
    requires forall k | k in order :: k in st.legs
    ensures var after := After(st, enabled, OnMarket(market, quotes, order));
            && after.legs.Keys == st.legs.Keys && after.underlyings.Keys == st.underlyings.Keys
            && (forall j | j in st.legs :: MarketSet(after.legs[j], st.legs[j], j in order, quotes))
            && (forall id | id in st.underlyings ::
                  SameBounds(after.underlyings[id], if id == market then st.underlyings[id].(market := Brought(quotes, st.underlyings[id].market)) else st.underlyings[id]))
  {
    RequotedAllMeans(st, enabled, order, quotes);
    var before := RequotedAll(st, enabled, order, quotes);
    forall id | id in st.underlyings
      ensures SameBounds(After(st, enabled, OnMarket(market, quotes, order)).underlyings[id],
                         if id == market then st.underlyings[id].(market := Brought(quotes, st.underlyings[id].market)) else st.underlyings[id])
    {
      assert SameBounds(before.underlyings[id], st.underlyings[id]);
    }
  }

  lemma MarketLegsAreCurrent(st: State, enabled: bool, market: nat, quotes: BestQuotes, order: seq<LegKey>, k: LegKey)
    requires Listed(st) && Consistent(st, enabled) && k in RequotedAll(st, enabled, order, Some(quotes)).legs
    ensures LegCurrent(After(st, enabled, OnMarket(market, Some(quotes), order)), enabled, k)
  {
    RequotedAllIsConsistent(st, enabled, order, Some(quotes));
    var before := RequotedAll(st, enabled, order, Some(quotes));
    if market in before.underlyings {
      SpottedLeg(before, enabled, market, quotes, k);
    }
  }

  lemma StandingReads(a: Leg, b: Leg)
    requires SameLeg(a, b) && Uncrossed(b) && a.mode != NoMode
    ensures Uncrossed(a) && GoodMarket(a) == GoodMarket(b)
    ensures BidStands(a, a.exec.buy.price) == BidStands(b, a.exec.buy.price)
    ensures AskStands(a, a.exec.sell.price) == AskStands(b, a.exec.sell.price)
  {
  }

  lemma CurrentStands(leg: Leg, like: Leg, under: Option<Underlying>)
    requires leg.exec == Sized(leg, true, under) && SameLeg(leg, like) && Uncrossed(like) && GoodMarket(like) && like.mode != NoMode
    ensures Offers(leg.exec.buy) ==> BidStands(like, leg.exec.buy.price)
    ensures Offers(leg.exec.sell) ==> AskStands(like, leg.exec.sell.price)
  {
    StandingReads(leg, like);
    QuotesStand(leg, under);
  }

  /** So the quotes of those legs stand where their way of quoting says, in the market just reported. */
  lemma MarketMovesQuotes(st: State, market: nat, quotes: BestQuotes, order: seq<LegKey>, k: LegKey)
    requires Listed(st) && Consistent(st, true) && (forall j | j in order :: j in st.legs) && k in order
    requires var leg := st.legs[k].(market := quotes); Uncrossed(leg) && GoodMarket(leg) && leg.mode != NoMode
    ensures var after := After(st, true, OnMarket(market, Some(quotes), order));
            && k in after.legs && after.legs[k].market == quotes
            && (Offers(after.legs[k].exec.buy) ==> BidStands(st.legs[k].(market := quotes), after.legs[k].exec.buy.price))
            && (Offers(after.legs[k].exec.sell) ==> AskStands(st.legs[k].(market := quotes), after.legs[k].exec.sell.price))
  {
    MarketIsSet(st, true, market, Some(quotes), order);
    RequotedAllMeans(st, true, order, Some(quotes));
    MarketLegsAreCurrent(st, true, market, quotes, order, k);
    var after := After(st, true, OnMarket(market, Some(quotes), order));
    assert MarketSet(after.legs[k], st.legs[k], true, Some(quotes));
    CurrentStands(after.legs[k], st.legs[k].(market := quotes), UnderlyingOf(after, after.legs[k]));
  }

  // ----- what is sent -----------------------------------------------------------------------------

  /** An account to trade for, and a price on one side at least. */
  predicate WorthSending(k: LegKey, quotes: BestQuotes) {
    k.account != "" && (!quotes.buy.price.Empty? || !quotes.sell.price.Empty?)
  }

  /** The log went on by the quotes of the legs given, of just those that are worth it. */
  ghost predicate SentFor(st: State, st': State, keys: set<LegKey>) {
    && st.sent <= st'.sent
    && (forall t | t in st'.sent[|st.sent|..] ::
          t.key in keys && t.key in st'.legs && t.quotes == st'.legs[t.key].exec && WorthSending(t.key, t.quotes))
    && (forall k | k in keys && k in st'.legs && WorthSending(k, st'.legs[k].exec) ::
          Targets(k, st'.legs[k].exec) in st'.sent[|st.sent|..])
  }

  lemma SentOnce(st: State, enabled: bool, under: Option<Underlying>, k: LegKey)
    ensures SentFor(st, SizedLeg(st, enabled, under, k), {k})
  {
  }

  lemma Appended<T>(a: seq<T>, b: seq<T>, c: seq<T>)
    requires a <= b && b <= c
    ensures a <= c && forall x :: x in c[|a|..] <==> x in b[|a|..] || x in c[|b|..]
  {
    assert c[|a|..] == b[|a|..] + c[|b|..];
  }

  /** Sizing further legs that leave the quotes already sent as they are. */
  lemma SentBoth(st: State, st': State, st'': State, keys: set<LegKey>, k: LegKey)
    requires SentFor(st, st', keys) && SentFor(st', st'', {k}) && st'.legs.Keys == st''.legs.Keys
    requires forall j | j in keys && j in st'.legs :: st''.legs[j].exec == st'.legs[j].exec
    ensures SentFor(st, st'', keys + {k})
  {
    Appended(st.sent, st'.sent, st''.sent);
  }

  lemma {:induction false} SentAll(st: State, enabled: bool, under: Option<Underlying>, entries: seq<LegKey>)
    ensures SentFor(st, SizedAll(st, enabled, under, entries), set k | k in entries)
  {
    if entries != [] {
      var n := |entries| - 1;
      var done := set k | k in entries[..n];
      assert entries == entries[..n] + [entries[n]];
      assert (set k | k in entries) == done + {entries[n]};
      SentAll(st, enabled, under, entries[..n]);
      SizedAllMeans(st, enabled, under, entries[..n]);
      SizedAllMeans(st, enabled, under, entries);
      SentOnce(SizedAll(st, enabled, under, entries[..n]), enabled, under, entries[n]);
      SentBoth(st, SizedAll(st, enabled, under, entries[..n]), SizedAll(st, enabled, under, entries), done, entries[n]);
    }
  }

  /** The legs a change of one leg is sent for: all of its underlying, or itself if it has none. */
  function Affected(st: State, k: LegKey): set<LegKey>
    requires k in st.legs
  {
    var u := UnderlyingOf(st, st.legs[k]);
    if u.Some? then set j | j in u.value.legs else {k}
  }

  lemma RecomputedSends(st: State, enabled: bool, k: LegKey)
    requires k in st.legs
    ensures SentFor(st, Recomputed(st, enabled, k), Affected(st, k))
  {
    var id := st.legs[k].underlying;
    if id != 0 && id in st.underlyings {
      var ready := WithDelta(st, id);
      SentAll(ready, enabled, Some(ready.underlyings[id]), ready.underlyings[id].legs);
    } else {
      SentOnce(st, enabled, None, k);
    }
  }

  /** An exposure update sends the quotes that the affected legs then have, of those with an account and a
      price, and of no other. */
  lemma ExposureSends(st: State, enabled: bool, k: LegKey, buy: Double, sell: Double, tickSize: Double)
    ensures var after := After(st, enabled, OnExposure(k, buy, sell, tickSize));
            k in after.legs && SentFor(st, after, Affected(after, k))
  {
    var leg := WithPosition(LegOf(st, k).(tickSize := tickSize), buy, sell);
    var told := st.(legs := st.legs[k := leg]);
    RecomputedLeaves(told, enabled, k);
    RecomputedSends(told, enabled, k);
    var after := Recomputed(told, enabled, k);
    assert SameLeg(after.legs[k], told.legs[k]);
    assert UnderlyingOf(told, leg).Some? ==> SameBounds(after.underlyings[leg.underlying], told.underlyings[leg.underlying]);
  }

  /** Legs that are not affected are left as they are. */
  lemma RecomputedElsewhere(st: State, enabled: bool, k: LegKey, j: LegKey)
    requires k in st.legs && j in st.legs && j !in Affected(st, k)
    ensures j in Recomputed(st, enabled, k).legs && Recomputed(st, enabled, k).legs[j] == st.legs[j]
  {
    var id := st.legs[k].underlying;
    if id != 0 && id in st.underlyings {
      var ready := WithDelta(st, id);
      SizedAllMeans(ready, enabled, Some(ready.underlyings[id]), ready.underlyings[id].legs);
    }
  }

  /** The log went on by quotes worth it, and by the last ones of every leg affected. */
  ghost predicate SentForAll(st: State, st': State, keys: seq<LegKey>)
    requires forall k | k in keys :: k in st.legs
  {
    && st.sent <= st'.sent
    && (forall t | t in st'.sent[|st.sent|..] :: t.key in st'.legs && WorthSending(t.key, t.quotes))
    && (forall k, j | k in keys && j in Affected(st, k) && j in st'.legs && WorthSending(j, st'.legs[j].exec) ::
          Targets(j, st'.legs[j].exec) in st'.sent[|st.sent|..])
  }

  lemma SameAffected(st: State, st': State, k: LegKey)
    requires k in st.legs && k in st'.legs && SameUnderlyings(st, st') && st'.legs[k].underlying == st.legs[k].underlying
    ensures Affected(st', k) == Affected(st, k)
  {
    var id := st.legs[k].underlying;
    assert id in st.underlyings ==> SameBounds(st'.underlyings[id], st.underlyings[id]);
  }

  lemma RequotedSends(st: State, enabled: bool, k: LegKey, quotes: Option<BestQuotes>)
    requires k in st.legs
    ensures SentFor(st, Requoted(st, enabled, k, quotes), Affected(st, k))
    ensures forall j | j in st.legs && j !in Affected(st, k) && j != k ::
              j in Requoted(st, enabled, k, quotes).legs && Requoted(st, enabled, k, quotes).legs[j] == st.legs[j]
  {
    var told := st.(legs := st.legs[k := st.legs[k].(market := Brought(quotes, st.legs[k].market))]);
    SameAffected(st, told, k);
    RecomputedSends(told, enabled, k);
    forall j | j in st.legs && j !in Affected(st, k) && j != k
      ensures j in Requoted(st, enabled, k, quotes).legs && Requoted(st, enabled, k, quotes).legs[j] == st.legs[j]
    {
      RecomputedElsewhere(told, enabled, k, j);
    }
  }

  lemma SentOneMore(st: State, before: State, after: State, keys: seq<LegKey>, k: LegKey)
    requires (forall j | j in keys :: j in st.legs) && k in st.legs && st.legs.Keys == before.legs.Keys == after.legs.Keys
    requires SentForAll(st, before, keys) && SentFor(before, after, Affected(st, k)) && k in Affected(st, k)
    requires forall j | j in before.legs && j !in Affected(st, k) :: after.legs[j] == before.legs[j]
    ensures SentForAll(st, after, keys + [k])
  {
    Appended(st.sent, before.sent, after.sent);
  }

  lemma {:induction false} RequotedAllSends(st: State, enabled: bool, keys: seq<LegKey>, quotes: Option<BestQuotes>)
    requires forall k | k in keys :: k in st.legs && k in Affected(st, k)
    ensures SentForAll(st, RequotedAll(st, enabled, keys, quotes), keys)
  {
    if keys != [] {
      var n := |keys| - 1;
      var before := RequotedAll(st, enabled, keys[..n], quotes);
      assert keys[n] in keys && keys == keys[..n] + [keys[n]];
      RequotedAllSends(st, enabled, keys[..n], quotes);
      RequotedAllMeans(st, enabled, keys[..n], quotes);
      RequotedMeans(before, enabled, keys[n], quotes);
      RequotedSends(before, enabled, keys[n], quotes);
      SameAffected(st, before, keys[n]);
      SentOneMore(st, before, RequotedAll(st, enabled, keys, quotes), keys[..n], keys[n]);
    }
  }

  /** A market update sends nothing that is not worth it, and for every leg affected, with an account and a
      price, the quotes it has in the end. */
  lemma MarketSends(st: State, enabled: bool, market: nat, quotes: Option<BestQuotes>, order: seq<LegKey>)
    requires Listed(st) && forall k | k in order :: k in st.legs
    ensures SentForAll(st, After(st, enabled, OnMarket(market, quotes, order)), order)
  {
    forall k | k in order
      ensures k in Affected(st, k)
    {
    }
    RequotedAllSends(st, enabled, order, quotes);
  }
}
