/** End to end: the sizing of one leg drives the targets of one book, whose orders trade at an exchange.
    The book is one that never modifies orders. */
module Liquidation {
  import opened Totals
  import opened Wrappers
  import opened Orders
  import opened Reconcile
  import Doubles
  import Sizing
  import Oms

  // ----- the exchange -------------------------------------------------------------------------

  /** What every order may still trade at the exchange; nothing for orders it does not know. */
  type Open = map<OrderId, int>

  function Left(open: Open, id: OrderId): int { if id in open then open[id] else 0 }

  /** How much may trade on a side without the position changing sign. */
  function Room(position: int, s: Side): int { if s == Buy then Max(0, -position) else Max(0, position) }

  function Part(b: Book, open: Open, s: Side, id: OrderId): int {
    if id in b && b[id].side == s then Left(open, id) else 0
  }

  ghost function Parts(b: Book, open: Open, s: Side, ids: set<OrderId>): map<OrderId, int> {
    map id | id in ids :: Part(b, open, s, id)
  }

  ghost function OpenOn(b: Book, open: Open, s: Side): int { Total(Parts(b, open, s, b.Keys)) }

  /** Keys without value do not count. */
  lemma {:induction false} TotalPad<K(!new)>(m: map<K, int>, wide: map<K, int>)
    requires m.Keys <= wide.Keys
    requires forall k | k in wide :: wide[k] == if k in m then m[k] else 0
    ensures Total(wide) == Total(m)
    decreases |wide|
  {
    if k :| k in wide && k !in m {
      TotalRemove(wide, k);
      TotalPad(m, wide - {k});
    } else {
      assert wide == m;
    }
  }

  lemma SameOpen(b: Book, open: Open, b': Book, open': Open, s: Side)
    requires forall id :: Part(b', open', s, id) == Part(b, open, s, id)
    ensures OpenOn(b', open', s) == OpenOn(b, open, s)
  {
    var all := b.Keys + b'.Keys;
    assert Parts(b', open', s, all) == Parts(b, open, s, all);
    TotalPad(Parts(b, open, s, b.Keys), Parts(b, open, s, all));
    TotalPad(Parts(b', open', s, b'.Keys), Parts(b', open', s, all));
  }

  /** What is known of one order: it was never modified, a cancel went out only for a confirmed version,
      and the exchange has no more of it left than the manager must reckon with. */
  predicate Covered(o: Order, left: int) {
    && o.pending.kind != ModifyOrder
    && (o.pending.kind == CancelOrder ==> o.confirmed.version != 0)
    && 0 <= left <= Worst(o, o.side)
  }

  predicate Bounded(open: Open, b: Book) {
    && (forall id | id in b :: Covered(b[id], Left(open, id)))
    && (forall id | id in open && id !in b :: open[id] == 0)
  }

  /** No order, nor all orders of a side together, can take the position through zero. */
  ghost predicate Safe(b: Book, open: Open, position: int) {
    && Sound(b) && Versioned(b) && Bounded(open, b)
    && (forall s :: OpenOn(b, open, s) <= Room(position, s))
  }

  lemma SafeAgain(b: Book, open: Open, position: int, b': Book)
    requires Safe(b, open, position)
    requires Sound(b') && Versioned(b') && Bounded(open, b')
    requires forall s, id :: Part(b', open, s, id) == Part(b, open, s, id)
    ensures Safe(b', open, position)
  {
    forall s
      ensures OpenOn(b', open, s) <= Room(position, s)
    {
      SameOpen(b, open, b', open, s);
    }
  }

  // ----- fills --------------------------------------------------------------------------------

  lemma OpenIsAtLeast(b: Book, open: Open, s: Side, id: OrderId)
    requires Bounded(open, b)
    ensures Part(b, open, s, id) <= OpenOn(b, open, s) && 0 <= OpenOn(b, open, s)
  {
    var parts: map<OrderId, int> := Parts(b, open, s, b.Keys);
    TotalBounds(parts);
    if id in b {
      assert parts[id] == Part(b, open, s, id);
    }
  }

  lemma OpenAfterFill(b: Book, open: Open, id: OrderId, quantity: int, s: Side)
    requires id in b
    ensures OpenOn(b, open[id := Left(open, id) - quantity], s) == OpenOn(b, open, s) - (if b[id].side == s then quantity else 0)
  {
    var parts := Parts(b, open, s, b.Keys);
    var open' := open[id := Left(open, id) - quantity];
    TotalUpdate(parts, id, Part(b, open', s, id));
    assert Parts(b, open', s, b.Keys) == parts[id := Part(b, open', s, id)];
  }

  /** A fill brings the position nearer to zero, never through it. */
  lemma FillIsSafe(b: Book, open: Open, position: int, id: OrderId, quantity: int)
    requires Safe(b, open, position) && id in b && 0 < quantity <= Left(open, id)
    ensures var position' := position + Oms.Signed(b[id].side, quantity);
            && (position >= 0 ==> 0 <= position' < position)
            && (position <= 0 ==> position < position' <= 0)
            && Safe(b, open[id := Left(open, id) - quantity], position')
  {
    OpenIsAtLeast(b, open, b[id].side, id);
    var open' := open[id := Left(open, id) - quantity];
    assert Bounded(open', b) by {
      assert Covered(b[id], Left(open, id));
    }
    forall s
      ensures OpenOn(b, open', s) <= Room(position + Oms.Signed(b[id].side, quantity), s)
    {
      OpenAfterFill(b, open, id, quantity, s);
    }
  }

  // ----- answers ------------------------------------------------------------------------------

  /** What the exchange may truthfully report: an order that is gone trades no more, one that works has
      no more left than reported, and no foreign order trades on this book. */
  predicate TrueReport(b: Book, open: Open, u: Report) {
    && (u.stale || (u.id in b && (u.status == Completed || u.status == Canceled || u.status == Rejected)) ==> Left(open, u.id) == 0)
    && (!u.stale && u.status == Working ==>
          Left(open, u.id) <= u.remaining && 0 <= u.remaining && u.maxAccepted != 0 && (u.id in b ==> u.side == b[u.id].side))
  }

  lemma ReportIsSafe(b: Book, open: Open, position: int, u: Report)
    requires Safe(b, open, position) && TrueReport(b, open, u)
    ensures Safe(Oms.AfterReport(b, u), open, position)
  {
    var b' := Oms.AfterReport(b, u);
    assert forall id | id in b' && id != u.id :: id in b && b'[id] == b[id];
    if u.id in b' {
      if u.id in b {
        assert Covered(b[u.id], Left(open, u.id));
      }
      assert SoundOrder(u.id, b'[u.id]) && Covered(b'[u.id], Left(open, u.id));
    }
    SafeAgain(b, open, position, b');
  }

  /** A truthful refusal: an order that could not be created, or that it was too late to change, trades
      no more, and only an order that exists can be refused a change. */
  predicate TrueAck(o: Order, left: int, a: Oms.Ack) {
    a.status == Oms.AckRejected ==>
      && (a.kind == CreateOrder || a.error == Oms.TooLateError ==> left == 0)
      && (a.kind != CreateOrder ==> o.pending.kind != CreateOrder)
  }

  lemma AckedStaysCovered(id: OrderId, o: Order, left: int, a: Oms.Ack)
    requires SoundOrder(id, o) && Covered(o, left) && TrueAck(o, left, a)
    requires o.Live() && !o.InFlight() ==> o.confirmed.version != 0
    requires !Oms.ErasedByAck(a)
    ensures var q := Oms.AckedOrder(o, a);
            && SoundOrder(id, q) && Covered(q, left) && q.side == o.side
            && (q.Live() && !q.InFlight() ==> q.confirmed.version != 0)
  {
  }

  lemma AckIsSafe(b: Book, open: Open, position: int, a: Oms.Ack)
    requires Safe(b, open, position) && a.id in b && TrueAck(b[a.id], Left(open, a.id), a)
    ensures Safe(if Oms.ErasedByAck(a) then b - {a.id} else b[a.id := Oms.AckedOrder(b[a.id], a)], open, position)
  {
    var b' := if Oms.ErasedByAck(a) then b - {a.id} else b[a.id := Oms.AckedOrder(b[a.id], a)];
    assert SoundOrder(a.id, b[a.id]) && Covered(b[a.id], Left(open, a.id));
    if !Oms.ErasedByAck(a) {
      AckedStaysCovered(a.id, b[a.id], Left(open, a.id), a);
    }
    SafeAgain(b, open, position, b');
  }

  // ----- process ------------------------------------------------------------------------------

  /** Orders just created may trade in full from then on. */
  ghost function Sent(open: Open, b: Book, b': Book): Open {
    map id | id in open.Keys + b'.Keys :: if id in b' && id !in b then b'[id].pending.quantity else Left(open, id)
  }

  /** How a call leaves an order: as it was, asked to cancel, or new, with what is missing at a level
      of the plan. */
  ghost predicate CallLeaves(b: Book, plan: seq<Cell>, id: OrderId, q: Order) {
    if id in b then q == b[id] || (b[id].Free() && q == CancelAsked(b[id]))
    else exists c, quantity :: c in plan && quantity > 0 && q == Created(id, c, quantity)
  }

  lemma CallLeavesOrders(pol: Policy, b: Book, maxId: nat, tr: seq<Book>, acts: seq<OrderId>, plan: seq<Cell>, b': Book)
    requires Call(pol, b, maxId, tr, acts, plan, b') && Below(b, maxId) && !pol.modifiable
    ensures b.Keys <= b'.Keys && forall id | id in b' :: CallLeaves(b, plan, id, b'[id])
  {
    OneRequestEach(pol, tr, acts);
    CreatesAdd(pol, tr, maxId, plan);
    forall id | id in b'
      ensures CallLeaves(b, plan, id, b'[id])
    {
      if id in b {
        assert id in acts ==> TouchedOnce(pol, b[id], b'[id]);
      } else {
        var c := plan[id - maxId - 1];
        assert c in plan && b'[id] == Created(id, c, Gap(pol, tr, c));
      }
    }
  }

  lemma LeftIsCovered(b: Book, open: Open, plan: seq<Cell>, id: OrderId, q: Order)
    requires Sound(b) && Bounded(open, b) && CallLeaves(b, plan, id, q)
    ensures Covered(q, if id in b then Left(open, id) else q.pending.quantity)
  {
    if id in b {
      assert SoundOrder(id, b[id]) && Covered(b[id], Left(open, id));
    }
  }

  lemma CallIsBounded(b: Book, open: Open, plan: seq<Cell>, b': Book)
    requires Sound(b) && Bounded(open, b) && b.Keys <= b'.Keys && forall id | id in b' :: CallLeaves(b, plan, id, b'[id])
    ensures Bounded(Sent(open, b, b'), b')
  {
    forall id | id in b'
      ensures Covered(b'[id], Left(Sent(open, b, b'), id))
    {
      LeftIsCovered(b, open, plan, id, b'[id]);
    }
  }

  lemma WorstCoversOpen(b: Book, open: Open, s: Side)
    requires Bounded(open, b)
    ensures OpenOn(b, open, s) <= Exposure(b, s)
  {
    forall id | id in b
      ensures Part(b, open, s, id) <= WorstOn(s)(b[id])
    {
      assert Covered(b[id], Left(open, id));
    }
    TotalMono(Parts(b, open, s, b.Keys), Spread(b, WorstOn(s)));
  }

  lemma NothingNewOn(b: Book, open: Open, plan: seq<Cell>, b': Book, s: Side)
    requires b.Keys <= b'.Keys && forall id | id in b' :: CallLeaves(b, plan, id, b'[id])
    requires forall c :: c in plan ==> c.side != s
    ensures OpenOn(b', Sent(open, b, b'), s) == OpenOn(b, open, s)
  {
    forall id: OrderId
      ensures Part(b', Sent(open, b, b'), s, id) == Part(b, open, s, id)
    {
      if id in b' {
        assert CallLeaves(b, plan, id, b'[id]);
      }
    }
    SameOpen(b, open, b', Sent(open, b, b'), s);
  }

  /** A call with targets that fit the position stays safe: where it creates, the worst case is within
      the targets; where it does not, nothing new can trade. */
  lemma CallIsSafe(pol: Policy, b: Book, open: Open, position: int, maxId: nat, tr: seq<Book>, acts: seq<OrderId>, plan: seq<Cell>, b': Book)
    requires Call(pol, b, maxId, tr, acts, plan, b') && Below(b, maxId) && !pol.modifiable && LongOnly(pol)
    requires Safe(b, open, position) && forall s :: SideTarget(pol, s) <= Room(position, s)
    ensures Safe(b', Sent(open, b, b'), position) && Below(b', maxId + |plan|)
  {
    PassesSound(pol, tr, acts);
    CreatesSound(pol, tr, maxId, plan);
    CallLeavesOrders(pol, b, maxId, tr, acts, plan, b');
    CallIsBounded(b, open, plan, b');
    forall s
      ensures OpenOn(b', Sent(open, b, b'), s) <= Room(position, s)
    {
      if exists c :: c in plan && c.side == s {
        WorstCaseIsCovered(pol, b, maxId, tr, acts, plan, b', s);
        WorstCoversOpen(b', Sent(open, b, b'), s);
      } else {
        NothingNewOn(b, open, plan, b', s);
      }
    }
  }

  // ----- targets ------------------------------------------------------------------------------

  ghost function TargetsOf(levels: map<Cell, Oms.Level>): Policy {
    Policy(map c | c in levels :: levels[c].target, false, None)
  }

  /** The targets of a side come to no more than the room there is, and none is negative. */
  ghost predicate Fits(levels: map<Cell, Oms.Level>, position: int) {
    && (forall c | c in levels :: levels[c].target >= 0)
    && (forall s :: SideTarget(TargetsOf(levels), s) <= Room(position, s))
  }

  ghost function SideTargets(levels: map<Cell, Oms.Level>, s: Side): map<Cell, int> {
    map c | c in levels :: if c.side == s then levels[c].target else 0
  }

  lemma SideTargetsAre(pol: Policy, levels: map<Cell, Oms.Level>, s: Side)
    requires pol.targets == map c | c in levels :: levels[c].target
    ensures SideTarget(pol, s) == Total(SideTargets(levels, s))
  {
    assert SideTargets(levels, s) == map c | c in pol.targets :: if c.side == s then pol.targets[c] else 0;
  }

  /** One quote a side sets one target a side. */
  function Volume(q: Oms.Quote): int { if q.price.Some? then q.volume else 0 }

  lemma OneQuoteEach(levels: map<Cell, Oms.Level>, buy: Oms.Quote, sell: Oms.Quote, s: Side)
    ensures Total(SideTargets(Oms.Retargeted(levels, [buy], [sell]), s)) == Volume(if s == Buy then buy else sell)
    ensures forall c | c in Oms.Retargeted(levels, [buy], [sell]) ::
              Oms.Retargeted(levels, [buy], [sell])[c].target in {0, Volume(buy), Volume(sell)}
  {
    var flat := Oms.Untargeted(levels);
    assert [buy][..0] == [] && [sell][..0] == [];
    assert Oms.WithQuotes(flat, Buy, [buy][..0]) == flat;
    var bought := Oms.WithQuotes(flat, Buy, [buy]);
    assert Oms.WithQuotes(bought, Sell, [sell][..0]) == bought;
    var after := Oms.WithQuotes(bought, Sell, [sell]);
    TotalZero(SideTargets(flat, s));
    OneQuote(flat, Buy, buy, s);
    OneQuote(bought, Sell, sell, s);
  }

  lemma OneQuote(levels: map<Cell, Oms.Level>, side: Side, q: Oms.Quote, s: Side)
    requires q.price.Some? && Cell(side, q.price.value) in levels ==> levels[Cell(side, q.price.value)].target == 0
    ensures Total(SideTargets(Oms.WithQuotes(levels, side, [q]), s)) == Total(SideTargets(levels, s)) + if s == side then Volume(q) else 0
    ensures forall c | c in Oms.WithQuotes(levels, side, [q]) ::
              if c in levels && !(q.price.Some? && c == Cell(side, q.price.value)) then Oms.WithQuotes(levels, side, [q])[c] == levels[c]
              else Oms.WithQuotes(levels, side, [q])[c].target == Volume(q) && c.side == side
  {
    assert [q][..0] == [];
    assert Oms.WithQuotes(levels, side, [q][..0]) == levels;
    if q.price.Some? {
      var c := Cell(side, q.price.value);
      var v := if s == side then q.volume else 0;
      TotalUpdate(SideTargets(levels, s), c, v);
      assert SideTargets(Oms.WithQuotes(levels, side, [q]), s) == SideTargets(levels, s)[c := v];
    }
  }

  // ----- sizing and targets -------------------------------------------------------------------

  /** A quote of the leg as the book gets it: in ticks and whole lots. */
  predicate InLots(q: Doubles.Quote, d: Oms.Quote) {
    && (d.price.None? <==> q.price.Empty?)
    && (d.price.Some? ==> d.volume >= 0 && q.volume == Doubles.Finite(d.volume as real))
  }

  /** The leg liquidates the position, and its quotes are those of its sizing. */
  predicate Liquidates(leg: Sizing.Leg, enabled: bool, under: Option<Sizing.Underlying>, position: int) {
    && Sizing.Sizable(leg) && (under.Some? ==> Sizing.Ranged(under.value))
    && Sizing.Position(leg) == Doubles.Finite(position as real) && leg.target == Doubles.ZERO
    && leg.exec == Sizing.Sized(leg, enabled, under)
  }

  /** The way from a position to a target of zero. */
  lemma WayIs(leg: Sizing.Leg, position: int)
    requires Sizing.Sizable(leg) && Sizing.Position(leg) == Doubles.Finite(position as real) && leg.target == Doubles.ZERO
    ensures leg.target.value - Sizing.Position(leg).value == (-position) as real
    ensures Sizing.Position(leg).value - leg.target.value == position as real
  {
  }

  lemma VolumesAreBounded(leg: Sizing.Leg, under: Option<Sizing.Underlying>, need: real, excess: real)
    requires Sizing.Sizable(leg) && (under.Some? ==> Sizing.Ranged(under.value)) && Sizing.Position(leg).Finite?
    requires leg.target.value - Sizing.Position(leg).value == need && Sizing.Position(leg).value - leg.target.value == excess
    ensures OnTheWay(leg, under, need, excess)
  {
    Sizing.BuyMeans(leg, under, 0.0);
    Sizing.SellMeans(leg, under, 0.0);
  }

  /** What is on the way to a target of zero, for either side. */
  predicate OnTheWay(leg: Sizing.Leg, under: Option<Sizing.Underlying>, need: real, excess: real) {
    && Sizing.BuyVolume(leg, under).Finite? && Sizing.BuyVolume(leg, under).value <= Sizing.Larger(need, 0.0) + Doubles.EPSILON
    && Sizing.SellVolume(leg, under).Finite? && Sizing.SellVolume(leg, under).value <= Sizing.Larger(excess, 0.0) + Doubles.EPSILON
  }

  lemma VolumesAreOnTheWay(leg: Sizing.Leg, under: Option<Sizing.Underlying>, position: int)
    requires Sizing.Sizable(leg) && (under.Some? ==> Sizing.Ranged(under.value))
    requires Sizing.Position(leg) == Doubles.Finite(position as real) && leg.target == Doubles.ZERO
    ensures OnTheWay(leg, under, (-position) as real, position as real)
  {
    WayIs(leg, position);
    VolumesAreBounded(leg, under, (-position) as real, position as real);
  }

  lemma LotsAreOnTheWay(volume: Doubles.Double, way: int, lots: int)
    requires volume == Doubles.Finite(lots as real) && volume.value <= Sizing.Larger(way as real, 0.0) + Doubles.EPSILON
    ensures lots <= Max(0, way)
  {
  }

  lemma QuotedVolumes(leg: Sizing.Leg, enabled: bool, under: Option<Sizing.Underlying>)
    requires leg.exec == Sizing.Sized(leg, enabled, under)
    ensures !leg.exec.buy.price.Empty? ==> leg.exec.buy.volume == Sizing.BuyVolume(leg, under)
    ensures !leg.exec.sell.price.Empty? ==> leg.exec.sell.volume == Sizing.SellVolume(leg, under)
  {
  }

  lemma BuyLotsFit(leg: Sizing.Leg, enabled: bool, under: Option<Sizing.Underlying>, position: int, buy: Oms.Quote)
    requires OnTheWay(leg, under, (-position) as real, position as real) && leg.exec == Sizing.Sized(leg, enabled, under)
    requires InLots(leg.exec.buy, buy)
    ensures 0 <= Volume(buy) <= Room(position, Buy)
  {
    if buy.price.Some? {
      QuotedVolumes(leg, enabled, under);
      LotsAreOnTheWay(Sizing.BuyVolume(leg, under), -position, buy.volume);
    }
  }

  lemma SellLotsFit(leg: Sizing.Leg, enabled: bool, under: Option<Sizing.Underlying>, position: int, sell: Oms.Quote)
    requires OnTheWay(leg, under, (-position) as real, position as real) && leg.exec == Sizing.Sized(leg, enabled, under)
    requires InLots(leg.exec.sell, sell)
    ensures 0 <= Volume(sell) <= Room(position, Sell)
  {
    if sell.price.Some? {
      QuotedVolumes(leg, enabled, under);
      LotsAreOnTheWay(Sizing.SellVolume(leg, under), position, sell.volume);
    }
  }

  /** Whole lots leave no place for the tolerance: what is quoted fits the position. */
  lemma LotsFit(leg: Sizing.Leg, enabled: bool, under: Option<Sizing.Underlying>, position: int, buy: Oms.Quote, sell: Oms.Quote)
    requires Liquidates(leg, enabled, under, position) && InLots(leg.exec.buy, buy) && InLots(leg.exec.sell, sell)
    ensures 0 <= Volume(buy) <= Room(position, Buy) && 0 <= Volume(sell) <= Room(position, Sell)
  {
    VolumesAreOnTheWay(leg, under, position);
    BuyLotsFit(leg, enabled, under, position, buy);
    SellLotsFit(leg, enabled, under, position, sell);
  }

  lemma TargetsFit(levels: map<Cell, Oms.Level>, position: int, buy: Oms.Quote, sell: Oms.Quote)
    requires 0 <= Volume(buy) <= Room(position, Buy) && 0 <= Volume(sell) <= Room(position, Sell)
    ensures Fits(Oms.Retargeted(levels, [buy], [sell]), position)
  {
    var after := Oms.Retargeted(levels, [buy], [sell]);
    forall s
      ensures SideTarget(TargetsOf(after), s) <= Room(position, s)
    {
      OneQuoteEach(levels, buy, sell, s);
      SideTargetsAre(TargetsOf(after), after, s);
    }
    OneQuoteEach(levels, buy, sell, Buy);
  }

  // ----- the whole ----------------------------------------------------------------------------

  /** The order manager, the exchange, and whether a fill has yet to be taken into account by the sizing. */
  datatype State = State(w: Oms.World, open: Open, position: int, stale: bool)

  datatype Step =
    | Fill(id: OrderId, quantity: int)
    | Retarget(leg: Sizing.Leg, enabled: bool, under: Option<Sizing.Underlying>, buy: Oms.Quote, sell: Oms.Quote)
    | Manager(event: Oms.Event)

  function OrdersOf(st: State, key: Oms.BookKey): Book { Oms.Open(st.w, key).orders }

  /** Answers are truthful, the book is not processed on stale targets, nobody else sets its targets or
      allows modification, and its account is not disconnected. */
  predicate Honest(key: Oms.BookKey, st: State, e: Oms.Event) {
    match e
    case Process(k, _) => k == key ==> !st.stale
    case OnReport(k, u) => k == key ==> TrueReport(OrdersOf(st, key), st.open, u) && u.id <= st.w.maxId
    case OnAck(a, _) => a.id in OrdersOf(st, key) ==> TrueAck(OrdersOf(st, key)[a.id], Left(st.open, a.id), a)
    case OnTargets(k, _, _) => k != key
    case OnParameters(k, _, _, banModify) => k == key ==> banModify
    case OnDownloadBegin(account) => account != key.account
    case OnGatewayDown(account) => account != key.account
    case _ => true
  }

  ghost predicate Moves(key: Oms.BookKey, st: State, step: Step, st': State) {
    match step
    case Fill(id, quantity) =>
      var b := OrdersOf(st, key);
      && id in b && 0 < quantity <= Left(st.open, id)
      && st' == st.(open := st.open[id := Left(st.open, id) - quantity],
                    position := st.position + Oms.Signed(b[id].side, quantity), stale := true)
    case Retarget(leg, enabled, under, buy, sell) =>
      && Liquidates(leg, enabled, under, st.position) && InLots(leg.exec.buy, buy) && InLots(leg.exec.sell, sell)
      && (buy.price.Some? || sell.price.Some?)
      && st' == st.(w := Oms.After(st.w, Oms.OnTargets(key, [buy], [sell])), stale := false)
    case Manager(e) =>
      && Oms.Next(st.w, e, st'.w) && Honest(key, st, e)
      && st' == st.(w := st'.w, open := if e.Process? && e.key == key then Sent(st.open, OrdersOf(st, key), OrdersOf(st', key)) else st.open)
  }

  ghost predicate Inv(key: Oms.BookKey, st: State) {
    var b := Oms.Open(st.w, key);
    && Safe(b.orders, st.open, st.position) && Below(b.orders, st.w.maxId) && b.banModify
    && (!st.stale ==> Fits(b.levels, st.position))
  }

  /** Whatever leaves the book's orders safe and its targets and parameters alone keeps the invariant. */
  lemma InvAgain(key: Oms.BookKey, st: State, st': State)
    requires Inv(key, st) && st'.position == st.position && st'.stale == st.stale
    requires Oms.Open(st'.w, key).banModify && Oms.Open(st'.w, key).levels == Oms.Open(st.w, key).levels
    requires Safe(OrdersOf(st', key), st'.open, st'.position) && Below(OrdersOf(st', key), st'.w.maxId)
    ensures Inv(key, st')
  {
  }

  lemma FillKeepsInv(key: Oms.BookKey, st: State, step: Step, st': State)
    requires Inv(key, st) && step.Fill? && Moves(key, st, step, st')
    ensures Inv(key, st')
  {
    FillIsSafe(OrdersOf(st, key), st.open, st.position, step.id, step.quantity);
  }

  lemma RetargetedBook(w: Oms.World, key: Oms.BookKey, buy: Oms.Quote, sell: Oms.Quote)
    ensures var b, w' := Oms.Open(w, key), Oms.After(w, Oms.OnTargets(key, [buy], [sell]));
            w'.maxId == w.maxId && Oms.Open(w', key) == b.(levels := Oms.Retargeted(b.levels, [buy], [sell]))
  {
  }

  lemma RetargetKeepsInv(key: Oms.BookKey, st: State, step: Step, st': State)
    requires Inv(key, st) && step.Retarget? && Moves(key, st, step, st')
    ensures Inv(key, st')
  {
    LotsFit(step.leg, step.enabled, step.under, st.position, step.buy, step.sell);
    RetargetedBook(st.w, key, step.buy, step.sell);
    TargetsFit(Oms.Open(st.w, key).levels, st.position, step.buy, step.sell);
  }

  lemma ReportKeepsInv(key: Oms.BookKey, st: State, e: Oms.Event, st': State)
    requires Inv(key, st) && e.OnReport? && Moves(key, st, Manager(e), st')
    ensures Inv(key, st')
  {
    if e.key == key && key in st.w.books {
      var b := OrdersOf(st, key);
      ReportIsSafe(b, st.open, st.position, e.report);
      assert OrdersOf(st', key) == Oms.AfterReport(b, e.report);
      InvAgain(key, st, st');
    }
  }

  lemma AckKeepsInv(key: Oms.BookKey, st: State, e: Oms.Event, st': State)
    requires Inv(key, st) && e.OnAck? && Moves(key, st, Manager(e), st')
    ensures Inv(key, st')
  {
    var a := e.ack;
    if a.id in st.w.index && st.w.index[a.id] == key && key in st.w.books && a.id in OrdersOf(st, key) {
      AckIsSafe(OrdersOf(st, key), st.open, st.position, a);
      InvAgain(key, st, st');
    }
  }

  lemma OtherKeepsInv(key: Oms.BookKey, st: State, e: Oms.Event, st': State)
    requires Inv(key, st) && Moves(key, st, Manager(e), st') && !e.Process? && !e.OnReport? && !e.OnAck?
    ensures Inv(key, st')
  {
    InvAgain(key, st, st');
  }

  lemma TargetsStay(levels: map<Cell, Oms.Level>, pol: Policy, tr: seq<Book>, levels': map<Cell, Oms.Level>, position: int)
    requires pol.targets == (map c | c in levels :: levels[c].target) && Oms.LevelsLeft(levels', pol, tr) && Fits(levels, position)
    ensures Fits(levels', position) && LongOnly(pol)
    ensures forall s :: SideTarget(pol, s) <= Room(position, s)
  {
    forall s
      ensures SideTarget(TargetsOf(levels'), s) == SideTarget(TargetsOf(levels), s) == SideTarget(pol, s)
    {
      var all := map c: Cell | c in levels.Keys + levels'.Keys :: if c.side == s then pol.Target(c) else 0;
      TotalPad(SideTargets(levels, s), all);
      TotalPad(SideTargets(levels', s), all);
      SideTargetsAre(TargetsOf(levels), levels, s);
      SideTargetsAre(TargetsOf(levels'), levels', s);
      SideTargetsAre(pol, levels, s);
    }
  }

  lemma NothingSent(b: Book, open: Open, position: int)
    requires Safe(b, open, position)
    ensures Safe(b, Sent(open, b, b), position)
  {
    CallIsBounded(b, open, [], b);
    forall s
      ensures OpenOn(b, Sent(open, b, b), s) <= Room(position, s)
    {
      NothingNewOn(b, open, [], b, s);
    }
  }

  lemma ProcessedKeepsInv(key: Oms.BookKey, st: State, env: Oms.Env, tr: seq<Book>, acts: seq<OrderId>, plan: seq<Cell>, st': State)
    requires Inv(key, st) && key in st.w.books && !st.stale && Oms.Processed(st.w, key, env, tr, acts, plan, st'.w)
    requires st' == st.(w := st'.w, open := Sent(st.open, OrdersOf(st, key), OrdersOf(st', key)))
    ensures Inv(key, st')
  {
    var b, b' := st.w.books[key], st'.w.books[key];
    var pol := Oms.PolicyOf(b, env);
    TargetsStay(b.levels, pol, tr, b'.levels, st.position);
    CallIsSafe(pol, b.orders, st.open, st.position, st.w.maxId, tr, acts, plan, b'.orders);
  }

  lemma ProcessKeepsInv(key: Oms.BookKey, st: State, e: Oms.Event, st': State)
    requires Inv(key, st) && e.Process? && Moves(key, st, Manager(e), st')
    ensures Inv(key, st')
  {
    if Oms.Skips(st.w, e.key, e.env) {
      if e.key == key {
        NothingSent(OrdersOf(st, key), st.open, st.position);
      }
      InvAgain(key, st, st');
    } else {
      var tr, acts, plan :| Oms.Processed(st.w, e.key, e.env, tr, acts, plan, st'.w);
      if e.key == key {
        ProcessedKeepsInv(key, st, e.env, tr, acts, plan, st');
      } else {
        InvAgain(key, st, st');
      }
    }
  }

  lemma MovesKeepInv(key: Oms.BookKey, st: State, step: Step, st': State)
    requires Inv(key, st) && Moves(key, st, step, st')
    ensures Inv(key, st')
  {
    match step
    case Fill(_, _) => FillKeepsInv(key, st, step, st');
    case Retarget(_, _, _, _, _) => RetargetKeepsInv(key, st, step, st');
    case Manager(e) =>
      match e
      case Process(_, _) => ProcessKeepsInv(key, st, e, st');
      case OnReport(_, _) => ReportKeepsInv(key, st, e, st');
      case OnAck(_, _) => AckKeepsInv(key, st, e, st');
      case _ => OtherKeepsInv(key, st, e, st');
  }

  /** Nearer to zero on the same side, or where it was. */
  predicate NotFurther(position: int, position': int) {
    if position >= 0 then 0 <= position' <= position else position <= position' <= 0
  }

  lemma MovesNotFurther(key: Oms.BookKey, st: State, step: Step, st': State)
    requires Inv(key, st) && Moves(key, st, step, st')
    ensures NotFurther(st.position, st'.position)
  {
    if step.Fill? {
      FillIsSafe(OrdersOf(st, key), st.open, st.position, step.id, step.quantity);
    }
  }

  ghost predicate MovesAt(key: Oms.BookKey, sts: seq<State>, steps: seq<Step>, i: nat)
    requires i < |steps| && i + 1 < |sts|
  {
    Moves(key, sts[i], steps[i], sts[i + 1])
  }

  ghost predicate Run(key: Oms.BookKey, sts: seq<State>, steps: seq<Step>) {
    && |sts| == |steps| + 1
    && forall i | 0 <= i < |steps| :: MovesAt(key, sts, steps, i)
  }

  lemma {:induction false} RunKeepsInv(key: Oms.BookKey, sts: seq<State>, steps: seq<Step>, i: nat)
    requires Run(key, sts, steps) && i < |sts| && Inv(key, sts[0])
    ensures Inv(key, sts[i])
  {
    if i > 0 {
      RunKeepsInv(key, sts, steps, i - 1);
      assert MovesAt(key, sts, steps, i - 1);
      MovesKeepInv(key, sts[i - 1], steps[i - 1], sts[i]);
    }
  }

  lemma {:induction false} NeverFurther(ps: seq<int>, i: nat, j: nat)
    requires forall k | 0 <= k < |ps| - 1 :: NotFurther(ps[k], ps[k + 1])
    requires i <= j < |ps|
    ensures NotFurther(ps[i], ps[j])
  {
    if i < j {
      NeverFurther(ps, i, j - 1);
      assert NotFurther(ps[j - 1], ps[j - 1 + 1]);
    }
  }

  lemma StepNotFurther(key: Oms.BookKey, sts: seq<State>, steps: seq<Step>, i: nat)
    requires Run(key, sts, steps) && i < |steps| && Inv(key, sts[0])
    ensures NotFurther(sts[i].position, sts[i + 1].position)
  {
    RunKeepsInv(key, sts, steps, i);
    assert MovesAt(key, sts, steps, i);
    MovesNotFurther(key, sts[i], steps[i], sts[i + 1]);
  }

  ghost function Positions(sts: seq<State>): (ps: seq<int>)
    ensures |ps| == |sts| && forall k | 0 <= k < |sts| :: ps[k] == sts[k].position
  {
    seq(|sts|, k requires 0 <= k < |sts| => sts[k].position)
  }

  /** End to end: over every interleaving of fills, target updates, calls of process and answers, the
      position never changes sign and its size never grows. */
  lemma PositionNeverGrows(key: Oms.BookKey, sts: seq<State>, steps: seq<Step>, i: nat, j: nat)
    requires Run(key, sts, steps) && i <= j < |sts| && Inv(key, sts[0])
    ensures NotFurther(sts[i].position, sts[j].position)
  {
    var ps := Positions(sts);
    forall k | 0 <= k < |ps| - 1
      ensures NotFurther(ps[k], ps[k + 1])
    {
      StepNotFurther(key, sts, steps, k);
    }
    NeverFurther(ps, i, j);
  }

  /** A run may begin with any position, in a book without orders and targets. */
  lemma BeginsSafe(key: Oms.BookKey, w: Oms.World, position: int)
    requires key in w.books && w.books[key].orders == map[] && w.books[key].levels == map[] && w.books[key].banModify
    ensures Inv(key, State(w, map[], position, false))
  {
    var b := w.books[key];
    forall s
      ensures OpenOn(b.orders, map[], s) == 0 && SideTarget(TargetsOf(b.levels), s) == 0
    {
      assert Parts(b.orders, map[], s, b.orders.Keys) == map[];
      SideTargetsAre(TargetsOf(b.levels), b.levels, s);
      assert SideTargets(b.levels, s) == map[];
    }
  }

  // ----- calls on stale targets -------------------------------------------------------------------

  predicate NoneLive(b: Book) { forall id | id in b :: !b[id].Live() }

  /** A level whose target is worth an order. */
  predicate WorthAnOrder(pol: Policy, c: Cell) {
    pol.Target(c) > 0 && (pol.minVolume.Some? ==> pol.Target(c) >= pol.minVolume.value)
  }

  ghost function Worthwhile(pol: Policy, s: Side): map<Cell, int> {
    map c | c in pol.targets :: if c.side == s && WorthAnOrder(pol, c) then pol.targets[c] else 0
  }

  /** What the targets of a side come to, those not worth an order left out. */
  ghost function WorthOf(pol: Policy, s: Side): int { Total(Worthwhile(pol, s)) }

  lemma NoneLiveRests(b: Book)
    requires NoneLive(b)
    ensures forall c: Cell :: Rest(b, c) == 0
    ensures forall s: Side :: Exposure(b, s) == 0 && !Busy(b, s)
  {
    forall c: Cell
      ensures Rest(b, c) == 0
    {
      TotalZero(Spread(b, RestingAt(c)));
    }
    forall s: Side
      ensures Exposure(b, s) == 0
    {
      TotalZero(Spread(b, WorstOn(s)));
    }
  }

  /** With no live order a call cancels nothing and creates for every level worth an order. */
  lemma CallOnEmptyBook(pol: Policy, b: Book, maxId: nat, tr: seq<Book>, acts: seq<OrderId>, plan: seq<Cell>, b': Book)
    requires Call(pol, b, maxId, tr, acts, plan, b') && NoneLive(b) && LongOnly(pol)
    ensures acts == [] && tr == [b] && Distinct(plan)
    ensures forall c: Cell :: Gap(pol, tr, c) == pol.Target(c) && (c in plan <==> WorthAnOrder(pol, c))
  {
    NoneLiveRests(b);
    SettledNeedsNoActs(pol, b, tr, acts);
    FirstPassCountsOnce(b);
    forall c: Cell
      ensures c in plan <==> WorthAnOrder(pol, c)
    {
      assert c in plan <==> Wanted(pol, tr, c);
    }
  }

  ghost function Planned(pol: Policy, plan: seq<Cell>, s: Side): map<Cell, int> {
    map c | c in pol.targets :: if c.side == s && c in plan then pol.targets[c] else 0
  }

  lemma OneMoreExposed(b: Book, id: OrderId, c: Cell, quantity: int, s: Side)
    requires id !in b && quantity > 0
    ensures Exposure(b[id := Created(id, c, quantity)], s) == Exposure(b, s) + if c.side == s then quantity else 0
  {
    SumUpdate(b, id, Created(id, c, quantity), WorstOn(s));
  }

  lemma OneMorePlanned(pol: Policy, front: seq<Cell>, c: Cell, s: Side)
    requires c in pol.targets && c !in front
    ensures Total(Planned(pol, front + [c], s)) == Total(Planned(pol, front, s)) + if c.side == s then pol.targets[c] else 0
  {
    var v := if c.side == s then pol.targets[c] else 0;
    TotalUpdate(Planned(pol, front, s), c, v);
    assert Planned(pol, front + [c], s) == Planned(pol, front, s)[c := v];
  }

  lemma LastCreate(pol: Policy, tr: seq<Book>, maxId: nat, plan: seq<Cell>)
    requires tr != [] && plan != []
    ensures var n := |plan|;
            WithCreates(pol, tr, maxId, plan)
            == WithCreates(pol, tr, maxId, plan[..n - 1])[maxId + n := Created(maxId + n, plan[n - 1], Gap(pol, tr, plan[n - 1]))]
  {
  }

  lemma NextIdIsNew(pol: Policy, tr: seq<Book>, maxId: nat, front: seq<Cell>)
    requires tr != [] && Below(Last(tr), maxId)
    ensures maxId + |front| + 1 !in WithCreates(pol, tr, maxId, front)
  {
    CreatesAdd(pol, tr, maxId, front);
  }

  ghost function GapsOn(pol: Policy, tr: seq<Book>, plan: seq<Cell>, s: Side): int {
    if plan == [] then 0 else
    var n := |plan| - 1;
    GapsOn(pol, tr, plan[..n], s) + if plan[n].side == s then Gap(pol, tr, plan[n]) else 0
  }

  /** Creates expose a side to what they create there. */
  lemma {:induction false} CreatesExpose(pol: Policy, tr: seq<Book>, maxId: nat, plan: seq<Cell>, s: Side)
    requires tr != [] && Below(Last(tr), maxId) && forall i | 0 <= i < |plan| :: Gap(pol, tr, plan[i]) > 0
    ensures Exposure(WithCreates(pol, tr, maxId, plan), s) == Exposure(Last(tr), s) + GapsOn(pol, tr, plan, s)
  {
    if plan != [] {
      var n := |plan| - 1;
      CreatesExpose(pol, tr, maxId, plan[..n], s);
      NextIdIsNew(pol, tr, maxId, plan[..n]);
      LastCreate(pol, tr, maxId, plan);
      OneMoreExposed(WithCreates(pol, tr, maxId, plan[..n]), maxId + n + 1, plan[n], Gap(pol, tr, plan[n]), s);
    }
  }

  lemma {:induction false} GapsAreTargets(pol: Policy, tr: seq<Book>, plan: seq<Cell>, s: Side)
    requires Distinct(plan) && forall i | 0 <= i < |plan| :: plan[i] in pol.targets && Gap(pol, tr, plan[i]) == pol.targets[plan[i]]
    ensures GapsOn(pol, tr, plan, s) == Total(Planned(pol, plan, s))
  {
    if plan == [] {
      TotalZero(Planned(pol, plan, s));
    } else {
      var n := |plan| - 1;
      var front := plan[..n];
      GapsAreTargets(pol, tr, front, s);
      assert plan == front + [plan[n]] && plan[n] !in front;
      OneMorePlanned(pol, front, plan[n], s);
    }
  }

  lemma PlanExposure(pol: Policy, b: Book, maxId: nat, plan: seq<Cell>, s: Side)
    requires Below(b, maxId) && Distinct(plan) && NoneLive(b)
    requires forall c | c in plan :: c in pol.targets && pol.targets[c] > 0 && Gap(pol, [b], c) == pol.targets[c]
    ensures Exposure(WithCreates(pol, [b], maxId, plan), s) == Total(Planned(pol, plan, s))
  {
    forall i | 0 <= i < |plan|
      ensures plan[i] in pol.targets && Gap(pol, [b], plan[i]) == pol.targets[plan[i]] > 0
    {
      assert plan[i] in plan;
    }
    NoneLiveRests(b);
    CreatesExpose(pol, [b], maxId, plan, s);
    GapsAreTargets(pol, [b], plan, s);
  }

  /** A book none of whose orders was live, after a call that only creates. */
  lemma CreatesAreCovered(b: Book, open: Open, plan: seq<Cell>, b': Book, s: Side)
    requires Sound(b) && Bounded(open, b) && NoneLive(b) && b.Keys <= b'.Keys
    requires forall id | id in b' :: if id in b then b'[id] == b[id] else CallLeaves(b, plan, id, b'[id])
    ensures Bounded(Sent(open, b, b'), b') && OpenOn(b', Sent(open, b, b'), s) == Exposure(b', s)
  {
    var open' := Sent(open, b, b');
    CallIsBounded(b, open, plan, b');
    forall id | id in b'
      ensures Part(b', open', s, id) == WorstOn(s)(b'[id])
    {
      if id in b {
        assert Covered(b[id], Left(open, id));
      } else {
        assert CallLeaves(b, plan, id, b'[id]);
      }
    }
    assert Parts(b', open', s, b'.Keys) == Spread(b', WorstOn(s));
  }

  lemma OnlyCreated(pol: Policy, b: Book, maxId: nat, plan: seq<Cell>)
    requires Below(b, maxId) && forall c | c in plan :: Gap(pol, [b], c) > 0
    ensures var b' := WithCreates(pol, [b], maxId, plan);
            b.Keys <= b'.Keys && forall id | id in b' :: if id in b then b'[id] == b[id] else CallLeaves(b, plan, id, b'[id])
  {
    CreatesAdd(pol, [b], maxId, plan);
    var b' := WithCreates(pol, [b], maxId, plan);
    forall id | id in b' && id !in b
      ensures CallLeaves(b, plan, id, b'[id])
    {
      var c := plan[id - maxId - 1];
      assert c in plan && b'[id] == Created(id, c, Gap(pol, [b], c));
    }
  }

  /** A call on a book without live orders is safe, whatever the targets and however stale, exactly when
      on each side the targets worth an order fit the position. */
  lemma CallIsSafeIff(pol: Policy, b: Book, open: Open, position: int, maxId: nat, tr: seq<Book>, acts: seq<OrderId>, plan: seq<Cell>, b': Book)
    requires Call(pol, b, maxId, tr, acts, plan, b') && NoneLive(b) && LongOnly(pol)
    requires Sound(b) && Below(b, maxId) && Bounded(open, b)
    ensures forall s :: OpenOn(b', Sent(open, b, b'), s) == WorthOf(pol, s)
    ensures Safe(b', Sent(open, b, b'), position) <==> forall s :: WorthOf(pol, s) <= Room(position, s)
  {
    CallOnEmptyBook(pol, b, maxId, tr, acts, plan, b');
    CreatesSound(pol, tr, maxId, plan);
    OnlyCreated(pol, b, maxId, plan);
    forall s
      ensures OpenOn(b', Sent(open, b, b'), s) == WorthOf(pol, s)
    {
      CreatesAreCovered(b, open, plan, b', s);
      PlanExposure(pol, b, maxId, plan, s);
      assert Planned(pol, plan, s) == Worthwhile(pol, s);
    }
    CreatesAreCovered(b, open, plan, b', Buy);
  }
}
