/** The order manager as a state machine over all of its books.

    Every handler of the manager is a handful of the steps below, and every run of the manager is a
    sequence of them: a gateway event changes one book, and process is called on some books. */
module Oms {
  import opened Wrappers
  import opened Orders
  import opened Reconcile

  datatype BookKey = BookKey(strategy: nat, account: string, market: nat)

  datatype Level = Level(target: int, expected: int, confirmed: int)

  datatype BookState = BookState(
    orders: Book,
    levels: map<Cell, Level>,
    position: int,
    positionByAccount: int,
    banUntil: int,
    postFill: int,
    postCancel: int,
    banModify: bool)

  datatype Sent = Sent(key: BookKey, request: Request)

  datatype Trade = Trade(key: BookKey, id: OrderId, side: Side, price: int, quantity: int)

  datatype World = World(
    books: map<BookKey, BookState>,
    index: map<OrderId, BookKey>,
    maxId: nat,
    now: int,
    sent: seq<Sent>,
    trades: seq<Trade>)

  /** What a call of process learns from the gateways and the market data: whether orders can be
      created and canceled, whether the tick size is known, whether orders can be modified. */
  datatype Env = Env(ready: bool, tickKnown: bool, modifyReady: bool, minVolume: Option<int>)

  datatype AckStatus = AckRejected | AckAccepted | AckForwarded | AckOther

  datatype AckError = TooLateError | RateLimitError | NotReadyError | OtherError

  datatype Ack = Ack(id: OrderId, kind: RequestKind, version: nat, status: AckStatus, error: AckError)

  datatype Quote = Quote(price: Option<int>, volume: int)

  datatype Event =
    | Process(key: BookKey, env: Env)
    | OnReport(key: BookKey, report: Report)
    | OnAck(ack: Ack, rejectTimeout: int)
    | OnTargets(key: BookKey, buys: seq<Quote>, sells: seq<Quote>)
    | OnTimer(now: int)
    | OnDownloadBegin(account: string)
    | OnDownloadEnd(account: string, maxId: nat)
    | OnGatewayDown(account: string)
    | OnPosition(key: BookKey, byAccount: int)
    | OnBan(key: BookKey, until: int)
    | OnParameters(key: BookKey, postFill: int, postCancel: int, banModify: bool)

  const NEW_BOOK := BookState(map[], map[], 0, 0, 0, 0, 0, false)

  function Open(w: World, key: BookKey): BookState { if key in w.books then w.books[key] else NEW_BOOK }

  // ----- order reports ------------------------------------------------------------------------

  function AfterReport(orders: Book, u: Report): Book {
    if u.stale then orders - {u.id}
    else if u.id !in orders then
      if u.status == Working then orders[u.id := Adopted(u)] else orders
    else match u.status
      case Working => orders[u.id := Confirmed(orders[u.id], u)]
      case Completed | Canceled | Rejected => orders - {u.id}
      case _ => orders
  }

  /** The growth of an order's traded quantity that a report brings to the books. */
  function Fill(orders: Book, u: Report): int {
    if !u.stale && u.id in orders && (u.status == Working || u.status == Completed)
    then u.traded - orders[u.id].traded else 0
  }

  function Signed(side: Side, quantity: int): int { if side == Buy then quantity else -quantity }

  function ReportedBook(b: BookState, u: Report, now: int): BookState {
    var fill := Fill(b.orders, u);
    var canceled := !u.stale && u.id in b.orders && u.status == Canceled;
    b.(orders := AfterReport(b.orders, u),
       position := if fill > 0 then b.position + Signed(u.side, fill) else b.position,
       banUntil := if fill > 0 && b.postFill != 0 then now + b.postFill
                   else if canceled && b.postCancel != 0 then now + b.postCancel
                   else b.banUntil)
  }

  function ReportedIndex(index: map<OrderId, BookKey>, key: BookKey, orders: Book, u: Report): map<OrderId, BookKey> {
    if u.id !in AfterReport(orders, u) then index - {u.id}
    else if u.id in orders then index
    else index[u.id := key]
  }

  function ReportedTrades(key: BookKey, orders: Book, u: Report): seq<Trade> {
    var fill := Fill(orders, u);
    if fill > 0 then [Trade(key, u.id, u.side, u.lastPrice, fill)] else []
  }

  function AfterOrderReport(w: World, key: BookKey, u: Report): World {
    if key !in w.books then w else
    var b := w.books[key];
    w.(books := w.books[key := ReportedBook(b, u, w.now)],
       index := ReportedIndex(w.index, key, b.orders, u),
       trades := w.trades + ReportedTrades(key, b.orders, u))
  }

  // ----- acknowledgements ---------------------------------------------------------------------

  function AckedOrder(o: Order, a: Ack): Order {
    match a.status
    case AckRejected =>
      var settled := match a.kind
        case CancelOrder => CancelRejected(o)
        case ModifyOrder => ModifyRejected(o, a.version)
        case _ => o;
      if a.error == TooLateError then TooLate(settled) else settled
    case AckAccepted => o.(acceptVersion := a.version)
    case _ => o
  }

  predicate ErasedByAck(a: Ack) { a.status == AckRejected && a.kind == CreateOrder }

  predicate BannedByAck(a: Ack) { a.status == AckRejected && (a.error == RateLimitError || a.error == NotReadyError) }

  function AckedBook(b: BookState, a: Ack, until: int): BookState
    requires a.id in b.orders
  {
    b.(orders := if ErasedByAck(a) then b.orders - {a.id} else b.orders[a.id := AckedOrder(b.orders[a.id], a)],
       banUntil := if BannedByAck(a) then Max(b.banUntil, until) else b.banUntil)
  }

  function AfterAck(w: World, a: Ack, rejectTimeout: int): World {
    if a.id !in w.index || w.index[a.id] !in w.books then w else
    var key := w.index[a.id];
    var b := w.books[key];
    if a.id !in b.orders then w else
    w.(books := w.books[key := AckedBook(b, a, w.now + rejectTimeout)],
       index := if ErasedByAck(a) then w.index - {a.id} else w.index)
  }

  // ----- targets and the rest -----------------------------------------------------------------

  function LevelOf(levels: map<Cell, Level>, c: Cell): Level { if c in levels then levels[c] else Level(0, 0, 0) }

  function Untargeted(levels: map<Cell, Level>): map<Cell, Level> {
    map c | c in levels :: levels[c].(target := 0)
  }

  function WithQuotes(levels: map<Cell, Level>, side: Side, quotes: seq<Quote>): map<Cell, Level>
    decreases |quotes|
  {
    if quotes == [] then levels else
    var n := |quotes| - 1;
    var front := WithQuotes(levels, side, quotes[..n]);
    match quotes[n].price
    case None => front
    case Some(price) =>
      var c := Cell(side, price);
      front[c := LevelOf(front, c).(target := quotes[n].volume)]
  }

  function Retargeted(levels: map<Cell, Level>, buys: seq<Quote>, sells: seq<Quote>): map<Cell, Level> {
    WithQuotes(WithQuotes(Untargeted(levels), Buy, buys), Sell, sells)
  }

  function Cleared(b: BookState): BookState { b.(orders := map[]) }

  function Restarted(b: BookState): BookState { b.(orders := map[], position := 0, positionByAccount := 0) }

  function Snapshot(b: BookState): BookState { b.(position := b.positionByAccount) }

  /** Some change to every book of an account. */
  function OnAccount(w: World, account: string, change: BookState -> BookState): map<BookKey, BookState> {
    map k | k in w.books :: if k.account == account then change(w.books[k]) else w.books[k]
  }

  /** The index without the orders of an account. */
  function Forgotten(w: World, account: string): map<OrderId, BookKey> {
    map id | id in w.index && !(exists k :: k in w.books && k.account == account && id in w.books[k].orders) :: w.index[id]
  }

  function After(w: World, e: Event): World
    requires !e.Process?
  {
    match e
    case OnReport(key, u) => AfterOrderReport(w, key, u)
    case OnAck(a, timeout) => AfterAck(w, a, timeout)
    case OnTargets(key, buys, sells) =>
      var b := Open(w, key);
      w.(books := w.books[key := b.(levels := Retargeted(b.levels, buys, sells))])
    case OnTimer(now) => w.(now := now)
    case OnDownloadBegin(account) =>
      if account == "" then w else
      w.(books := OnAccount(w, account, Restarted),
         index := Forgotten(w, account))
    case OnDownloadEnd(account, maxId) =>
      var raised := w.(maxId := Max(w.maxId, maxId));
      if account == "" then raised else
      raised.(books := OnAccount(w, account, Snapshot))
    case OnGatewayDown(account) =>
      if account == "" then w else
      w.(books := OnAccount(w, account, Cleared), index := Forgotten(w, account))
    case OnPosition(key, byAccount) =>
      if key !in w.books then w else
      w.(books := w.books[key := w.books[key].(positionByAccount := byAccount)])
    case OnBan(key, until) =>
      if key !in w.books then w else
      w.(books := w.books[key := w.books[key].(banUntil := until)])
    case OnParameters(key, postFill, postCancel, banModify) =>
      w.(books := w.books[key := Open(w, key).(postFill := postFill, postCancel := postCancel, banModify := banModify)])
  }

  // ----- process ------------------------------------------------------------------------------

  predicate Skips(w: World, key: BookKey, env: Env)
    requires key in w.books
  {
    key.account == "" || !env.ready || !env.tickKnown || w.now < w.books[key].banUntil
  }

  function PolicyOf(b: BookState, env: Env): Policy {
    Policy(map c | c in b.levels :: b.levels[c].target, !b.banModify && env.modifyReady, env.minVolume)
  }

  function ConfirmedAt(c: Cell): Order -> int {
    (o: Order) => if o.Live() && o.Where() == c then o.confirmed.quantity else 0
  }

  ghost function ConfirmedAcc(tr: seq<Book>, c: Cell): int {
    if tr == [] then 0 else ConfirmedAcc(tr[..|tr| - 1], c) + Sum(Last(tr), ConfirmedAt(c))
  }

  ghost function Counters(pol: Policy, tr: seq<Book>, c: Cell): Level {
    Level(pol.Target(c), Acc(tr, c), ConfirmedAcc(tr, c))
  }

  /** After a call the levels on record are exactly those with something to show. */
  ghost predicate LevelsLeft(levels: map<Cell, Level>, pol: Policy, tr: seq<Book>) {
    forall c: Cell ::
      && (c in levels <==> Counters(pol, tr, c) != Level(0, 0, 0))
      && (c in levels ==> levels[c] == Counters(pol, tr, c))
  }

  function Tagged(key: BookKey, requests: seq<Request>): seq<Sent> {
    seq(|requests|, i requires 0 <= i < |requests| => Sent(key, requests[i]))
  }

  function WithIds(index: map<OrderId, BookKey>, key: BookKey, maxId: nat, count: nat): map<OrderId, BookKey> {
    if count == 0 then index else WithIds(index, key, maxId, count - 1)[maxId + count := key]
  }

  ghost predicate Processed(w: World, key: BookKey, env: Env, tr: seq<Book>, acts: seq<OrderId>, plan: seq<Cell>, w': World)
    requires key in w.books
  {
    var b := w.books[key];
    var pol := PolicyOf(b, env);
    && key in w'.books
    && var b' := w'.books[key];
    && Call(pol, b.orders, w.maxId, tr, acts, plan, b'.orders)
    && LevelsLeft(b'.levels, pol, tr)
    && b' == b.(orders := b'.orders, levels := b'.levels, banUntil := 0)
    && w' == w.(books := w.books[key := b'],
                index := WithIds(w.index, key, w.maxId, |plan|),
                maxId := w.maxId + |plan|,
                sent := w.sent + Tagged(key, ActRequests(tr, acts) + CreateRequests(pol, tr, w.maxId, plan)))
  }

  ghost predicate Next(w: World, e: Event, w': World) {
    if e.Process? then
      e.key in w.books
      && if Skips(w, e.key, e.env) then w' == w
         else exists tr, acts, plan :: Processed(w, e.key, e.env, tr, acts, plan, w')
    else w' == After(w, e)
  }

  /** A run: the worlds before, between and after its events. */
  ghost predicate Run(ws: seq<World>, es: seq<Event>) {
    && |ws| == |es| + 1
    && forall i | 0 <= i < |es| :: Next(ws[i], es[i], ws[i + 1])
  }
}
