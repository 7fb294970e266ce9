/** What the events of a book lead to, in terms of its levels, its worst case, its bans and its position. */
module Reports {
  import opened Wrappers
  import opened Orders
  import opened Reconcile
  import opened Oms
  import opened Runs

  // ----- reports ----------------------------------------------------------------------------------

  /** What an order with the given id holds at a level, and may turn out to hold on a side. */
  function Held(b: Book, id: OrderId, c: Cell): int { if id in b then At(b[id], c) else 0 }

  function Worth(b: Book, id: OrderId, s: Side): int { if id in b then Worst(b[id], s) else 0 }

  function SideOf(b: Book, u: Report): Side { if u.id in b then b[u.id].side else u.side }

  /** A report that an order works, and one that it is gone. */
  predicate Works(u: Report) { !u.stale && u.status == Working }

  predicate Gone(b: Book, u: Report) {
    u.stale || (u.id in b && (u.status == Completed || u.status == Canceled || u.status == Rejected))
  }

  /** One order replaced, added or taken away. */
  lemma OneOrderMoves(b: Book, b': Book, id: OrderId)
    requires forall j | j != id :: (j in b' <==> j in b) && (j in b ==> b'[j] == b[j])
    ensures forall c: Cell :: Rest(b', c) == Rest(b, c) - Held(b, id, c) + Held(b', id, c)
    ensures forall s: Side :: Exposure(b', s) == Exposure(b, s) - Worth(b, id, s) + Worth(b', id, s)
  {
    forall c: Cell
      ensures Rest(b', c) == Rest(b, c) - Held(b, id, c) + Held(b', id, c)
    {
      OneTermMoves(b, b', id, RestingAt(c));
    }
    forall s: Side
      ensures Exposure(b', s) == Exposure(b, s) - Worth(b, id, s) + Worth(b', id, s)
    {
      OneTermMoves(b, b', id, WorstOn(s));
    }
  }

  lemma OneTermMoves(b: Book, b': Book, id: OrderId, f: Order -> int)
    requires forall j | j != id :: (j in b' <==> j in b) && (j in b ==> b'[j] == b[j])
    ensures Sum(b', f) == Sum(b, f) - (if id in b then f(b[id]) else 0) + (if id in b' then f(b'[id]) else 0)
  {
    if id in b' {
      assert b' == b[id := b'[id]];
      SumUpdate(b, id, b'[id], f);
    } else if id in b {
      assert b' == b - {id};
      SumRemove(b, id, f);
    } else {
      assert b' == b;
    }
  }

  lemma ReportIsAbout(b: Book, u: Report)
    ensures var b' := AfterReport(b, u);
            && (forall j | j != u.id :: (j in b' <==> j in b) && (j in b ==> b'[j] == b[j]))
            && (Works(u) ==> u.id in b' && forall c: Cell :: Held(b', u.id, c) == if c == Cell(SideOf(b, u), u.price) then u.remaining else 0)
            && (Works(u) ==> forall s: Side :: Worth(b', u.id, s) == if s == SideOf(b, u) then u.remaining else 0)
            && (!Works(u) && Gone(b, u) ==> u.id !in b')
            && (!Works(u) && !Gone(b, u) ==> b' == b)
  {
  }

  /** A working order, known or not, leaves the level it held and rests with what remains at the reported
      price; one that is gone leaves its level; any other report moves nothing. */
  lemma ReportMovesLevels(w: World, key: BookKey, u: Report, w': World)
    requires key in w.books && Next(w, OnReport(key, u), w')
    ensures key in w'.books
    ensures var b, b' := w.books[key].orders, w'.books[key].orders;
            && (Works(u) ==> forall c: Cell ::
                  Rest(b', c) == Rest(b, c) - Held(b, u.id, c) + if c == Cell(SideOf(b, u), u.price) then u.remaining else 0)
            && (Works(u) ==> forall s: Side ::
                  Exposure(b', s) == Exposure(b, s) - Worth(b, u.id, s) + if s == SideOf(b, u) then u.remaining else 0)
            && (!Works(u) && Gone(b, u) ==> forall c: Cell :: Rest(b', c) == Rest(b, c) - Held(b, u.id, c))
            && (!Works(u) && Gone(b, u) ==> forall s: Side :: Exposure(b', s) == Exposure(b, s) - Worth(b, u.id, s))
            && (!Works(u) && !Gone(b, u) ==> b' == b)
  {
    var b, b' := w.books[key].orders, w'.books[key].orders;
    assert b' == AfterReport(b, u);
    ReportIsAbout(b, u);
    OneOrderMoves(b, b', u.id);
  }

  /** A working order can be touched again, on the version and from the traded quantity reported; requests are
      numbered on from those sent for it, or from the last one answered if it was not known. */
  lemma ReportFrees(w: World, key: BookKey, u: Report, w': World)
    requires key in w.books && Next(w, OnReport(key, u), w') && Works(u)
    ensures Holds(w', key, u.id)
    ensures var o := w'.books[key].orders[u.id];
            && o.Live() && !o.InFlight() && (o.Free() <==> u.maxAccepted != 0)
            && o.confirmed.version == u.maxAccepted && o.traded == u.traded
            && (!Holds(w, key, u.id) ==> o.remaining == u.remaining)
            && o.pending.version == (if Holds(w, key, u.id) then w.books[key].orders[u.id].pending.version else u.maxResponse)
            && o.rejects == if Holds(w, key, u.id) then w.books[key].orders[u.id].rejects else 0
  {
  }

  // ----- acknowledgements -------------------------------------------------------------------------

  /** The acknowledgement is for an order of the book. */
  predicate Concerns(w: World, a: Ack, key: BookKey) { a.id in w.index && w.index[a.id] == key && Holds(w, key, a.id) }

  /** What the order holds once a change was refused: what was confirmed, or nothing if it was too late. */
  function Confirmed(o: Order, c: Cell): int {
    if o.Live() && c == Cell(o.side, o.confirmed.price) then o.confirmed.quantity else 0
  }

  predicate RefusesChange(a: Ack) { a.status == AckRejected && (a.kind == CancelOrder || a.kind == ModifyOrder) }

  lemma AckIsAbout(b: BookState, a: Ack, until: int)
    requires a.id in b.orders
    ensures var b' := AckedBook(b, a, until).orders;
            && (forall j | j != a.id :: (j in b' <==> j in b.orders) && (j in b.orders ==> b'[j] == b.orders[j]))
            && (a.status == AckRejected && a.kind == CreateOrder ==> a.id !in b')
            && (a.status == AckRejected && a.kind != CreateOrder ==> a.id in b')
            && (a.status == AckRejected && a.kind != CreateOrder && a.error == TooLateError ==> forall c: Cell :: Held(b', a.id, c) == 0)
            && (RefusesChange(a) && a.error != TooLateError ==>
                  !b'[a.id].InFlight() && forall c: Cell :: Held(b', a.id, c) == Confirmed(b.orders[a.id], c))
            && (a.status != AckRejected ==> forall c: Cell :: Held(b', a.id, c) == Held(b.orders, a.id, c))
  {
  }

  /** A refused change puts the order back to what was confirmed, a refused create and a change that came too
      late take it off its level, and no other acknowledgement moves a level. */
  lemma AckMovesLevels(w: World, a: Ack, timeout: int, key: BookKey, w': World)
    requires Concerns(w, a, key) && Next(w, OnAck(a, timeout), w')
    ensures key in w'.books
    ensures var b, b' := w.books[key].orders, w'.books[key].orders;
            && (RefusesChange(a) && a.error != TooLateError ==> forall c: Cell ::
                  Rest(b', c) == Rest(b, c) - Held(b, a.id, c) + Confirmed(b[a.id], c))
            && (a.status == AckRejected && (a.kind == CreateOrder || a.error == TooLateError) ==> forall c: Cell ::
                  Rest(b', c) == Rest(b, c) - Held(b, a.id, c))
            && (a.status != AckRejected ==> forall c: Cell :: Rest(b', c) == Rest(b, c))
  {
    AckIsAbout(w.books[key], a, w.now + timeout);
    OneOrderMoves(w.books[key].orders, w'.books[key].orders, a.id);
  }

  /** Refusals of modifies are counted, those of cancels are not; the versions answered are kept. */
  lemma AckCounts(w: World, a: Ack, timeout: int, key: BookKey, w': World)
    requires Concerns(w, a, key) && Next(w, OnAck(a, timeout), w') && Holds(w', key, a.id)
    ensures var o, o' := w.books[key].orders[a.id], w'.books[key].orders[a.id];
            && o'.rejects == o.rejects + (if a.status == AckRejected && a.kind == ModifyOrder then 1 else 0)
            && o'.pending.version == o.pending.version && o'.confirmed.version == o.confirmed.version && o'.traded == o.traded
            && o'.rejectVersion == (if a.status == AckRejected && a.kind == ModifyOrder then a.version else o.rejectVersion)
            && o'.acceptVersion == (if a.status == AckAccepted then a.version else o.acceptVersion)
            && (a.status == AckRejected && a.error == TooLateError ==> o'.confirmed.price == o.pending.price && o'.confirmed.quantity == 0)
  {
  }

  // ----- bans -------------------------------------------------------------------------------------

  predicate Able(key: BookKey, env: Env) { key.account != "" && env.ready && env.tickKnown }

  /** A call at some later time does nothing while the ban lasts, or where it is unable to, and is made, and
      lifts the ban, once it is over. */
  ghost predicate Heeds(w: World, key: BookKey, till: int, now: int, env: Env, w': World) {
    Next(After(w, OnTimer(now)), Process(key, env), w') ==>
      && (now < till || !Able(key, env) ==> w' == After(w, OnTimer(now)))
      && (now >= till && Able(key, env) ==> key in w'.books && w'.books[key].banUntil == 0)
  }

  /** Until the given time no call does anything, and from then on calls are made and the ban is lifted. */
  ghost predicate BannedTill(w: World, key: BookKey, till: int) {
    key in w.books && forall now: int, env: Env, w': World :: Heeds(w, key, till, now, env, w')
  }

  lemma BanIsHeeded(w: World, key: BookKey, now: int, env: Env, w': World)
    requires key in w.books
    ensures Heeds(w, key, w.books[key].banUntil, now, env, w')
  {
  }

  lemma BanIs(w: World, key: BookKey)
    requires key in w.books
    ensures BannedTill(w, key, w.books[key].banUntil)
  {
    forall now: int, env: Env, w': World
      ensures Heeds(w, key, w.books[key].banUntil, now, env, w')
    {
      BanIsHeeded(w, key, now, env, w');
    }
  }

  /** A fill bans the book for its fill timeout, a cancellation for its cancel timeout. */
  lemma ReportBans(w: World, key: BookKey, u: Report, w': World)
    requires Holds(w, key, u.id) && !u.stale && Next(w, OnReport(key, u), w')
    ensures var b := w.books[key];
            && ((u.status == Working || u.status == Completed) && u.traded > b.orders[u.id].traded && b.postFill != 0 ==>
                  BannedTill(w', key, w.now + b.postFill))
            && (u.status == Canceled && b.postCancel != 0 ==> BannedTill(w', key, w.now + b.postCancel))
            && (u.status != Canceled && u.traded <= b.orders[u.id].traded ==> BannedTill(w', key, b.banUntil))
  {
    BanIs(w', key);
  }

  lemma BanIsStored(w: World, key: BookKey, until: int, w': World)
    requires key in w.books && Next(w, OnBan(key, until), w')
    ensures key in w'.books && w'.books[key].banUntil == until
  {
  }

  /** A ban from outside holds instead of the one before; the timeouts last set are those a report bans for. */
  lemma BanIsSet(w: World, key: BookKey, until: int, w': World)
    requires key in w.books && Next(w, OnBan(key, until), w')
    ensures BannedTill(w', key, until)
  {
    BanIsStored(w, key, until, w');
    BanIs(w', key);
  }

  lemma TimeoutsAreStored(w: World, key: BookKey, postFill: int, postCancel: int, banModify: bool, w': World, id: OrderId)
    requires Next(w, OnParameters(key, postFill, postCancel, banModify), w') && Holds(w, key, id)
    ensures Holds(w', key, id) && w'.books[key].orders == w.books[key].orders && w'.now == w.now
    ensures w'.books[key].postFill == postFill && w'.books[key].postCancel == postCancel
  {
  }

  lemma TimeoutsAreSet(w: World, key: BookKey, postFill: int, postCancel: int, banModify: bool, w': World, u: Report, w'': World)
    requires Next(w, OnParameters(key, postFill, postCancel, banModify), w') && Next(w', OnReport(key, u), w'')
    requires Holds(w, key, u.id) && !u.stale
    ensures u.status == Working && u.traded > w.books[key].orders[u.id].traded && postFill != 0 ==> BannedTill(w'', key, w.now + postFill)
    ensures u.status == Canceled && postCancel != 0 ==> BannedTill(w'', key, w.now + postCancel)
  {
    TimeoutsAreStored(w, key, postFill, postCancel, banModify, w', u.id);
    ReportBans(w', key, u, w'');
  }

  /** A rejection for the rate limit, or because the gateway is not ready, bans for the reject timeout at
      least, and never cuts a ban short. Other acknowledgements leave the ban alone. */
  lemma AckBans(w: World, a: Ack, timeout: int, key: BookKey, w': World)
    requires Concerns(w, a, key) && Next(w, OnAck(a, timeout), w')
    ensures key in w'.books && BannedTill(w', key, w'.books[key].banUntil)
    ensures if a.status == AckRejected && (a.error == RateLimitError || a.error == NotReadyError)
            then w'.books[key].banUntil >= w.now + timeout && w'.books[key].banUntil >= w.books[key].banUntil
                 && (w'.books[key].banUntil == w.now + timeout || w'.books[key].banUntil == w.books[key].banUntil)
            else w'.books[key].banUntil == w.books[key].banUntil
  {
    BanIs(w', key);
  }

  // ----- targets ----------------------------------------------------------------------------------

  /** The last quote of a list for a price is the `i`-th. */
  predicate LastFor(quotes: seq<Quote>, price: int, i: nat) {
    i < |quotes| && quotes[i].price == Some(price) && forall j | i < j < |quotes| :: quotes[j].price != Some(price)
  }

  predicate Quoted(quotes: seq<Quote>, price: int) { exists q :: q in quotes && q.price == Some(price) }

  lemma {:induction false} QuotesKeep(levels: map<Cell, Level>, side: Side, quotes: seq<Quote>, c: Cell)
    ensures var after := WithQuotes(levels, side, quotes);
            && LevelOf(after, c).expected == LevelOf(levels, c).expected && LevelOf(after, c).confirmed == LevelOf(levels, c).confirmed
            && (c.side != side || !Quoted(quotes, c.price) ==> LevelOf(after, c) == LevelOf(levels, c))
    decreases |quotes|
  {
    if quotes != [] {
      QuotesKeep(levels, side, quotes[..|quotes| - 1], c);
      assert quotes[|quotes| - 1] in quotes;
    }
  }

  lemma {:induction false} LastQuoteSets(levels: map<Cell, Level>, side: Side, quotes: seq<Quote>, price: int, i: nat)
    requires LastFor(quotes, price, i)
    ensures LevelOf(WithQuotes(levels, side, quotes), Cell(side, price)).target == quotes[i].volume
    decreases |quotes|
  {
    if i < |quotes| - 1 {
      assert LastFor(quotes[..|quotes| - 1], price, i);
      LastQuoteSets(levels, side, quotes[..|quotes| - 1], price, i);
    }
  }

  /** New quotes replace all targets: each level has the volume of the last quote for it, every other has
      target zero, and the counters are kept. */
  lemma TargetsAreQuotes(w: World, key: BookKey, buys: seq<Quote>, sells: seq<Quote>, w': World, c: Cell)
    requires Next(w, OnTargets(key, buys, sells), w')
    ensures key in w'.books && w'.books[key].orders == Open(w, key).orders
    ensures var l, l' := LevelOf(Open(w, key).levels, c), LevelOf(w'.books[key].levels, c);
            var quotes := if c.side == Buy then buys else sells;
            && l'.expected == l.expected && l'.confirmed == l.confirmed
            && (!Quoted(quotes, c.price) ==> l'.target == 0)
            && (forall i: nat | LastFor(quotes, c.price, i) :: l'.target == quotes[i].volume)
  {
    var flat := Untargeted(Open(w, key).levels);
    var bid := WithQuotes(flat, Buy, buys);
    QuotesKeep(flat, Buy, buys, c);
    QuotesKeep(bid, Sell, sells, c);
    var quotes := if c.side == Buy then buys else sells;
    forall i: nat | LastFor(quotes, c.price, i)
      ensures LevelOf(WithQuotes(bid, Sell, sells), c).target == quotes[i].volume
    {
      if c.side == Buy {
        LastQuoteSets(flat, Buy, buys, c.price, i);
      } else {
        LastQuoteSets(bid, Sell, sells, c.price, i);
      }
    }
  }

  // ----- downloads --------------------------------------------------------------------------------

  /** A download begins with no orders and no positions in the books of its account, and leaves others alone. */
  lemma DownloadForgets(w: World, account: string, w': World, key: BookKey)
    requires Next(w, OnDownloadBegin(account), w') && key in w.books && account != ""
    ensures key in w'.books
    ensures if key.account == account
            then w'.books[key].orders == map[] && w'.books[key].position == 0 && w'.books[key].positionByAccount == 0
                 && w'.books[key].levels == w.books[key].levels && w'.books[key].banUntil == w.books[key].banUntil
            else w'.books[key] == w.books[key]
  {
  }

  /** A stretch of a run is a run. */
  lemma StretchRuns(ws: seq<World>, es: seq<Event>, k: nat, i: nat)
    requires Run(ws, es) && k <= i < |ws|
    ensures Run(ws[k..i + 1], es[k..i])
  {
    var part, events := ws[k..i + 1], es[k..i];
    forall j | 0 <= j < |events|
      ensures Next(part[j], events[j], part[j + 1])
    {
      assert part[j] == ws[k + j] && events[j] == es[k + j] && part[j + 1] == ws[k + j + 1];
    }
  }

  lemma SnapshotTakes(w: World, account: string, maxId: nat, w': World, key: BookKey)
    requires Next(w, OnDownloadEnd(account, maxId), w') && key in w.books && key.account == account && account != ""
    ensures key in w'.books && w'.books[key].position == w.books[key].positionByAccount && w'.trades == w.trades
    ensures w'.books[key].orders == w.books[key].orders
  {
  }

  /** After a download a book has the position last told for the account, and from then on that position
      and the signed trades emitted for it. */
  lemma PositionFromSnapshot(ws: seq<World>, es: seq<Event>, key: BookKey, k: nat, i: nat, maxId: nat)
    requires Run(ws, es) && k < i < |ws| && es[k] == OnDownloadEnd(key.account, maxId) && key.account != "" && key in ws[k].books
    requires forall j | k < j < i :: !Resets(es[j], key)
    ensures key in ws[i].books
    ensures ws[i].books[key].position == ws[k].books[key].positionByAccount + SignedTrades(ws[i].trades, key) - SignedTrades(ws[k].trades, key)
  {
    SnapshotTakes(ws[k], key.account, maxId, ws[k + 1], key);
    StretchRuns(ws, es, k + 1, i);
    RunConservesFills(ws[k + 1..i + 1], es[k + 1..i], key, i - k - 1);
  }

  lemma PositionIsTold(w: World, key: BookKey, byAccount: int, w': World)
    requires key in w.books && Next(w, OnPosition(key, byAccount), w')
    ensures key in w'.books && w'.books[key].positionByAccount == byAccount && w'.books[key].position == w.books[key].position
  {
  }

  /** No order is created under an id that a download has reported, or any below it. */
  lemma CreatesAboveDownloaded(ws: seq<World>, es: seq<Event>, k: nat, i: nat, account: string, maxId: nat)
    requires Run(ws, es) && k < i < |ws| && es[k] == OnDownloadEnd(account, maxId)
    ensures ws[k + 1].sent == ws[k].sent && ws[k].sent <= ws[i].sent
    ensures forall j | |ws[k].sent| <= j < |ws[i].sent| && ws[i].sent[j].request.kind == CreateOrder ::
              ws[i].sent[j].request.id > maxId && ws[i].sent[j].request.id > ws[k].maxId
  {
    StretchRuns(ws, es, k + 1, i);
    RunIncreasesIds(ws[k + 1..i + 1], es[k + 1..i], i - k - 1);
  }

  // ----- trades -----------------------------------------------------------------------------------

  /** The report of a fill: of an order of the book, working or complete, that has traded more than before. */
  predicate ReportsFill(w: World, e: Event, t: Trade) {
    && e.OnReport? && !e.report.stale && (e.report.status == Working || e.report.status == Completed)
    && Holds(w, e.key, e.report.id)
    && t == Trade(e.key, e.report.id, e.report.side, e.report.lastPrice, e.report.traded - w.books[e.key].orders[e.report.id].traded)
    && t.quantity > 0
  }

  lemma StepTrades(w: World, e: Event, w': World)
    requires Next(w, e, w')
    ensures w'.trades == w.trades || (|w'.trades| == |w.trades| + 1 && w'.trades[..|w.trades|] == w.trades && ReportsFill(w, e, w'.trades[|w.trades|]))
    ensures forall t | ReportsFill(w, e, t) :: w'.trades == w.trades + [t]
  {
    if e.OnReport? && e.key in w.books {
      assert w' == AfterOrderReport(w, e.key, e.report);
    }
  }

  /** Every trade of a run comes of the report of a fill, at the price of that fill and for what the order has
      traded since the report before. */
  lemma {:induction false} RunTradesAreReported(ws: seq<World>, es: seq<Event>, i: nat, n: nat) returns (j: nat)
    requires Run(ws, es) && i < |ws| && |ws[0].trades| <= n < |ws[i].trades|
    ensures j < i && n == |ws[j].trades| && n < |ws[j + 1].trades| && ReportsFill(ws[j], es[j], ws[j + 1].trades[n])
    ensures ws[j + 1].trades[n] == ws[i].trades[n]
  {
    StepTrades(ws[i - 1], es[i - 1], ws[i]);
    if n < |ws[i - 1].trades| {
      j := RunTradesAreReported(ws, es, i - 1, n);
      assert ws[i].trades[n] == ws[i - 1].trades[n];
    } else {
      j := i - 1;
    }
  }
}
