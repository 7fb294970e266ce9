/** What every run of the order manager keeps. */
module Runs {
  import opened Wrappers
  import opened Orders
  import opened Reconcile
  import opened Oms

  // ----- one call of process ------------------------------------------------------------------

  /** How a call of process leaves an order: as it was, with one more request, or newly created. */
  ghost predicate OrderOutcome(b: Book, acts: seq<OrderId>, maxId: nat, count: nat, id: OrderId, q: Order) {
    || (id in b && id !in acts && q == b[id])
    || (id in b && id in acts && b[id].Free()
        && (q == CancelAsked(b[id]) || exists price, quantity :: q == Modified(b[id], price, quantity)))
    || (maxId < id <= maxId + count && exists c, quantity :: q == Created(id, c, quantity))
  }

  predicate TouchRequest(o: Order, r: Request) {
    && (r.kind == ModifyOrder || r.kind == CancelOrder)
    && r.id == o.id && r.version == o.pending.version + 1 && r.conditionalOn == o.confirmed.version
  }

  ghost predicate BookOutcome(b: Book, acts: seq<OrderId>, maxId: nat, count: nat, b': Book) {
    && Distinct(acts)
    && (forall i | 0 <= i < |acts| :: acts[i] in b)
    && (forall id | id in b' :: OrderOutcome(b, acts, maxId, count, id, b'[id]))
  }

  predicate NewsOutcome(key: BookKey, b: Book, acts: seq<OrderId>, maxId: nat, count: nat, news: seq<Sent>)
    requires forall i | 0 <= i < |acts| :: acts[i] in b
  {
    && |news| == |acts| + count
    && (forall i | 0 <= i < |acts| :: news[i].key == key && TouchRequest(b[acts[i]], news[i].request))
    && (forall i | |acts| <= i < |news| ::
          news[i].key == key && news[i].request.kind == CreateOrder && news[i].request.id == maxId + 1 + i - |acts|)
  }

  /** What a call of process does, as far as the identity of orders and requests goes: it touches the
      orders of `acts`, then creates `count` orders with consecutive new ids, and sends `news`. */
  ghost predicate Outcome(w: World, key: BookKey, acts: seq<OrderId>, count: nat, news: seq<Sent>, w': World)
    requires key in w.books
  {
    && w'.books.Keys == w.books.Keys
    && (forall k | k in w.books && k != key :: w'.books[k] == w.books[k])
    && w'.maxId == w.maxId + count && w'.sent == w.sent + news && w'.trades == w.trades
    && w'.books[key].position == w.books[key].position
    && BookOutcome(w.books[key].orders, acts, w.maxId, count, w'.books[key].orders)
    && NewsOutcome(key, w.books[key].orders, acts, w.maxId, count, news)
  }

  lemma {:induction false} CreatesOutcome(pol: Policy, tr: seq<Book>, maxId: nat, plan: seq<Cell>, id: OrderId)
    requires tr != [] && id in WithCreates(pol, tr, maxId, plan)
    ensures var q := WithCreates(pol, tr, maxId, plan)[id];
            || (id in Last(tr) && q == Last(tr)[id])
            || (maxId < id <= maxId + |plan| && exists c, quantity :: q == Created(id, c, quantity))
  {
    if plan != [] {
      var n := |plan|;
      if id != maxId + n {
        CreatesOutcome(pol, tr, maxId, plan[..n - 1], id);
      } else {
        assert WithCreates(pol, tr, maxId, plan)[id] == Created(id, plan[n - 1], Gap(pol, tr, plan[n - 1]));
      }
    }
  }

  lemma CallOutcome(pol: Policy, b: Book, maxId: nat, tr: seq<Book>, acts: seq<OrderId>, plan: seq<Cell>, b': Book)
    requires Call(pol, b, maxId, tr, acts, plan, b')
    ensures BookOutcome(b, acts, maxId, |plan|, b')
  {
    OneRequestEach(pol, tr, acts);
    forall i | 0 <= i < |acts|
      ensures acts[i] in b
    {
      assert acts[i] in acts;
    }
    forall id | id in b'
      ensures OrderOutcome(b, acts, maxId, |plan|, id, b'[id])
    {
      CreatesOutcome(pol, tr, maxId, plan, id);
    }
  }

  lemma ActRequestOutcome(pol: Policy, tr: seq<Book>, acts: seq<OrderId>, i: nat)
    requires Passes(pol, tr, acts) && i < |acts|
    ensures acts[i] in tr[0] && TouchRequest(tr[0][acts[i]], RequestFor(tr[i + 1][acts[i]]))
  {
    OneRequestEach(pol, tr, acts);
    RequestsStand(pol, tr, acts, i);
    assert acts[i] in acts;
  }

  lemma NewsAre(key: BookKey, b: Book, acts: seq<OrderId>, maxId: nat, touched: seq<Request>, created: seq<Request>)
    requires |touched| == |acts| && forall i | 0 <= i < |acts| :: acts[i] in b && TouchRequest(b[acts[i]], touched[i])
    requires forall i | 0 <= i < |created| :: created[i].kind == CreateOrder && created[i].id == maxId + 1 + i
    ensures NewsOutcome(key, b, acts, maxId, |created|, Tagged(key, touched + created))
  {
  }

  lemma RequestsOutcome(key: BookKey, pol: Policy, maxId: nat, tr: seq<Book>, acts: seq<OrderId>, plan: seq<Cell>)
    requires Passes(pol, tr, acts)
    requires forall i | 0 <= i < |acts| :: acts[i] in tr[0]
    ensures NewsOutcome(key, tr[0], acts, maxId, |plan|, Tagged(key, ActRequests(tr, acts) + CreateRequests(pol, tr, maxId, plan)))
  {
    forall i | 0 <= i < |acts|
      ensures TouchRequest(tr[0][acts[i]], ActRequests(tr, acts)[i])
    {
      ActRequestOutcome(pol, tr, acts, i);
    }
    NewsAre(key, tr[0], acts, maxId, ActRequests(tr, acts), CreateRequests(pol, tr, maxId, plan));
  }

  lemma ProcessOutcome(w: World, key: BookKey, env: Env, w': World) returns (acts: seq<OrderId>, count: nat, news: seq<Sent>)
    requires key in w.books && !Skips(w, key, env) && Next(w, Process(key, env), w')
    ensures Outcome(w, key, acts, count, news, w')
  {
    var tr, did, plan :| Processed(w, key, env, tr, did, plan, w');
    var pol := PolicyOf(w.books[key], env);
    acts, count := did, |plan|;
    news := Tagged(key, ActRequests(tr, acts) + CreateRequests(pol, tr, w.maxId, plan));
    CallOutcome(pol, w.books[key].orders, w.maxId, tr, acts, plan, w'.books[key].orders);
    RequestsOutcome(key, pol, w.maxId, tr, acts, plan);
  }

  // ----- the order triple ---------------------------------------------------------------------

  predicate Tripled(b: Book) { forall id | id in b :: b[id].id == id && Triple(b[id]) }

  predicate AllTripled(w: World) { forall k | k in w.books :: Tripled(w.books[k].orders) }

  lemma OutcomeKeepsTriples(w: World, key: BookKey, acts: seq<OrderId>, count: nat, news: seq<Sent>, w': World)
    requires key in w.books && Outcome(w, key, acts, count, news, w') && AllTripled(w)
    ensures AllTripled(w')
  {
    forall id | id in w'.books[key].orders
      ensures w'.books[key].orders[id].id == id && Triple(w'.books[key].orders[id])
    {
      assert OrderOutcome(w.books[key].orders, acts, w.maxId, count, id, w'.books[key].orders[id]);
    }
  }

  lemma EventKeepsTriples(w: World, e: Event)
    requires !e.Process? && AllTripled(w)
    ensures AllTripled(After(w, e))
  {
    match e
    case OnReport(key, u) =>
      if key in w.books {
        assert Tripled(AfterReport(w.books[key].orders, u));
      }
    case OnAck(a, timeout) =>
      if a.id in w.index && w.index[a.id] in w.books && a.id in w.books[w.index[a.id]].orders {
        var b := w.books[w.index[a.id]];
        var o := AckedOrder(b.orders[a.id], a);
        assert o.id == a.id && Triple(o);
        assert Tripled(AckedBook(b, a, w.now + timeout).orders);
      }
    case _ =>
  }

  /** The order triple holds after every step, whatever the gateway reports. */
  lemma StepKeepsTriples(w: World, e: Event, w': World)
    requires Next(w, e, w') && AllTripled(w)
    ensures AllTripled(w')
  {
    if !e.Process? {
      EventKeepsTriples(w, e);
    } else if !Skips(w, e.key, e.env) {
      var acts, count, news := ProcessOutcome(w, e.key, e.env, w');
      OutcomeKeepsTriples(w, e.key, acts, count, news, w');
    }
  }

  lemma {:induction false} RunKeepsTriples(ws: seq<World>, es: seq<Event>, i: nat)
    requires Run(ws, es) && i < |ws| && AllTripled(ws[0])
    ensures AllTripled(ws[i])
  {
    if i > 0 {
      RunKeepsTriples(ws, es, i - 1);
      StepKeepsTriples(ws[i - 1], es[i - 1], ws[i]);
    }
  }

  // ----- the index ----------------------------------------------------------------------------

  /** The index has an entry for an id exactly when a book holds that order, and the entry is the
      key of that book. So no order is in two books. */
  predicate Indexed(w: World) {
    && (forall id | id in w.index :: w.index[id] in w.books && id in w.books[w.index[id]].orders)
    && (forall k, id | k in w.books && id in w.books[k].orders :: id in w.index && w.index[id] == k)
  }

  predicate AllBelow(w: World) { forall k | k in w.books :: Below(w.books[k].orders, w.maxId) }

  /** The gateway reports an order under one strategy, account and market only, and its download has
      told the manager of every id in use by the time the manager may create orders. */
  predicate Consistent(w: World, e: Event) {
    match e
    case OnReport(key, u) => key in w.books && u.id in w.index ==> w.index[u.id] == key
    case Process(key, env) => env.ready ==> AllBelow(w)
    case _ => true
  }

  lemma {:induction false} WithIdsIs(index: map<OrderId, BookKey>, key: BookKey, maxId: nat, count: nat)
    ensures forall id: OrderId :: id in WithIds(index, key, maxId, count) <==> id in index || maxId < id <= maxId + count
    ensures forall id: OrderId | id in WithIds(index, key, maxId, count) ::
              WithIds(index, key, maxId, count)[id] == if maxId < id <= maxId + count then key else index[id]
  {
    if count != 0 {
      WithIdsIs(index, key, maxId, count - 1);
    }
  }

  /** The general step: one book gets new orders, which the index learns, and loses others, which
      the index forgets. */
  lemma IndexFollows(w: World, key: BookKey, w': World)
    requires Indexed(w) && key in w.books && w'.books.Keys == w.books.Keys
    requires forall k | k in w.books && k != key :: w'.books[k].orders == w.books[k].orders
    requires forall id | id in w'.books[key].orders :: id in w'.index && w'.index[id] == key
    requires forall id | id in w'.books[key].orders && id !in w.books[key].orders :: id !in w.index
    requires forall id | id !in w'.books[key].orders ::
               id in w'.index <==> id in w.index && id !in w.books[key].orders
    requires forall id | id in w'.index && id !in w'.books[key].orders :: w'.index[id] == w.index[id]
    ensures Indexed(w')
  {
    forall k, id | k in w'.books && id in w'.books[k].orders
      ensures id in w'.index && w'.index[id] == k
    {
      if k != key {
        assert id in w.books[k].orders && w.index[id] == k;
      }
    }
  }

  lemma ProcessKeepsIndex(w: World, key: BookKey, env: Env, tr: seq<Book>, acts: seq<OrderId>, plan: seq<Cell>, w': World)
    requires key in w.books && Processed(w, key, env, tr, acts, plan, w')
    requires Indexed(w) && AllBelow(w)
    ensures Indexed(w')
  {
    ProcessedIds(w, key, env, tr, acts, plan, w');
    IndexFollows(w, key, w');
  }

  /** A call of process adds consecutive new ids to the book and the index, and takes none away. */
  lemma ProcessedIds(w: World, key: BookKey, env: Env, tr: seq<Book>, acts: seq<OrderId>, plan: seq<Cell>, w': World)
    requires key in w.books && Processed(w, key, env, tr, acts, plan, w')
    requires Below(w.books[key].orders, w.maxId)
    ensures forall id :: id in w'.books[key].orders <==> id in w.books[key].orders || w.maxId < id <= w.maxId + |plan|
    ensures forall id :: id in w'.index <==> id in w.index || w.maxId < id <= w.maxId + |plan|
    ensures forall id | id in w'.index :: w'.index[id] == if w.maxId < id <= w.maxId + |plan| then key else w.index[id]
  {
    var pol := PolicyOf(w.books[key], env);
    OneRequestEach(pol, tr, acts);
    CreatesAdd(pol, tr, w.maxId, plan);
    WithIdsIs(w.index, key, w.maxId, |plan|);
  }

  lemma ReportKeepsIndex(w: World, key: BookKey, u: Report)
    requires Indexed(w) && key in w.books && (u.id in w.index ==> w.index[u.id] == key)
    ensures Indexed(AfterOrderReport(w, key, u))
  {
    var w' := AfterOrderReport(w, key, u);
    assert w'.books[key].orders == AfterReport(w.books[key].orders, u);
    IndexFollows(w, key, w');
  }

  lemma AckKeepsIndex(w: World, a: Ack, timeout: int)
    requires Indexed(w) && a.id in w.index
    ensures Indexed(AfterAck(w, a, timeout))
  {
    IndexFollows(w, w.index[a.id], AfterAck(w, a, timeout));
  }

  lemma StepKeepsIndex(w: World, e: Event, w': World)
    requires Next(w, e, w') && Indexed(w) && Consistent(w, e)
    ensures Indexed(w')
  {
    match e
    case Process(key, env) =>
      if !Skips(w, key, env) {
        var tr, acts, plan :| Processed(w, key, env, tr, acts, plan, w');
        ProcessKeepsIndex(w, key, env, tr, acts, plan, w');
      }
    case _ => EventKeepsIndex(w, e);
  }

  lemma EventKeepsIndex(w: World, e: Event)
    requires !e.Process? && Indexed(w) && Consistent(w, e)
    ensures Indexed(After(w, e))
  {
    if e.OnReport? {
      if e.key in w.books {
        ReportKeepsIndex(w, e.key, e.report);
      }
    } else if e.OnAck? {
      if e.ack.id in w.index {
        AckKeepsIndex(w, e.ack, e.rejectTimeout);
      }
    } else if e.OnDownloadBegin? || e.OnGatewayDown? {
      EraseKeepsIndex(w, e.account, After(w, e));
    } else {
      SameOrdersKeepIndex(w, After(w, e));
    }
  }

  lemma SameOrdersKeepIndex(w: World, w': World)
    requires Indexed(w) && w'.index == w.index && w.books.Keys <= w'.books.Keys
    requires forall k | k in w'.books :: w'.books[k].orders == if k in w.books then w.books[k].orders else map[]
    ensures Indexed(w')
  {
  }

  lemma EraseKeepsIndex(w: World, account: string, w': World)
    requires Indexed(w)
    requires account == "" ==> w' == w
    requires account != "" ==>
               && w'.index == Forgotten(w, account) && w'.books.Keys == w.books.Keys
               && forall k | k in w.books :: w'.books[k].orders == if k.account == account then map[] else w.books[k].orders
    ensures Indexed(w')
  {
    if account != "" {
      forall k, id | k in w'.books && id in w'.books[k].orders
        ensures id in w'.index && w'.index[id] == k
      {
        assert forall j | j in w.books && j.account == account && id in w.books[j].orders :: w.index[id] == j;
      }
    }
  }

  /** Index agreement over every run. */
  lemma {:induction false} RunKeepsIndex(ws: seq<World>, es: seq<Event>, i: nat)
    requires Run(ws, es) && i < |ws| && Indexed(ws[0])
    requires forall j | 0 <= j < |es| :: Consistent(ws[j], es[j])
    ensures Indexed(ws[i])
  {
    if i > 0 {
      RunKeepsIndex(ws, es, i - 1);
      StepKeepsIndex(ws[i - 1], es[i - 1], ws[i]);
    }
  }

  // ----- the identity of requests -------------------------------------------------------------

  predicate Versions(b: Book) { forall id | id in b :: b[id].confirmed.version <= b[id].pending.version }

  predicate AllVersions(w: World) { forall k | k in w.books :: Versions(w.books[k].orders) }

  /** The gateway never reports an accepted version above the last one sent, or above the last one
      answered when the order is adopted. */
  predicate HonestVersions(w: World, e: Event) {
    e.OnReport? && e.key in w.books ==>
      var b := w.books[e.key].orders;
      e.report.maxAccepted <= if e.report.id in b then b[e.report.id].pending.version else e.report.maxResponse
  }

  /** The ids of the orders created since `w0` are new and strictly increase. */
  predicate IdsIncrease(w0: World, w: World) {
    && w0.sent <= w.sent && w0.maxId <= w.maxId
    && (forall i | |w0.sent| <= i < |w.sent| && w.sent[i].request.kind == CreateOrder ::
          w0.maxId < w.sent[i].request.id <= w.maxId)
    && (forall i, j | |w0.sent| <= i < j < |w.sent| && w.sent[i].request.kind == CreateOrder && w.sent[j].request.kind == CreateOrder ::
          w.sent[i].request.id < w.sent[j].request.id)
  }

  lemma OutcomeIncreasesIds(w: World, key: BookKey, acts: seq<OrderId>, count: nat, news: seq<Sent>, w': World)
    requires key in w.books && Outcome(w, key, acts, count, news, w')
    ensures IdsIncrease(w, w')
  {
    assert forall i | |w.sent| <= i < |w'.sent| :: w'.sent[i] == news[i - |w.sent|];
  }

  lemma StepIncreasesIds(w: World, e: Event, w': World)
    requires Next(w, e, w')
    ensures IdsIncrease(w, w')
  {
    if e.Process? && !Skips(w, e.key, e.env) {
      var acts, count, news := ProcessOutcome(w, e.key, e.env, w');
      OutcomeIncreasesIds(w, e.key, acts, count, news, w');
    }
  }

  /** Over every run, the ids of created orders strictly increase. */
  lemma {:induction false} RunIncreasesIds(ws: seq<World>, es: seq<Event>, i: nat)
    requires Run(ws, es) && i < |ws|
    ensures IdsIncrease(ws[0], ws[i])
  {
    if i > 0 {
      RunIncreasesIds(ws, es, i - 1);
      StepIncreasesIds(ws[i - 1], es[i - 1], ws[i]);
    }
  }

  predicate About(s: Sent, key: BookKey, id: OrderId) { s.key == key && s.request.id == id }

  predicate Holds(w: World, key: BookKey, id: OrderId) { key in w.books && id in w.books[key].orders }

  function PendingVersion(w: World, key: BookKey, id: OrderId): nat
    requires Holds(w, key, id)
  {
    w.books[key].orders[id].pending.version
  }

  /** The versions sent for an order since `w0` strictly increase, from above the one it had to the
      one it has, and each request is conditional on a smaller version. */
  predicate VersionsIncrease(w0: World, w: World, key: BookKey, id: OrderId)
    requires Holds(w0, key, id) && Holds(w, key, id)
  {
    && w0.sent <= w.sent && PendingVersion(w0, key, id) <= PendingVersion(w, key, id)
    && (forall i | |w0.sent| <= i < |w.sent| && About(w.sent[i], key, id) ::
          && PendingVersion(w0, key, id) < w.sent[i].request.version <= PendingVersion(w, key, id)
          && w.sent[i].request.conditionalOn < w.sent[i].request.version)
    && (forall i, j | |w0.sent| <= i < j < |w.sent| && About(w.sent[i], key, id) && About(w.sent[j], key, id) ::
          w.sent[i].request.version < w.sent[j].request.version)
  }

  lemma OutcomeIncreasesVersions(w: World, k: BookKey, acts: seq<OrderId>, count: nat, news: seq<Sent>, w': World, key: BookKey, id: OrderId)
    requires k in w.books && Outcome(w, k, acts, count, news, w')
    requires AllBelow(w) && AllVersions(w) && AllTripled(w) && Holds(w, key, id) && Holds(w', key, id)
    ensures VersionsIncrease(w, w', key, id)
  {
    if k == key {
      var o := w.books[key].orders[id];
      assert o.id == id && id <= w.maxId && o.confirmed.version <= o.pending.version;
      assert OrderOutcome(w.books[key].orders, acts, w.maxId, count, id, w'.books[key].orders[id]);
    }
    forall i | |w.sent| <= i < |w'.sent| && About(w'.sent[i], key, id)
      ensures k == key && i < |w.sent| + |acts| && acts[i - |w.sent|] == id
      ensures w'.sent[i].request.version == PendingVersion(w', key, id) == PendingVersion(w, key, id) + 1
      ensures w'.sent[i].request.conditionalOn < w'.sent[i].request.version
    {
      var j := i - |w.sent|;
      assert w'.sent[i] == news[j];
      if j < |acts| {
        assert TouchRequest(w.books[k].orders[acts[j]], news[j].request);
      }
    }
  }

  lemma StepIncreasesVersions(w: World, e: Event, w': World, key: BookKey, id: OrderId)
    requires Next(w, e, w') && Consistent(w, e) && AllVersions(w) && AllTripled(w)
    requires Holds(w, key, id) && Holds(w', key, id)
    ensures VersionsIncrease(w, w', key, id)
  {
    if e.Process? && !Skips(w, e.key, e.env) {
      var acts, count, news := ProcessOutcome(w, e.key, e.env, w');
      OutcomeIncreasesVersions(w, e.key, acts, count, news, w', key, id);
    }
  }

  lemma OutcomeKeepsVersions(w: World, key: BookKey, acts: seq<OrderId>, count: nat, news: seq<Sent>, w': World)
    requires key in w.books && Outcome(w, key, acts, count, news, w') && AllVersions(w)
    ensures AllVersions(w')
  {
    forall id | id in w'.books[key].orders
      ensures w'.books[key].orders[id].confirmed.version <= w'.books[key].orders[id].pending.version
    {
      assert OrderOutcome(w.books[key].orders, acts, w.maxId, count, id, w'.books[key].orders[id]);
    }
  }

  lemma EventKeepsVersions(w: World, e: Event)
    requires !e.Process? && HonestVersions(w, e) && AllVersions(w)
    ensures AllVersions(After(w, e))
  {
    match e
    case OnReport(key, u) =>
      if key in w.books {
        assert Versions(AfterReport(w.books[key].orders, u));
      }
    case OnAck(a, timeout) =>
      if a.id in w.index && w.index[a.id] in w.books && a.id in w.books[w.index[a.id]].orders {
        assert Versions(AckedBook(w.books[w.index[a.id]], a, w.now + timeout).orders);
      }
    case _ =>
  }

  lemma StepKeepsVersions(w: World, e: Event, w': World)
    requires Next(w, e, w') && HonestVersions(w, e) && AllVersions(w)
    ensures AllVersions(w')
  {
    if !e.Process? {
      EventKeepsVersions(w, e);
    } else if !Skips(w, e.key, e.env) {
      var acts, count, news := ProcessOutcome(w, e.key, e.env, w');
      OutcomeKeepsVersions(w, e.key, acts, count, news, w');
    }
  }

  /** Request identity over every run: as long as an order stays in its book, the versions sent for
      it strictly increase, and each modify or cancel is conditional on a smaller version. */
  lemma {:induction false} RunIncreasesVersions(ws: seq<World>, es: seq<Event>, key: BookKey, id: OrderId, i: nat)
    requires Run(ws, es) && i < |ws| && AllVersions(ws[0]) && AllTripled(ws[0])
    requires forall j | 0 <= j < |es| :: Consistent(ws[j], es[j]) && HonestVersions(ws[j], es[j])
    requires forall j | 0 <= j < |ws| :: Holds(ws[j], key, id)
    ensures AllVersions(ws[i]) && AllTripled(ws[i]) && VersionsIncrease(ws[0], ws[i], key, id)
  {
    if i > 0 {
      RunIncreasesVersions(ws, es, key, id, i - 1);
      StepKeepsVersions(ws[i - 1], es[i - 1], ws[i]);
      StepKeepsTriples(ws[i - 1], es[i - 1], ws[i]);
      StepIncreasesVersions(ws[i - 1], es[i - 1], ws[i], key, id);
    }
  }

  // ----- fills --------------------------------------------------------------------------------

  function SignedTrades(trades: seq<Trade>, key: BookKey): int {
    if trades == [] then 0 else
    var t := trades[|trades| - 1];
    SignedTrades(trades[..|trades| - 1], key) + (if t.key == key then Signed(t.side, t.quantity) else 0)
  }

  function OrderTrades(trades: seq<Trade>, key: BookKey, id: OrderId): int {
    if trades == [] then 0 else
    var t := trades[|trades| - 1];
    OrderTrades(trades[..|trades| - 1], key, id) + (if t.key == key && t.id == id then t.quantity else 0)
  }

  predicate Resets(e: Event, key: BookKey) {
    (e.OnDownloadBegin? || e.OnDownloadEnd?) && e.account == key.account && e.account != ""
  }

  lemma TradesJoin(trades: seq<Trade>, k: BookKey, orders: Book, u: Report, key: BookKey, id: OrderId)
    ensures var fill := Max(Fill(orders, u), 0);
            var after := trades + ReportedTrades(k, orders, u);
            && SignedTrades(after, key) == SignedTrades(trades, key) + (if k == key then Signed(u.side, fill) else 0)
            && OrderTrades(after, key, id) == OrderTrades(trades, key, id) + (if k == key && u.id == id then fill else 0)
  {
    var added := ReportedTrades(k, orders, u);
    if added == [] {
      assert trades + added == trades;
    } else {
      assert (trades + added)[..|trades|] == trades;
    }
  }

  lemma StepConservesFills(w: World, e: Event, w': World, key: BookKey)
    requires Next(w, e, w') && key in w.books && !Resets(e, key)
    ensures key in w'.books
    ensures w'.books[key].position - SignedTrades(w'.trades, key) == w.books[key].position - SignedTrades(w.trades, key)
  {
    if e.OnReport? && e.key in w.books {
      ReportConservesFills(w, e.key, e.report, key);
    }
  }

  lemma ReportConservesFills(w: World, k: BookKey, u: Report, key: BookKey)
    requires k in w.books && key in w.books
    ensures var w' := AfterOrderReport(w, k, u);
            && key in w'.books
            && w'.books[key].position - SignedTrades(w'.trades, key) == w.books[key].position - SignedTrades(w.trades, key)
  {
    TradesJoin(w.trades, k, w.books[k].orders, u, key, u.id);
  }

  /** Fill conservation: between resets, the position of a book changes by exactly the signed sum of
      the trades emitted for it. */
  lemma {:induction false} RunConservesFills(ws: seq<World>, es: seq<Event>, key: BookKey, i: nat)
    requires Run(ws, es) && i < |ws| && key in ws[0].books
    requires forall j | 0 <= j < |es| :: !Resets(es[j], key)
    ensures key in ws[i].books
    ensures ws[i].books[key].position - ws[0].books[key].position == SignedTrades(ws[i].trades, key) - SignedTrades(ws[0].trades, key)
  {
    if i > 0 {
      RunConservesFills(ws, es, key, i - 1);
      StepConservesFills(ws[i - 1], es[i - 1], ws[i], key);
    }
  }

  /** The report of an event that may fill the given order: WORKING or COMPLETED, and not stale. */
  predicate Fills(e: Event, key: BookKey, id: OrderId) {
    e.OnReport? && e.key == key && e.report.id == id && !e.report.stale && (e.report.status == Working || e.report.status == Completed)
  }

  /** The traded quantity last seen for an order that had `traded` to begin with. */
  function LastSeen(es: seq<Event>, key: BookKey, id: OrderId, traded: int): int {
    if es == [] then traded else
    var e := es[|es| - 1];
    if Fills(e, key, id) then e.report.traded else LastSeen(es[..|es| - 1], key, id, traded)
  }

  /** The gateway never takes a fill back. */
  predicate NeverUnfills(w: World, e: Event, key: BookKey, id: OrderId) {
    Fills(e, key, id) && Holds(w, key, id) ==> w.books[key].orders[id].traded <= e.report.traded
  }

  ghost predicate Telescopes(w: World, e: Event, w': World, key: BookKey, id: OrderId)
    requires Holds(w, key, id)
  {
    var seen := if Fills(e, key, id) then e.report.traded else w.books[key].orders[id].traded;
    && OrderTrades(w'.trades, key, id) - OrderTrades(w.trades, key, id) == seen - w.books[key].orders[id].traded
    && (Holds(w', key, id) ==> w'.books[key].orders[id].traded == seen)
  }

  lemma OutcomeTelescopes(w: World, k: BookKey, env: Env, acts: seq<OrderId>, count: nat, news: seq<Sent>, w': World, key: BookKey, id: OrderId)
    requires k in w.books && Outcome(w, k, acts, count, news, w') && AllBelow(w) && Holds(w, key, id)
    ensures Telescopes(w, Process(k, env), w', key, id)
  {
    if k == key && Holds(w', key, id) {
      assert id <= w.maxId;
      assert OrderOutcome(w.books[key].orders, acts, w.maxId, count, id, w'.books[key].orders[id]);
    }
  }

  lemma EventTelescopes(w: World, e: Event, key: BookKey, id: OrderId)
    requires !e.Process? && Holds(w, key, id) && NeverUnfills(w, e, key, id)
    ensures Telescopes(w, e, After(w, e), key, id)
  {
    match e
    case OnReport(k, u) =>
      if k in w.books {
        ReportTelescopes(w, k, u, key, id);
      }
    case _ =>
  }

  lemma TradedAfterReport(orders: Book, u: Report, id: OrderId)
    requires id in orders && id in AfterReport(orders, u)
    ensures AfterReport(orders, u)[id].traded ==
            if u.id == id && !u.stale && u.status == Working then u.traded else orders[id].traded
    ensures u.id == id ==> !u.stale && u.status != Completed
  {
  }

  lemma ReportTelescopes(w: World, k: BookKey, u: Report, key: BookKey, id: OrderId)
    requires k in w.books && Holds(w, key, id) && NeverUnfills(w, OnReport(k, u), key, id)
    ensures Telescopes(w, OnReport(k, u), AfterOrderReport(w, k, u), key, id)
  {
    var orders := w.books[k].orders;
    TradesJoin(w.trades, k, orders, u, key, id);
    if k == key && id in AfterReport(orders, u) {
      TradedAfterReport(orders, u, id);
    }
  }

  lemma StepTelescopes(w: World, e: Event, w': World, key: BookKey, id: OrderId)
    requires Next(w, e, w') && Holds(w, key, id) && NeverUnfills(w, e, key, id)
    requires e.Process? ==> AllBelow(w)
    ensures Telescopes(w, e, w', key, id)
  {
    if !e.Process? {
      EventTelescopes(w, e, key, id);
    } else if !Skips(w, e.key, e.env) {
      var acts, count, news := ProcessOutcome(w, e.key, e.env, w');
      OutcomeTelescopes(w, e.key, e.env, acts, count, news, w', key, id);
    }
  }

  lemma LastSeenStep(es: seq<Event>, key: BookKey, id: OrderId, traded: int, i: nat)
    requires i < |es|
    ensures LastSeen(es[..i + 1], key, id, traded)
            == if Fills(es[i], key, id) then es[i].report.traded else LastSeen(es[..i], key, id, traded)
  {
    assert es[..i + 1][..i] == es[..i];
  }

  /** Since `w0`, the trades emitted for an order add up to `seen` minus the quantity it began with. */
  predicate TelescopedTo(w0: World, w: World, key: BookKey, id: OrderId, seen: int)
    requires Holds(w0, key, id)
  {
    && OrderTrades(w.trades, key, id) - OrderTrades(w0.trades, key, id) == seen - w0.books[key].orders[id].traded
    && (Holds(w, key, id) ==> w.books[key].orders[id].traded == seen)
  }

  lemma TelescopeOn(w0: World, w: World, e: Event, w': World, key: BookKey, id: OrderId, seen: int)
    requires Holds(w0, key, id) && Holds(w, key, id) && TelescopedTo(w0, w, key, id, seen) && Telescopes(w, e, w', key, id)
    ensures TelescopedTo(w0, w', key, id, if Fills(e, key, id) then e.report.traded else seen)
  {
  }

  /** Per order the trades telescope: while an order stays in its book, and through the event that
      takes it out, the trades emitted for it add up to the traded quantity last seen in a WORKING
      or COMPLETED report minus the one it began with. */
  lemma {:induction false} RunTelescopes(ws: seq<World>, es: seq<Event>, key: BookKey, id: OrderId, i: nat)
    requires Run(ws, es) && i < |ws| && Holds(ws[0], key, id)
    requires forall j | 0 <= j < i :: Holds(ws[j], key, id) && NeverUnfills(ws[j], es[j], key, id)
    requires forall j | 0 <= j < i && es[j].Process? :: AllBelow(ws[j])
    ensures TelescopedTo(ws[0], ws[i], key, id, LastSeen(es[..i], key, id, ws[0].books[key].orders[id].traded))
  {
    if i > 0 {
      var traded := ws[0].books[key].orders[id].traded;
      RunTelescopes(ws, es, key, id, i - 1);
      StepTelescopes(ws[i - 1], es[i - 1], ws[i], key, id);
      TelescopeOn(ws[0], ws[i - 1], es[i - 1], ws[i], key, id, LastSeen(es[..i - 1], key, id, traded));
      LastSeenStep(es, key, id, traded, i - 1);
    }
  }
}
