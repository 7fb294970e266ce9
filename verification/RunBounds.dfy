/** What the single calls of a run promise, over every run: the standing assumptions of a call are kept
    by every event, so its bounds hold wherever it is made. */
module RunBounds {
  import opened Wrappers
  import opened Orders
  import opened Reconcile
  import opened Oms
  import opened Runs

  predicate SoundBook(b: BookState) {
    Sound(b.orders) && Versioned(b.orders) && forall c | c in b.levels :: b.levels[c].target >= 0
  }

  predicate AllSound(w: World) { forall k | k in w.books :: SoundBook(w.books[k]) }

  /** A working order is reported with an accepted version and no negative rest, only an order that has been
      confirmed is refused a change, and no target is negative. */
  predicate Truthful(w: World, e: Event) {
    match e
    case OnReport(_, u) => u.status == Working && !u.stale ==> u.remaining >= 0 && u.maxAccepted != 0
    case OnAck(a, _) =>
      a.status == AckRejected && a.id in w.index && Holds(w, w.index[a.id], a.id)
      && (a.kind == RequestKind.CancelOrder || a.kind == RequestKind.ModifyOrder) ==>
        w.books[w.index[a.id]].orders[a.id].confirmed.version != 0
    case OnTargets(_, buys, sells) => (forall q | q in buys :: q.volume >= 0) && forall q | q in sells :: q.volume >= 0
    case _ => true
  }

  lemma ReportKeepsSound(orders: Book, u: Report)
    requires Sound(orders) && Versioned(orders)
    requires u.status == Working && !u.stale ==> u.remaining >= 0 && u.maxAccepted != 0
    ensures Sound(AfterReport(orders, u)) && Versioned(AfterReport(orders, u))
  {
    var orders' := AfterReport(orders, u);
    assert forall id | id in orders' && id != u.id :: id in orders && orders'[id] == orders[id];
    if u.id in orders' {
      assert u.id in orders ==> SoundOrder(u.id, orders[u.id]);
      assert SoundOrder(u.id, orders'[u.id]);
    }
  }

  lemma AckedIsSound(id: OrderId, o: Order, a: Ack)
    requires SoundOrder(id, o) && (o.Live() && !o.InFlight() ==> o.confirmed.version != 0)
    requires a.status == AckRejected && (a.kind == RequestKind.CancelOrder || a.kind == RequestKind.ModifyOrder) ==> o.confirmed.version != 0
    ensures var q := AckedOrder(o, a);
            SoundOrder(id, q) && (q.Live() && !q.InFlight() ==> q.confirmed.version != 0)
  {
  }

  lemma AckKeepsSound(b: BookState, a: Ack, until: int)
    requires SoundBook(b) && a.id in b.orders
    requires a.status == AckRejected && (a.kind == RequestKind.CancelOrder || a.kind == RequestKind.ModifyOrder) ==>
               b.orders[a.id].confirmed.version != 0
    ensures SoundBook(AckedBook(b, a, until))
  {
    assert SoundOrder(a.id, b.orders[a.id]);
    AckedIsSound(a.id, b.orders[a.id], a);
  }

  lemma {:induction false} QuotesKeepLong(levels: map<Cell, Level>, side: Side, quotes: seq<Quote>)
    requires (forall c | c in levels :: levels[c].target >= 0) && forall q | q in quotes :: q.volume >= 0
    ensures forall c | c in WithQuotes(levels, side, quotes) :: WithQuotes(levels, side, quotes)[c].target >= 0
    decreases |quotes|
  {
    if quotes != [] {
      var n := |quotes| - 1;
      QuotesKeepLong(levels, side, quotes[..n]);
      assert quotes[n] in quotes;
    }
  }

  lemma TargetsKeepSound(b: BookState, buys: seq<Quote>, sells: seq<Quote>)
    requires SoundBook(b) && (forall q | q in buys :: q.volume >= 0) && forall q | q in sells :: q.volume >= 0
    ensures SoundBook(b.(levels := Retargeted(b.levels, buys, sells)))
  {
    QuotesKeepLong(Untargeted(b.levels), Buy, buys);
    QuotesKeepLong(WithQuotes(Untargeted(b.levels), Buy, buys), Sell, sells);
  }

  lemma ProcessedKeepsSound(w: World, key: BookKey, env: Env, tr: seq<Book>, acts: seq<OrderId>, plan: seq<Cell>, w': World)
    requires key in w.books && Processed(w, key, env, tr, acts, plan, w') && SoundBook(w.books[key]) && Below(w.books[key].orders, w.maxId)
    ensures key in w'.books && SoundBook(w'.books[key])
  {
    var pol := PolicyOf(w.books[key], env);
    PassesSound(pol, tr, acts);
    CreatesSound(pol, tr, w.maxId, plan);
    assert forall c | c in w'.books[key].levels :: w'.books[key].levels[c].target == pol.Target(c);
  }

  lemma EventKeepsSound(w: World, e: Event)
    requires !e.Process? && AllSound(w) && Truthful(w, e)
    ensures AllSound(After(w, e))
  {
    match e
    case OnReport(key, u) =>
      if key in w.books {
        assert SoundBook(w.books[key]);
        ReportKeepsSound(w.books[key].orders, u);
        assert SoundBook(ReportedBook(w.books[key], u, w.now));
      }
    case OnAck(a, timeout) =>
      if a.id in w.index && Holds(w, w.index[a.id], a.id) {
        AckKeepsSound(w.books[w.index[a.id]], a, w.now + timeout);
      }
    case OnTargets(key, buys, sells) =>
      assert SoundBook(Open(w, key));
      TargetsKeepSound(Open(w, key), buys, sells);
    case _ => OtherKeepsSound(w, e);
  }

  lemma KeptIsSound(b: BookState, b': BookState)
    requires SoundBook(b) && b'.levels == b.levels && (b'.orders == b.orders || b'.orders == map[])
    ensures SoundBook(b')
  {
  }

  lemma OtherKeepsSound(w: World, e: Event)
    requires !e.Process? && !e.OnReport? && !e.OnAck? && !e.OnTargets? && AllSound(w)
    ensures AllSound(After(w, e))
  {
    var w' := After(w, e);
    forall k | k in w'.books
      ensures SoundBook(w'.books[k])
    {
      assert SoundBook(Open(w, k));
      OtherKeepsBook(w, e, k);
      KeptIsSound(Open(w, k), w'.books[k]);
    }
  }

  lemma OtherKeepsBook(w: World, e: Event, k: BookKey)
    requires !e.Process? && !e.OnReport? && !e.OnAck? && !e.OnTargets? && k in After(w, e).books
    ensures var b, b' := Open(w, k), After(w, e).books[k];
            b'.levels == b.levels && (b'.orders == b.orders || b'.orders == map[])
  {
  }

  lemma StepKeepsSound(w: World, e: Event, w': World)
    requires Next(w, e, w') && AllSound(w) && Consistent(w, e) && Truthful(w, e)
    ensures AllSound(w')
  {
    if !e.Process? {
      EventKeepsSound(w, e);
    } else if !Skips(w, e.key, e.env) {
      var tr, acts, plan :| Processed(w, e.key, e.env, tr, acts, plan, w');
      ProcessedKeepsSound(w, e.key, e.env, tr, acts, plan, w');
    }
  }

  /** The gateway keeps its side of the bargain. */
  ghost predicate HonestRun(ws: seq<World>, es: seq<Event>) {
    Run(ws, es) && AllSound(ws[0]) && forall i | 0 <= i < |es| :: Consistent(ws[i], es[i]) && Truthful(ws[i], es[i])
  }

  /** Over every run: orders carry their key and obey the triple, quantities and targets are not negative,
      requests are numbered, and whatever rests unasked has been granted a version. */
  lemma {:induction false} RunKeepsSound(ws: seq<World>, es: seq<Event>, i: nat)
    requires HonestRun(ws, es) && i < |ws|
    ensures AllSound(ws[i])
  {
    if i > 0 {
      RunKeepsSound(ws, es, i - 1);
      StepKeepsSound(ws[i - 1], es[i - 1], ws[i]);
    }
  }

  // ----- the calls of a run -----------------------------------------------------------------------

  /** The `i`-th event is a call that is not skipped. */
  ghost predicate CallAt(ws: seq<World>, es: seq<Event>, i: nat, key: BookKey, env: Env) {
    Run(ws, es) && i < |es| && es[i] == Process(key, env) && key in ws[i].books && !Skips(ws[i], key, env)
  }

  lemma CallIs(ws: seq<World>, es: seq<Event>, i: nat, key: BookKey, env: Env) returns (tr: seq<Book>, acts: seq<OrderId>, plan: seq<Cell>)
    requires HonestRun(ws, es) && CallAt(ws, es, i, key, env)
    ensures Processed(ws[i], key, env, tr, acts, plan, ws[i + 1])
    ensures SoundBook(ws[i].books[key]) && Below(ws[i].books[key].orders, ws[i].maxId) && LongOnly(PolicyOf(ws[i].books[key], env))
  {
    RunKeepsSound(ws, es, i);
    assert Consistent(ws[i], es[i]) && SoundBook(ws[i].books[key]);
    tr, acts, plan :| Processed(ws[i], key, env, tr, acts, plan, ws[i + 1]);
  }

  /** No over-ordering, by any call of any run. */
  lemma RunNeverOverOrders(ws: seq<World>, es: seq<Event>, i: nat, key: BookKey, env: Env, c: Cell)
    requires HonestRun(ws, es) && CallAt(ws, es, i, key, env)
    ensures key in ws[i + 1].books
    ensures Rest(ws[i + 1].books[key].orders, c) <=
            Max(PolicyOf(ws[i].books[key], env).Target(c), Rest(ws[i].books[key].orders, c))
  {
    var tr, acts, plan := CallIs(ws, es, i, key, env);
    NoOverOrdering(PolicyOf(ws[i].books[key], env), ws[i].books[key].orders, ws[i].maxId, tr, acts, plan, ws[i + 1].books[key].orders, c);
  }

  /** A create for this side was sent by the step. */
  predicate CreateSent(w: World, w': World, s: Side) {
    exists j :: |w.sent| <= j < |w'.sent| && w'.sent[j].request.kind == CreateOrder && w'.sent[j].request.side == s
  }

  lemma TaggedAt(base: seq<Sent>, key: BookKey, requests: seq<Request>, j: nat)
    requires |base| <= j < |base| + |requests|
    ensures |base + Tagged(key, requests)| == |base| + |requests|
    ensures (base + Tagged(key, requests))[j].request == requests[j - |base|]
  {
  }

  lemma ActsAreNoCreates(pol: Policy, tr: seq<Book>, acts: seq<OrderId>)
    requires Passes(pol, tr, acts)
    ensures forall k | 0 <= k < |acts| :: ActRequests(tr, acts)[k].kind != CreateOrder
  {
    forall k | 0 <= k < |acts|
      ensures ActRequests(tr, acts)[k].kind != CreateOrder
    {
      ActRequestOutcome(pol, tr, acts, k);
    }
  }

  lemma CreateIsPlanned(w: World, key: BookKey, env: Env, tr: seq<Book>, acts: seq<OrderId>, plan: seq<Cell>, w': World, s: Side)
    requires key in w.books && Processed(w, key, env, tr, acts, plan, w') && CreateSent(w, w', s)
    ensures exists c :: c in plan && c.side == s
  {
    CreateAmongSent(PolicyOf(w.books[key], env), key, w.maxId, tr, acts, plan, w.sent, w'.sent, s);
  }

  lemma CreateAmongSent(pol: Policy, key: BookKey, maxId: nat, tr: seq<Book>, acts: seq<OrderId>, plan: seq<Cell>,
                        base: seq<Sent>, sent: seq<Sent>, s: Side)
    requires Passes(pol, tr, acts) && sent == base + Tagged(key, ActRequests(tr, acts) + CreateRequests(pol, tr, maxId, plan))
    requires exists j :: |base| <= j < |sent| && sent[j].request.kind == CreateOrder && sent[j].request.side == s
    ensures exists c :: c in plan && c.side == s
  {
    var j: nat :| |base| <= j < |sent| && sent[j].request.kind == CreateOrder && sent[j].request.side == s;
    TaggedAt(base, key, ActRequests(tr, acts) + CreateRequests(pol, tr, maxId, plan), j);
    ActsAreNoCreates(pol, tr, acts);
    SentCreate(pol, tr, acts, maxId, plan, j - |base|, sent[j].request);
  }

  lemma SentCreate(pol: Policy, tr: seq<Book>, acts: seq<OrderId>, maxId: nat, plan: seq<Cell>, k: nat, r: Request)
    requires |tr| == |acts| + 1 && (forall i | 0 <= i < |acts| :: acts[i] in tr[i + 1]) && k < |acts| + |plan|
    requires r == (ActRequests(tr, acts) + CreateRequests(pol, tr, maxId, plan))[k] && r.kind == CreateOrder
    requires forall i | 0 <= i < |acts| :: ActRequests(tr, acts)[i].kind != CreateOrder
    ensures exists c :: c in plan && c.side == r.side
  {
    assert r == CreateRequests(pol, tr, maxId, plan)[k - |acts|];
    assert plan[k - |acts|] in plan;
  }

  /** Worst-case exposure, after any call of any run that sends a create on a side. */
  lemma RunWorstCaseIsCovered(ws: seq<World>, es: seq<Event>, i: nat, key: BookKey, env: Env, s: Side)
    requires HonestRun(ws, es) && CallAt(ws, es, i, key, env) && CreateSent(ws[i], ws[i + 1], s)
    ensures key in ws[i + 1].books
    ensures Exposure(ws[i + 1].books[key].orders, s) <= SideTarget(PolicyOf(ws[i].books[key], env), s)
  {
    var tr, acts, plan := CallIs(ws, es, i, key, env);
    CreateIsPlanned(ws[i], key, env, tr, acts, plan, ws[i + 1], s);
    WorstCaseIsCovered(PolicyOf(ws[i].books[key], env), ws[i].books[key].orders, ws[i].maxId, tr, acts, plan, ws[i + 1].books[key].orders, s);
  }

  /** Any call of any run that finds nothing in flight sends nothing if and only if every level is matched. */
  lemma RunIsSilentIffMatched(ws: seq<World>, es: seq<Event>, i: nat, key: BookKey, env: Env)
    requires HonestRun(ws, es) && CallAt(ws, es, i, key, env) && Idle(ws[i].books[key].orders)
    ensures ws[i + 1].sent == ws[i].sent <==>
              forall c: Cell :: Matched(PolicyOf(ws[i].books[key], env), ws[i].books[key].orders, c)
  {
    var tr, acts, plan := CallIs(ws, es, i, key, env);
    SilentIffMatched(PolicyOf(ws[i].books[key], env), ws[i].books[key].orders, ws[i].maxId, tr, acts, plan, ws[i + 1].books[key].orders);
    SentGrows(ws[i], key, env, tr, acts, plan, ws[i + 1]);
  }

  lemma SentGrows(w: World, key: BookKey, env: Env, tr: seq<Book>, acts: seq<OrderId>, plan: seq<Cell>, w': World)
    requires key in w.books && Processed(w, key, env, tr, acts, plan, w')
    ensures |w'.sent| == |w.sent| + |acts| + |plan|
    ensures acts == [] && plan == [] ==> w'.sent == w.sent
  {
  }
}
