/** Convergence over runs of the state machine: from a book at rest, a call of process and then any
    interleaving of further calls with granted requests and events elsewhere. */
module ConvergenceRuns {
  import opened Wrappers
  import opened Orders
  import opened Reconcile
  import opened Oms
  import opened Progress
  import opened Convergence

  function OrdersOf(w: World, key: BookKey): Book
    requires key in w.books
  {
    w.books[key].orders
  }

  function Targets(w: World, key: BookKey, env: Env): Policy
    requires key in w.books
  {
    PolicyOf(w.books[key], env)
  }

  /** Calls are not skipped, and cancels do not ban the book. */
  predicate Ready(w: World, key: BookKey, env: Env) {
    key in w.books && !Skips(w, key, env) && w.now >= 0 && w.books[key].postCancel == 0
  }

  /** The gateway grants a request in flight as asked. */
  ghost predicate Grants(w: World, e: Event, key: BookKey)
    requires key in w.books
  {
    e.OnReport? && e.key == key && e.report.id in Flying(OrdersOf(w, key)) && e.report == Granted(OrdersOf(w, key)[e.report.id])
  }

  /** Something happens that does not concern the book. */
  predicate Elsewhere(w: World, w': World, key: BookKey)
    requires key in w.books
  {
    && key in w'.books && w'.books[key] == w.books[key] && w'.maxId >= w.maxId && w'.now >= w.now
    && w.sent <= w'.sent && forall i | |w.sent| <= i < |w'.sent| :: w'.sent[i].key != key
  }

  ghost predicate Obliging(w: World, e: Event, w': World, key: BookKey, env: Env)
    requires key in w.books
  {
    e == Process(key, env) || Grants(w, e, key) || Elsewhere(w, w', key)
  }

  /** What holds from the first call on, with `pol` the targets of the book before it. */
  ghost predicate Approaching(pol: Policy, w: World, key: BookKey, env: Env) {
    && Ready(w, key, env) && SameTargets(pol, Targets(w, key, env)) && LongOnly(pol)
    && Good(pol, OrdersOf(w, key), w.maxId)
  }

  // ----- one step -------------------------------------------------------------------------------

  /** A step of process is a call under the targets the book had to begin with. */
  lemma ProcessCalls(pol: Policy, w: World, key: BookKey, env: Env, w': World) returns (r: Round)
    requires Ready(w, key, env) && SameTargets(pol, Targets(w, key, env)) && Next(w, Process(key, env), w')
    ensures Ready(w', key, env) && SameTargets(pol, Targets(w', key, env))
    ensures Calls(pol, OrdersOf(w, key), w.maxId, r, OrdersOf(w', key)) && w'.maxId == w.maxId + |r.plan|
    ensures w'.sent == w.sent + Tagged(key, ActRequests(r.tr, r.acts) + CreateRequests(Targets(w, key, env), r.tr, w.maxId, r.plan))
  {
    var tr, acts, plan :| Processed(w, key, env, tr, acts, plan, w');
    r := Round(tr, acts, plan);
    CallDependsOnTargets(Targets(w, key, env), pol, OrdersOf(w, key), w.maxId, tr, acts, plan, OrdersOf(w', key));
    CallKeepsTargets(w, key, env, tr, acts, plan, w');
  }

  lemma FirstProcess(pol: Policy, w: World, key: BookKey, env: Env, w': World)
    requires Ready(w, key, env) && pol == Targets(w, key, env) && LongOnly(pol) && AtRest(OrdersOf(w, key), w.maxId)
    requires Next(w, Process(key, env), w')
    ensures Approaching(pol, w', key, env)
  {
    var r := ProcessCalls(pol, w, key, env, w');
    FirstCallIsGood(pol, OrdersOf(w, key), w.maxId, r.tr, r.acts, r.plan, OrdersOf(w', key));
  }

  /** Only creates have been sent for the book. */
  predicate OnlyCreates(w: World, w': World, key: BookKey) {
    && w.sent <= w'.sent
    && forall i | |w.sent| <= i < |w'.sent| && w'.sent[i].key == key :: w'.sent[i].request.kind == CreateOrder
  }

  lemma GoodCallKeepsWork(pol: Policy, b: Book, maxId: nat, r: Round, b': Book)
    requires Good(pol, b, maxId) && Calls(pol, b, maxId, r, b')
    ensures Good(pol, b', maxId + |r.plan|) && r.acts == [] && r.tr == [b]
    ensures Work(pol, b') == Work(pol, b)
    ensures Idle(b') ==> Idle(b)
  {
    LaterCallIsGood(pol, b, maxId, r.tr, r.acts, r.plan, b');
    PlannedIsOpen(pol, b, r.plan);
    CreatesKeepWork(pol, b, maxId, r.plan);
    if Idle(b') {
      NothingFlewEither(b, b');
    }
  }

  lemma CreatesAreSent(key: BookKey, pol: Policy, b: Book, maxId: nat, plan: seq<Cell>, base: seq<Sent>)
    ensures var sent := base + Tagged(key, ActRequests([b], []) + CreateRequests(pol, [b], maxId, plan));
            && |sent| == |base| + |plan|
            && (forall i | |base| <= i < |sent| :: sent[i].request.kind == CreateOrder)
  {
  }

  lemma NothingPlanned(pol: Policy, b: Book, maxId: nat, r: Round, b': Book)
    requires Calls(pol, b, maxId, r, b') && r.tr == [b] && AllMatched(pol, b)
    ensures r.plan == [] && b' == b
  {
    MatchedWantsNothing(pol, b, r.plan);
  }

  lemma LaterProcess(pol: Policy, w: World, key: BookKey, env: Env, w': World)
    requires Approaching(pol, w, key, env) && Next(w, Process(key, env), w')
    ensures Approaching(pol, w', key, env) && OnlyCreates(w, w', key)
    ensures Work(pol, OrdersOf(w', key)) == Work(pol, OrdersOf(w, key))
    ensures Idle(OrdersOf(w', key)) ==> Idle(OrdersOf(w, key))
    ensures Idle(OrdersOf(w, key)) ==> AllMatched(pol, OrdersOf(w', key))
    ensures AllMatched(pol, OrdersOf(w, key)) ==> OrdersOf(w', key) == OrdersOf(w, key) && w'.sent == w.sent
  {
    var b, b' := OrdersOf(w, key), OrdersOf(w', key);
    var r := ProcessCalls(pol, w, key, env, w');
    GoodCallKeepsWork(pol, b, w.maxId, r, b');
    CreatesAreSent(key, Targets(w, key, env), b, w.maxId, r.plan, w.sent);
    if Idle(b) {
      IdleCallMatches(pol, b, w.maxId, r.tr, r.acts, r.plan, b');
    }
    if AllMatched(pol, b) {
      NothingPlanned(pol, b, w.maxId, r, b');
    }
  }

  lemma MatchedWantsNothing(pol: Policy, b: Book, plan: seq<Cell>)
    requires AllMatched(pol, b) && IsPlan(pol, [b], plan)
    ensures plan == []
  {
    assert plan != [] ==> plan[0] in plan;
    FirstPassCountsOnce(b);
    assert forall c: Cell :: Matched(pol, b, c) ==> !Wanted(pol, [b], c);
  }

  /** A grant leaves one thing less to do, and what is matched stays so. */
  lemma GrantedWork(pol: Policy, b: Book, maxId: nat, id: OrderId)
    requires Good(pol, b, maxId) && id in Flying(b)
    ensures Good(pol, Answered(b, id), maxId)
    ensures Work(pol, Answered(b, id)) == Work(pol, b) - 1
    ensures AllMatched(pol, b) ==> AllMatched(pol, Answered(b, id))
  {
    AnswerKeepsLevels(b, id);
    assert OpenCells(pol, Answered(b, id)) == OpenCells(pol, b);
    if AllMatched(pol, b) {
      forall c: Cell
        ensures Matched(pol, Answered(b, id), c)
      {
        assert Matched(pol, b, c);
      }
    }
  }

  /** The book after a grant: no fill, no ban. */
  lemma GrantIs(w: World, e: Event, key: BookKey, env: Env)
    requires Ready(w, key, env) && Grants(w, e, key) && Sound(OrdersOf(w, key))
    ensures var b, w' := w.books[key], After(w, e);
            && key in w'.books && w'.books[key] == b.(orders := Answered(b.orders, e.report.id))
            && w'.maxId == w.maxId && w'.now == w.now && w'.sent == w.sent
  {
    var b := w.books[key];
    var id := e.report.id;
    assert SoundOrder(id, b.orders[id]) && Granted(b.orders[id]).id == id;
    assert Fill(b.orders, e.report) <= 0;
  }

  lemma GrantKeeps(pol: Policy, w: World, e: Event, key: BookKey, env: Env)
    requires Approaching(pol, w, key, env) && Grants(w, e, key)
    ensures Approaching(pol, After(w, e), key, env) && OnlyCreates(w, After(w, e), key)
    ensures Work(pol, OrdersOf(After(w, e), key)) == Work(pol, OrdersOf(w, key)) - 1
    ensures AllMatched(pol, OrdersOf(w, key)) ==> AllMatched(pol, OrdersOf(After(w, e), key))
  {
    GrantIs(w, e, key, env);
    GrantedWork(pol, OrdersOf(w, key), w.maxId, e.report.id);
  }

  lemma ElsewhereKeeps(pol: Policy, w: World, w': World, key: BookKey, env: Env)
    requires Approaching(pol, w, key, env) && Elsewhere(w, w', key)
    ensures Approaching(pol, w', key, env) && OnlyCreates(w, w', key)
  {
  }

  /** A step counts when a request is granted by it. */
  ghost function Granting(w: World, e: Event, key: BookKey): nat
    requires key in w.books
  {
    if Grants(w, e, key) then 1 else 0
  }

  lemma StepApproaches(pol: Policy, w: World, e: Event, w': World, key: BookKey, env: Env)
    requires Approaching(pol, w, key, env) && Next(w, e, w') && Obliging(w, e, w', key, env)
    ensures Approaching(pol, w', key, env) && OnlyCreates(w, w', key)
    ensures Work(pol, OrdersOf(w', key)) + Granting(w, e, key) == Work(pol, OrdersOf(w, key))
    ensures AllMatched(pol, OrdersOf(w, key)) ==> AllMatched(pol, OrdersOf(w', key))
  {
    if e == Process(key, env) {
      LaterProcess(pol, w, key, env, w');
    } else if Grants(w, e, key) {
      GrantKeeps(pol, w, e, key, env);
    } else {
      ElsewhereKeeps(pol, w, w', key, env);
    }
  }

  // ----- runs -----------------------------------------------------------------------------------

  /** A run that begins with a call on a book at rest and in which the gateway grants what it is asked. */
  ghost predicate ObligingRun(ws: seq<World>, es: seq<Event>, key: BookKey, env: Env) {
    && Run(ws, es) && es != [] && es[0] == Process(key, env)
    && Ready(ws[0], key, env) && AtRest(OrdersOf(ws[0], key), ws[0].maxId) && LongOnly(Targets(ws[0], key, env))
    && forall i | 1 <= i < |es| :: key in ws[i].books && Obliging(ws[i], es[i], ws[i + 1], key, env)
  }

  /** How many requests were granted before the `i`-th world. */
  ghost function Answers(ws: seq<World>, es: seq<Event>, key: BookKey, i: nat): nat
    requires i <= |es| < |ws|
  {
    if i == 0 then 0 else
    Answers(ws, es, key, i - 1) + if key in ws[i - 1].books then Granting(ws[i - 1], es[i - 1], key) else 0
  }

  lemma {:induction false} RunApproaches(ws: seq<World>, es: seq<Event>, key: BookKey, env: Env, i: nat)
    requires ObligingRun(ws, es, key, env) && 1 <= i < |ws|
    ensures Approaching(Targets(ws[0], key, env), ws[i], key, env)
  {
    var pol := Targets(ws[0], key, env);
    if i == 1 {
      FirstProcess(pol, ws[0], key, env, ws[1]);
    } else {
      RunApproaches(ws, es, key, env, i - 1);
      StepApproaches(pol, ws[i - 1], es[i - 1], ws[i], key, env);
    }
  }

  lemma RunStep(ws: seq<World>, es: seq<Event>, key: BookKey, env: Env, i: nat)
    requires ObligingRun(ws, es, key, env) && 1 <= i < |es|
    ensures var pol := Targets(ws[0], key, env);
            && Approaching(pol, ws[i], key, env) && Approaching(pol, ws[i + 1], key, env)
            && OnlyCreates(ws[i], ws[i + 1], key)
            && Work(pol, OrdersOf(ws[i + 1], key)) + Granting(ws[i], es[i], key) == Work(pol, OrdersOf(ws[i], key))
            && (AllMatched(pol, OrdersOf(ws[i], key)) ==> AllMatched(pol, OrdersOf(ws[i + 1], key)))
  {
    RunApproaches(ws, es, key, env, i);
    RunApproaches(ws, es, key, env, i + 1);
    StepApproaches(Targets(ws[0], key, env), ws[i], es[i], ws[i + 1], key, env);
  }

  lemma CreatesJoin(w: World, v: World, u: World, key: BookKey)
    requires OnlyCreates(w, v, key) && OnlyCreates(v, u, key)
    ensures OnlyCreates(w, u, key)
  {
    forall i | |w.sent| <= i < |u.sent| && u.sent[i].key == key
      ensures u.sent[i].request.kind == CreateOrder
    {
      if i < |v.sent| {
        assert u.sent[i] == v.sent[i];
      }
    }
  }

  /** Convergence over every such run: from the first call on, only creates are sent, and each granted
      request leaves exactly one thing less to do. */
  lemma {:induction false} RunConverges(ws: seq<World>, es: seq<Event>, key: BookKey, env: Env, i: nat)
    requires ObligingRun(ws, es, key, env) && 1 <= i < |ws|
    ensures var pol := Targets(ws[0], key, env);
            && Approaching(pol, ws[1], key, env) && Approaching(pol, ws[i], key, env)
            && OnlyCreates(ws[1], ws[i], key)
            && Work(pol, OrdersOf(ws[i], key)) + Answers(ws, es, key, i) == Work(pol, OrdersOf(ws[1], key))
  {
    RunApproaches(ws, es, key, env, 1);
    if i > 1 {
      RunConverges(ws, es, key, env, i - 1);
      RunStep(ws, es, key, env, i - 1);
      CreatesJoin(ws[1], ws[i - 1], ws[i], key);
    }
  }

  /** Nothing left to do means nothing in flight and every level matched; and after a call, as long as
      something is left, something is in flight. */
  lemma NoWorkIsMatched(pol: Policy, b: Book, maxId: nat)
    requires Good(pol, b, maxId) && LongOnly(pol) && Work(pol, b) == 0
    ensures Idle(b) && AllMatched(pol, b)
  {
    assert Flying(b) == {} && OpenCells(pol, b) == {};
    forall id | id in b
      ensures !b[id].InFlight()
    {
      assert id !in Flying(b);
    }
    forall c: Cell
      ensures Matched(pol, b, c)
    {
      assert c !in OpenCells(pol, b);
      RestBounds(b, c);
    }
  }

  ghost predicate MatchedAt(pol: Policy, w: World, key: BookKey) { key in w.books && AllMatched(pol, OrdersOf(w, key)) }

  lemma StepStaysMatched(ws: seq<World>, es: seq<Event>, key: BookKey, env: Env, i: nat)
    requires ObligingRun(ws, es, key, env) && 1 <= i < |es| && MatchedAt(Targets(ws[0], key, env), ws[i], key)
    ensures MatchedAt(Targets(ws[0], key, env), ws[i + 1], key)
  {
    RunStep(ws, es, key, env, i);
  }

  lemma {:induction false} Stays(ms: seq<bool>, i: nat, j: nat)
    requires i <= j < |ms| && ms[i] && forall k | i <= k < |ms| - 1 :: ms[k] ==> ms[k + 1]
    ensures ms[j]
  {
    if i < j {
      Stays(ms, i, j - 1);
      assert ms[j - 1] ==> ms[j - 1 + 1];
    }
  }

  ghost function MatchedAlong(pol: Policy, ws: seq<World>, key: BookKey): (ms: seq<bool>)
    ensures |ms| == |ws| && forall k | 0 <= k < |ws| :: ms[k] <==> MatchedAt(pol, ws[k], key)
  {
    seq(|ws|, k requires 0 <= k < |ws| => MatchedAt(pol, ws[k], key))
  }

  lemma RunStaysMatched(ws: seq<World>, es: seq<Event>, key: BookKey, env: Env, i: nat, j: nat)
    requires ObligingRun(ws, es, key, env) && 1 <= i <= j < |ws| && MatchedAt(Targets(ws[0], key, env), ws[i], key)
    ensures MatchedAt(Targets(ws[0], key, env), ws[j], key)
  {
    var ms := MatchedAlong(Targets(ws[0], key, env), ws, key);
    forall k | i <= k < |ms| - 1
      ensures ms[k] ==> ms[k + 1]
    {
      if ms[k] {
        StepStaysMatched(ws, es, key, env, k);
      }
    }
    Stays(ms, i, j);
  }

  /** Two rounds are enough: once a second call finds nothing in flight, every level is matched from
      then on, and no call sends anything any more. */
  lemma SecondCallSettles(ws: seq<World>, es: seq<Event>, key: BookKey, env: Env, i: nat, j: nat)
    requires ObligingRun(ws, es, key, env) && 1 <= i < j < |ws|
    requires es[i] == Process(key, env) && Idle(OrdersOf(ws[i], key))
    ensures MatchedAt(Targets(ws[0], key, env), ws[j], key)
    ensures j < |es| && es[j] == Process(key, env) ==>
              ws[j + 1].sent == ws[j].sent && key in ws[j + 1].books && OrdersOf(ws[j + 1], key) == OrdersOf(ws[j], key)
  {
    var pol := Targets(ws[0], key, env);
    RunApproaches(ws, es, key, env, i);
    LaterProcess(pol, ws[i], key, env, ws[i + 1]);
    RunStaysMatched(ws, es, key, env, i + 1, j);
    if j < |es| && es[j] == Process(key, env) {
      RunApproaches(ws, es, key, env, j);
      LaterProcess(pol, ws[j], key, env, ws[j + 1]);
    }
  }

  /** Nor can a run stall: after a call, either every level is matched and nothing is left to do, or some
      request is in flight for the gateway to grant. So the gateway has exactly as many requests to grant
      as there was work after the first call. */
  lemma CallLeavesWorkInFlight(ws: seq<World>, es: seq<Event>, key: BookKey, env: Env, i: nat)
    requires ObligingRun(ws, es, key, env) && 1 <= i < |es| && es[i] == Process(key, env)
    ensures var pol := Targets(ws[0], key, env);
            && key in ws[i + 1].books
            && (Idle(OrdersOf(ws[i + 1], key)) <==> Work(pol, OrdersOf(ws[i + 1], key)) == 0)
            && (Work(pol, OrdersOf(ws[i + 1], key)) == 0 ==> AllMatched(pol, OrdersOf(ws[i + 1], key)))
  {
    var pol := Targets(ws[0], key, env);
    RunApproaches(ws, es, key, env, i);
    LaterProcess(pol, ws[i], key, env, ws[i + 1]);
    var b := OrdersOf(ws[i + 1], key);
    if Idle(b) {
      NoWorkLeft(pol, b);
    }
    if Work(pol, b) == 0 {
      NoWorkIsMatched(pol, b, ws[i + 1].maxId);
    }
  }
}
