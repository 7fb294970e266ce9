/** A call of process can always be completed, so what is proved of calls and runs is never empty; and
    what a call does depends on the targets of the levels alone, not on which levels are on record. */
module Progress {
  import opened Wrappers
  import opened Orders
  import opened Reconcile
  import opened Oms
  import Totals

  // ----- a call can be completed ----------------------------------------------------------------

  lemma SomeAct(pol: Policy, tr: seq<Book>) returns (id: OrderId, next: Book)
    requires tr != [] && !Quiet(pol, tr)
    ensures ActStep(pol, tr, id, next)
  {
    id :| id in Last(tr) && Last(tr)[id].Free() && Excess(pol, tr, Last(tr)[id]);
    var o := Last(tr)[id];
    if pol.Movable(o) && exists c: Cell :: c.side == o.side && Hole(pol, tr, c) {
      var c: Cell :| c.side == o.side && Hole(pol, tr, c);
      next := Last(tr)[id := Modified(o, c.price, Gap(pol, tr, c))];
      assert Act(pol, tr, o, next[id]);
    } else {
      next := Last(tr)[id := CancelAsked(o)];
    }
  }

  lemma {:induction false} PassesEnd(pol: Policy, tr: seq<Book>, acts: seq<OrderId>) returns (tr': seq<Book>, acts': seq<OrderId>)
    requires Passes(pol, tr, acts)
    ensures Passes(pol, tr', acts') && tr'[0] == tr[0] && Quiet(pol, tr')
    decreases |FreeOrders(Last(tr))|
  {
    if Quiet(pol, tr) {
      tr', acts' := tr, acts;
    } else {
      var id, next := SomeAct(pol, tr);
      ActUsesUpOrder(pol, tr, id, next);
      PassesSnoc(pol, tr, acts, id, next);
      tr', acts' := PassesEnd(pol, tr + [next], acts + [id]);
    }
  }

  lemma {:induction false} Listing(cells: set<Cell>) returns (plan: seq<Cell>)
    ensures Distinct(plan) && forall c :: c in plan <==> c in cells
    decreases |cells|
  {
    if cells == {} {
      plan := [];
    } else {
      var c :| c in cells;
      var rest := Listing(cells - {c});
      plan := rest + [c];
    }
  }

  /** Only levels with a target can want an order. */
  lemma WantedIsTargeted(pol: Policy, tr: seq<Book>, c: Cell)
    requires tr != [] && (forall i | 0 <= i < |tr| :: Sound(tr[i])) && Wanted(pol, tr, c)
    ensures c in pol.targets
  {
    CounterIsUpperBound(tr, c);
    RestBounds(Last(tr), c);
  }

  lemma SomePlan(pol: Policy, tr: seq<Book>) returns (plan: seq<Cell>)
    requires tr != [] && forall i | 0 <= i < |tr| :: Sound(tr[i])
    ensures IsPlan(pol, tr, plan)
  {
    forall c | Wanted(pol, tr, c)
      ensures c in pol.targets
    {
      WantedIsTargeted(pol, tr, c);
    }
    plan := Listing(set c | c in pol.targets && Wanted(pol, tr, c));
  }

  /** Whatever the book and its targets, a call can be completed. */
  lemma CallExists(pol: Policy, b: Book, maxId: nat) returns (tr: seq<Book>, acts: seq<OrderId>, plan: seq<Cell>, b': Book)
    requires Sound(b)
    ensures Call(pol, b, maxId, tr, acts, plan, b')
  {
    tr, acts := PassesEnd(pol, [b], []);
    PassesSound(pol, tr, acts);
    plan := SomePlan(pol, tr);
    b' := WithCreates(pol, tr, maxId, plan);
  }

  // ----- the levels a call leaves ---------------------------------------------------------------

  ghost function Standing(b: Book): set<Cell> { set id | id in b && b[id].Live() :: b[id].Where() }

  ghost function Stood(tr: seq<Book>): set<Cell> {
    if tr == [] then {} else Stood(tr[..|tr| - 1]) + Standing(Last(tr))
  }

  lemma NothingStands(b: Book, c: Cell)
    requires c !in Standing(b)
    ensures Rest(b, c) == 0 && Sum(b, ConfirmedAt(c)) == 0
  {
    forall id | id in b
      ensures At(b[id], c) == 0 && ConfirmedAt(c)(b[id]) == 0
    {
      assert b[id].Live() ==> b[id].Where() in Standing(b);
    }
    Totals.TotalZero(Spread(b, RestingAt(c)));
    Totals.TotalZero(Spread(b, ConfirmedAt(c)));
  }

  lemma {:induction false} NothingStood(tr: seq<Book>, c: Cell)
    requires c !in Stood(tr)
    ensures Acc(tr, c) == 0 && ConfirmedAcc(tr, c) == 0
  {
    if tr != [] {
      NothingStood(tr[..|tr| - 1], c);
      NothingStands(Last(tr), c);
    }
  }

  lemma LevelsExist(pol: Policy, tr: seq<Book>) returns (levels: map<Cell, Level>)
    ensures LevelsLeft(levels, pol, tr)
  {
    levels := map c | c in pol.targets.Keys + Stood(tr) && Counters(pol, tr, c) != Level(0, 0, 0) :: Counters(pol, tr, c);
    forall c: Cell | Counters(pol, tr, c) != Level(0, 0, 0)
      ensures c in levels
    {
      if c !in Stood(tr) {
        NothingStood(tr, c);
      }
    }
  }

  /** So process can always be called. */
  lemma ProcessExists(w: World, key: BookKey, env: Env) returns (w': World)
    requires key in w.books && Sound(w.books[key].orders)
    ensures Next(w, Process(key, env), w')
  {
    if Skips(w, key, env) {
      w' := w;
    } else {
      var b := w.books[key];
      var pol := PolicyOf(b, env);
      var tr, acts, plan, orders := CallExists(pol, b.orders, w.maxId);
      var levels := LevelsExist(pol, tr);
      var b' := b.(orders := orders, levels := levels, banUntil := 0);
      w' := w.(books := w.books[key := b'],
               index := WithIds(w.index, key, w.maxId, |plan|),
               maxId := w.maxId + |plan|,
               sent := w.sent + Tagged(key, ActRequests(tr, acts) + CreateRequests(pol, tr, w.maxId, plan)));
      assert Processed(w, key, env, tr, acts, plan, w');
    }
  }

  // ----- targets, not records -------------------------------------------------------------------

  /** Two policies with the same targets, whatever levels either has on record. */
  ghost predicate SameTargets(pol: Policy, pol': Policy) {
    && pol'.modifiable == pol.modifiable && pol'.minVolume == pol.minVolume
    && forall c: Cell :: pol'.Target(c) == pol.Target(c)
  }

  lemma ActDependsOnTargets(pol: Policy, pol': Policy, tr: seq<Book>, o: Order, changed: Order)
    requires SameTargets(pol, pol') && Act(pol, tr, o, changed)
    ensures Act(pol', tr, o, changed)
  {
    forall c: Cell
      ensures Gap(pol', tr, c) == Gap(pol, tr, c) && Hole(pol', tr, c) == Hole(pol, tr, c)
    {
    }
  }

  lemma {:induction false} PassesDependOnTargets(pol: Policy, pol': Policy, tr: seq<Book>, acts: seq<OrderId>)
    requires SameTargets(pol, pol') && Passes(pol, tr, acts)
    ensures Passes(pol', tr, acts)
    decreases |acts|
  {
    if acts != [] {
      var n := |acts|;
      PassesDependOnTargets(pol, pol', tr[..n], acts[..n - 1]);
      ActDependsOnTargets(pol, pol', tr[..n], tr[n - 1][acts[n - 1]], tr[n][acts[n - 1]]);
    }
  }

  lemma {:induction false} CreatesDependOnTargets(pol: Policy, pol': Policy, tr: seq<Book>, maxId: nat, plan: seq<Cell>)
    requires SameTargets(pol, pol') && tr != []
    ensures WithCreates(pol', tr, maxId, plan) == WithCreates(pol, tr, maxId, plan)
  {
    if plan != [] {
      CreatesDependOnTargets(pol, pol', tr, maxId, plan[..|plan| - 1]);
      assert Gap(pol', tr, plan[|plan| - 1]) == Gap(pol, tr, plan[|plan| - 1]);
    }
  }

  lemma PlanDependsOnTargets(pol: Policy, pol': Policy, tr: seq<Book>, plan: seq<Cell>)
    requires SameTargets(pol, pol') && tr != [] && IsPlan(pol, tr, plan)
    ensures IsPlan(pol', tr, plan)
  {
    forall c: Cell
      ensures Wanted(pol', tr, c) == Wanted(pol, tr, c)
    {
      assert Gap(pol', tr, c) == Gap(pol, tr, c);
    }
  }

  /** A call sees no more of the levels than their targets. */
  lemma CallDependsOnTargets(pol: Policy, pol': Policy, b: Book, maxId: nat, tr: seq<Book>, acts: seq<OrderId>, plan: seq<Cell>, b': Book)
    requires SameTargets(pol, pol') && Call(pol, b, maxId, tr, acts, plan, b')
    ensures Call(pol', b, maxId, tr, acts, plan, b')
  {
    PassesDependOnTargets(pol, pol', tr, acts);
    PlanDependsOnTargets(pol, pol', tr, plan);
    CreatesDependOnTargets(pol, pol', tr, maxId, plan);
    forall id | id in Last(tr) && Last(tr)[id].Free()
      ensures !Excess(pol', tr, Last(tr)[id])
    {
      assert !Excess(pol, tr, Last(tr)[id]);
    }
  }

  /** And a call keeps the targets, though levels come on record and go. */
  lemma CallKeepsTargets(w: World, key: BookKey, env: Env, tr: seq<Book>, acts: seq<OrderId>, plan: seq<Cell>, w': World)
    requires key in w.books && Processed(w, key, env, tr, acts, plan, w')
    ensures key in w'.books && SameTargets(PolicyOf(w.books[key], env), PolicyOf(w'.books[key], env))
  {
    var pol, pol' := PolicyOf(w.books[key], env), PolicyOf(w'.books[key], env);
    forall c: Cell
      ensures pol'.Target(c) == pol.Target(c)
    {
      assert Counters(pol, tr, c).target == pol.Target(c);
    }
  }
}
