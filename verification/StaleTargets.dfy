/** Why a fill must reach the sizing before the next call of process: a whole run in which it does not,
    from an empty book to an order that takes the position through zero. */
module StaleTargets {
  import opened Wrappers
  import opened Orders
  import opened Reconcile
  import opened Liquidation
  import Doubles
  import Sizing
  import Oms
  import Progress
  import Convergence

  /** A long position of `quantity`, quoted to be sold in full at the market. */
  function LongLeg(quantity: int): Sizing.Leg {
    var lots := Doubles.Finite(quantity as real);
    var one := Doubles.Quote(Doubles.Finite(1.0), Doubles.ZERO);
    Sizing.NEW_LEG.(buyVolume := Doubles.ZERO, sellVolume := lots,
                    position := Doubles.BestQuotes(Doubles.Quote(Doubles.Empty, lots), Doubles.Quote(Doubles.Empty, Doubles.ZERO)),
                    market := Doubles.BestQuotes(one, one),
                    exec := Doubles.BestQuotes(Doubles.Quote(Doubles.Empty, Doubles.ZERO), Doubles.Quote(Doubles.Finite(1.0), lots)))
  }

  lemma LongLegLiquidates(quantity: int)
    requires quantity > 0
    ensures Liquidates(LongLeg(quantity), true, None, quantity)
  {
    var leg := LongLeg(quantity);
    var lots := Doubles.Finite(quantity as real);
    assert Sizing.Exposure(leg) == lots;
    assert Doubles.Max(Doubles.Neg(lots), Doubles.ZERO) == Doubles.ZERO && Doubles.Max(lots, Doubles.ZERO) == lots;
    assert Sizing.BuyVolume(leg, None) == Doubles.ZERO && Sizing.SellVolume(leg, None) == lots;
  }

  /** The book is empty but for one target, and is called whenever process is. */
  ghost predicate OneTargetIn(w: Oms.World, key: Oms.BookKey, env: Oms.Env, c: Cell, quantity: int) {
    && key in w.books && w.books[key].orders == map[] && !Oms.Skips(w, key, env)
    && w.books[key].banModify && w.books[key].postFill == 0
    && Progress.SameTargets(Sells(c, quantity), Oms.PolicyOf(w.books[key], env))
  }

  function Sells(c: Cell, quantity: int): Policy { Policy(map[c := quantity], false, None) }

  /** A call then creates that order and no other. */
  lemma ProcessSells(w: Oms.World, key: Oms.BookKey, env: Oms.Env, c: Cell, quantity: int, id: OrderId, w': Oms.World)
    requires OneTargetIn(w, key, env, c, quantity) && quantity > 0 && w.now >= 0 && id == w.maxId + 1
    requires Oms.Next(w, Oms.Process(key, env), w')
    ensures key in w'.books && w'.maxId == id && w'.now == w.now
    ensures w'.books[key] == w.books[key].(orders := map[id := Created(id, c, quantity)],
                                           levels := w'.books[key].levels, banUntil := 0)
    ensures Progress.SameTargets(Sells(c, quantity), Oms.PolicyOf(w'.books[key], env))
  {
    var tr, acts, plan :| Oms.Processed(w, key, env, tr, acts, plan, w');
    var pol := Sells(c, quantity);
    Progress.CallDependsOnTargets(Oms.PolicyOf(w.books[key], env), pol, map[], w.maxId, tr, acts, plan, w'.books[key].orders);
    Progress.CallKeepsTargets(w, key, env, tr, acts, plan, w');
    SellsOnce(pol, c, quantity, w.maxId, id, tr, acts, plan, w'.books[key].orders);
  }

  lemma OnlyOne(plan: seq<Cell>, c: Cell)
    requires Distinct(plan) && c in plan && forall d | d in plan :: d == c
    ensures plan == [c]
  {
    Convergence.DistinctCount(plan, {c});
  }

  lemma SellsOnce(pol: Policy, c: Cell, quantity: int, maxId: nat, id: OrderId, tr: seq<Book>, acts: seq<OrderId>, plan: seq<Cell>, b': Book)
    requires pol == Sells(c, quantity) && quantity > 0 && Call(pol, map[], maxId, tr, acts, plan, b') && id == maxId + 1
    ensures |plan| == 1 && b' == map[id := Created(id, c, quantity)]
  {
    CallOnEmptyBook(pol, map[], maxId, tr, acts, plan, b');
    assert WorthAnOrder(pol, c);
    assert forall d: Cell :: WorthAnOrder(pol, d) ==> d == c;
    OnlyOne(plan, c);
    LastCreate(pol, tr, maxId, plan);
    assert WithCreates(pol, tr, maxId, plan[..0]) == map[];
  }

  // ----- the run ----------------------------------------------------------------------------------

  /** The report that an order has been filled in full. */
  function FilledReport(quantity: int, price: int): Report {
    Report(1, Sell, price, 0, quantity, price, Completed, false, 1, 1)
  }

  /** An empty book that may be called, without targets. */
  predicate Fresh(w: Oms.World, key: Oms.BookKey, env: Oms.Env) {
    && key in w.books && w.books[key] == Oms.NEW_BOOK.(banModify := true) && w.maxId == 0 && w.now >= 0
    && key.account != "" && env.ready && env.tickKnown && env.minVolume == None
  }

  /** First the sizing targets the whole position. */
  lemma TargetStep(w: Oms.World, key: Oms.BookKey, env: Oms.Env, price: int, quantity: int) returns (step: Step, st: State)
    requires Fresh(w, key, env) && quantity > 0
    ensures Moves(key, State(w, map[], quantity, false), step, st)
    ensures st == State(st.w, map[], quantity, false) && st.w.maxId == 0 && st.w.now == w.now
    ensures OneTargetIn(st.w, key, env, Cell(Sell, price), quantity)
  {
    var buy, sell := Oms.Quote(None, 0), Oms.Quote(Some(price), quantity);
    step := Retarget(LongLeg(quantity), true, None, buy, sell);
    LongLegLiquidates(quantity);
    st := State(Oms.After(w, Oms.OnTargets(key, [buy], [sell])), map[], quantity, false);
    RetargetedEmpty(w, key, env, buy, sell, Cell(Sell, price), quantity);
  }

  /** Then process sells it. */
  lemma SaleStep(st: State, key: Oms.BookKey, env: Oms.Env, c: Cell, quantity: int) returns (st': State)
    requires OneTargetIn(st.w, key, env, c, quantity) && quantity > 0 && st.w.now >= 0 && st.w.maxId == 0
    requires st == State(st.w, map[], quantity, false)
    ensures Moves(key, st, Manager(Oms.Process(key, env)), st')
    ensures st' == State(st'.w, map[1 := quantity], quantity, false) && st'.w.maxId == 1 && st'.w.now == st.w.now
    ensures Selling(st'.w, key, env, c, quantity)
  {
    var w' := Progress.ProcessExists(st.w, key, env);
    ProcessSells(st.w, key, env, c, quantity, 1, w');
    var b, b' := OrdersOf(st, key), w'.books[key].orders;
    st' := State(w', Sent(st.open, b, b'), quantity, false);
    SentOne(st.open, b, b', c, quantity);
    ProcessMoves(st, key, env, st');
  }

  lemma SentOne(open: Open, b: Book, b': Book, c: Cell, quantity: int)
    requires open == map[] && b == map[] && b' == map[1 := Created(1, c, quantity)]
    ensures Sent(open, b, b') == map[1 := quantity]
  {
  }

  lemma ProcessMoves(st: State, key: Oms.BookKey, env: Oms.Env, st': State)
    requires Oms.Next(st.w, Oms.Process(key, env), st'.w) && !st.stale && key in st'.w.books
    requires st' == State(st'.w, Sent(st.open, OrdersOf(st, key), st'.w.books[key].orders), st.position, false)
    ensures Moves(key, st, Manager(Oms.Process(key, env)), st')
  {
  }

  /** The sale is in the book, and the target it was made for still stands. */
  ghost predicate Selling(w: Oms.World, key: Oms.BookKey, env: Oms.Env, c: Cell, quantity: int) {
    && key in w.books && w.books[key].orders == map[1 := Created(1, c, quantity)]
    && w.books[key].banUntil == 0 && w.books[key].banModify && w.books[key].postFill == 0
    && key.account != "" && env.ready && env.tickKnown
    && Progress.SameTargets(Sells(c, quantity), Oms.PolicyOf(w.books[key], env))
  }

  lemma RetargetedEmpty(w: Oms.World, key: Oms.BookKey, env: Oms.Env, buy: Oms.Quote, sell: Oms.Quote, c: Cell, quantity: int)
    requires Fresh(w, key, env) && buy == Oms.Quote(None, 0) && sell == Oms.Quote(Some(c.price), quantity) && c.side == Sell
    ensures var w' := Oms.After(w, Oms.OnTargets(key, [buy], [sell]));
            OneTargetIn(w', key, env, c, quantity) && w'.maxId == 0 && w'.now == w.now && w'.books[key].banUntil == 0
  {
    assert [buy][..0] == [] && [sell][..0] == [];
    var flat := Oms.Untargeted(map[]);
    assert Oms.WithQuotes(flat, Buy, [buy][..0]) == flat;
    assert Oms.WithQuotes(flat, Buy, [buy]) == flat;
    assert Oms.WithQuotes(flat, Sell, [sell][..0]) == flat;
    assert Oms.Retargeted(map[], [buy], [sell]) == map[c := Oms.Level(quantity, 0, 0)];
  }

  /** The order is filled in full, and reported so, before the sizing hears of it. */
  lemma FillStep(st: State, key: Oms.BookKey, env: Oms.Env, c: Cell, quantity: int) returns (st': State)
    requires st == State(st.w, map[1 := quantity], quantity, false) && Selling(st.w, key, env, c, quantity) && c.side == Sell && quantity > 0
    ensures Moves(key, st, Fill(1, quantity), st')
    ensures st' == State(st.w, map[1 := 0], 0, true)
  {
    st' := State(st.w, map[1 := 0], 0, true);
    assert st.open[1 := Left(st.open, 1) - quantity] == st'.open;
  }

  lemma ReportStep(st: State, key: Oms.BookKey, env: Oms.Env, c: Cell, quantity: int) returns (st': State)
    requires st == State(st.w, map[1 := 0], 0, true) && Selling(st.w, key, env, c, quantity) && c.side == Sell && quantity > 0
    requires st.w.maxId == 1 && st.w.now >= 0
    ensures Moves(key, st, Manager(Oms.OnReport(key, FilledReport(quantity, c.price))), st')
    ensures st' == State(st'.w, map[1 := 0], 0, true) && st'.w.maxId == 1 && st'.w.now == st.w.now
    ensures OneTargetIn(st'.w, key, env, c, quantity)
  {
    var u := FilledReport(quantity, c.price);
    var b := st.w.books[key];
    assert Oms.AfterReport(b.orders, u) == map[];
    st' := st.(w := Oms.AfterOrderReport(st.w, key, u));
    assert st'.w.books[key] == b.(orders := map[], position := st'.w.books[key].position);
  }

  /** With the targets of a position already sold, the next call sells it once more. */
  lemma SecondSale(st: State, key: Oms.BookKey, env: Oms.Env, c: Cell, quantity: int) returns (w': Oms.World)
    requires OneTargetIn(st.w, key, env, c, quantity) && quantity > 0 && c.side == Sell && st.w.now >= 0
    requires st == State(st.w, map[1 := 0], 0, true) && st.w.maxId == 1
    ensures Oms.Next(st.w, Oms.Process(key, env), w') && key in w'.books
    ensures w'.books[key].orders == map[2 := Created(2, c, quantity)]
    ensures !Safe(w'.books[key].orders, Sent(st.open, map[], w'.books[key].orders), 0)
  {
    w' := Progress.ProcessExists(st.w, key, env);
    ProcessSells(st.w, key, env, c, quantity, 2, w');
    OpenSaleIsUnsafe(st.open, c, quantity, w'.books[key].orders);
  }

  lemma OpenSaleIsUnsafe(open: Open, c: Cell, quantity: int, b': Book)
    requires b' == map[2 := Created(2, c, quantity)] && quantity > 0 && c.side == Sell && 2 !in open
    ensures !Safe(b', Sent(open, map[], b'), 0)
  {
    var open' := Sent(open, map[], b');
    assert Left(open', 2) == quantity;
    if Safe(b', open', 0) {
      OpenIsAtLeast(b', open', Sell, 2);
      assert false;
    }
  }

  /** A run of honest steps, from an empty book to one in which process, called on stale targets, leaves
      a sale open that takes the position through zero. */
  lemma StaleTargetsSellAgain(w: Oms.World, key: Oms.BookKey, env: Oms.Env, price: int, quantity: int)
    returns (sts: seq<State>, steps: seq<Step>, w': Oms.World)
    requires Fresh(w, key, env) && quantity > 0
    ensures Run(key, sts, steps) && |sts| == 5 && sts[0] == State(w, map[], quantity, false) && Inv(key, sts[0])
    ensures sts[4].position == 0 && sts[4].stale && OrdersOf(sts[4], key) == map[]
    ensures Oms.Next(sts[4].w, Oms.Process(key, env), w') && key in w'.books
    ensures w'.books[key].orders == map[2 := Created(2, Cell(Sell, price), quantity)]
    ensures !Safe(w'.books[key].orders, Sent(sts[4].open, map[], w'.books[key].orders), 0)
  {
    var c := Cell(Sell, price);
    var st0 := State(w, map[], quantity, false);
    BeginsSafe(key, w, quantity);
    var retarget, st1 := TargetStep(w, key, env, price, quantity);
    var st2 := SaleStep(st1, key, env, c, quantity);
    var st3 := FillStep(st2, key, env, c, quantity);
    var st4 := ReportStep(st3, key, env, c, quantity);
    w' := SecondSale(st4, key, env, c, quantity);
    var sale, report := Manager(Oms.Process(key, env)), Manager(Oms.OnReport(key, FilledReport(quantity, price)));
    sts, steps := RunOfFour(key, st0, retarget, st1, sale, st2, Fill(1, quantity), st3, report, st4);
  }

  lemma MovesAgain(key: Oms.BookKey, sts: seq<State>, steps: seq<Step>, i: nat, sts': seq<State>, steps': seq<Step>)
    requires i < |steps| && i + 1 < |sts| && MovesAt(key, sts, steps, i) && sts <= sts' && steps <= steps'
    ensures MovesAt(key, sts', steps', i)
  {
    assert sts'[i] == sts[i] && sts'[i + 1] == sts[i + 1] && steps'[i] == steps[i];
  }

  lemma MovesLast(key: Oms.BookKey, sts: seq<State>, steps: seq<Step>, step: Step, st: State)
    requires |sts| == |steps| + 1 && Moves(key, sts[|steps|], step, st)
    ensures MovesAt(key, sts + [st], steps + [step], |steps|)
  {
  }

  lemma RunSnoc(key: Oms.BookKey, sts: seq<State>, steps: seq<Step>, step: Step, st: State)
    requires Run(key, sts, steps) && Moves(key, sts[|steps|], step, st)
    ensures Run(key, sts + [st], steps + [step])
  {
    var sts', steps' := sts + [st], steps + [step];
    MovesLast(key, sts, steps, step, st);
    forall i | 0 <= i < |steps|
      ensures MovesAt(key, sts', steps', i)
    {
      MovesAgain(key, sts, steps, i, sts', steps');
    }
  }

  lemma RunOfFour(key: Oms.BookKey, st0: State, s0: Step, st1: State, s1: Step, st2: State, s2: Step, st3: State, s3: Step, st4: State)
    returns (sts: seq<State>, steps: seq<Step>)
    requires Moves(key, st0, s0, st1) && Moves(key, st1, s1, st2) && Moves(key, st2, s2, st3) && Moves(key, st3, s3, st4)
    ensures Run(key, sts, steps) && |sts| == 5 && sts[0] == st0 && sts[4] == st4
  {
    sts, steps := [st0], [];
    sts, steps := OneStepOn(key, sts, steps, s0, st1);
    sts, steps := OneStepOn(key, sts, steps, s1, st2);
    sts, steps := OneStepOn(key, sts, steps, s2, st3);
    sts, steps := OneStepOn(key, sts, steps, s3, st4);
  }

  lemma OneStepOn(key: Oms.BookKey, sts: seq<State>, steps: seq<Step>, step: Step, st: State) returns (sts': seq<State>, steps': seq<Step>)
    requires Run(key, sts, steps) && Moves(key, sts[|sts| - 1], step, st)
    ensures Run(key, sts', steps') && |sts'| == |sts| + 1 && sts'[0] == sts[0] && sts'[|sts|] == st
  {
    RunSnoc(key, sts, steps, step, st);
    sts', steps' := sts + [st], steps + [step];
  }
}
