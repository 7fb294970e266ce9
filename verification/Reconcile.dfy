/** What one call of the manager's process does to a book, as a relation on values.

    The orders of a book are reconciled with the target quantities of its levels in passes. A pass
    adds every live order's expected quantity to the counter of its level, then changes at most one
    order and starts over; the counters are not cleared in between, so at the n-th pass they hold
    the sum over n passes. A call is therefore described by the orders as each pass found them. */
module Reconcile {
  import opened Wrappers
  import opened Orders
  import opened Totals

  type Book = map<OrderId, Order>

  /** What a call reads besides the orders: the target of every level on record, whether orders of
      this book can be modified at all, and the smallest quantity worth a new order. */
  datatype Policy = Policy(targets: map<Cell, int>, modifiable: bool, minVolume: Option<int>)
  {
    function Target(c: Cell): int { if c in targets then targets[c] else 0 }

    predicate TooSmall(quantity: int) { minVolume.Some? && quantity < minVolume.value }

    predicate Movable(o: Order) { modifiable && o.Free() && o.rejects == 0 }
  }

  // ----- sums over the orders of a book -------------------------------------------------------

  ghost function Spread(b: Book, w: Order -> int): map<OrderId, int> {
    map id | id in b :: w(b[id])
  }

  ghost function Sum(b: Book, w: Order -> int): int { Total(Spread(b, w)) }

  lemma SumUpdate(b: Book, id: OrderId, o: Order, w: Order -> int)
    ensures Sum(b[id := o], w) == Sum(b, w) - (if id in b then w(b[id]) else 0) + w(o)
  {
    assert Spread(b[id := o], w) == Spread(b, w)[id := w(o)];
    TotalUpdate(Spread(b, w), id, w(o));
  }

  lemma SumRemove(b: Book, id: OrderId, w: Order -> int)
    requires id in b
    ensures Sum(b - {id}, w) == Sum(b, w) - w(b[id])
  {
    assert Spread(b - {id}, w) == Spread(b, w) - {id};
    TotalRemove(Spread(b, w), id);
  }

  lemma SumMono(b: Book, w: Order -> int, v: Order -> int)
    requires forall id | id in b :: w(b[id]) <= v(b[id])
    ensures Sum(b, w) <= Sum(b, v)
  {
    TotalMono(Spread(b, w), Spread(b, v));
  }

  /** The quantity an order is expected to rest at a level. */
  function At(o: Order, c: Cell): int {
    if o.Live() && o.Where() == c then o.expected.quantity else 0
  }

  function RestingAt(c: Cell): Order -> int { (o: Order) => At(o, c) }

  function FlyingAt(c: Cell): Order -> int { (o: Order) => if o.InFlight() then At(o, c) else 0 }

  /** The true expected quantity of a level. */
  ghost function Rest(b: Book, c: Cell): int { Sum(b, RestingAt(c)) }

  function Max(x: int, y: int): int { if x < y then y else x }

  /** The most that an order may turn out to rest with, however its pending request is answered. */
  function Worst(o: Order, s: Side): int {
    if o.Live() && o.side == s then Max(o.confirmed.quantity, o.expected.quantity) else 0
  }

  function WorstOn(s: Side): Order -> int { (o: Order) => Worst(o, s) }

  ghost function Exposure(b: Book, s: Side): int { Sum(b, WorstOn(s)) }

  ghost function SideTarget(pol: Policy, s: Side): int {
    Total(map c | c in pol.targets :: if c.side == s then pol.targets[c] else 0)
  }

  // ----- passes -------------------------------------------------------------------------------

  ghost function Last(tr: seq<Book>): Book
    requires tr != []
  {
    tr[|tr| - 1]
  }

  /** The counter of a level after the given passes. */
  ghost function Acc(tr: seq<Book>, c: Cell): int {
    if tr == [] then 0 else Acc(tr[..|tr| - 1], c) + Rest(Last(tr), c)
  }

  /** By how much the counter of a level is short of its target. */
  ghost function Gap(pol: Policy, tr: seq<Book>, c: Cell): int { pol.Target(c) - Acc(tr, c) }

  ghost predicate Hole(pol: Policy, tr: seq<Book>, c: Cell) { Gap(pol, tr, c) > 0 }

  ghost predicate Excess(pol: Policy, tr: seq<Book>, o: Order) { Gap(pol, tr, o.Where()) < 0 }

  /** The change a pass may make to an order: move it into a hole on its side, and cancel it when
      it may not be moved or there is no hole. */
  ghost predicate Act(pol: Policy, tr: seq<Book>, o: Order, changed: Order) {
    && Excess(pol, tr, o)
    && o.Free()
    && (|| (pol.Movable(o) && exists c: Cell :: c.side == o.side && Hole(pol, tr, c) && changed == Modified(o, c.price, Gap(pol, tr, c)))
        || (!(pol.Movable(o) && exists c: Cell :: c.side == o.side && Hole(pol, tr, c)) && changed == CancelAsked(o)))
  }

  ghost predicate ActStep(pol: Policy, past: seq<Book>, id: OrderId, next: Book)
    requires past != []
  {
    && id in Last(past) && id in next
    && next == Last(past)[id := next[id]]
    && Act(pol, past, Last(past)[id], next[id])
  }

  /** `tr` lists the orders as each pass found them, `acts` the order changed by each pass but the last. */
  ghost predicate Passes(pol: Policy, tr: seq<Book>, acts: seq<OrderId>)
    decreases |acts|
  {
    && |tr| == |acts| + 1
    && (forall i | 0 <= i < |acts| :: acts[i] in tr[i + 1])
    && (acts == [] ||
        (&& Passes(pol, tr[..|acts|], acts[..|acts| - 1])
         && ActStep(pol, tr[..|acts|], acts[|acts| - 1], tr[|acts|])))
  }

  /** The exit condition: no order at an overfull level may be touched. */
  ghost predicate Quiet(pol: Policy, tr: seq<Book>)
    requires tr != []
  {
    forall id | id in Last(tr) && Last(tr)[id].Free() :: !Excess(pol, tr, Last(tr)[id])
  }

  // ----- creates ------------------------------------------------------------------------------

  predicate Busy(b: Book, s: Side) {
    exists id :: id in b && b[id].Live() && b[id].InFlight() && b[id].side == s
  }

  ghost predicate Wanted(pol: Policy, tr: seq<Book>, c: Cell)
    requires tr != []
  {
    && Hole(pol, tr, c)
    && !Busy(Last(tr), c.side)
    && !pol.TooSmall(Gap(pol, tr, c))
  }

  ghost predicate IsPlan(pol: Policy, tr: seq<Book>, plan: seq<Cell>)
    requires tr != []
  {
    && (forall c: Cell :: c in plan <==> Wanted(pol, tr, c))
    && Distinct(plan)
  }

  /** The orders after the creates of `plan`, numbered from the last id given out. */
  ghost function WithCreates(pol: Policy, tr: seq<Book>, maxId: nat, plan: seq<Cell>): Book
    requires tr != []
  {
    if plan == [] then Last(tr) else
    var n := |plan|;
    var c := plan[n - 1];
    WithCreates(pol, tr, maxId, plan[..n - 1])[maxId + n := Created(maxId + n, c, Gap(pol, tr, c))]
  }

  // ----- the requests of a call ---------------------------------------------------------------

  ghost function ActRequests(tr: seq<Book>, acts: seq<OrderId>): seq<Request>
    requires |tr| == |acts| + 1
    requires forall i | 0 <= i < |acts| :: acts[i] in tr[i + 1]
  {
    seq(|acts|, i requires 0 <= i < |acts| => RequestFor(tr[i + 1][acts[i]]))
  }

  ghost function CreateRequests(pol: Policy, tr: seq<Book>, maxId: nat, plan: seq<Cell>): seq<Request> {
    seq(|plan|, i requires 0 <= i < |plan| =>
      RequestFor(Created(maxId + 1 + i, plan[i], Gap(pol, tr, plan[i]))))
  }

  /** One call of process on a ready book that is not banned. */
  ghost predicate Call(pol: Policy, b: Book, maxId: nat, tr: seq<Book>, acts: seq<OrderId>, plan: seq<Cell>, b': Book) {
    && Passes(pol, tr, acts)
    && tr[0] == b
    && Quiet(pol, tr)
    && IsPlan(pol, tr, plan)
    && b' == WithCreates(pol, tr, maxId, plan)
  }

  lemma PassesSnoc(pol: Policy, tr: seq<Book>, acts: seq<OrderId>, id: OrderId, next: Book)
    requires tr != [] && Passes(pol, tr, acts) && ActStep(pol, tr, id, next)
    ensures Passes(pol, tr + [next], acts + [id])
    ensures ActRequests(tr + [next], acts + [id]) == ActRequests(tr, acts) + [RequestFor(next[id])]
  {
    var tr', acts' := tr + [next], acts + [id];
    var n := |acts'|;
    assert tr'[..n] == tr && acts'[..n - 1] == acts;
    assert forall i | 0 <= i < n :: acts'[i] in tr'[i + 1];
  }

  // ----- standing assumptions -----------------------------------------------------------------

  predicate SoundOrder(id: OrderId, o: Order) {
    && o.id == id
    && Triple(o)
    && o.expected.quantity >= 0
    && o.confirmed.quantity >= 0
    && (o.InFlight() ==> o.pending.version != 0)
  }

  /** Orders carry their key, obey the triple, have no negative quantity and number their requests. */
  predicate Sound(b: Book) { forall id | id in b :: SoundOrder(id, b[id]) }

  /** Whatever rests unasked has been granted a version. */
  predicate Versioned(b: Book) {
    forall id | id in b && b[id].Live() && !b[id].InFlight() :: b[id].confirmed.version != 0
  }

  predicate Idle(b: Book) { forall id | id in b :: !b[id].InFlight() }

  predicate Below(b: Book, maxId: nat) { forall id | id in b :: id <= maxId }

  predicate LongOnly(pol: Policy) { forall c | c in pol.targets :: pol.targets[c] >= 0 }

  // ----- what the passes keep -----------------------------------------------------------------

  lemma RestBounds(b: Book, c: Cell)
    requires Sound(b)
    ensures 0 <= Sum(b, FlyingAt(c)) <= Rest(b, c)
    ensures forall id | id in b :: At(b[id], c) <= Rest(b, c)
  {
    var m := Spread(b, RestingAt(c));
    TotalBounds(m);
    forall id | id in b
      ensures At(b[id], c) <= Rest(b, c)
    {
      assert m[id] == At(b[id], c);
    }
    TotalBounds(Spread(b, FlyingAt(c)));
    SumMono(b, FlyingAt(c), RestingAt(c));
  }

  /** The counter of a level never falls below the true quantity, whatever the restarts. */
  lemma {:induction false} CounterIsUpperBound(tr: seq<Book>, c: Cell)
    requires tr != [] && forall i | 0 <= i < |tr| :: Sound(tr[i])
    ensures Rest(Last(tr), c) <= Acc(tr, c)
  {
    if |tr| > 1 {
      CounterIsUpperBound(tr[..|tr| - 1], c);
      RestBounds(tr[|tr| - 2], c);
    }
  }

  /** What every pass keeps for every level: the true quantity exceeds neither the target nor where
      it began, and the quantity still in flight exceeds neither the target nor where it began. */
  ghost predicate Bounded(pol: Policy, b: Book, now: Book, c: Cell) {
    && Rest(now, c) <= Max(pol.Target(c), Rest(b, c))
    && Sum(now, FlyingAt(c)) <= Max(pol.Target(c), Sum(b, FlyingAt(c)))
  }

  lemma ActKeepsBounds(pol: Policy, tr: seq<Book>, id: OrderId, next: Book, c: Cell)
    requires tr != [] && forall i | 0 <= i < |tr| :: Sound(tr[i])
    requires ActStep(pol, tr, id, next)
    requires Bounded(pol, tr[0], Last(tr), c)
    ensures Bounded(pol, tr[0], next, c)
  {
    var b := Last(tr);
    SumUpdate(b, id, next[id], RestingAt(c));
    SumUpdate(b, id, next[id], FlyingAt(c));
    CounterIsUpperBound(tr, c);
    RestBounds(b, c);
  }

  lemma ActStepSound(pol: Policy, past: seq<Book>, id: OrderId, next: Book)
    requires past != [] && ActStep(pol, past, id, next) && Sound(Last(past))
    ensures Sound(next) && next.Keys == Last(past).Keys
    ensures Versioned(Last(past)) ==> Versioned(next)
  {
  }

  ghost predicate SoundThroughout(tr: seq<Book>) { forall i | 0 <= i < |tr| :: Sound(tr[i]) }

  lemma OneMoreSound(tr: seq<Book>)
    requires tr != [] && SoundThroughout(tr[..|tr| - 1]) && Sound(Last(tr))
    ensures SoundThroughout(tr)
  {
    assert forall i | 0 <= i < |tr| - 1 :: tr[i] == tr[..|tr| - 1][i];
  }

  lemma {:induction false} PassesSound(pol: Policy, tr: seq<Book>, acts: seq<OrderId>)
    requires Passes(pol, tr, acts) && Sound(tr[0])
    ensures SoundThroughout(tr)
    ensures Last(tr).Keys == tr[0].Keys
    ensures Versioned(tr[0]) ==> Versioned(Last(tr))
    decreases |acts|
  {
    if acts != [] {
      var n := |acts|;
      PassesSound(pol, tr[..n], acts[..n - 1]);
      ActStepSound(pol, tr[..n], acts[n - 1], tr[n]);
      OneMoreSound(tr);
    }
  }

  lemma {:induction false} PassesBounded(pol: Policy, tr: seq<Book>, acts: seq<OrderId>, c: Cell)
    requires Passes(pol, tr, acts) && Sound(tr[0])
    ensures Bounded(pol, tr[0], Last(tr), c)
    decreases |acts|
  {
    if acts != [] {
      var n := |acts|;
      PassesBounded(pol, tr[..n], acts[..n - 1], c);
      PassesSound(pol, tr[..n], acts[..n - 1]);
      ActKeepsBounds(pol, tr[..n], acts[n - 1], tr[n], c);
    }
  }

  predicate Distinct<T(==)>(s: seq<T>) { forall i, j | 0 <= i < j < |s| :: s[i] != s[j] }

  ghost function NewOrder(pol: Policy, tr: seq<Book>, maxId: nat, plan: seq<Cell>, id: OrderId): Order
    requires maxId < id <= maxId + |plan|
  {
    Created(id, plan[id - maxId - 1], Gap(pol, tr, plan[id - maxId - 1]))
  }

  /** The orders of `b` and the new ones of a plan. */
  ghost predicate Extended(pol: Policy, tr: seq<Book>, maxId: nat, plan: seq<Cell>, b: Book, b': Book) {
    && (forall id :: id in b' <==> id in b || maxId < id <= maxId + |plan|)
    && (forall id | id in b :: b'[id] == b[id])
    && (forall id | maxId < id <= maxId + |plan| :: b'[id] == NewOrder(pol, tr, maxId, plan, id))
  }

  lemma ExtendedOnce(pol: Policy, tr: seq<Book>, maxId: nat, plan: seq<Cell>, b: Book, b': Book)
    requires plan != [] && Below(b, maxId) && Extended(pol, tr, maxId, plan[..|plan| - 1], b, b')
    ensures Extended(pol, tr, maxId, plan, b, b'[maxId + |plan| := NewOrder(pol, tr, maxId, plan, maxId + |plan|)])
  {
    var front := plan[..|plan| - 1];
    forall id | maxId < id < maxId + |plan|
      ensures NewOrder(pol, tr, maxId, plan, id) == NewOrder(pol, tr, maxId, front, id)
    {
      assert plan[id - maxId - 1] == front[id - maxId - 1];
    }
  }

  /** Creates add one order to each level of the plan and touch no order that was there. */
  lemma {:induction false} CreatesAdd(pol: Policy, tr: seq<Book>, maxId: nat, plan: seq<Cell>)
    requires tr != [] && Below(Last(tr), maxId)
    ensures Extended(pol, tr, maxId, plan, Last(tr), WithCreates(pol, tr, maxId, plan))
  {
    if plan != [] {
      CreatesAdd(pol, tr, maxId, plan[..|plan| - 1]);
      ExtendedOnce(pol, tr, maxId, plan, Last(tr), WithCreates(pol, tr, maxId, plan[..|plan| - 1]));
    }
  }

  lemma {:induction false} CreatesFill(pol: Policy, tr: seq<Book>, maxId: nat, plan: seq<Cell>, c: Cell)
    requires tr != [] && Below(Last(tr), maxId) && Distinct(plan)
    ensures Rest(WithCreates(pol, tr, maxId, plan), c) == Rest(Last(tr), c) + (if c in plan then Gap(pol, tr, c) else 0)
  {
    if plan != [] {
      var n := |plan|;
      var front, d := plan[..n - 1], plan[n - 1];
      CreatesAdd(pol, tr, maxId, front);
      CreatesFill(pol, tr, maxId, front, c);
      SumUpdate(WithCreates(pol, tr, maxId, front), maxId + n, Created(maxId + n, d, Gap(pol, tr, d)), RestingAt(c));
      assert plan == front + [d];
      assert d !in front;
    }
  }

  lemma CreatesSound(pol: Policy, tr: seq<Book>, maxId: nat, plan: seq<Cell>)
    requires tr != [] && Sound(Last(tr)) && Below(Last(tr), maxId) && IsPlan(pol, tr, plan)
    ensures Sound(WithCreates(pol, tr, maxId, plan)) && Below(WithCreates(pol, tr, maxId, plan), maxId + |plan|)
    ensures Versioned(Last(tr)) ==> Versioned(WithCreates(pol, tr, maxId, plan))
  {
    CreatesAdd(pol, tr, maxId, plan);
    forall id | maxId < id <= maxId + |plan|
      ensures SoundOrder(id, NewOrder(pol, tr, maxId, plan, id))
    {
      assert plan[id - maxId - 1] in plan;
    }
  }

  // ----- main results -------------------------------------------------------------------------

  /** No over-ordering: no call lifts a level above its target or above where it was. */
  lemma NoOverOrdering(pol: Policy, b: Book, maxId: nat, tr: seq<Book>, acts: seq<OrderId>, plan: seq<Cell>, b': Book, c: Cell)
    requires Call(pol, b, maxId, tr, acts, plan, b')
    requires Sound(b) && Below(b, maxId)
    ensures Sound(b') && Below(b', maxId + |plan|)
    ensures Rest(b', c) <= Max(pol.Target(c), Rest(b, c))
  {
    PassesSound(pol, tr, acts);
    PassesBounded(pol, tr, acts, c);
    CreatesSound(pol, tr, maxId, plan);
    CreatesFill(pol, tr, maxId, plan, c);
    CounterIsUpperBound(tr, c);
  }

  ghost function FreeOrders(b: Book): set<OrderId> { set id | id in b && b[id].Free() }

  /** One request was sent for the order: it was moved, where that is allowed, or canceled. */
  ghost predicate TouchedOnce(pol: Policy, o: Order, q: Order) {
    && o.Free()
    && (q == CancelAsked(o) || (pol.Movable(o) && exists price, quantity :: q == Modified(o, price, quantity)))
  }

  /** No order gets more than one request from the passes of a call, and no other order changes. */
  lemma {:induction false} OneRequestEach(pol: Policy, tr: seq<Book>, acts: seq<OrderId>)
    requires Passes(pol, tr, acts)
    ensures tr[0].Keys == Last(tr).Keys
    ensures Distinct(acts)
    ensures forall id | id in acts :: id in tr[0] && TouchedOnce(pol, tr[0][id], Last(tr)[id])
    ensures forall id | id in tr[0] && id !in acts :: Last(tr)[id] == tr[0][id]
    decreases |acts|
  {
    if acts != [] {
      var n := |acts|;
      var front, id := acts[..n - 1], acts[n - 1];
      OneRequestEach(pol, tr[..n], front);
      assert acts == front + [id] && tr[..n][0] == tr[0];
      OneMoreTouched(pol, tr[0], tr[..n], front, id, Last(tr));
    }
  }

  lemma TouchedIsBusy(pol: Policy, o: Order, q: Order)
    requires TouchedOnce(pol, o, q)
    ensures !q.Free()
  {
  }

  lemma OneMoreTouched(pol: Policy, b: Book, past: seq<Book>, front: seq<OrderId>, id: OrderId, next: Book)
    requires past != [] && ActStep(pol, past, id, next) && b.Keys == Last(past).Keys && Distinct(front)
    requires forall j | j in front :: j in b && TouchedOnce(pol, b[j], Last(past)[j])
    requires forall j | j in b && j !in front :: Last(past)[j] == b[j]
    ensures id !in front && Distinct(front + [id]) && next.Keys == b.Keys
    ensures forall j | j in front + [id] :: j in b && TouchedOnce(pol, b[j], next[j])
    ensures forall j | j in b && j !in front + [id] :: next[j] == b[j]
  {
    forall j | j in front
      ensures !Last(past)[j].Free()
    {
      TouchedIsBusy(pol, b[j], Last(past)[j]);
    }
    assert TouchedOnce(pol, b[id], next[id]);
  }

  /** What a pass sends for an order is what the order still looks like when the passes end. */
  lemma {:induction false} RequestsStand(pol: Policy, tr: seq<Book>, acts: seq<OrderId>, i: nat)
    requires Passes(pol, tr, acts) && i < |acts|
    ensures acts[i] in Last(tr) && tr[i + 1][acts[i]] == Last(tr)[acts[i]]
    decreases |acts|
  {
    var n := |acts|;
    if i < n - 1 {
      RequestsStand(pol, tr[..n], acts[..n - 1], i);
      OneRequestEach(pol, tr, acts);
      assert acts[i] == acts[..n - 1][i];
    }
  }

  lemma ActUsesUpOrder(pol: Policy, past: seq<Book>, id: OrderId, next: Book)
    requires past != [] && ActStep(pol, past, id, next)
    ensures |FreeOrders(next)| + 1 == |FreeOrders(Last(past))|
  {
    assert FreeOrders(Last(past)) == FreeOrders(next) + {id};
  }

  /** Termination, exactly: a call restarts as often as it uses up free orders, so never more
      often than there are orders. */
  lemma {:induction false} RestartsUseUpOrders(pol: Policy, tr: seq<Book>, acts: seq<OrderId>)
    requires Passes(pol, tr, acts)
    ensures |FreeOrders(Last(tr))| + |acts| == |FreeOrders(tr[0])|
    decreases |acts|
  {
    if acts != [] {
      var n := |acts|;
      RestartsUseUpOrders(pol, tr[..n], acts[..n - 1]);
      ActUsesUpOrder(pol, tr[..n], acts[n - 1], tr[n]);
    }
  }

  /** A level is matched: it rests at its target, or short of it by less than an order is worth. */
  ghost predicate Matched(pol: Policy, b: Book, c: Cell) {
    var missing := pol.Target(c) - Rest(b, c);
    missing == 0 || (pol.minVolume.Some? && 0 < missing < pol.minVolume.value)
  }

  /** No level rests above its target. */
  ghost predicate Settled(pol: Policy, b: Book) { forall c: Cell :: Rest(b, c) <= pol.Target(c) }

  lemma FirstPassCountsOnce(b: Book)
    ensures forall c: Cell :: Acc([b], c) == Rest(b, c)
  {
    forall c: Cell
      ensures Acc([b], c) == Rest(b, c)
    {
      assert [b][..0] == [];
    }
  }

  lemma {:induction false} PassesExtend(pol: Policy, tr: seq<Book>, acts: seq<OrderId>)
    requires Passes(pol, tr, acts) && acts != []
    ensures ActStep(pol, [tr[0]], acts[0], tr[1])
    decreases |acts|
  {
    var n := |acts|;
    if n == 1 {
      assert tr[..1] == [tr[0]];
    } else {
      PassesExtend(pol, tr[..n], acts[..n - 1]);
    }
  }

  /** From a settled book a call changes and cancels nothing. */
  lemma SettledNeedsNoActs(pol: Policy, b: Book, tr: seq<Book>, acts: seq<OrderId>)
    requires Passes(pol, tr, acts) && tr[0] == b && Settled(pol, b)
    ensures acts == [] && tr == [b]
  {
    if acts != [] {
      PassesExtend(pol, tr, acts);
      FirstPassCountsOnce(b);
      assert false;
    }
  }

  /** When every order was free, or in flight within its level's target, the passes end settled. */
  lemma QuietIsSettled(pol: Policy, b: Book, tr: seq<Book>, acts: seq<OrderId>)
    requires Passes(pol, tr, acts) && tr[0] == b && Quiet(pol, tr)
    requires Sound(b) && Versioned(b)
    requires forall c: Cell :: Sum(b, FlyingAt(c)) <= pol.Target(c)
    ensures Sound(Last(tr)) && Versioned(Last(tr)) && Settled(pol, Last(tr))
  {
    PassesSound(pol, tr, acts);
    var now := Last(tr);
    forall c: Cell
      ensures Rest(now, c) <= pol.Target(c)
    {
      PassesBounded(pol, tr, acts, c);
      if id :| id in now && now[id].Live() && !now[id].InFlight() && now[id].Where() == c {
        CounterIsUpperBound(tr, c);
      } else {
        SumMono(now, RestingAt(c), FlyingAt(c));
      }
    }
  }

  lemma IdleFliesNowhere(b: Book, c: Cell)
    requires Idle(b)
    ensures Sum(b, FlyingAt(c)) == 0
  {
    TotalZero(Spread(b, FlyingAt(c)));
  }

  lemma CreatesKeepSettled(pol: Policy, tr: seq<Book>, maxId: nat, plan: seq<Cell>)
    requires tr != [] && forall i | 0 <= i < |tr| :: Sound(tr[i])
    requires Below(Last(tr), maxId) && IsPlan(pol, tr, plan) && Settled(pol, Last(tr))
    ensures Settled(pol, WithCreates(pol, tr, maxId, plan))
  {
    forall c: Cell
      ensures Rest(WithCreates(pol, tr, maxId, plan), c) <= pol.Target(c)
    {
      CreatesFill(pol, tr, maxId, plan, c);
      CounterIsUpperBound(tr, c);
    }
  }

  /** Quiescence means matched, and the other way round: on an idle book whose orders have all been
      granted a version, a call sends nothing if and only if every level is matched. */
  lemma SilentIffMatched(pol: Policy, b: Book, maxId: nat, tr: seq<Book>, acts: seq<OrderId>, plan: seq<Cell>, b': Book)
    requires Call(pol, b, maxId, tr, acts, plan, b')
    requires Sound(b) && Below(b, maxId) && Idle(b) && Versioned(b) && LongOnly(pol)
    ensures acts == [] && plan == [] <==> forall c: Cell :: Matched(pol, b, c)
    ensures acts == [] && plan == [] ==> b' == b
  {
    FirstPassCountsOnce(b);
    if acts == [] && plan == [] {
      assert tr == [b];
      forall c: Cell { IdleFliesNowhere(b, c); }
      QuietIsSettled(pol, b, tr, acts);
      forall c: Cell
        ensures Matched(pol, b, c)
      {
        assert c !in plan;
        RestBounds(b, c);
      }
    }
    if forall c: Cell :: Matched(pol, b, c) {
      assert Settled(pol, b) by {
        forall c: Cell
          ensures Rest(b, c) <= pol.Target(c)
        {
          assert Matched(pol, b, c);
        }
      }
      SettledNeedsNoActs(pol, b, tr, acts);
      assert forall c: Cell :: Matched(pol, b, c) ==> !Wanted(pol, tr, c);
      assert plan != [] ==> plan[0] in plan;
    }
  }

  // ----- worst-case exposure ------------------------------------------------------------------

  function Within(o: Order, cells: set<Cell>): int {
    if o.Live() && o.Where() in cells then o.expected.quantity else 0
  }

  function RestingIn(cells: set<Cell>): Order -> int { (o: Order) => Within(o, cells) }

  ghost function TargetsIn(pol: Policy, cells: set<Cell>): map<Cell, int> {
    map c | c in pol.targets :: if c in cells then pol.targets[c] else 0
  }

  lemma OneLevelMore(b: Book, cells: set<Cell>, c: Cell)
    requires c !in cells
    ensures Sum(b, RestingIn(cells + {c})) == Sum(b, RestingIn(cells)) + Rest(b, c)
  {
    var before, after, here := Spread(b, RestingIn(cells)), Spread(b, RestingIn(cells + {c})), Spread(b, RestingAt(c));
    forall id | id in before
      ensures after[id] == before[id] + here[id]
    {
      assert after[id] == Within(b[id], cells + {c});
    }
    TotalSum(before, here, after);
  }

  /** Summing over orders and summing over levels is the same. */
  lemma {:induction false} SettledLevelsAddUp(pol: Policy, b: Book, cells: set<Cell>)
    requires cells <= pol.targets.Keys && forall c | c in cells :: Rest(b, c) <= pol.Target(c)
    ensures Sum(b, RestingIn(cells)) <= Total(TargetsIn(pol, cells))
    decreases |cells|
  {
    if cells == {} {
      TotalZero(Spread(b, RestingIn(cells)));
      TotalZero(TargetsIn(pol, cells));
    } else {
      var c :| c in cells;
      var rest := cells - {c};
      SettledLevelsAddUp(pol, b, rest);
      OneLevelMore(b, rest, c);
      assert rest + {c} == cells;
      TotalUpdate(TargetsIn(pol, rest), c, pol.targets[c]);
      assert TargetsIn(pol, rest)[c := pol.targets[c]] == TargetsIn(pol, cells);
    }
  }

  ghost function CellsOf(pol: Policy, s: Side): set<Cell> { set c | c in pol.targets && c.side == s }

  /** On a side where every live order expects at least what it is granted, a settled book cannot
      rest with more than the side's targets. */
  lemma SettledSideIsCovered(pol: Policy, b: Book, s: Side)
    requires Sound(b)
    requires forall c: Cell | c.side == s :: Rest(b, c) <= pol.Target(c)
    requires forall id | id in b && b[id].Live() && b[id].side == s :: b[id].confirmed.quantity <= b[id].expected.quantity
    ensures Exposure(b, s) <= SideTarget(pol, s)
  {
    var cells := CellsOf(pol, s);
    forall id | id in b
      ensures WorstOn(s)(b[id]) <= RestingIn(cells)(b[id])
    {
      var o := b[id];
      if o.Live() && o.side == s {
        RestBounds(b, o.Where());
        assert At(o, o.Where()) <= pol.Target(o.Where());
      }
    }
    SumMono(b, WorstOn(s), RestingIn(cells));
    SettledLevelsAddUp(pol, b, cells);
    assert TargetsIn(pol, cells) == map c | c in pol.targets :: if c.side == s then pol.targets[c] else 0;
  }

  /** Worst-case exposure: once a call has sent a create on a side, whatever may come to rest there
      is covered by the targets of that side. */
  lemma WorstCaseIsCovered(pol: Policy, b: Book, maxId: nat, tr: seq<Book>, acts: seq<OrderId>, plan: seq<Cell>, b': Book, s: Side)
    requires Call(pol, b, maxId, tr, acts, plan, b')
    requires Sound(b) && Below(b, maxId) && Versioned(b) && LongOnly(pol)
    requires exists c :: c in plan && c.side == s
    ensures Exposure(b', s) <= SideTarget(pol, s)
  {
    PassesSound(pol, tr, acts);
    CreatesSound(pol, tr, maxId, plan);
    CreatesAdd(pol, tr, maxId, plan);
    var now := Last(tr);
    assert !Busy(now, s);
    forall c: Cell | c.side == s
      ensures Rest(b', c) <= pol.Target(c)
    {
      CreatesFill(pol, tr, maxId, plan, c);
      CounterIsUpperBound(tr, c);
      if id :| id in now && now[id].Live() && now[id].Where() == c {
        assert !now[id].InFlight();
      } else {
        TotalZero(Spread(now, RestingAt(c)));
      }
    }
    SettledSideIsCovered(pol, b', s);
  }

  lemma {:induction false} CreatesElsewhere(pol: Policy, tr: seq<Book>, maxId: nat, plan: seq<Cell>, s: Side)
    requires tr != [] && Below(Last(tr), maxId)
    requires forall c :: c in plan ==> c.side != s
    ensures Exposure(WithCreates(pol, tr, maxId, plan), s) == Exposure(Last(tr), s)
  {
    if plan != [] {
      var n := |plan|;
      var front, d := plan[..n - 1], plan[n - 1];
      assert d in plan;
      CreatesElsewhere(pol, tr, maxId, front, s);
      CreatesAdd(pol, tr, maxId, front);
      SumUpdate(WithCreates(pol, tr, maxId, front), maxId + n, Created(maxId + n, d, Gap(pol, tr, d)), WorstOn(s));
    }
  }

  /** And a call that sends no create on a side leaves what may come to rest there as it was,
      provided orders are not modified. */
  lemma WithoutCreatesExposureStays(pol: Policy, b: Book, maxId: nat, tr: seq<Book>, acts: seq<OrderId>, plan: seq<Cell>, b': Book, s: Side)
    requires Call(pol, b, maxId, tr, acts, plan, b')
    requires Sound(b) && Below(b, maxId) && !pol.modifiable
    requires forall c :: c in plan ==> c.side != s
    ensures Exposure(b', s) == Exposure(b, s)
  {
    OneRequestEach(pol, tr, acts);
    forall id | id in b
      ensures Worst(Last(tr)[id], s) == Worst(b[id], s)
    {
      assert SoundOrder(id, b[id]);
    }
    assert Spread(b, WorstOn(s)) == Spread(Last(tr), WorstOn(s));
    CreatesElsewhere(pol, tr, maxId, plan, s);
  }

  // ----- the price of a restart ---------------------------------------------------------------

  lemma ActElsewhere(pol: Policy, past: seq<Book>, id: OrderId, next: Book, c: Cell)
    requires past != [] && ActStep(pol, past, id, next) && Sound(Last(past))
    requires At(Last(past)[id], c) == 0
    ensures Rest(next, c) >= Rest(Last(past), c)
  {
    ActStepSound(pol, past, id, next);
    SumUpdate(Last(past), id, next[id], RestingAt(c));
  }

  predicate TouchesLevel(b: Book, acts: seq<OrderId>, c: Cell) {
    exists id :: id in acts && id in b && b[id].Live() && b[id].Where() == c
  }

  lemma LastActIsNew(pol: Policy, tr: seq<Book>, acts: seq<OrderId>)
    requires Passes(pol, tr, acts) && acts != []
    ensures acts[|acts| - 1] in tr[0] && acts[|acts| - 1] !in acts[..|acts| - 1]
  {
    OneRequestEach(pol, tr, acts);
    assert acts[|acts| - 1] in acts;
  }

  lemma LastActStep(pol: Policy, tr: seq<Book>, acts: seq<OrderId>)
    requires Passes(pol, tr, acts) && acts != []
    ensures var n := |acts|;
            && Passes(pol, tr[..n], acts[..n - 1]) && ActStep(pol, tr[..n], acts[n - 1], tr[n])
            && acts[n - 1] in tr[0] && Last(tr[..n])[acts[n - 1]] == tr[0][acts[n - 1]]
  {
    var n := |acts|;
    LastActIsNew(pol, tr, acts);
    OneRequestEach(pol, tr[..n], acts[..n - 1]);
  }

  /** A level none of whose orders is touched keeps what rests there, pass after pass. */
  lemma {:induction false} UntouchedLevelPilesUp(pol: Policy, tr: seq<Book>, acts: seq<OrderId>, c: Cell)
    requires Passes(pol, tr, acts) && Sound(tr[0]) && !TouchesLevel(tr[0], acts, c)
    ensures Rest(Last(tr), c) >= Rest(tr[0], c)
    ensures Acc(tr, c) >= Rest(tr[0], c)
    ensures acts != [] ==> Acc(tr, c) >= 2 * Rest(tr[0], c)
    decreases |acts|
  {
    var n := |acts|;
    if n > 0 {
      LastActStep(pol, tr, acts);
      PassesSound(pol, tr[..n], acts[..n - 1]);
      assert forall id | id in acts[..n - 1] :: id in acts;
      UntouchedLevelPilesUp(pol, tr[..n], acts[..n - 1], c);
      RestBounds(tr[0], c);
      assert acts[n - 1] in acts;
      ActElsewhere(pol, tr[..n], acts[n - 1], tr[n], c);
    }
  }

  lemma SomeOrderRests(b: Book, c: Cell)
    requires Rest(b, c) > 0
    ensures exists id :: id in b && b[id].Live() && b[id].Where() == c
  {
    if forall id | id in b :: !(b[id].Live() && b[id].Where() == c) {
      TotalZero(Spread(b, RestingAt(c)));
    }
  }

  /** Some order that may be touched stands at a level that holds more than its target. */
  ghost predicate Overfull(pol: Policy, b: Book) {
    exists id :: id in b && b[id].Free() && Rest(b, b[id].Where()) > pol.Target(b[id].Where())
  }

  /** A call restarts exactly when it finds such an order to begin with. */
  lemma RestartsIff(pol: Policy, b: Book, tr: seq<Book>, acts: seq<OrderId>)
    requires Passes(pol, tr, acts) && tr[0] == b && Quiet(pol, tr)
    ensures acts != [] <==> Overfull(pol, b)
  {
    FirstPassCountsOnce(b);
    if acts != [] {
      PassesExtend(pol, tr, acts);
      assert b[acts[0]].Free() && Rest(b, b[acts[0]].Where()) > pol.Target(b[acts[0]].Where());
    } else {
      assert tr == [b];
    }
  }

  lemma MatchedIsTouched(pol: Policy, b: Book, tr: seq<Book>, acts: seq<OrderId>, c: Cell)
    requires Passes(pol, tr, acts) && tr[0] == b && Quiet(pol, tr) && acts != []
    requires Sound(b) && Versioned(b) && Idle(b)
    requires Rest(b, c) == pol.Target(c) > 0
    ensures TouchesLevel(b, acts, c)
  {
    if !TouchesLevel(b, acts, c) {
      UntouchedLevelPilesUp(pol, tr, acts, c);
      OneRequestEach(pol, tr, acts);
      SomeOrderRests(b, c);
      var id :| id in b && b[id].Live() && b[id].Where() == c;
      assert Last(tr)[id] == b[id] && b[id].Free();
      assert false;
    }
  }

  /** The counters are not cleared on a restart, so a restart takes every matched level for overfull:
      a level that rests at its positive target with nothing in flight gets one of its orders moved or
      canceled exactly when some order stands at a level that holds too much. */
  lemma RestartDisturbsMatchedLevels(pol: Policy, b: Book, tr: seq<Book>, acts: seq<OrderId>, c: Cell)
    requires Passes(pol, tr, acts) && tr[0] == b && Quiet(pol, tr)
    requires Sound(b) && Versioned(b) && Idle(b)
    requires Rest(b, c) == pol.Target(c) > 0
    ensures TouchesLevel(b, acts, c) <==> Overfull(pol, b)
  {
    RestartsIff(pol, b, tr, acts);
    if acts != [] {
      MatchedIsTouched(pol, b, tr, acts, c);
    }
  }

  /** An order as it rests once granted. */
  function Resting(id: OrderId, c: Cell, quantity: int): Order {
    var granted := Version(CreateOrder, Working, 1, c.price, quantity);
    Order(id, c.side, 0, quantity, BLANK.(version := 1), granted, granted, 0, 0, 0)
  }

  function TwoOrders(c: Cell, d: Cell, quantity: int, other: int): Book {
    map[1 := Resting(1, c, quantity), 2 := Resting(2, d, other)]
  }

  function OneTarget(c: Cell, quantity: int): Policy { Policy(map[c := quantity], false, None) }

  lemma RestOfTwo(c: Cell, d: Cell, quantity: int, other: int)
    requires c != d
    ensures Rest(TwoOrders(c, d, quantity, other), c) == quantity && Rest(TwoOrders(c, d, quantity, other), d) == other
  {
    var one: Book := map[1 := Resting(1, c, quantity)];
    var none: Book := map[];
    forall e: Cell
      ensures Rest(none, e) == 0
    {
      assert Spread(none, RestingAt(e)) == map[];
    }
    assert none[1 := Resting(1, c, quantity)] == one;
    assert one[2 := Resting(2, d, other)] == TwoOrders(c, d, quantity, other);
    SumUpdate(none, 1, Resting(1, c, quantity), RestingAt(c));
    SumUpdate(none, 1, Resting(1, c, quantity), RestingAt(d));
    SumUpdate(one, 2, Resting(2, d, other), RestingAt(c));
    SumUpdate(one, 2, Resting(2, d, other), RestingAt(d));
  }

  lemma TwoOrdersStand(c: Cell, d: Cell, quantity: int, other: int)
    requires c != d && quantity > 0 && other > 0
    ensures var b := TwoOrders(c, d, quantity, other);
            && Sound(b) && Versioned(b) && Idle(b) && Below(b, 2) && Overfull(OneTarget(c, quantity), b)
            && Rest(b, c) == OneTarget(c, quantity).Target(c)
  {
    var b := TwoOrders(c, d, quantity, other);
    RestOfTwo(c, d, quantity, other);
    assert b[2].Free() && b[2].Where() == d;
  }

  /** The only order of a matched level, with modification banned: a call that restarts cancels it. */
  lemma LoneOrderIsCanceled(pol: Policy, b: Book, tr: seq<Book>, acts: seq<OrderId>, c: Cell, id: OrderId)
    requires Passes(pol, tr, acts) && tr[0] == b && Quiet(pol, tr) && Overfull(pol, b) && !pol.modifiable
    requires Sound(b) && Versioned(b) && Idle(b) && Rest(b, c) == pol.Target(c) > 0
    requires id in b && forall j | j in b && b[j].Where() == c :: j == id
    ensures id in Last(tr) && Last(tr)[id] == CancelAsked(b[id])
  {
    RestartsIff(pol, b, tr, acts);
    MatchedIsTouched(pol, b, tr, acts, c);
    OneRequestEach(pol, tr, acts);
  }

  lemma CreatesKeep(pol: Policy, tr: seq<Book>, maxId: nat, plan: seq<Cell>, id: OrderId)
    requires tr != [] && Below(Last(tr), maxId) && id in Last(tr)
    ensures id in WithCreates(pol, tr, maxId, plan) && WithCreates(pol, tr, maxId, plan)[id] == Last(tr)[id]
  {
    CreatesAdd(pol, tr, maxId, plan);
  }

  /** So with one order at its target and another at a level without target, where orders may not be
      modified, every call cancels the one at its target and creates none in its place. */
  lemma MatchedOrderIsCanceled(c: Cell, d: Cell, quantity: int, other: int, tr: seq<Book>, acts: seq<OrderId>, plan: seq<Cell>, b': Book)
    requires c != d && quantity > 0 && other > 0
    requires Call(OneTarget(c, quantity), TwoOrders(c, d, quantity, other), 2, tr, acts, plan, b')
    ensures Matched(OneTarget(c, quantity), TwoOrders(c, d, quantity, other), c)
    ensures 1 in b' && b'[1] == CancelAsked(TwoOrders(c, d, quantity, other)[1]) && c !in plan
  {
    var pol, b := OneTarget(c, quantity), TwoOrders(c, d, quantity, other);
    TwoOrdersStand(c, d, quantity, other);
    LoneOrderIsCanceled(pol, b, tr, acts, c, 1);
    UncreatedLevel(pol, b, tr, acts, c);
    PassesSound(pol, tr, acts);
    CreatesKeep(pol, tr, 2, plan, 1);
  }

  /** A level at its target is not created for. */
  lemma UncreatedLevel(pol: Policy, b: Book, tr: seq<Book>, acts: seq<OrderId>, c: Cell)
    requires Passes(pol, tr, acts) && tr[0] == b && Sound(b) && Rest(b, c) >= pol.Target(c)
    ensures !Hole(pol, tr, c)
    decreases |acts|
  {
    var n := |acts|;
    if n == 0 {
      assert tr == [b];
      FirstPassCountsOnce(b);
    } else {
      UncreatedLevel(pol, b, tr[..n], acts[..n - 1], c);
      PassesSound(pol, tr, acts);
      RestBounds(tr[n], c);
    }
  }
}
