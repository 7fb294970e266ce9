/** What the requests in the log say: which order they are about, where they put it and how much they ask
    for; and what becomes of an order whose change was refused. */
module Requests {
  import opened Wrappers
  import opened Orders
  import opened Reconcile
  import opened Oms
  import opened Runs
  import opened RunBounds

  // ----- one request ----------------------------------------------------------------------------

  /** A request agrees with the order it is about: kind and version pending, and side, price and quantity
      as the order is expected to rest. */
  predicate Agrees(r: Request, b: Book) {
    && r.id in b
    && var o := b[r.id];
       && r.side == o.side && r.kind == o.pending.kind && r.version == o.pending.version
       && r.price == o.expected.price && r.quantity == o.expected.quantity
  }

  lemma ActRequestAgrees(pol: Policy, tr: seq<Book>, acts: seq<OrderId>, i: nat)
    requires Passes(pol, tr, acts) && i < |acts| && Sound(tr[0])
    ensures Agrees(ActRequests(tr, acts)[i], Last(tr))
    ensures var r := ActRequests(tr, acts)[i];
            && r.id == acts[i] && r.id in tr[0] && (r.kind == ModifyOrder || r.kind == CancelOrder)
            && (r.kind == ModifyOrder ==> tr[0][r.id].rejects == 0)
            && (r.kind == CancelOrder ==> r.quantity == 0 && r.price == tr[0][r.id].expected.price)
    ensures Distinct(acts)
  {
    RequestsStand(pol, tr, acts, i);
    OneRequestEach(pol, tr, acts);
    assert acts[i] in acts;
    assert SoundOrder(acts[i], tr[0][acts[i]]);
    TouchAgrees(pol, tr[0][acts[i]], Last(tr)[acts[i]]);
  }

  lemma TouchAgrees(pol: Policy, o: Order, q: Order)
    requires TouchedOnce(pol, o, q)
    ensures q.expected == q.pending && q.id == o.id && q.side == o.side
    ensures q.pending.kind == ModifyOrder || q.pending.kind == CancelOrder
    ensures q.pending.kind == ModifyOrder ==> o.rejects == 0
    ensures q.pending.kind == CancelOrder ==> q.expected.quantity == 0 && q.expected.price == o.expected.price
  {
  }

  lemma CreateRequestAgrees(pol: Policy, tr: seq<Book>, maxId: nat, plan: seq<Cell>, i: nat)
    requires tr != [] && Below(Last(tr), maxId) && i < |plan|
    ensures var r := CreateRequests(pol, tr, maxId, plan)[i];
            && Agrees(r, WithCreates(pol, tr, maxId, plan)) && r.kind == CreateOrder && r.id !in Last(tr)
            && WithCreates(pol, tr, maxId, plan)[r.id].traded == 0 && WithCreates(pol, tr, maxId, plan)[r.id].remaining == r.quantity
            && Cell(r.side, r.price) == plan[i] && r.quantity == Gap(pol, tr, plan[i])
  {
    CreatesAdd(pol, tr, maxId, plan);
    var id := maxId + 1 + i;
    assert WithCreates(pol, tr, maxId, plan)[id] == NewOrder(pol, tr, maxId, plan, id);
  }

  /** Every request of a call agrees with its order as the call leaves it. */
  lemma CallRequestAgrees(pol: Policy, b: Book, maxId: nat, tr: seq<Book>, acts: seq<OrderId>, plan: seq<Cell>, b': Book, i: nat)
    requires Call(pol, b, maxId, tr, acts, plan, b') && Sound(b) && Below(b, maxId) && i < |acts| + |plan|
    ensures var r := NewRequests(pol, tr, acts, maxId, plan)[i];
            && Agrees(r, b') && (r.kind == CreateOrder <==> r.id !in b) && (r.kind == CreateOrder ==> i >= |acts|)
            && (r.kind != CreateOrder ==> r.kind == ModifyOrder || r.kind == CancelOrder)
  {
    PassesSound(pol, tr, acts);
    if i < |acts| {
      ActRequestAgrees(pol, tr, acts, i);
      CreatesKeep(pol, tr, maxId, plan, acts[i]);
    } else {
      CreateRequestAgrees(pol, tr, maxId, plan, i - |acts|);
    }
  }

  /** A create asks for what its level is short of, at the price of the level: it lifts the level by its
      quantity, to the target at most. */
  lemma CreateLiftsLevel(pol: Policy, b: Book, maxId: nat, tr: seq<Book>, acts: seq<OrderId>, plan: seq<Cell>, b': Book, i: nat)
    requires Call(pol, b, maxId, tr, acts, plan, b') && Sound(b) && Below(b, maxId) && i < |plan|
    ensures var r := CreateRequests(pol, tr, maxId, plan)[i];
            var c := Cell(r.side, r.price);
            && r.quantity > 0 && Rest(b', c) == Rest(Last(tr), c) + r.quantity <= pol.Target(c)
            && (acts == [] ==> Rest(b', c) == Rest(b, c) + r.quantity == pol.Target(c))
  {
    PassesSound(pol, tr, acts);
    CreateRequestAgrees(pol, tr, maxId, plan, i);
    var c := plan[i];
    assert c in plan;
    CreatesFill(pol, tr, maxId, plan, c);
    CounterIsUpperBound(tr, c);
    if acts == [] {
      assert tr == [b];
      FirstPassCountsOnce(b);
    }
  }

  ghost function NewRequests(pol: Policy, tr: seq<Book>, acts: seq<OrderId>, maxId: nat, plan: seq<Cell>): seq<Request>
    requires |tr| == |acts| + 1 && forall i | 0 <= i < |acts| :: acts[i] in tr[i + 1]
  {
    ActRequests(tr, acts) + CreateRequests(pol, tr, maxId, plan)
  }

  /** A create leaves its level at the target at most; alone with other creates it lifts it to the target. */
  ghost predicate Lifts(pol: Policy, b: Book, b': Book, r: Request, alone: bool) {
    var c := Cell(r.side, r.price);
    && 0 < r.quantity <= Rest(b', c) <= pol.Target(c)
    && (alone ==> Rest(b', c) == Rest(b, c) + r.quantity == pol.Target(c))
  }

  lemma CreateLifts(pol: Policy, b: Book, maxId: nat, tr: seq<Book>, acts: seq<OrderId>, plan: seq<Cell>, b': Book, i: nat, alone: bool)
    requires Call(pol, b, maxId, tr, acts, plan, b') && Sound(b) && Below(b, maxId) && i < |plan| && (alone ==> acts == [])
    ensures Lifts(pol, b, b', CreateRequests(pol, tr, maxId, plan)[i], alone)
  {
    CreateLiftsLevel(pol, b, maxId, tr, acts, plan, b', i);
    PassesSound(pol, tr, acts);
    var r := CreateRequests(pol, tr, maxId, plan)[i];
    RestBounds(Last(tr), Cell(r.side, r.price));
  }

  lemma CreatesComeLast(pol: Policy, tr: seq<Book>, acts: seq<OrderId>, maxId: nat, plan: seq<Cell>, i: nat)
    requires Passes(pol, tr, acts) && i < |acts| + |plan| && NewRequests(pol, tr, acts, maxId, plan)[i].kind == CreateOrder
    ensures i >= |acts| && NewRequests(pol, tr, acts, maxId, plan)[i] == CreateRequests(pol, tr, maxId, plan)[i - |acts|]
  {
    ActsAreNoCreates(pol, tr, acts);
  }

  lemma CallCreateLifts(pol: Policy, b: Book, maxId: nat, tr: seq<Book>, acts: seq<OrderId>, plan: seq<Cell>, b': Book, i: nat, alone: bool)
    requires Call(pol, b, maxId, tr, acts, plan, b') && Sound(b) && Below(b, maxId) && i < |acts| + |plan| && (alone ==> acts == [])
    requires NewRequests(pol, tr, acts, maxId, plan)[i].kind == CreateOrder
    ensures Lifts(pol, b, b', NewRequests(pol, tr, acts, maxId, plan)[i], alone)
  {
    CreatesComeLast(pol, tr, acts, maxId, plan, i);
    CreateLifts(pol, b, maxId, tr, acts, plan, b', i - |acts|, alone);
  }

  // ----- numbers and permissions ------------------------------------------------------------------

  /** A request for an order of the book is numbered next and holds on the version granted; that for a new one
      is its first and holds on nothing. */
  predicate Numbered(r: Request, b: Book) {
    if r.id in b then r.version == b[r.id].pending.version + 1 && r.conditionalOn == b[r.id].confirmed.version
    else r.version == 1 && r.conditionalOn == 0
  }

  /** Orders are changed when granted and with nothing in flight, and modified when none of their modifies was
      refused and modifying is allowed. */
  predicate Allowed(r: Request, b: Book, modifiable: bool) {
    && (r.kind == ModifyOrder || r.kind == CancelOrder ==>
          r.id in b && b[r.id].pending.kind == NoRequest && b[r.id].confirmed.version != 0)
    && (r.kind == ModifyOrder ==> modifiable && b[r.id].rejects == 0)
  }

  /** An order of a side is alive and waits for an answer. */
  predicate Waits(o: Order, s: Side) {
    o.side == s && o.confirmed.status != Completed && o.confirmed.status != Canceled && o.pending.kind != NoRequest
  }

  /** Creates are for the least volume or more, all of it yet to trade, and for a side on which no other order
      waits for an answer. */
  predicate WorthCreating(r: Request, b: Book, b': Book, minVolume: Option<int>) {
    r.kind == CreateOrder ==>
      && (minVolume.Some? ==> r.quantity >= minVolume.value)
      && (forall id | id in b :: id in b' && !Waits(b'[id], r.side))
      && r.id in b' && b'[r.id].traded == 0 && b'[r.id].remaining == r.quantity
  }

  predicate Justified(r: Request, b: Book, b': Book, modifiable: bool, minVolume: Option<int>) {
    Numbered(r, b) && Allowed(r, b, modifiable) && WorthCreating(r, b, b', minVolume)
  }

  lemma TouchIsAllowed(pol: Policy, o: Order, q: Order)
    requires TouchedOnce(pol, o, q)
    ensures o.pending.kind == NoRequest && o.confirmed.version != 0
    ensures q.pending.kind == ModifyOrder ==> pol.modifiable && o.rejects == 0
  {
  }

  lemma ActIsAllowed(pol: Policy, tr: seq<Book>, acts: seq<OrderId>, i: nat)
    requires Passes(pol, tr, acts) && i < |acts| && Sound(tr[0])
    ensures Allowed(ActRequests(tr, acts)[i], tr[0], pol.modifiable)
  {
    ActRequestAgrees(pol, tr, acts, i);
    OneRequestEach(pol, tr, acts);
    var id := acts[i];
    assert id in acts;
    TouchIsAllowed(pol, tr[0][id], Last(tr)[id]);
  }

  lemma ActIsJustified(pol: Policy, b: Book, tr: seq<Book>, acts: seq<OrderId>, b': Book, i: nat)
    requires Passes(pol, tr, acts) && i < |acts| && tr[0] == b && Sound(b)
    ensures Justified(ActRequests(tr, acts)[i], b, b', pol.modifiable, pol.minVolume)
  {
    ActIsAllowed(pol, tr, acts, i);
    ActRequestOutcome(pol, tr, acts, i);
  }

  lemma PlannedHasNoneWaiting(pol: Policy, tr: seq<Book>, plan: seq<Cell>, c: Cell, id: OrderId)
    requires tr != [] && IsPlan(pol, tr, plan) && c in plan && id in Last(tr)
    ensures !Waits(Last(tr)[id], c.side)
  {
    assert Wanted(pol, tr, c);
  }

  lemma CreateIsJustified(pol: Policy, b: Book, maxId: nat, tr: seq<Book>, acts: seq<OrderId>, plan: seq<Cell>, b': Book, i: nat)
    requires Call(pol, b, maxId, tr, acts, plan, b') && Sound(b) && Below(b, maxId) && i < |plan|
    ensures Justified(CreateRequests(pol, tr, maxId, plan)[i], b, b', pol.modifiable, pol.minVolume)
  {
    PassesSound(pol, tr, acts);
    OneRequestEach(pol, tr, acts);
    CreateRequestAgrees(pol, tr, maxId, plan, i);
    var r := CreateRequests(pol, tr, maxId, plan)[i];
    assert plan[i] in plan && Wanted(pol, tr, plan[i]);
    forall id | id in b
      ensures id in b' && !Waits(b'[id], r.side)
    {
      CreatesKeep(pol, tr, maxId, plan, id);
      PlannedHasNoneWaiting(pol, tr, plan, plan[i], id);
    }
  }

  lemma CallIsJustified(pol: Policy, b: Book, maxId: nat, tr: seq<Book>, acts: seq<OrderId>, plan: seq<Cell>, b': Book, i: nat)
    requires Call(pol, b, maxId, tr, acts, plan, b') && Sound(b) && Below(b, maxId) && i < |acts| + |plan|
    ensures Justified(NewRequests(pol, tr, acts, maxId, plan)[i], b, b', pol.modifiable, pol.minVolume)
  {
    if i < |acts| {
      ActIsJustified(pol, b, tr, acts, b', i);
    } else {
      CreateIsJustified(pol, b, maxId, tr, acts, plan, b', i - |acts|);
    }
  }

  // ----- what is left to create -------------------------------------------------------------------

  /** A level short of its target, by the least volume or more, on a side on which no order waits for an answer. */
  ghost predicate Due(b: Book, c: Cell, target: int, minVolume: Option<int>) {
    && Rest(b, c) < target && (minVolume.Some? ==> target - Rest(b, c) >= minVolume.value)
    && forall id | id in b :: !Waits(b[id], c.side)
  }

  lemma BusyMeans(b: Book, s: Side)
    ensures Busy(b, s) <==> exists id :: id in b && Waits(b[id], s)
  {
    assert forall id | id in b :: Waits(b[id], s) <==> b[id].Live() && b[id].InFlight() && b[id].side == s;
    if Busy(b, s) {
      var id :| id in b && b[id].Live() && b[id].InFlight() && b[id].side == s;
      assert Waits(b[id], s);
    }
  }

  lemma FirstPassWants(pol: Policy, b: Book, c: Cell)
    ensures Wanted(pol, [b], c) <==> Due(b, c, pol.Target(c), pol.minVolume)
  {
    FirstPassCountsOnce(b);
    BusyMeans(b, c.side);
  }

  lemma NoHoleStays(pol: Policy, tr: seq<Book>, c: Cell)
    requires |tr| > 1 && Sound(Last(tr)) && !Hole(pol, tr[..|tr| - 1], c)
    ensures !Hole(pol, tr, c)
  {
    RestBounds(Last(tr), c);
  }

  lemma LastCancelHasNoHole(pol: Policy, tr: seq<Book>, acts: seq<OrderId>, c: Cell)
    requires Passes(pol, tr, acts) && acts != [] && pol.modifiable
    requires var id := acts[|acts| - 1];
             id in tr[0] && id in Last(tr) && tr[0][id].rejects == 0 && c.side == tr[0][id].side && Last(tr)[id].pending.kind == CancelOrder
    ensures !Hole(pol, tr[..|acts|], c)
  {
    var n, id := |acts|, acts[|acts| - 1];
    OneRequestEach(pol, tr[..n], acts[..n - 1]);
    OneRequestEach(pol, tr, acts);
    assert id !in acts[..n - 1];
    var o := tr[..n][n - 1][id];
    assert o == tr[0][id];
    assert Act(pol, tr[..n], o, tr[n][id]) && pol.Movable(o);
  }

  /** An order that may be modified is canceled only when its side has no hole left. */
  lemma {:induction false} CanceledHasNoHole(pol: Policy, tr: seq<Book>, acts: seq<OrderId>, i: nat, c: Cell)
    requires Passes(pol, tr, acts) && Sound(tr[0]) && i < |acts| && pol.modifiable
    requires var id := acts[i];
             id in tr[0] && id in Last(tr) && tr[0][id].rejects == 0 && c.side == tr[0][id].side && Last(tr)[id].pending.kind == CancelOrder
    ensures !Hole(pol, tr, c)
    decreases |acts|
  {
    var n := |acts|;
    PassesSound(pol, tr, acts);
    if i < n - 1 {
      OneRequestEach(pol, tr, acts);
      assert acts[..n - 1][i] == acts[i] != acts[n - 1];
      CanceledHasNoHole(pol, tr[..n], acts[..n - 1], i, c);
    } else {
      LastCancelHasNoHole(pol, tr, acts, c);
    }
    NoHoleStays(pol, tr, c);
  }

  lemma {:induction false} ActAt(pol: Policy, tr: seq<Book>, acts: seq<OrderId>, i: nat)
    requires Passes(pol, tr, acts) && i < |acts|
    ensures ActStep(pol, tr[..i + 1], acts[i], tr[i + 1])
    decreases |acts|
  {
    var n := |acts|;
    if i < n - 1 {
      ActAt(pol, tr[..n], acts[..n - 1], i);
      assert tr[..n][..i + 1] == tr[..i + 1];
    }
  }

  /** A modify asks for exactly what the counter of the new level is short of at that pass. */
  lemma ModifyFillsCounter(pol: Policy, tr: seq<Book>, acts: seq<OrderId>, i: nat)
    requires Passes(pol, tr, acts) && i < |acts| && ActRequests(tr, acts)[i].kind == ModifyOrder
    ensures var r := ActRequests(tr, acts)[i];
            r.quantity == pol.Target(Cell(r.side, r.price)) - Acc(tr[..i + 1], Cell(r.side, r.price)) > 0
  {
    ActAt(pol, tr, acts, i);
    assert Act(pol, tr[..i + 1], Last(tr[..i + 1])[acts[i]], tr[i + 1][acts[i]]);
  }

  /** The first request of a call, if it is a modify, moves an order from a level that holds more than its target
      to one that holds less, for exactly what that is short of. */
  ghost predicate FillsHole(pol: Policy, b: Book, r: Request) {
    && r.id in b
    && Rest(b, b[r.id].Where()) > pol.Target(b[r.id].Where())
    && r.quantity == pol.Target(Cell(r.side, r.price)) - Rest(b, Cell(r.side, r.price)) > 0
  }

  lemma FirstModifyFillsHole(pol: Policy, b: Book, maxId: nat, tr: seq<Book>, acts: seq<OrderId>, plan: seq<Cell>, b': Book)
    requires Call(pol, b, maxId, tr, acts, plan, b') && Sound(b) && Below(b, maxId) && |acts| + |plan| > 0
    requires NewRequests(pol, tr, acts, maxId, plan)[0].kind == ModifyOrder
    ensures FillsHole(pol, b, NewRequests(pol, tr, acts, maxId, plan)[0])
  {
    CallRequestAgrees(pol, b, maxId, tr, acts, plan, b', 0);
    if acts != [] {
      ActRequestAgrees(pol, tr, acts, 0);
      ModifyFillsCounter(pol, tr, acts, 0);
      ActAt(pol, tr, acts, 0);
      assert tr[..1] == [b];
      FirstPassCountsOnce(b);
    }
  }

  /** The requests create an order at a level. */
  predicate Asked(requests: seq<Request>, c: Cell) {
    exists n | 0 <= n < |requests| :: requests[n].kind == CreateOrder && Cell(requests[n].side, requests[n].price) == c
  }

  lemma AskedIsPlanned(pol: Policy, tr: seq<Book>, acts: seq<OrderId>, maxId: nat, plan: seq<Cell>, n: nat)
    requires Passes(pol, tr, acts) && Below(Last(tr), maxId) && n < |acts| + |plan| && NewRequests(pol, tr, acts, maxId, plan)[n].kind == CreateOrder
    ensures var r := NewRequests(pol, tr, acts, maxId, plan)[n]; Cell(r.side, r.price) in plan
  {
    CreatesComeLast(pol, tr, acts, maxId, plan, n);
    CreateRequestAgrees(pol, tr, maxId, plan, n - |acts|);
  }

  lemma PlannedIsAsked(pol: Policy, tr: seq<Book>, acts: seq<OrderId>, maxId: nat, plan: seq<Cell>, i: nat)
    requires Passes(pol, tr, acts) && Below(Last(tr), maxId) && i < |plan|
    ensures Asked(NewRequests(pol, tr, acts, maxId, plan), plan[i])
  {
    CreateRequestAgrees(pol, tr, maxId, plan, i);
    assert NewRequests(pol, tr, acts, maxId, plan)[|acts| + i] == CreateRequests(pol, tr, maxId, plan)[i];
  }

  lemma AskedIffPlanned(pol: Policy, b: Book, maxId: nat, tr: seq<Book>, acts: seq<OrderId>, plan: seq<Cell>, b': Book, c: Cell)
    requires Call(pol, b, maxId, tr, acts, plan, b') && Sound(b) && Below(b, maxId)
    ensures Asked(NewRequests(pol, tr, acts, maxId, plan), c) <==> c in plan
  {
    var requests := NewRequests(pol, tr, acts, maxId, plan);
    PassesSound(pol, tr, acts);
    if Asked(requests, c) {
      var n :| 0 <= n < |requests| && requests[n].kind == CreateOrder && Cell(requests[n].side, requests[n].price) == c;
      AskedIsPlanned(pol, tr, acts, maxId, plan, n);
    }
    if c in plan {
      var i :| 0 <= i < |plan| && plan[i] == c;
      PlannedIsAsked(pol, tr, acts, maxId, plan, i);
    }
  }

  /** The call cancels an order that may be modified. */
  predicate Spared(r: Request, b: Book, modifiable: bool) {
    r.kind == CancelOrder && modifiable && r.id in b && b[r.id].rejects == 0
  }

  lemma SparedSideIsFull(pol: Policy, b: Book, maxId: nat, tr: seq<Book>, acts: seq<OrderId>, plan: seq<Cell>, b': Book, n: nat, c: Cell)
    requires Call(pol, b, maxId, tr, acts, plan, b') && Sound(b) && Below(b, maxId) && n < |acts| + |plan|
    requires var r := NewRequests(pol, tr, acts, maxId, plan)[n]; Spared(r, b, pol.modifiable) && c.side == r.side
    ensures c !in plan
  {
    CallRequestAgrees(pol, b, maxId, tr, acts, plan, b', n);
    if n < |acts| {
      ActRequestAgrees(pol, tr, acts, n);
      OneRequestEach(pol, tr, acts);
      CanceledHasNoHole(pol, tr, acts, n, c);
      assert !Wanted(pol, tr, c);
    }
  }

  // ----- the requests of a run --------------------------------------------------------------------

  /** What a call may send, given the book as it finds it and as it leaves it. */
  ghost predicate Fit(pol: Policy, b: Book, b': Book, r: Request, alone: bool) {
    && Agrees(r, b') && (r.kind == CreateOrder <==> r.id !in b)
    && (r.kind == CreateOrder || r.kind == ModifyOrder || r.kind == CancelOrder)
    && Justified(r, b, b', pol.modifiable, pol.minVolume)
    && (r.kind == CreateOrder ==> Lifts(pol, b, b', r, alone))
  }

  lemma CallRequestFits(pol: Policy, b: Book, maxId: nat, tr: seq<Book>, acts: seq<OrderId>, plan: seq<Cell>, b': Book, i: nat)
    requires Call(pol, b, maxId, tr, acts, plan, b') && Sound(b) && Below(b, maxId) && i < |acts| + |plan|
    ensures Fit(pol, b, b', NewRequests(pol, tr, acts, maxId, plan)[i], acts == [])
  {
    CallRequestAgrees(pol, b, maxId, tr, acts, plan, b', i);
    CallIsJustified(pol, b, maxId, tr, acts, plan, b', i);
    if NewRequests(pol, tr, acts, maxId, plan)[i].kind == CreateOrder {
      CallCreateLifts(pol, b, maxId, tr, acts, plan, b', i, acts == []);
    }
  }

  predicate AllCreates(requests: seq<Request>) { forall n | 0 <= n < |requests| :: requests[n].kind == CreateOrder }

  ghost predicate AllFit(pol: Policy, b: Book, b': Book, requests: seq<Request>, alone: bool) {
    (forall n | 0 <= n < |requests| :: Fit(pol, b, b', requests[n], alone)) && (AllCreates(requests) ==> alone)
  }

  lemma CallFits(pol: Policy, b: Book, maxId: nat, tr: seq<Book>, acts: seq<OrderId>, plan: seq<Cell>, b': Book) returns (requests: seq<Request>)
    requires Call(pol, b, maxId, tr, acts, plan, b') && Sound(b) && Below(b, maxId)
    ensures |tr| == |acts| + 1 && forall i | 0 <= i < |acts| :: acts[i] in tr[i + 1]
    ensures requests == NewRequests(pol, tr, acts, maxId, plan)
    ensures AllFit(pol, b, b', requests, acts == []) && Complete(pol, b, requests, acts == [])
  {
    CallIsComplete(pol, b, maxId, tr, acts, plan, b');
    requests := NewRequests(pol, tr, acts, maxId, plan);
    forall n | 0 <= n < |requests|
      ensures Fit(pol, b, b', requests[n], acts == [])
    {
      CallRequestFits(pol, b, maxId, tr, acts, plan, b', n);
    }
    if acts != [] {
      CallRequestAgrees(pol, b, maxId, tr, acts, plan, b', 0);
      assert requests[0].kind != CreateOrder;
    }
  }

  /** Without other requests, creates are for just the levels that are due one; the first modify fills a hole; and none is for the side of an
      order that was canceled though it may be modified. */
  ghost predicate Complete(pol: Policy, b: Book, requests: seq<Request>, alone: bool) {
    && (alone ==> forall c: Cell :: Asked(requests, c) <==> Due(b, c, pol.Target(c), pol.minVolume))
    && (requests != [] && requests[0].kind == ModifyOrder ==> FillsHole(pol, b, requests[0]))
    && (forall n, c: Cell | 0 <= n < |requests| && Spared(requests[n], b, pol.modifiable) && Asked(requests, c) :: c.side != requests[n].side)
  }

  lemma CallIsComplete(pol: Policy, b: Book, maxId: nat, tr: seq<Book>, acts: seq<OrderId>, plan: seq<Cell>, b': Book)
    requires Call(pol, b, maxId, tr, acts, plan, b') && Sound(b) && Below(b, maxId)
    ensures Complete(pol, b, NewRequests(pol, tr, acts, maxId, plan), acts == [])
  {
    var requests := NewRequests(pol, tr, acts, maxId, plan);
    forall c: Cell
      ensures Asked(requests, c) <==> c in plan
      ensures acts == [] ==> (c in plan <==> Due(b, c, pol.Target(c), pol.minVolume))
    {
      AskedIffPlanned(pol, b, maxId, tr, acts, plan, b', c);
      if acts == [] {
        assert tr == [b];
        FirstPassWants(pol, b, c);
      }
    }
    if requests != [] && requests[0].kind == ModifyOrder {
      FirstModifyFillsHole(pol, b, maxId, tr, acts, plan, b');
    }
    forall n, c: Cell | 0 <= n < |requests| && Spared(requests[n], b, pol.modifiable) && c in plan
      ensures c.side != requests[n].side
    {
      if c.side == requests[n].side {
        SparedSideIsFull(pol, b, maxId, tr, acts, plan, b', n, c);
      }
    }
  }

  /** The log went on by these requests of the book, all fit and nothing missing. */
  ghost predicate Logs(w: World, w': World, key: BookKey, env: Env, requests: seq<Request>, alone: bool) {
    && key in w.books && key in w'.books && w'.sent == w.sent + Tagged(key, requests)
    && AllFit(PolicyOf(w.books[key], env), w.books[key].orders, w'.books[key].orders, requests, alone)
    && Complete(PolicyOf(w.books[key], env), w.books[key].orders, requests, alone)
  }

  lemma ProcessedLogs(w: World, key: BookKey, env: Env, tr: seq<Book>, acts: seq<OrderId>, plan: seq<Cell>, w': World)
      returns (requests: seq<Request>, alone: bool)
    requires key in w.books && Processed(w, key, env, tr, acts, plan, w') && SoundBook(w.books[key]) && Below(w.books[key].orders, w.maxId)
    ensures Logs(w, w', key, env, requests, alone)
  {
    requests := CallFits(PolicyOf(w.books[key], env), w.books[key].orders, w.maxId, tr, acts, plan, w'.books[key].orders);
    alone := acts == [];
  }

  lemma CallLogs(ws: seq<World>, es: seq<Event>, i: nat, key: BookKey, env: Env) returns (requests: seq<Request>, alone: bool)
    requires HonestRun(ws, es) && CallAt(ws, es, i, key, env)
    ensures Logs(ws[i], ws[i + 1], key, env, requests, alone)
  {
    var tr, acts, plan := CallIs(ws, es, i, key, env);
    requests, alone := ProcessedLogs(ws[i], key, env, tr, acts, plan, ws[i + 1]);
  }

  lemma SentAt(base: seq<Sent>, key: BookKey, requests: seq<Request>, sent: seq<Sent>, j: nat)
    requires sent == base + Tagged(key, requests) && |base| <= j < |sent|
    ensures |sent| == |base| + |requests| && sent[j].key == key && sent[j].request == requests[j - |base|]
  {
  }

  lemma LoggedFits(w: World, w': World, key: BookKey, env: Env, requests: seq<Request>, alone: bool, j: nat)
    requires Logs(w, w', key, env, requests, alone) && |w.sent| <= j < |w'.sent|
    ensures w'.sent[j].key == key
    ensures Fit(PolicyOf(w.books[key], env), w.books[key].orders, w'.books[key].orders, w'.sent[j].request, alone)
  {
    SentAt(w.sent, key, requests, w'.sent, j);
  }

  /** The requests of a step agree with their orders as it leaves them. */
  predicate RequestAgrees(w: World, w': World, key: BookKey, j: nat)
    requires j < |w'.sent| && key in w.books && key in w'.books
  {
    var r := w'.sent[j].request;
    w'.sent[j].key == key && Agrees(r, w'.books[key].orders) && (r.kind == CreateOrder <==> r.id !in w.books[key].orders)
  }

  /** Over every run: each request a call sends is for its book, has the side of the order it is about,
      and as price and quantity what that order expects when the call ends. It is a create if and only if
      the order was not there before. */
  lemma RunRequestsAgree(ws: seq<World>, es: seq<Event>, i: nat, key: BookKey, env: Env, j: nat)
    requires HonestRun(ws, es) && CallAt(ws, es, i, key, env) && |ws[i].sent| <= j < |ws[i + 1].sent|
    ensures key in ws[i + 1].books && RequestAgrees(ws[i], ws[i + 1], key, j)
  {
    var requests, alone := CallLogs(ws, es, i, key, env);
    LoggedFits(ws[i], ws[i + 1], key, env, requests, alone, j);
  }

  /** Over every run: a request is numbered next and holds on the version granted, orders are changed only with
      nothing in flight, and modified only where the book, the gateway and their own record allow it; creates
      are for the least volume at least, and wait until nothing is in flight on their side. */
  lemma RunRequestsAreJustified(ws: seq<World>, es: seq<Event>, i: nat, key: BookKey, env: Env, j: nat)
    requires HonestRun(ws, es) && CallAt(ws, es, i, key, env) && |ws[i].sent| <= j < |ws[i + 1].sent|
    ensures key in ws[i + 1].books
    ensures Justified(ws[i + 1].sent[j].request, ws[i].books[key].orders, ws[i + 1].books[key].orders,
                      !ws[i].books[key].banModify && env.modifyReady, env.minVolume)
  {
    var requests, alone := CallLogs(ws, es, i, key, env);
    LoggedFits(ws[i], ws[i + 1], key, env, requests, alone, j);
  }

  /** Nothing but creates was sent by the step. */
  predicate CreatesOnly(w: World, w': World) { forall j | |w.sent| <= j < |w'.sent| :: w'.sent[j].request.kind == CreateOrder }

  lemma CreatesOnlyMeans(base: seq<Sent>, key: BookKey, requests: seq<Request>, sent: seq<Sent>)
    requires sent == base + Tagged(key, requests) && forall j | |base| <= j < |sent| :: sent[j].request.kind == CreateOrder
    ensures AllCreates(requests)
  {
    forall n | 0 <= n < |requests|
      ensures requests[n].kind == CreateOrder
    {
      SentAt(base, key, requests, sent, |base| + n);
    }
  }

  /** Over every run: a create leaves the level of its side and price at its target at most; and if the call
      sent creates only, it lifts that level from where it was by its quantity, to the target. */
  lemma RunCreatesLift(ws: seq<World>, es: seq<Event>, i: nat, key: BookKey, env: Env, j: nat)
    requires HonestRun(ws, es) && CallAt(ws, es, i, key, env) && |ws[i].sent| <= j < |ws[i + 1].sent|
    requires ws[i + 1].sent[j].request.kind == CreateOrder
    ensures key in ws[i + 1].books
    ensures Lifts(PolicyOf(ws[i].books[key], env), ws[i].books[key].orders, ws[i + 1].books[key].orders, ws[i + 1].sent[j].request,
                  CreatesOnly(ws[i], ws[i + 1]))
  {
    var requests, alone := CallLogs(ws, es, i, key, env);
    if CreatesOnly(ws[i], ws[i + 1]) {
      CreatesOnlyMeans(ws[i].sent, key, requests, ws[i + 1].sent);
    }
    LoggedFits(ws[i], ws[i + 1], key, env, requests, alone, j);
  }

  /** The step created an order at a level. */
  predicate CreatedAt(w: World, w': World, c: Cell) {
    exists j | |w.sent| <= j < |w'.sent| ::
      w'.sent[j].request.kind == CreateOrder && Cell(w'.sent[j].request.side, w'.sent[j].request.price) == c
  }

  lemma AskedIsSent(w: World, w': World, key: BookKey, requests: seq<Request>, c: Cell)
    requires w'.sent == w.sent + Tagged(key, requests)
    ensures CreatedAt(w, w', c) <==> Asked(requests, c)
  {
    if CreatedAt(w, w', c) {
      var j :| |w.sent| <= j < |w'.sent| && w'.sent[j].request.kind == CreateOrder && Cell(w'.sent[j].request.side, w'.sent[j].request.price) == c;
      SentAt(w.sent, key, requests, w'.sent, j);
    }
    if Asked(requests, c) {
      var n :| 0 <= n < |requests| && requests[n].kind == CreateOrder && Cell(requests[n].side, requests[n].price) == c;
      SentAt(w.sent, key, requests, w'.sent, |w.sent| + n);
    }
  }

  /** Over every run: a call that changes no order creates one at just those levels that are short of their target
      by the least volume or more, on a side on which no order waits for an answer. */
  lemma RunCreatesIffDue(ws: seq<World>, es: seq<Event>, i: nat, key: BookKey, env: Env, c: Cell)
    requires HonestRun(ws, es) && CallAt(ws, es, i, key, env) && CreatesOnly(ws[i], ws[i + 1])
    ensures CreatedAt(ws[i], ws[i + 1], c) <==>
              Due(ws[i].books[key].orders, c, PolicyOf(ws[i].books[key], env).Target(c), env.minVolume)
  {
    var requests, alone := CallLogs(ws, es, i, key, env);
    CreatesOnlyMeans(ws[i].sent, key, requests, ws[i + 1].sent);
    AskedIsSent(ws[i], ws[i + 1], key, requests, c);
  }

  lemma LoggedSpares(w: World, w': World, key: BookKey, env: Env, requests: seq<Request>, alone: bool, j: nat, c: Cell)
    requires Logs(w, w', key, env, requests, alone) && |w.sent| <= j < |w'.sent|
    requires Spared(w'.sent[j].request, w.books[key].orders, PolicyOf(w.books[key], env).modifiable) && c.side == w'.sent[j].request.side
    ensures !CreatedAt(w, w', c)
  {
    SentAt(w.sent, key, requests, w'.sent, j);
    AskedIsSent(w, w', key, requests, c);
  }

  /** Over every run: where modifying is allowed, a call does not cancel an order none of whose modifies was
      refused and create another on its side: it moves the order instead. */
  lemma RunMovesRatherThanCancels(ws: seq<World>, es: seq<Event>, i: nat, key: BookKey, env: Env, j: nat, c: Cell)
    requires HonestRun(ws, es) && CallAt(ws, es, i, key, env) && |ws[i].sent| <= j < |ws[i + 1].sent|
    requires Spared(ws[i + 1].sent[j].request, ws[i].books[key].orders, !ws[i].books[key].banModify && env.modifyReady)
    requires c.side == ws[i + 1].sent[j].request.side
    ensures !CreatedAt(ws[i], ws[i + 1], c)
  {
    var requests, alone := CallLogs(ws, es, i, key, env);
    LoggedSpares(ws[i], ws[i + 1], key, env, requests, alone, j, c);
  }

  /** Over every run: if a call sends a modify first, it moves the order from a level that holds more than its target
      to one that holds less, for exactly what that is short of. */
  lemma RunFirstModifyFills(ws: seq<World>, es: seq<Event>, i: nat, key: BookKey, env: Env)
    requires HonestRun(ws, es) && CallAt(ws, es, i, key, env) && |ws[i].sent| < |ws[i + 1].sent|
    requires ws[i + 1].sent[|ws[i].sent|].request.kind == ModifyOrder
    ensures FillsHole(PolicyOf(ws[i].books[key], env), ws[i].books[key].orders, ws[i + 1].sent[|ws[i].sent|].request)
  {
    var requests, alone := CallLogs(ws, es, i, key, env);
    SentAt(ws[i].sent, key, requests, ws[i + 1].sent, |ws[i].sent|);
  }

  // ----- refused changes --------------------------------------------------------------------------

  /** The gateway refuses to modify an order of the book. */
  predicate RefusesModify(w: World, e: Event, key: BookKey, id: OrderId) {
    && e.OnAck? && e.ack.status == AckRejected && e.ack.kind == ModifyOrder && e.ack.id == id
    && id in w.index && w.index[id] == key && Holds(w, key, id)
  }

  /** All requests sent for the order since `w` are cancels. */
  predicate OnlyCancels(w: World, w': World, key: BookKey, id: OrderId) {
    w.sent <= w'.sent && forall j | |w.sent| <= j < |w'.sent| && About(w'.sent[j], key, id) :: w'.sent[j].request.kind == CancelOrder
  }

  predicate Refused(w: World, key: BookKey, id: OrderId) { Holds(w, key, id) && w.books[key].orders[id].rejects > 0 }

  lemma RefusedStays(pol: Policy, b: Book, maxId: nat, tr: seq<Book>, acts: seq<OrderId>, plan: seq<Cell>, b': Book, id: OrderId)
    requires Call(pol, b, maxId, tr, acts, plan, b') && Sound(b) && Below(b, maxId) && id in b && b[id].rejects > 0
    ensures id in b' && b'[id].rejects > 0
  {
    OneRequestEach(pol, tr, acts);
    CreatesAdd(pol, tr, maxId, plan);
    assert id in acts ==> TouchedOnce(pol, b[id], Last(tr)[id]);
  }

  lemma LoggedAreCancels(w: World, w': World, key: BookKey, env: Env, requests: seq<Request>, alone: bool, id: OrderId)
    requires Logs(w, w', key, env, requests, alone) && Refused(w, key, id)
    ensures OnlyCancels(w, w', key, id)
  {
    assert w.sent <= w'.sent;
    forall j | |w.sent| <= j < |w'.sent| && About(w'.sent[j], key, id)
      ensures w'.sent[j].request.kind == CancelOrder
    {
      LoggedFits(w, w', key, env, requests, alone, j);
    }
  }

  lemma LoggedElsewhere(w: World, w': World, k: BookKey, requests: seq<Request>, key: BookKey, id: OrderId)
    requires w'.sent == w.sent + Tagged(k, requests) && k != key
    ensures OnlyCancels(w, w', key, id)
  {
    assert w.sent <= w'.sent;
    forall j | |w.sent| <= j < |w'.sent|
      ensures w'.sent[j].key == k
    {
      SentAt(w.sent, k, requests, w'.sent, j);
    }
  }

  lemma ProcessKeepsRefused(w: World, k: BookKey, env: Env, tr: seq<Book>, acts: seq<OrderId>, plan: seq<Cell>, w': World, key: BookKey, id: OrderId)
    requires k in w.books && Processed(w, k, env, tr, acts, plan, w') && SoundBook(w.books[k]) && Below(w.books[k].orders, w.maxId)
    requires Refused(w, key, id)
    ensures Refused(w', key, id)
  {
    if k == key {
      RefusedStays(PolicyOf(w.books[key], env), w.books[key].orders, w.maxId, tr, acts, plan, w'.books[key].orders, id);
    }
  }

  lemma StepKeepsRefused(w: World, e: Event, w': World, key: BookKey, id: OrderId)
    requires Next(w, e, w') && AllSound(w) && Consistent(w, e) && Refused(w, key, id) && Holds(w', key, id)
    ensures Refused(w', key, id) && OnlyCancels(w, w', key, id)
  {
    if e.Process? && !Skips(w, e.key, e.env) {
      assert SoundBook(w.books[e.key]);
      var tr, acts, plan :| Processed(w, e.key, e.env, tr, acts, plan, w');
      ProcessKeepsRefused(w, e.key, e.env, tr, acts, plan, w', key, id);
      var requests, alone := ProcessedLogs(w, e.key, e.env, tr, acts, plan, w');
      if e.key == key {
        LoggedAreCancels(w, w', key, e.env, requests, alone, id);
      } else {
        LoggedElsewhere(w, w', e.key, requests, key, id);
      }
    } else if !e.Process? {
      EventKeepsRefused(w, e, key, id);
    }
  }

  lemma EventKeepsRefused(w: World, e: Event, key: BookKey, id: OrderId)
    requires !e.Process? && Refused(w, key, id) && Holds(After(w, e), key, id)
    ensures Refused(After(w, e), key, id) && After(w, e).sent == w.sent
  {
  }

  lemma RefusalCounts(w: World, e: Event, key: BookKey, id: OrderId)
    requires RefusesModify(w, e, key, id)
    ensures Refused(After(w, e), key, id) && After(w, e).sent == w.sent
  {
  }

  lemma CancelsJoin(w: World, v: World, u: World, key: BookKey, id: OrderId)
    requires OnlyCancels(w, v, key, id) && OnlyCancels(v, u, key, id)
    ensures OnlyCancels(w, u, key, id)
  {
    forall j | |w.sent| <= j < |u.sent| && About(u.sent[j], key, id)
      ensures u.sent[j].request.kind == CancelOrder
    {
      if j < |v.sent| {
        assert u.sent[j] == v.sent[j];
      }
    }
  }

  lemma RefusedStep(ws: seq<World>, es: seq<Event>, key: BookKey, id: OrderId, i: nat)
    requires HonestRun(ws, es) && 0 < i < |ws| && Refused(ws[i - 1], key, id) && Holds(ws[i], key, id)
    ensures Refused(ws[i], key, id) && OnlyCancels(ws[i - 1], ws[i], key, id)
  {
    RunKeepsSound(ws, es, i - 1);
    StepKeepsRefused(ws[i - 1], es[i - 1], ws[i], key, id);
  }

  /** Since the `k`-th world, the order has a refusal on record and only cancels were sent for it. */
  ghost predicate CanceledSince(ws: seq<World>, key: BookKey, id: OrderId, k: nat, i: nat)
    requires k <= i < |ws|
  {
    Refused(ws[i], key, id) && OnlyCancels(ws[k], ws[i], key, id)
  }

  lemma RefusalStep(ws: seq<World>, es: seq<Event>, key: BookKey, id: OrderId, k: nat, i: nat)
    requires Run(ws, es) && k < |es| && i == k + 1 && RefusesModify(ws[k], es[k], key, id)
    ensures CanceledSince(ws, key, id, k, i)
  {
    RefusalCounts(ws[k], es[k], key, id);
  }

  lemma OneMoreCanceled(ws: seq<World>, key: BookKey, id: OrderId, k: nat, i: nat)
    requires k < i < |ws| && CanceledSince(ws, key, id, k, i - 1)
    requires Refused(ws[i], key, id) && OnlyCancels(ws[i - 1], ws[i], key, id)
    ensures CanceledSince(ws, key, id, k, i)
  {
    CancelsJoin(ws[k], ws[i - 1], ws[i], key, id);
  }

  /** Over every run: once the gateway has refused to modify an order, and for as long as the order stays
      in its book, all that is sent for it are cancels. */
  lemma {:induction false} RunNeverModifiesAgain(ws: seq<World>, es: seq<Event>, key: BookKey, id: OrderId, k: nat, i: nat)
    requires HonestRun(ws, es) && k < i < |ws| && RefusesModify(ws[k], es[k], key, id)
    requires forall j | k <= j <= i :: Holds(ws[j], key, id)
    ensures CanceledSince(ws, key, id, k, i)
  {
    if i == k + 1 {
      RefusalStep(ws, es, key, id, k, i);
    } else {
      RunNeverModifiesAgain(ws, es, key, id, k, i - 1);
      RefusedStep(ws, es, key, id, i);
      OneMoreCanceled(ws, key, id, k, i);
    }
  }
}
