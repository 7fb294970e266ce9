/** The order manager as the program writes it: books that are changed in place, loops over hash maps
    in no particular order, and a scan that starts over after every request. Each method is proved
    against the state machine of module Oms. */
module OmsManager {
  import opened Wrappers
  import opened Orders
  import opened Reconcile
  import opened Oms

  /** The levels on record hold the targets and the counters after the passes of `tr`; a level not on
      record is one with nothing to show. */
  ghost predicate Agree(levels: map<Cell, Level>, pol: Policy, tr: seq<Book>) {
    forall c: Cell :: LevelOf(levels, c) == Counters(pol, tr, c)
  }

  /** The counters in the middle of a pass that has added the orders of `part`. */
  ghost predicate Counting(levels: map<Cell, Level>, pol: Policy, tr: seq<Book>, part: Book) {
    forall c: Cell :: LevelOf(levels, c) ==
      Level(pol.Target(c), Acc(tr, c) + Rest(part, c), ConfirmedAcc(tr, c) + Sum(part, ConfirmedAt(c)))
  }

  /** The levels with one more order in the counters, unless it is closed. */
  function Counted(levels: map<Cell, Level>, o: Order): map<Cell, Level> {
    if !o.Live() then levels else
    var l := LevelOf(levels, o.Where());
    levels[o.Where() := Level(l.target, l.expected + o.expected.quantity, l.confirmed + o.confirmed.quantity)]
  }

  lemma CountingOne(levels: map<Cell, Level>, pol: Policy, tr: seq<Book>, part: Book, id: OrderId, o: Order)
    requires Counting(levels, pol, tr, part) && id !in part
    ensures Counting(Counted(levels, o), pol, tr, part[id := o])
  {
    forall c: Cell
      ensures Rest(part[id := o], c) == Rest(part, c) + At(o, c)
      ensures Sum(part[id := o], ConfirmedAt(c)) == Sum(part, ConfirmedAt(c)) + ConfirmedAt(c)(o)
    {
      SumUpdate(part, id, o, RestingAt(c));
      SumUpdate(part, id, o, ConfirmedAt(c));
    }
  }

  lemma CountingDone(levels: map<Cell, Level>, pol: Policy, tr: seq<Book>, b: Book)
    requires Counting(levels, pol, tr, b)
    ensures Agree(levels, pol, tr + [b])
  {
    assert (tr + [b])[..|tr|] == tr;
  }

  lemma CountingNone(levels: map<Cell, Level>, pol: Policy, tr: seq<Book>)
    requires Agree(levels, pol, tr)
    ensures Counting(levels, pol, tr, map[])
  {
    forall c: Cell
      ensures Rest(map[], c) == 0 && Sum(map[], ConfirmedAt(c)) == 0
    {
      assert Spread(map[], RestingAt(c)) == map[] && Spread(map[], ConfirmedAt(c)) == map[];
    }
  }

  function Zeroed(levels: map<Cell, Level>): map<Cell, Level> { map c | c in levels :: Level(levels[c].target, 0, 0) }

  function NonEmpty(levels: map<Cell, Level>): map<Cell, Level> {
    map c | c in levels && levels[c] != Level(0, 0, 0) :: levels[c]
  }

  lemma ZeroedAgrees(b: BookState, env: Env)
    ensures Agree(Zeroed(b.levels), PolicyOf(b, env), [])
  {
  }

  /** One second, in the nanoseconds of the clock. */
  const SECOND := 1_000_000_000

  class OmsBook {
    const key: BookKey
    var orders: map<OrderId, Order>
    var levels: map<Cell, Level>
    var pendingBuy: nat
    var pendingSell: nat
    var position: int
    var positionByAccount: int
    var banUntil: int
    var postFill: int
    var postCancel: int
    var banModify: bool

    constructor (key: BookKey)
      ensures this.key == key && State() == NEW_BOOK
    {
      this.key := key;
      orders, levels := map[], map[];
      pendingBuy, pendingSell := 0, 0;
      position, positionByAccount := 0, 0;
      banUntil, postFill, postCancel := 0, 0, 0;
      banModify := false;
    }

    ghost function State(): BookState
      reads this
    {
      BookState(orders, levels, position, positionByAccount, banUntil, postFill, postCancel, banModify)
    }

    method EmplaceLevel(c: Cell)
      modifies `levels
      ensures levels == old(levels)[c := LevelOf(old(levels), c)]
    {
      if c !in levels {
        levels := levels[c := Level(0, 0, 0)];
      } else {
        assert levels == levels[c := levels[c]];
      }
    }

    method ResetCounters()
      modifies `levels
      ensures levels == Zeroed(old(levels))
    {
      var todo := levels.Keys;
      while todo != {}
        invariant todo <= levels.Keys == old(levels).Keys
        invariant forall c | c in levels :: levels[c] == if c in todo then old(levels)[c] else Level(old(levels)[c].target, 0, 0)
        decreases |todo|
      {
        var c :| c in todo;
        levels := levels[c := Level(levels[c].target, 0, 0)];
        todo := todo - {c};
      }
    }

    /** Add one order to the counters, unless it is closed. */
    method CountOrder(o: Order)
      modifies `levels, `pendingBuy, `pendingSell
      ensures levels == Counted(old(levels), o)
      ensures pendingBuy == old(pendingBuy) + (if o.Live() && o.InFlight() && o.side == Buy then 1 else 0)
      ensures pendingSell == old(pendingSell) + (if o.Live() && o.InFlight() && o.side == Sell then 1 else 0)
    {
      if o.Live() {
        if o.InFlight() {
          if o.side == Buy { pendingBuy := pendingBuy + 1; } else { pendingSell := pendingSell + 1; }
        }
        var c := o.Where();
        EmplaceLevel(c);
        var l := levels[c];
        levels := levels[c := Level(l.target, l.expected + o.expected.quantity, l.confirmed + o.confirmed.quantity)];
      }
    }

    /** One pass over the orders: count those in flight, and add each to the counter of its level. */
    method CountOrders(ghost pol: Policy, ghost tr: seq<Book>)
      requires Agree(levels, pol, tr)
      modifies `levels, `pendingBuy, `pendingSell
      ensures Agree(levels, pol, tr + [orders])
      ensures pendingBuy > 0 <==> Busy(orders, Buy)
      ensures pendingSell > 0 <==> Busy(orders, Sell)
    {
      pendingBuy, pendingSell := 0, 0;
      var todo := orders.Keys;
      ghost var part: Book := map[];
      CountingNone(levels, pol, tr);
      while todo != {}
        invariant todo <= orders.Keys && part.Keys == orders.Keys - todo
        invariant forall id | id in part :: part[id] == orders[id]
        invariant Counting(levels, pol, tr, part)
        invariant pendingBuy > 0 <==> Busy(part, Buy)
        invariant pendingSell > 0 <==> Busy(part, Sell)
        decreases |todo|
      {
        var id :| id in todo;
        BusyOne(part, id, orders[id]);
        CountingOne(levels, pol, tr, part, id, orders[id]);
        CountOrder(orders[id]);
        part := part[id := orders[id]];
        todo := todo - {id};
      }
      assert part == orders;
      CountingDone(levels, pol, tr, orders);
    }

    /** A level of the given side whose target exceeds its counter, if there is one. */
    method FindHole(side: Side) returns (hole: Option<Cell>)
      ensures hole.Some? ==> hole.value in levels && hole.value.side == side
                             && levels[hole.value].target > levels[hole.value].expected
      ensures hole.None? ==> forall c | c in levels && c.side == side :: levels[c].target <= levels[c].expected
    {
      var todo := levels.Keys;
      while todo != {}
        invariant todo <= levels.Keys
        invariant forall c | c in levels && c !in todo && c.side == side :: levels[c].target <= levels[c].expected
        decreases |todo|
      {
        var c :| c in todo;
        if c.side == side && levels[c].target > levels[c].expected {
          return Some(c);
        }
        todo := todo - {c};
      }
      return None;
    }

    method EraseEmptyLevels()
      modifies `levels
      ensures levels == NonEmpty(old(levels))
    {
      var todo := levels.Keys;
      while todo != {}
        invariant todo <= levels.Keys <= old(levels).Keys
        invariant forall c | c in levels :: levels[c] == old(levels)[c]
        invariant forall c | c in old(levels) && c !in todo :: c in levels <==> old(levels)[c] != Level(0, 0, 0)
        decreases |todo|
      {
        var c :| c in todo;
        if levels[c].target == 0 && levels[c].expected == 0 && levels[c].confirmed == 0 {
          levels := levels - {c};
        }
        todo := todo - {c};
      }
    }

    method SetQuotes(side: Side, quotes: seq<Quote>)
      modifies `levels
      ensures levels == WithQuotes(old(levels), side, quotes)
    {
      for i := 0 to |quotes|
        invariant levels == WithQuotes(old(levels), side, quotes[..i])
      {
        assert quotes[..i + 1][..i] == quotes[..i];
        match quotes[i].price {
          case None =>
          case Some(price) =>
            var c := Cell(side, price);
            EmplaceLevel(c);
            levels := levels[c := levels[c].(target := quotes[i].volume)];
        }
      }
      assert quotes[..|quotes|] == quotes;
    }

    method ClearTargets()
      modifies `levels
      ensures levels == Untargeted(old(levels))
    {
      var todo := levels.Keys;
      while todo != {}
        invariant todo <= levels.Keys == old(levels).Keys
        invariant forall c | c in levels :: levels[c] == if c in todo then old(levels)[c] else old(levels)[c].(target := 0)
        decreases |todo|
      {
        var c :| c in todo;
        levels := levels[c := levels[c].(target := 0)];
        todo := todo - {c};
      }
    }

    /** Forget the old targets and record the new ones. */
    method SetTargets(buys: seq<Quote>, sells: seq<Quote>)
      modifies `levels
      ensures levels == Retargeted(old(levels), buys, sells)
    {
      ClearTargets();
      SetQuotes(Buy, buys);
      SetQuotes(Sell, sells);
    }
  }

  lemma BusyOne(part: Book, id: OrderId, o: Order)
    requires id !in part
    ensures forall s: Side :: Busy(part[id := o], s) <==> Busy(part, s) || (o.Live() && o.InFlight() && o.side == s)
  {
    forall s: Side
      ensures Busy(part[id := o], s) <==> Busy(part, s) || (o.Live() && o.InFlight() && o.side == s)
    {
      var all := part[id := o];
      if o.Live() && o.InFlight() && o.side == s {
        assert all[id] == o;
      }
      if Busy(part, s) {
        var j :| j in part && part[j].Live() && part[j].InFlight() && part[j].side == s;
        assert all[j] == part[j];
      }
    }
  }

  lemma CreateSnoc(pol: Policy, tr: seq<Book>, maxId: nat, plan: seq<Cell>, c: Cell)
    requires tr != []
    ensures WithCreates(pol, tr, maxId, plan + [c])
            == WithCreates(pol, tr, maxId, plan)[maxId + |plan| + 1 := Created(maxId + |plan| + 1, c, Gap(pol, tr, c))]
    ensures CreateRequests(pol, tr, maxId, plan + [c])
            == CreateRequests(pol, tr, maxId, plan) + [RequestFor(Created(maxId + |plan| + 1, c, Gap(pol, tr, c)))]
  {
    assert (plan + [c])[..|plan|] == plan;
  }

  lemma TaggedJoin(key: BookKey, r: seq<Request>, q: seq<Request>)
    ensures Tagged(key, r + q) == Tagged(key, r) + Tagged(key, q)
  {
  }

  lemma SentJoin(base: seq<Sent>, key: BookKey, r: seq<Request>, q: seq<Request>)
    ensures base + Tagged(key, r) + Tagged(key, q) == base + Tagged(key, r + q)
  {
    TaggedJoin(key, r, q);
  }

  class Manager {
    var books: map<BookKey, OmsBook>
    var marketByOrder: map<OrderId, BookKey>
    var maxOrderId: nat
    var now: int
    var lastProcess: int
    ghost var sent: seq<Sent>
    ghost var trades: seq<Trade>

    ghost predicate Valid()
      reads this
    {
      forall k | k in books :: books[k].key == k
    }

    ghost function State(): World
      reads this, books.Values
    {
      World(map k | k in books :: books[k].State(), marketByOrder, maxOrderId, now, sent, trades)
    }

    constructor ()
      ensures Valid() && State() == World(map[], map[], 0, 0, [], [])
    {
      books, marketByOrder := map[], map[];
      maxOrderId, now, lastProcess := 0, 0, 0;
      sent, trades := [], [];
    }

    // ----- requests -------------------------------------------------------------------------

    method CreateOrder(book: OmsBook, c: Cell, quantity: int)
      modifies book`orders, `maxOrderId, `marketByOrder, `sent
      ensures maxOrderId == old(maxOrderId) + 1
      ensures book.orders == old(book.orders)[maxOrderId := Created(maxOrderId, c, quantity)]
      ensures marketByOrder == old(marketByOrder)[maxOrderId := book.key]
      ensures sent == old(sent) + [Sent(book.key, RequestFor(Created(maxOrderId, c, quantity)))]
    {
      maxOrderId := maxOrderId + 1;
      var id := maxOrderId;
      var pending := Version(RequestKind.CreateOrder, Undefined, 1, c.price, quantity);
      var order := Order(id, c.side, 0, quantity, pending, BLANK, BLANK, 0, 0, 0);
      order := order.(expected := order.pending);
      book.orders := book.orders[id := order];
      marketByOrder := marketByOrder[id := book.key];
      sent := sent + [Sent(book.key, Request(RequestKind.CreateOrder, id, 1, 0, c.side, c.price, quantity))];
    }

    method ModifyOrder(book: OmsBook, id: OrderId, price: int, quantity: int)
      requires id in book.orders
      modifies book`orders, `sent
      ensures book.orders == old(book.orders)[id := Modified(old(book.orders)[id], price, quantity)]
      ensures sent == old(sent) + [Sent(book.key, RequestFor(book.orders[id]))]
    {
      var order := book.orders[id];
      var pending := order.pending;
      pending := pending.(version := pending.version + 1);
      pending := pending.(kind := RequestKind.ModifyOrder, price := price, quantity := quantity);
      order := order.(pending := pending);
      sent := sent + [Sent(book.key, Request(RequestKind.ModifyOrder, order.id, order.pending.version, order.confirmed.version,
                                             order.side, price, quantity))];
      book.orders := book.orders[id := order.(expected := order.pending)];
    }

    method CancelOrder(book: OmsBook, id: OrderId)
      requires id in book.orders
      modifies book`orders, `sent
      ensures book.orders == old(book.orders)[id := CancelAsked(old(book.orders)[id])]
      ensures sent == old(sent) + [Sent(book.key, RequestFor(book.orders[id]))]
    {
      var order := book.orders[id];
      var pending := order.pending;
      pending := pending.(version := pending.version + 1);
      pending := pending.(kind := RequestKind.CancelOrder, price := order.expected.price, quantity := 0);
      order := order.(pending := pending);
      sent := sent + [Sent(book.key, Request(RequestKind.CancelOrder, order.id, order.pending.version, order.confirmed.version,
                                             order.side, order.expected.price, 0))];
      book.orders := book.orders[id := order.(expected := order.pending)];
    }

    predicate CanCancel(order: Order) { order.confirmed.version != 0 && !order.InFlight() }

    predicate CanModify(book: OmsBook, env: Env, order: Order)
      reads book
    {
      !book.banModify && order.confirmed.version != 0 && order.rejects == 0 && !order.InFlight() && env.modifyReady
    }

    predicate CanCreate(book: OmsBook, env: Env, c: Cell, quantity: int)
      reads book
    {
      && (if c.side == Buy then book.pendingBuy else book.pendingSell) == 0
      && !(env.minVolume.Some? && quantity < env.minVolume.value)
    }

    // ----- process --------------------------------------------------------------------------

    /** Try to do something about one order: true when a request was sent for it. */
    method HandleOrder(book: OmsBook, env: Env, id: OrderId, ghost pol: Policy, ghost tr: seq<Book>) returns (acted: bool)
      requires id in book.orders && tr != [] && Last(tr) == book.orders
      requires Agree(book.levels, pol, tr) && pol.modifiable == (!book.banModify && env.modifyReady)
      modifies book`orders, book`levels, `sent
      ensures Agree(book.levels, pol, tr)
      ensures acted ==> ActStep(pol, tr, id, book.orders) && sent == old(sent) + [Sent(book.key, RequestFor(book.orders[id]))]
      ensures !acted ==> book.orders == old(book.orders) && sent == old(sent)
      ensures !acted ==> !(book.orders[id].Free() && Excess(pol, tr, book.orders[id]))
    {
      var order := book.orders[id];
      var c := order.Where();
      book.EmplaceLevel(c);
      assert book.levels[c] == Counters(pol, tr, c);
      if book.levels[c].expected > book.levels[c].target {
        var canModify := CanModify(book, env, order);
        var canCancel := CanCancel(order);
        var hole := None;
        if canModify {
          hole := book.FindHole(order.side);
        }
        NoHoleOffRecord(book.levels, pol, tr);
        if hole.Some? {
          var target := book.levels[hole.value];
          assert Hole(pol, tr, hole.value);
          ModifyOrder(book, id, hole.value.price, target.target - target.expected);
          return true;
        }
        if canCancel {
          CancelOrder(book, id);
          return true;
        }
      }
      return false;
    }

    /** Scan the orders until a request is sent for one of them, or all have been looked at. */
    method ScanOrders(book: OmsBook, env: Env, ghost pol: Policy, ghost tr: seq<Book>) returns (acted: bool, ghost id: OrderId)
      requires tr != [] && Last(tr) == book.orders
      requires Agree(book.levels, pol, tr) && pol.modifiable == (!book.banModify && env.modifyReady)
      modifies book`orders, book`levels, `sent
      ensures Agree(book.levels, pol, tr)
      ensures acted ==> ActStep(pol, tr, id, book.orders) && sent == old(sent) + [Sent(book.key, RequestFor(book.orders[id]))]
      ensures !acted ==> book.orders == old(book.orders) && sent == old(sent) && Quiet(pol, tr)
    {
      var todo := book.orders.Keys;
      id := 0;
      while todo != {}
        invariant book.orders == old(book.orders) && sent == old(sent)
        invariant todo <= book.orders.Keys
        invariant Agree(book.levels, pol, tr)
        invariant forall i | i in book.orders && i !in todo :: !(book.orders[i].Free() && Excess(pol, tr, book.orders[i]))
        decreases |todo|
      {
        var next :| next in todo;
        acted := HandleOrder(book, env, next, pol, tr);
        if acted {
          id := next;
          return;
        }
        todo := todo - {next};
      }
      acted := false;
    }

    /** The creates of `plan` have been sent, on top of what was sent and indexed before. */
    ghost predicate Filled(book: OmsBook, pol: Policy, tr: seq<Book>, maxId: nat, base: seq<Sent>, index: map<OrderId, BookKey>, plan: seq<Cell>)
      requires tr != []
      reads this, book
    {
      && book.orders == WithCreates(pol, tr, maxId, plan)
      && maxOrderId == maxId + |plan|
      && marketByOrder == WithIds(index, book.key, maxId, |plan|)
      && sent == base + Tagged(book.key, CreateRequests(pol, tr, maxId, plan))
    }

    /** Create an order for one level, if its counter is short of its target and that is allowed. */
    method FillHole(book: OmsBook, env: Env, c: Cell, ghost pol: Policy, ghost tr: seq<Book>, ghost maxId: nat,
                    ghost base: seq<Sent>, ghost index: map<OrderId, BookKey>, ghost plan: seq<Cell>)
      returns (filled: bool)
      requires tr != [] && Filled(book, pol, tr, maxId, base, index, plan)
      requires c in book.levels && book.levels[c].target - book.levels[c].expected == Gap(pol, tr, c)
      requires pol.minVolume == env.minVolume
      requires (if c.side == Buy then book.pendingBuy else book.pendingSell) > 0 <==> Busy(Last(tr), c.side)
      modifies book`orders, `maxOrderId, `marketByOrder, `sent
      ensures filled <==> Wanted(pol, tr, c)
      ensures Filled(book, pol, tr, maxId, base, index, if filled then plan + [c] else plan)
    {
      var l := book.levels[c];
      var quantity := l.target - l.expected;
      filled := l.target > l.expected && CanCreate(book, env, c, quantity);
      if filled {
        CreateSnoc(pol, tr, maxId, plan, c);
        TaggedJoin(book.key, CreateRequests(pol, tr, maxId, plan), [RequestFor(Created(maxId + |plan| + 1, c, quantity))]);
        CreateOrder(book, c, quantity);
      }
    }

    /** Fill the holes that remain on one side, unless requests are in flight there. */
    method CreateMissing(book: OmsBook, env: Env, side: Side, ghost pol: Policy, ghost tr: seq<Book>, ghost maxId: nat,
                         ghost base: seq<Sent>, ghost index: map<OrderId, BookKey>, ghost before: seq<Cell>, ghost seen: set<Cell>)
      returns (ghost plan: seq<Cell>)
      requires tr != [] && Filled(book, pol, tr, maxId, base, index, before) && pol.minVolume == env.minVolume
      requires forall c: Cell | c in book.levels :: book.levels[c].target - book.levels[c].expected == Gap(pol, tr, c)
      requires (if side == Buy then book.pendingBuy else book.pendingSell) > 0 <==> Busy(Last(tr), side)
      requires Planned(pol, tr, seen, before) && forall c | c in seen :: c.side != side
      modifies book`orders, `maxOrderId, `marketByOrder, `sent
      ensures Filled(book, pol, tr, maxId, base, index, plan)
      ensures Planned(pol, tr, seen + SideOf(book.levels, side), plan)
    {
      plan := before;
      var todo := SideOf(book.levels, side);
      ghost var all := todo;
      while todo != {}
        invariant todo <= all
        invariant Filled(book, pol, tr, maxId, base, index, plan)
        invariant Planned(pol, tr, seen + (all - todo), plan)
        decreases |todo|
      {
        var c :| c in todo;
        var filled := FillHole(book, env, c, pol, tr, maxId, base, index, plan);
        PlannedOne(pol, tr, seen + (all - todo), plan, c);
        if filled {
          plan := plan + [c];
        }
        todo := todo - {c};
        assert seen + (all - todo) == seen + (all - todo - {c}) + {c};
      }
    }

    /** The passes of `past` are over, and the requests they sent were added to `base`. */
    ghost predicate Passing(book: OmsBook, pol: Policy, past: seq<Book>, acts: seq<OrderId>, first: Book, base: seq<Sent>)
      reads this, book
    {
      var tr := past + [book.orders];
      && Agree(book.levels, pol, past)
      && Passes(pol, tr, acts) && tr[0] == first
      && sent == base + Tagged(book.key, ActRequests(tr, acts))
    }

    method OnePass(book: OmsBook, env: Env, ghost pol: Policy, ghost past: seq<Book>, ghost acts: seq<OrderId>,
                   ghost first: Book, ghost base: seq<Sent>)
      returns (acted: bool, ghost id: OrderId)
      requires Passing(book, pol, past, acts, first, base) && pol.modifiable == (!book.banModify && env.modifyReady)
      modifies book`orders, book`levels, book`pendingBuy, book`pendingSell, `sent
      ensures acted ==> Passing(book, pol, past + [old(book.orders)], acts + [id], first, base)
                        && |FreeOrders(book.orders)| < |FreeOrders(old(book.orders))|
      ensures !acted ==>
                && book.orders == old(book.orders) && sent == old(sent)
                && Quiet(pol, past + [book.orders]) && Agree(book.levels, pol, past + [book.orders])
                && (book.pendingBuy > 0 <==> Busy(book.orders, Buy))
                && (book.pendingSell > 0 <==> Busy(book.orders, Sell))
    {
      book.CountOrders(pol, past);
      ghost var tr := past + [book.orders];
      acted, id := ScanOrders(book, env, pol, tr);
      if acted {
        PassesSnoc(pol, tr, acts, id, book.orders);
        TaggedJoin(book.key, ActRequests(tr, acts), [RequestFor(book.orders[id])]);
        ActUsesUpOrder(pol, tr, id, book.orders);
      }
    }

    /** All passes are over. */
    ghost predicate Passed(book: OmsBook, pol: Policy, tr: seq<Book>, acts: seq<OrderId>, first: Book, base: seq<Sent>)
      reads this, book
    {
      && Passes(pol, tr, acts) && tr[0] == first && Last(tr) == book.orders && Quiet(pol, tr)
      && Agree(book.levels, pol, tr)
      && (book.pendingBuy > 0 <==> Busy(book.orders, Buy))
      && (book.pendingSell > 0 <==> Busy(book.orders, Sell))
      && sent == base + Tagged(book.key, ActRequests(tr, acts))
    }

    /** Pass after pass, until a pass finds nothing to do. */
    method RunPasses(book: OmsBook, env: Env, ghost pol: Policy) returns (ghost tr: seq<Book>, ghost acts: seq<OrderId>)
      requires Agree(book.levels, pol, []) && pol.modifiable == (!book.banModify && env.modifyReady)
      modifies book`orders, book`levels, book`pendingBuy, book`pendingSell, `sent
      ensures Passed(book, pol, tr, acts, old(book.orders), old(sent))
    {
      ghost var past: seq<Book> := [];
      tr, acts := [], [];
      var acted := true;
      while acted
        invariant if acted then Passing(book, pol, past, acts, old(book.orders), old(sent))
                  else Passed(book, pol, tr, acts, old(book.orders), old(sent))
        decreases acted, |FreeOrders(book.orders)|
      {
        tr := past + [book.orders];
        ghost var id;
        acted, id := OnePass(book, env, pol, past, acts, old(book.orders), old(sent));
        if acted {
          past := tr;
          acts := acts + [id];
        }
      }
    }

    /** The first half of process: counters cleared once, then passes. */
    method Settle(book: OmsBook, env: Env, ghost pol: Policy)
      returns (ghost tr: seq<Book>, ghost acts: seq<OrderId>)
      requires pol == PolicyOf(book.State(), env)
      modifies book`orders, book`levels, book`pendingBuy, book`pendingSell, `sent
      ensures Passed(book, pol, tr, acts, old(book.orders), old(sent))
    {
      ZeroedAgrees(book.State(), env);
      book.ResetCounters();
      tr, acts := RunPasses(book, env, pol);
    }

    /** The second half of process: creates, then levels with nothing to show are erased. */
    method Complete(book: OmsBook, env: Env, ghost pol: Policy, ghost tr: seq<Book>) returns (ghost plan: seq<Cell>)
      requires tr != [] && Last(tr) == book.orders && Agree(book.levels, pol, tr) && pol.minVolume == env.minVolume
      requires book.pendingBuy > 0 <==> Busy(book.orders, Buy)
      requires book.pendingSell > 0 <==> Busy(book.orders, Sell)
      modifies book`orders, book`levels, `maxOrderId, `marketByOrder, `sent
      ensures IsPlan(pol, tr, plan)
      ensures Filled(book, pol, tr, old(maxOrderId), old(sent), old(marketByOrder), plan)
      ensures LevelsLeft(book.levels, pol, tr)
    {
      plan := CreateBoth(book, env, pol, tr);
      EmptyLevelsGone(book.levels, pol, tr);
      book.EraseEmptyLevels();
    }

    method CreateBoth(book: OmsBook, env: Env, ghost pol: Policy, ghost tr: seq<Book>) returns (ghost plan: seq<Cell>)
      requires tr != [] && Last(tr) == book.orders && Agree(book.levels, pol, tr) && pol.minVolume == env.minVolume
      requires book.pendingBuy > 0 <==> Busy(book.orders, Buy)
      requires book.pendingSell > 0 <==> Busy(book.orders, Sell)
      modifies book`orders, `maxOrderId, `marketByOrder, `sent
      ensures IsPlan(pol, tr, plan)
      ensures Filled(book, pol, tr, old(maxOrderId), old(sent), old(marketByOrder), plan)
    {
      NoHoleOffRecord(book.levels, pol, tr);
      plan := CreateMissing(book, env, Buy, pol, tr, old(maxOrderId), old(sent), old(marketByOrder), [], {});
      plan := CreateMissing(book, env, Sell, pol, tr, old(maxOrderId), old(sent), old(marketByOrder), plan, {} + SideOf(book.levels, Buy));
      AllPlanned(book.levels, pol, tr, plan);
    }

    method ReconcileBook(book: OmsBook, env: Env, ghost pol: Policy)
      returns (ghost tr: seq<Book>, ghost acts: seq<OrderId>, ghost plan: seq<Cell>)
      requires pol == PolicyOf(book.State(), env)
      modifies book`orders, book`levels, book`pendingBuy, book`pendingSell, `maxOrderId, `marketByOrder, `sent
      ensures Passes(pol, tr, acts) && tr[0] == old(book.orders) && Quiet(pol, tr)
      ensures IsPlan(pol, tr, plan)
      ensures book.orders == WithCreates(pol, tr, old(maxOrderId), plan)
      ensures LevelsLeft(book.levels, pol, tr)
      ensures maxOrderId == old(maxOrderId) + |plan|
      ensures marketByOrder == WithIds(old(marketByOrder), book.key, old(maxOrderId), |plan|)
      ensures sent == old(sent) + Tagged(book.key, ActRequests(tr, acts)) + Tagged(book.key, CreateRequests(pol, tr, old(maxOrderId), plan))
    {
      tr, acts := Settle(book, env, pol);
      plan := Complete(book, env, pol, tr);
    }

    method ProcessReady(book: OmsBook, env: Env)
      requires Valid() && book.key in books && books[book.key] == book
      requires !Skips(State(), book.key, env)
      modifies book`orders, book`levels, book`pendingBuy, book`pendingSell, book`banUntil, `maxOrderId, `marketByOrder, `sent
      ensures Next(old(State()), Event.Process(book.key, env), State())
    {
      ghost var w := State();
      ghost var b := book.State();
      ghost var pol := PolicyOf(b, env);
      book.banUntil := 0;
      ghost var tr, acts, plan := ReconcileBook(book, env, pol);
      OnlyThatBook(book);
      Lift(w, b, book.key, env, pol, tr, acts, plan, State(), book.State());
    }

    /** The world after a method that changed one book only. */
    twostate lemma OnlyThatBook(book: OmsBook)
      requires old(Valid()) && book.key in old(books) && old(books)[book.key] == book && books == old(books)
      requires forall b | b in old(books).Values && b != book :: unchanged(b)
      ensures State().books == old(State()).books[book.key := book.State()]
    {
      forall k | k in books && k != book.key
        ensures books[k].State() == old(books[k].State())
      {
        assert books[k] in old(books).Values && books[k].key == k;
      }
    }

    /** Reconcile a book with its targets, if the gateway is ready for it and it is not banned. */
    method Process(book: OmsBook, env: Env)
      requires Valid() && book.key in books && books[book.key] == book
      modifies book`orders, book`levels, book`pendingBuy, book`pendingSell, book`banUntil, `maxOrderId, `marketByOrder, `sent
      ensures Next(old(State()), Event.Process(book.key, env), State())
    {
      assert State().books[book.key].banUntil == book.banUntil;
      if book.key.account != "" && env.ready && env.tickKnown && book.banUntil <= now {
        ProcessReady(book, env);
      } else {
        NothingDone(State(), book.key, env);
      }
    }

    // ----- order reports --------------------------------------------------------------------

    method EraseOrder(book: OmsBook, id: OrderId)
      modifies book`orders, `marketByOrder
      ensures book.orders == old(book.orders) - {id}
      ensures marketByOrder == old(marketByOrder) - {id}
    {
      book.orders := book.orders - {id};
      marketByOrder := marketByOrder - {id};
    }

    method OrderFills(book: OmsBook, id: OrderId, side: Side, price: int, fill: int)
      modifies book`position, book`banUntil, `trades
      ensures book.position == if fill > 0 then old(book.position) + Signed(side, fill) else old(book.position)
      ensures book.banUntil == if fill > 0 && book.postFill != 0 then now + book.postFill else old(book.banUntil)
      ensures trades == old(trades) + if fill > 0 then [Trade(book.key, id, side, price, fill)] else []
    {
      if fill > 0 {
        match side {
          case Buy => book.position := book.position + fill;
          case Sell => book.position := book.position - fill;
        }
        if book.postFill != 0 {
          book.banUntil := now + book.postFill;
        }
        trades := trades + [Trade(book.key, id, side, price, fill)];
      }
    }

    method OrderConfirm(book: OmsBook, u: Report)
      requires u.id in book.orders && !u.stale && u.status == Working
      modifies book`orders, book`position, book`banUntil, `trades
      ensures book.State() == ReportedBook(old(book.State()), u, now)
      ensures trades == old(trades) + ReportedTrades(book.key, old(book.orders), u)
    {
      var order := book.orders[u.id];
      var confirmed := order.confirmed;
      confirmed := confirmed.(status := u.status, price := u.price);
      confirmed := confirmed.(quantity := u.remaining, version := u.maxAccepted);
      var fill := u.traded - order.traded;
      order := order.(confirmed := confirmed, traded := u.traded);
      order := order.(pending := order.pending.(kind := NoRequest));
      order := order.(expected := order.confirmed);
      book.orders := book.orders[u.id := order];
      OrderFills(book, u.id, u.side, u.lastPrice, fill);
    }

    method OrderComplete(book: OmsBook, u: Report)
      requires u.id in book.orders && !u.stale && u.status == Completed
      modifies book`orders, book`position, book`banUntil, `trades, `marketByOrder
      ensures book.State() == ReportedBook(old(book.State()), u, now)
      ensures trades == old(trades) + ReportedTrades(book.key, old(book.orders), u)
      ensures marketByOrder == old(marketByOrder) - {u.id}
    {
      var fill := u.traded - book.orders[u.id].traded;
      EraseOrder(book, u.id);
      OrderFills(book, u.id, u.side, u.lastPrice, fill);
    }

    method OrderCanceled(book: OmsBook, u: Report)
      requires u.id in book.orders && !u.stale && u.status == Canceled
      modifies book`orders, book`banUntil, `marketByOrder
      ensures book.State() == ReportedBook(old(book.State()), u, now)
      ensures marketByOrder == old(marketByOrder) - {u.id}
    {
      EraseOrder(book, u.id);
      if book.postCancel != 0 {
        book.banUntil := now + book.postCancel;
      }
    }

    method AdoptOrder(book: OmsBook, u: Report)
      requires u.id !in book.orders && !u.stale
      modifies book`orders, `marketByOrder
      ensures book.State() == ReportedBook(old(book.State()), u, now)
      ensures marketByOrder == ReportedIndex(old(marketByOrder), book.key, old(book.orders), u)
    {
      book.orders := book.orders[u.id := Adopted(u)];
      marketByOrder := marketByOrder[u.id := book.key];
      if u.status != Working {
        EraseOrder(book, u.id);
        assert book.orders == old(book.orders);
        assert marketByOrder == old(marketByOrder) - {u.id};
      }
    }

    /** What a report does to its book, the index and the trades, before process is called. */
    method ApplyReport(book: OmsBook, u: Report)
      modifies book`orders, book`position, book`banUntil, `trades, `marketByOrder
      ensures book.State() == ReportedBook(old(book.State()), u, now)
      ensures trades == old(trades) + ReportedTrades(book.key, old(book.orders), u)
      ensures marketByOrder == ReportedIndex(old(marketByOrder), book.key, old(book.orders), u)
    {
      if u.stale {
        EraseOrder(book, u.id);
      } else if u.id !in book.orders {
        AdoptOrder(book, u);
      } else {
        match u.status {
          case Working => OrderConfirm(book, u);
          case Completed => OrderComplete(book, u);
          case Canceled => OrderCanceled(book, u);
          case Rejected => EraseOrder(book, u.id);
          case _ =>
        }
      }
    }

    method OnOrderReport(key: BookKey, u: Report, env: Env)
      requires Valid()
      modifies this, books.Values
      ensures Valid() && books == old(books)
      ensures key !in books ==> State() == old(State())
      ensures key in books ==> Next(After(old(State()), OnReport(key, u)), Event.Process(key, env), State())
    {
      if key in books {
        ghost var w := State();
        ApplyReport(books[key], u);
        OnlyThatBook(books[key]);
        assert State() == After(w, OnReport(key, u));
        Process(books[key], env);
      }
    }

    // ----- acknowledgements -----------------------------------------------------------------

    method ApplyAck(book: OmsBook, a: Ack, timeout: int)
      requires a.id in book.orders
      modifies book`orders, book`banUntil, `marketByOrder
      ensures book.State() == AckedBook(old(book.State()), a, now + timeout)
      ensures marketByOrder == if ErasedByAck(a) then old(marketByOrder) - {a.id} else old(marketByOrder)
    {
      var order := book.orders[a.id];
      match a.status {
        case AckRejected =>
          match a.kind {
            case CancelOrder => order := CancelRejected(order);
            case ModifyOrder => order := ModifyRejected(order, a.version);
            case _ =>
          }
          if a.error == TooLateError {
            order := TooLate(order);
          }
          book.orders := book.orders[a.id := order];
          if a.kind == RequestKind.CreateOrder {
            EraseOrder(book, a.id);
          }
          if a.error == RateLimitError || a.error == NotReadyError {
            book.banUntil := Max(book.banUntil, now + timeout);
          }
        case AckAccepted =>
          book.orders := book.orders[a.id := order.(acceptVersion := a.version)];
        case _ =>
      }
      assert book.orders == AckedBook(old(book.State()), a, now + timeout).orders;
    }

    method OnOrderAck(a: Ack, timeout: int, env: Env)
      requires Valid()
      modifies this, books.Values
      ensures Valid() && books == old(books)
      ensures var w := After(old(State()), OnAck(a, timeout));
              if a.id in old(marketByOrder) && old(marketByOrder)[a.id] in books
                 && a.id in old(State()).books[old(marketByOrder)[a.id]].orders && a.status == AckRejected && !BannedByAck(a)
              then Next(w, Event.Process(old(marketByOrder)[a.id], env), State())
              else State() == w
    {
      if a.id in marketByOrder && marketByOrder[a.id] in books {
        ghost var w := State();
        var book := books[marketByOrder[a.id]];
        if a.id in book.orders {
          ApplyAck(book, a, timeout);
          OnlyThatBook(book);
          assert State() == After(w, OnAck(a, timeout));
          if a.status == AckRejected && !BannedByAck(a) {
            Process(book, env);
          }
        }
      }
    }

    // ----- all books ------------------------------------------------------------------------

    /** process was called on the books not to do any more, once each. */
    ghost predicate Swept(first: World, envs: BookKey -> Env, ws: seq<World>, keys: seq<BookKey>, todo: set<BookKey>)
      reads this, books.Values
    {
      && Valid() && todo <= books.Keys
      && Distinct(keys) && (forall k :: k in keys <==> k in books && k !in todo)
      && Sweep(first, envs, ws, keys, State())
    }

    method ProcessOne(k: BookKey, envs: BookKey -> Env, ghost first: World, ghost ws: seq<World>, ghost keys: seq<BookKey>, ghost todo: set<BookKey>)
      requires Swept(first, envs, ws, keys, todo) && k in todo
      modifies this, books.Values
      ensures books == old(books) && lastProcess == old(lastProcess)
      ensures Swept(first, envs, ws + [State()], keys + [k], todo - {k})
    {
      Process(books[k], envs(k));
      SweepOn(first, envs, ws, keys, ws[|keys|], k, State());
    }

    /** process is called on every book, once each, in some order. */
    method ProcessAll(envs: BookKey -> Env) returns (ghost ws: seq<World>, ghost keys: seq<BookKey>)
      requires Valid()
      modifies this, books.Values
      ensures Valid() && books == old(books) && lastProcess == old(lastProcess)
      ensures Sweep(old(State()), envs, ws, keys, State())
      ensures Distinct(keys) && forall k :: k in keys <==> k in books
    {
      keys := [];
      ws := [State()];
      var todo := books.Keys;
      while todo != {}
        invariant books == old(books) && lastProcess == old(lastProcess) && Swept(old(State()), envs, ws, keys, todo)
        decreases |todo|
      {
        var k :| k in todo;
        ProcessOne(k, envs, old(State()), ws, keys, todo);
        ws := ws + [State()];
        keys := keys + [k];
        todo := todo - {k};
      }
    }

    method EmplaceBook(key: BookKey) returns (book: OmsBook)
      requires Valid()
      modifies `books
      ensures Valid() && key in books && books[key] == book && book.key == key
      ensures fresh(books.Values - old(books).Values)
      ensures State() == var w := old(State()); w.(books := w.books[key := Open(w, key)])
    {
      if key in books {
        book := books[key];
        assert State().books == State().books[key := book.State()];
      } else {
        book := new OmsBook(key);
        books := books[key := book];
      }
    }

    method ApplyTargets(key: BookKey, buys: seq<Quote>, sells: seq<Quote>)
      requires Valid()
      modifies this, books.Values
      ensures Valid() && fresh(books.Values - old(books).Values)
      ensures State() == After(old(State()), OnTargets(key, buys, sells))
    {
      ghost var w := State();
      var book := EmplaceBook(key);
      label emplaced:
      assert book.State() == State().books[key];
      book.SetTargets(buys, sells);
      OnlyThatBook@emplaced(book);
      TargetsLift(w, key, buys, sells, book.State(), State());
    }

    method OnTargetQuotes(key: BookKey, buys: seq<Quote>, sells: seq<Quote>, tickKnown: bool, envs: BookKey -> Env)
      returns (ghost ws: seq<World>, ghost keys: seq<BookKey>)
      requires Valid()
      modifies this, books.Values
      ensures Valid()
      ensures !tickKnown ==> State() == old(State())
      ensures tickKnown ==> Sweep(After(old(State()), OnTargets(key, buys, sells)), envs, ws, keys, State())
                            && Distinct(keys) && forall k :: k in keys <==> k in books
    {
      ws, keys := [], [];
      if tickKnown {
        ApplyTargets(key, buys, sells);
        ws, keys := ProcessAll(envs);
      }
    }

    method OnTime(newNow: int, envs: BookKey -> Env) returns (ghost ws: seq<World>, ghost keys: seq<BookKey>)
      requires Valid()
      modifies this, books.Values
      ensures Valid() && books == old(books)
      ensures newNow - old(lastProcess) < SECOND ==>
                State() == After(old(State()), OnTimer(newNow)) && lastProcess == old(lastProcess)
      ensures newNow - old(lastProcess) >= SECOND ==>
                && Sweep(After(old(State()), OnTimer(newNow)), envs, ws, keys, State())
                && Distinct(keys) && (forall k :: k in keys <==> k in books)
                && lastProcess == newNow
    {
      ws, keys := [], [];
      ghost var w := After(State(), OnTimer(newNow));
      now := newNow;
      assert State() == w;
      if newNow - lastProcess >= SECOND {
        ws, keys := ProcessAll(envs);
        lastProcess := newNow;
      }
    }

    // ----- downloads and gateway status -----------------------------------------------------

    method EraseAllOrders(book: OmsBook)
      modifies book`orders, `marketByOrder
      ensures book.orders == map[]
      ensures marketByOrder == old(marketByOrder) - old(book.orders).Keys
    {
      var todo := book.orders.Keys;
      while todo != {}
        invariant todo <= book.orders.Keys && book.orders == old(book.orders)
        invariant marketByOrder == old(marketByOrder) - (book.orders.Keys - todo)
        decreases |todo|
      {
        var id :| id in todo;
        marketByOrder := marketByOrder - {id};
        todo := todo - {id};
      }
      book.orders := map[];
    }

    method DropOrders(book: OmsBook, download: bool)
      modifies book`orders, book`position, book`positionByAccount, `marketByOrder
      ensures book.State() == if download then Restarted(old(book.State())) else Cleared(old(book.State()))
      ensures marketByOrder == old(marketByOrder) - old(book.orders).Keys
    {
      if download {
        book.position, book.positionByAccount := 0, 0;
      }
      EraseAllOrders(book);
    }

    method DropOne(book: OmsBook, account: string, download: bool, ghost change: BookState -> BookState, ghost w: World, ghost todo: set<BookKey>)
      requires Valid() && change == (if download then Restarted else Cleared)
      requires book.key in books && books[book.key] == book && book.key in w.books && book.key in todo
      requires State().books == OnSome(w, account, todo, change)
      requires marketByOrder == ForgottenSome(w, account, todo)
      modifies book`orders, book`position, book`positionByAccount, `marketByOrder
      ensures State().books == OnSome(w, account, todo - {book.key}, change)
      ensures marketByOrder == ForgottenSome(w, account, todo - {book.key})
    {
      OneMoreBook(w, account, todo, book.key, change);
      StillToVisit(State(), w, book.key, account, todo, change, book.State());
      if book.key.account == account {
        DropOrders(book, download);
        OnlyThatBook(book);
      }
    }

    method DropEach(account: string, download: bool, ghost change: BookState -> BookState, ghost w: World)
      requires Valid() && change == (if download then Restarted else Cleared) && books.Keys == w.books.Keys
      requires State().books == OnSome(w, account, books.Keys, change)
      requires marketByOrder == ForgottenSome(w, account, books.Keys)
      modifies `marketByOrder, books.Values
      ensures State().books == OnSome(w, account, {}, change)
      ensures marketByOrder == ForgottenSome(w, account, {})
    {
      var todo := books.Keys;
      while todo != {}
        invariant todo <= books.Keys
        invariant State().books == OnSome(w, account, todo, change)
        invariant marketByOrder == ForgottenSome(w, account, todo)
        decreases |todo|
      {
        var k :| k in todo;
        assert books[k].key == k;
        DropOne(books[k], account, download, change, w, todo);
        todo := todo - {k};
      }
    }

    /** Every book of an account drops its orders, and its positions too when a download begins. */
    method DropAccount(account: string, download: bool, ghost change: BookState -> BookState)
      requires Valid() && change == (if download then Restarted else Cleared)
      modifies `marketByOrder, books.Values
      ensures marketByOrder == Forgotten(old(State()), account)
      ensures State().books == OnAccount(old(State()), account, change)
    {
      EveryBook(State(), account, change);
      DropEach(account, download, change, State());
    }

    method OnDownloadStart(account: string)
      requires Valid()
      modifies `marketByOrder, books.Values
      ensures Valid() && State() == After(old(State()), OnDownloadBegin(account))
    {
      if account != "" {
        DropAccount(account, true, Restarted);
      }
    }

    method OnGatewayNotReady(account: string)
      requires Valid()
      modifies `marketByOrder, books.Values
      ensures Valid() && State() == After(old(State()), OnGatewayDown(account))
    {
      if account != "" {
        DropAccount(account, false, Cleared);
      }
    }

    method SnapshotOne(book: OmsBook, account: string, ghost w: World, ghost todo: set<BookKey>)
      requires Valid() && book.key in books && books[book.key] == book && book.key in w.books && book.key in todo
      requires State().books == OnSome(w, account, todo, Snapshot)
      modifies book`position
      ensures State().books == OnSome(w, account, todo - {book.key}, Snapshot)
    {
      OneMoreBook(w, account, todo, book.key, Snapshot);
      StillToVisit(State(), w, book.key, account, todo, Snapshot, book.State());
      if book.key.account == account {
        book.position := book.positionByAccount;
        OnlyThatBook(book);
      }
    }

    /** The positions known to the account become those of its books. */
    method SnapshotAccount(account: string)
      requires Valid()
      modifies books.Values
      ensures State().books == OnAccount(old(State()), account, Snapshot)
    {
      EveryBook(State(), account, Snapshot);
      SnapshotEach(account, State());
    }

    method SnapshotEach(account: string, ghost w: World)
      requires Valid() && books.Keys == w.books.Keys && State().books == OnSome(w, account, books.Keys, Snapshot)
      modifies books.Values
      ensures State().books == OnSome(w, account, {}, Snapshot)
    {
      var todo := books.Keys;
      while todo != {}
        invariant todo <= books.Keys
        invariant State().books == OnSome(w, account, todo, Snapshot)
        decreases |todo|
      {
        var k :| k in todo;
        assert books[k].key == k;
        SnapshotOne(books[k], account, w, todo);
        todo := todo - {k};
      }
    }

    method OnDownloadStop(account: string, maxId: nat)
      requires Valid()
      modifies `maxOrderId, books.Values
      ensures Valid() && State() == After(old(State()), OnDownloadEnd(account, maxId))
    {
      if account != "" {
        SnapshotAccount(account);
      }
      maxOrderId := Max(maxOrderId, maxId);
      assert State() == After(old(State()), OnDownloadEnd(account, maxId));
    }
  }

  /** process called on the books of `keys`, one after the other. */
  ghost predicate Sweep(first: World, envs: BookKey -> Env, ws: seq<World>, keys: seq<BookKey>, last: World) {
    && |ws| == |keys| + 1 && ws[0] == first && ws[|keys|] == last
    && forall i | 0 <= i < |keys| :: SweptBy(envs, ws[i], keys[i], ws[i + 1])
  }

  lemma SweptAgain(envs: BookKey -> Env, w: World, k: BookKey, w': World, v: World, j: BookKey, v': World)
    requires SweptBy(envs, w, k, w') && v == w && j == k && v' == w'
    ensures SweptBy(envs, v, j, v')
  {
  }

  lemma SweepOn(first: World, envs: BookKey -> Env, ws: seq<World>, keys: seq<BookKey>, last: World, k: BookKey, next: World)
    requires Sweep(first, envs, ws, keys, last) && SweptBy(envs, last, k, next)
    ensures Sweep(first, envs, ws + [next], keys + [k], next)
  {
    var ws', keys' := ws + [next], keys + [k];
    forall i | 0 <= i < |keys'|
      ensures SweptBy(envs, ws'[i], keys'[i], ws'[i + 1])
    {
      if i < |keys| {
        SweptAgain(envs, ws[i], keys[i], ws[i + 1], ws'[i], keys'[i], ws'[i + 1]);
      } else {
        SweptAgain(envs, last, k, next, ws'[i], keys'[i], ws'[i + 1]);
      }
    }
  }

  /** One call of a sweep. */
  ghost predicate SweptBy(envs: BookKey -> Env, w: World, k: BookKey, w': World) { Next(w, Event.Process(k, envs(k)), w') }

  lemma TargetsLift(w: World, key: BookKey, buys: seq<Quote>, sells: seq<Quote>, b: BookState, w': World)
    requires b == Open(w, key).(levels := Retargeted(Open(w, key).levels, buys, sells))
    requires w'.books == w.books[key := Open(w, key)][key := b]
    requires w' == w.(books := w'.books)
    ensures w' == After(w, OnTargets(key, buys, sells))
  {
    assert w.books[key := Open(w, key)][key := b] == w.books[key := b];
  }

  /** Some change to those books of an account that are no longer to be visited. */
  ghost function OnSome(w: World, account: string, todo: set<BookKey>, change: BookState -> BookState): map<BookKey, BookState> {
    map k | k in w.books :: if k !in todo && k.account == account then change(w.books[k]) else w.books[k]
  }

  ghost function ForgottenSome(w: World, account: string, todo: set<BookKey>): map<OrderId, BookKey> {
    map id | id in w.index && !(exists k :: k in w.books && k !in todo && k.account == account && id in w.books[k].orders) :: w.index[id]
  }

  lemma OneMoreBook(w: World, account: string, todo: set<BookKey>, k: BookKey, change: BookState -> BookState)
    requires k in w.books && k in todo
    ensures OnSome(w, account, todo - {k}, change)
            == if k.account == account then OnSome(w, account, todo, change)[k := change(w.books[k])] else OnSome(w, account, todo, change)
    ensures ForgottenSome(w, account, todo - {k})
            == if k.account == account then ForgottenSome(w, account, todo) - w.books[k].orders.Keys else ForgottenSome(w, account, todo)
  {
    if k.account == account {
      assert ForgottenSome(w, account, todo - {k}) == ForgottenSome(w, account, todo) - w.books[k].orders.Keys;
    } else {
      assert ForgottenSome(w, account, todo - {k}) == ForgottenSome(w, account, todo);
    }
  }

  lemma StillToVisit(v: World, w: World, k: BookKey, account: string, todo: set<BookKey>, change: BookState -> BookState, b: BookState)
    requires v.books == OnSome(w, account, todo, change) && k in w.books && k in todo && b == v.books[k]
    ensures b == w.books[k]
  {
  }

  lemma EveryBook(w: World, account: string, change: BookState -> BookState)
    ensures OnSome(w, account, {}, change) == OnAccount(w, account, change)
    ensures ForgottenSome(w, account, {}) == Forgotten(w, account)
    ensures OnSome(w, account, w.books.Keys, change) == w.books && ForgottenSome(w, account, w.books.Keys) == w.index
  {
  }

  lemma NothingDone(w: World, key: BookKey, env: Env)
    requires key in w.books && Skips(w, key, env)
    ensures Next(w, Event.Process(key, env), w)
  {
  }

  lemma Lift(w: World, b: BookState, key: BookKey, env: Env, pol: Policy, tr: seq<Book>, acts: seq<OrderId>, plan: seq<Cell>,
             w': World, b': BookState)
    requires key in w.books && !Skips(w, key, env) && b == w.books[key] && pol == PolicyOf(b, env)
    requires Passes(pol, tr, acts) && tr[0] == b.orders && Quiet(pol, tr) && IsPlan(pol, tr, plan)
    requires b'.orders == WithCreates(pol, tr, w.maxId, plan)
    requires LevelsLeft(b'.levels, pol, tr)
    requires b' == b.(orders := b'.orders, levels := b'.levels, banUntil := 0)
    requires w'.books == w.books[key := b']
    requires w'.index == WithIds(w.index, key, w.maxId, |plan|)
    requires w'.maxId == w.maxId + |plan| && w'.now == w.now && w'.trades == w.trades
    requires w'.sent == w.sent + Tagged(key, ActRequests(tr, acts)) + Tagged(key, CreateRequests(pol, tr, w.maxId, plan))
    ensures Next(w, Event.Process(key, env), w')
  {
    SentJoin(w.sent, key, ActRequests(tr, acts), CreateRequests(pol, tr, w.maxId, plan));
    assert w' == w.(books := w'.books, index := w'.index, maxId := w'.maxId, sent := w'.sent);
    assert Processed(w, key, env, tr, acts, plan, w');
  }

  lemma AllPlanned(levels: map<Cell, Level>, pol: Policy, tr: seq<Book>, plan: seq<Cell>)
    requires tr != [] && Agree(levels, pol, tr)
    requires Planned(pol, tr, {} + SideOf(levels, Buy) + SideOf(levels, Sell), plan)
    ensures IsPlan(pol, tr, plan)
  {
    NoHoleOffRecord(levels, pol, tr);
    forall c: Cell | Wanted(pol, tr, c)
      ensures c in plan
    {
      assert c in levels;
    }
  }

  lemma EmptyLevelsGone(levels: map<Cell, Level>, pol: Policy, tr: seq<Book>)
    requires Agree(levels, pol, tr)
    ensures LevelsLeft(NonEmpty(levels), pol, tr)
  {
    forall c: Cell
      ensures LevelOf(levels, c) == Counters(pol, tr, c)
    {
    }
  }

  function SideOf(levels: map<Cell, Level>, side: Side): set<Cell> { set c | c in levels && c.side == side }

  /** `plan` lists, once each, those of the levels seen that want an order. */
  ghost predicate Planned(pol: Policy, tr: seq<Book>, seen: set<Cell>, plan: seq<Cell>)
    requires tr != []
  {
    Distinct(plan) && forall c: Cell :: c in plan <==> c in seen && Wanted(pol, tr, c)
  }

  lemma PlannedOne(pol: Policy, tr: seq<Book>, seen: set<Cell>, plan: seq<Cell>, c: Cell)
    requires tr != [] && Planned(pol, tr, seen, plan) && c !in seen
    ensures Planned(pol, tr, seen + {c}, if Wanted(pol, tr, c) then plan + [c] else plan)
  {
  }

  lemma NoHoleOffRecord(levels: map<Cell, Level>, pol: Policy, tr: seq<Book>)
    requires Agree(levels, pol, tr)
    ensures forall c: Cell | c !in levels :: Gap(pol, tr, c) == 0
    ensures forall c: Cell | c in levels :: levels[c].target - levels[c].expected == Gap(pol, tr, c)
  {
    forall c: Cell
      ensures LevelOf(levels, c).target - LevelOf(levels, c).expected == Gap(pol, tr, c)
    {
      assert LevelOf(levels, c) == Counters(pol, tr, c);
    }
  }
}
