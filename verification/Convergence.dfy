/** Convergence: with fixed targets and a gateway that grants what it is asked, the book of the order
    manager reaches its targets and stays there, even though a call that restarts counts levels twice
    and may cancel orders that were well placed. */
module Convergence {
  import opened Wrappers
  import opened Orders
  import opened Totals
  import opened Reconcile
  import opened Oms
  import opened Progress

  /** The report that answers an order's request as asked. A request for an order the gateway said is
      gone is answered by another cancel. */
  function Granted(o: Order): Report {
    if o.Live() && o.pending.kind != CancelOrder then
      Report(o.id, o.side, o.pending.price, o.pending.quantity, o.traded, 0, Working, false, o.pending.version, o.pending.version)
    else
      Report(o.id, o.side, o.pending.price, 0, o.traded, 0, Canceled, false, o.pending.version, o.pending.version)
  }

  function Answered(b: Book, id: OrderId): Book
    requires id in b
  {
    AfterReport(b, Granted(b[id]))
  }

  ghost function Flying(b: Book): set<OrderId> { set id | id in b && b[id].InFlight() }

  /** A good book: sound, versioned and settled. */
  ghost predicate Good(pol: Policy, b: Book, maxId: nat) {
    Sound(b) && Versioned(b) && Below(b, maxId) && Settled(pol, b)
  }

  /** An answer takes one order out of flight and changes no level. */
  lemma AnswerKeepsLevels(b: Book, id: OrderId)
    requires Sound(b) && Versioned(b) && id in Flying(b)
    ensures Sound(Answered(b, id)) && Versioned(Answered(b, id)) && Answered(b, id).Keys <= b.Keys
    ensures Flying(Answered(b, id)) == Flying(b) - {id}
    ensures forall c: Cell :: Rest(Answered(b, id), c) == Rest(b, c)
  {
    var o := b[id];
    forall c: Cell
      ensures Rest(Answered(b, id), c) == Rest(b, c)
    {
      if o.Live() && o.pending.kind != CancelOrder {
        SumUpdate(b, id, Confirmed(o, Granted(o)), RestingAt(c));
      } else {
        SumRemove(b, id, RestingAt(c));
      }
    }
  }

  /** All requests answered one after the other, in any order. */
  ghost predicate AnswerRound(bs: seq<Book>, ids: seq<OrderId>) {
    && |bs| == |ids| + 1
    && (forall i | 0 <= i < |ids| :: ids[i] in Flying(bs[i]) && bs[i + 1] == Answered(bs[i], ids[i]))
    && Flying(bs[|ids|]) == {}
  }

  lemma {:induction false} RoundKeepsLevels(bs: seq<Book>, ids: seq<OrderId>, i: nat)
    requires AnswerRound(bs, ids) && i < |bs| && Sound(bs[0]) && Versioned(bs[0])
    ensures Sound(bs[i]) && Versioned(bs[i]) && bs[i].Keys <= bs[0].Keys
    ensures forall c: Cell :: Rest(bs[i], c) == Rest(bs[0], c)
  {
    if i > 0 {
      RoundKeepsLevels(bs, ids, i - 1);
      AnswerKeepsLevels(bs[i - 1], ids[i - 1]);
    }
  }

  lemma RoundEndsGood(pol: Policy, bs: seq<Book>, ids: seq<OrderId>, maxId: nat)
    requires AnswerRound(bs, ids) && Good(pol, bs[0], maxId)
    ensures Good(pol, bs[|ids|], maxId) && Idle(bs[|ids|])
    ensures forall c: Cell :: Rest(bs[|ids|], c) == Rest(bs[0], c)
  {
    RoundKeepsLevels(bs, ids, |ids|);
    forall id | id in bs[|ids|]
      ensures !bs[|ids|][id].InFlight()
    {
      assert id !in Flying(bs[|ids|]);
    }
  }

  /** The first call: from an idle book, however far from its targets, it leaves a good one. */
  lemma FirstCallIsGood(pol: Policy, b: Book, maxId: nat, tr: seq<Book>, acts: seq<OrderId>, plan: seq<Cell>, b': Book)
    requires Call(pol, b, maxId, tr, acts, plan, b')
    requires Sound(b) && Versioned(b) && Below(b, maxId) && Idle(b) && LongOnly(pol)
    ensures Good(pol, b', maxId + |plan|)
  {
    forall c: Cell { IdleFliesNowhere(b, c); }
    QuietIsSettled(pol, b, tr, acts);
    PassesSound(pol, tr, acts);
    CreatesSound(pol, tr, maxId, plan);
    CreatesKeepSettled(pol, tr, maxId, plan);
  }

  /** Every later call: a good book stays good, only creates are sent, and no order is touched. */
  lemma LaterCallIsGood(pol: Policy, b: Book, maxId: nat, tr: seq<Book>, acts: seq<OrderId>, plan: seq<Cell>, b': Book)
    requires Call(pol, b, maxId, tr, acts, plan, b') && Good(pol, b, maxId)
    ensures acts == [] && tr == [b] && Good(pol, b', maxId + |plan|)
    ensures forall id | id in b :: id in b' && b'[id] == b[id]
  {
    SettledNeedsNoActs(pol, b, tr, acts);
    CreatesSound(pol, tr, maxId, plan);
    CreatesKeepSettled(pol, tr, maxId, plan);
    CreatesAdd(pol, tr, maxId, plan);
  }

  /** On a good book with nothing in flight, a call matches every level. */
  lemma IdleCallMatches(pol: Policy, b: Book, maxId: nat, tr: seq<Book>, acts: seq<OrderId>, plan: seq<Cell>, b': Book)
    requires Call(pol, b, maxId, tr, acts, plan, b') && Good(pol, b, maxId) && Idle(b) && LongOnly(pol)
    ensures forall c: Cell :: Matched(pol, b', c)
  {
    SettledNeedsNoActs(pol, b, tr, acts);
    FirstPassCountsOnce(b);
    forall c: Cell
      ensures Matched(pol, b', c)
    {
      CreatesFill(pol, tr, maxId, plan, c);
      RestBounds(b, c);
      assert c in plan <==> Wanted(pol, tr, c);
    }
  }

  /** One call of process and everything it needs to be told about. */
  datatype Round = Round(tr: seq<Book>, acts: seq<OrderId>, plan: seq<Cell>)

  ghost predicate Calls(pol: Policy, b: Book, maxId: nat, r: Round, b': Book) {
    Call(pol, b, maxId, r.tr, r.acts, r.plan, b')
  }

  ghost predicate AllMatched(pol: Policy, b: Book) { forall c: Cell :: Matched(pol, b, c) }

  lemma SecondRoundMatches(pol: Policy, b: Book, maxId: nat, r: Round, bs: seq<Book>, ids: seq<OrderId>)
    requires Good(pol, b, maxId) && Idle(b) && LongOnly(pol)
    requires AnswerRound(bs, ids) && Calls(pol, b, maxId, r, bs[0])
    ensures r.acts == []
    ensures AllMatched(pol, bs[|ids|]) && Good(pol, bs[|ids|], maxId + |r.plan|) && Idle(bs[|ids|])
  {
    LaterCallIsGood(pol, b, maxId, r.tr, r.acts, r.plan, bs[0]);
    IdleCallMatches(pol, b, maxId, r.tr, r.acts, r.plan, bs[0]);
    RoundEndsGood(pol, bs, ids, maxId + |r.plan|);
    forall c: Cell
      ensures Matched(pol, bs[|ids|], c)
    {
      assert Matched(pol, bs[0], c);
    }
  }

  /** A book at rest, however far from its targets. */
  predicate AtRest(b: Book, maxId: nat) { Sound(b) && Versioned(b) && Below(b, maxId) && Idle(b) }

  lemma FirstRoundIsGood(pol: Policy, b: Book, maxId: nat, r: Round, bs: seq<Book>, ids: seq<OrderId>)
    requires AtRest(b, maxId) && LongOnly(pol)
    requires AnswerRound(bs, ids) && Calls(pol, b, maxId, r, bs[0])
    ensures Good(pol, bs[|ids|], maxId + |r.plan|) && Idle(bs[|ids|])
  {
    FirstCallIsGood(pol, b, maxId, r.tr, r.acts, r.plan, bs[0]);
    RoundEndsGood(pol, bs, ids, maxId + |r.plan|);
  }

  lemma ThirdCallIsSilent(pol: Policy, b: Book, maxId: nat, r: Round, b': Book)
    requires Good(pol, b, maxId) && Idle(b) && LongOnly(pol) && AllMatched(pol, b) && Calls(pol, b, maxId, r, b')
    ensures r.acts == [] && r.plan == [] && b' == b
  {
    SilentIffMatched(pol, b, maxId, r.tr, r.acts, r.plan, b');
  }

  /** Convergence in two rounds: from a book at rest, a call, its answers, a second call and its answers
      leave every level matched, and a third call sends nothing and changes nothing. The calls have the
      targets in common, whatever levels each finds on record. */
  lemma TwoRoundsConverge(pol: Policy, b: Book, maxId: nat, r1: Round, bs1: seq<Book>, ids1: seq<OrderId>,
                          pol2: Policy, r2: Round, bs2: seq<Book>, ids2: seq<OrderId>, pol3: Policy, r3: Round, b3: Book)
    requires AtRest(b, maxId) && LongOnly(pol) && SameTargets(pol, pol2) && SameTargets(pol, pol3)
    requires AnswerRound(bs1, ids1) && Calls(pol, b, maxId, r1, bs1[0])
    requires AnswerRound(bs2, ids2) && Calls(pol2, bs1[|ids1|], maxId + |r1.plan|, r2, bs2[0])
    requires Calls(pol3, bs2[|ids2|], maxId + |r1.plan| + |r2.plan|, r3, b3)
    ensures AllMatched(pol, bs2[|ids2|])
    ensures r2.acts == [] && r3.acts == [] && r3.plan == [] && b3 == bs2[|ids2|]
  {
    FirstRoundIsGood(pol, b, maxId, r1, bs1, ids1);
    CallUnder(pol, pol2, bs1[|ids1|], maxId + |r1.plan|, r2, bs2[0]);
    SecondRoundMatches(pol, bs1[|ids1|], maxId + |r1.plan|, r2, bs2, ids2);
    CallUnder(pol, pol3, bs2[|ids2|], maxId + |r1.plan| + |r2.plan|, r3, b3);
    ThirdCallIsSilent(pol, bs2[|ids2|], maxId + |r1.plan| + |r2.plan|, r3, b3);
  }

  lemma CallUnder(pol: Policy, pol': Policy, b: Book, maxId: nat, r: Round, b': Book)
    requires SameTargets(pol, pol') && Calls(pol', b, maxId, r, b')
    ensures Calls(pol, b, maxId, r, b')
  {
    CallDependsOnTargets(pol', pol, b, maxId, r.tr, r.acts, r.plan, b');
  }

  // ----- what is left to do -----------------------------------------------------------------------

  ghost predicate OpenCell(pol: Policy, b: Book, c: Cell) {
    c in pol.targets && Rest(b, c) < pol.Target(c) && !pol.TooSmall(pol.Target(c) - Rest(b, c))
  }

  ghost function OpenCells(pol: Policy, b: Book): set<Cell> { set c | c in pol.targets && OpenCell(pol, b, c) }

  /** What is left to do: the requests in flight and the levels still worth an order. */
  ghost function Work(pol: Policy, b: Book): nat { |Flying(b)| + |OpenCells(pol, b)| }

  lemma CreatesCloseCells(pol: Policy, b: Book, maxId: nat, plan: seq<Cell>)
    requires Below(b, maxId) && Distinct(plan)
    requires forall c: Cell | c in plan :: OpenCell(pol, b, c)
    ensures OpenCells(pol, WithCreates(pol, [b], maxId, plan)) == set c | c in OpenCells(pol, b) && c !in plan
  {
    FirstPassCountsOnce(b);
    var after := WithCreates(pol, [b], maxId, plan);
    forall c: Cell
      ensures OpenCell(pol, after, c) <==> OpenCell(pol, b, c) && c !in plan
    {
      CreatesFill(pol, [b], maxId, plan, c);
    }
  }

  lemma OneMoreFlies(b: Book, id: OrderId, o: Order)
    requires id !in b && o.InFlight()
    ensures |Flying(b[id := o])| == |Flying(b)| + 1
  {
    assert Flying(b[id := o]) == Flying(b) + {id};
  }

  lemma {:induction false} CreatesFly(pol: Policy, b: Book, maxId: nat, plan: seq<Cell>)
    requires Below(b, maxId)
    ensures |Flying(WithCreates(pol, [b], maxId, plan))| == |Flying(b)| + |plan|
  {
    if plan != [] {
      var n := |plan|;
      var front, d := plan[..n - 1], plan[n - 1];
      CreatesFly(pol, b, maxId, front);
      CreatesAdd(pol, [b], maxId, front);
      OneMoreFlies(WithCreates(pol, [b], maxId, front), maxId + n, Created(maxId + n, d, Gap(pol, [b], d)));
    }
  }

  lemma {:induction false} DistinctCount<T>(s: seq<T>, within: set<T>)
    requires Distinct(s) && forall x | x in s :: x in within
    ensures |set x | x in within && x !in s| == |within| - |s|
  {
    if s == [] {
      assert (set x | x in within && x !in s) == within;
    } else {
      var n := |s| - 1;
      var front, last := s[..n], s[n];
      assert s == front + [last] && last !in front;
      DistinctCount(front, within);
      assert (set x | x in within && x !in s) == (set x | x in within && x !in front) - {last};
    }
  }

  /** Creates turn open levels into requests in flight, one for one. */
  lemma CreatesKeepWork(pol: Policy, b: Book, maxId: nat, plan: seq<Cell>)
    requires Below(b, maxId) && Distinct(plan)
    requires forall c: Cell | c in plan :: OpenCell(pol, b, c)
    ensures Work(pol, WithCreates(pol, [b], maxId, plan)) == Work(pol, b)
  {
    CreatesCloseCells(pol, b, maxId, plan);
    CreatesFly(pol, b, maxId, plan);
    DistinctCount(plan, OpenCells(pol, b));
  }

  lemma PlannedIsOpen(pol: Policy, b: Book, plan: seq<Cell>)
    requires Sound(b) && IsPlan(pol, [b], plan)
    ensures forall c: Cell | c in plan :: OpenCell(pol, b, c)
  {
    FirstPassCountsOnce(b);
    forall c: Cell | c in plan
      ensures OpenCell(pol, b, c)
    {
      assert Wanted(pol, [b], c);
      RestBounds(b, c);
    }
  }

  lemma NoWorkLeft(pol: Policy, b: Book)
    requires Idle(b) && forall c: Cell :: Matched(pol, b, c)
    ensures Work(pol, b) == 0
  {
    assert forall c: Cell :: Matched(pol, b, c) ==> !OpenCell(pol, b, c);
    assert OpenCells(pol, b) == {};
    assert Flying(b) == {};
  }

  lemma NothingFlewEither(b: Book, b': Book)
    requires Idle(b') && forall id | id in b :: id in b' && b'[id] == b[id]
    ensures Idle(b)
  {
  }
}
