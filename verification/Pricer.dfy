/** The pricer: node quotes computed along paths, and why one pass in path order is enough. */
module Pricer {
  import opened Doubles
  import opened PricingGraph
  import opened PricingNodes

  /** `exec` says that the node's quotes are sent to be executed. */
  datatype Node = Node(refs: seq<Ref>, pipeline: seq<Op>, exec: bool)

  type Nodes = map<NodeId, Node>

  type MarketId = nat

  // ----- one node -----------------------------------------------------------------------------

  function Spread(q: Quotes, spread: Double): Quotes {
    if q.buy.Empty? || q.sell.Empty? || spread.Empty? then NOTHING else
    var mid := Mul(Finite(0.5), Add(q.buy, q.sell));
    Quotes(Sub(mid, Mul(Finite(0.5), spread)), Add(mid, Mul(Finite(0.5), spread)))
  }

  /** A spread keeps the middle of the quotes and makes them as wide as it is; without both prices there
      is no middle, and without a spread no price. */
  lemma SpreadMeans(q: Quotes, spread: Double)
    ensures q.buy.Empty? || q.sell.Empty? || spread.Empty? ==> Spread(q, spread) == NOTHING
    ensures q.buy.Finite? && q.sell.Finite? && spread.Finite? ==>
              var r := Spread(q, spread);
              && r.buy.Finite? && r.sell.Finite?
              && r.buy.value + r.sell.value == q.buy.value + q.sell.value
              && r.sell.value - r.buy.value == spread.value
  {
    if q.buy.Finite? && q.sell.Finite? && spread.Finite? {
      assert Times(0.5, q.buy.value + q.sell.value) == (q.buy.value + q.sell.value) / 2.0;
      assert Times(0.5, spread.value) == spread.value / 2.0;
    }
  }

  function Stage(pow: Power, op: Op, refs: seq<Ref>, values: Values, q: Quotes): Quotes
    requires Known(refs, values)
  {
    match op
    case Sum => SumOf(refs, values)
    case Product => ProductOf(pow, refs, values)
    case QuoteSpread(spread) => Spread(q, spread)
  }

  function Piped(pow: Power, refs: seq<Ref>, pipeline: seq<Op>, values: Values): Quotes
    requires Known(refs, values)
  {
    if pipeline == [] then NOTHING else
    var n := |pipeline| - 1;
    Stage(pow, pipeline[n], refs, values, Piped(pow, refs, pipeline[..n], values))
  }

  function Computed(pow: Power, node: Node, values: Values): Quotes
    requires Known(node.refs, values)
  {
    Piped(pow, node.refs, node.pipeline, values)
  }

  predicate AgreeOn(refs: seq<Ref>, values: Values, values': Values)
    requires Known(refs, values) && Known(refs, values')
  {
    forall r | r in refs :: values[r.node] == values'[r.node]
  }

  lemma {:induction false} SumReadsRefs(refs: seq<Ref>, values: Values, values': Values)
    requires Known(refs, values) && Known(refs, values') && AgreeOn(refs, values, values')
    ensures SumOf(refs, values) == SumOf(refs, values')
  {
    if refs != [] {
      SumReadsRefs(refs[..|refs| - 1], values, values');
      assert refs[|refs| - 1] in refs;
    }
  }

  lemma {:induction false} ProductReadsRefs(pow: Power, refs: seq<Ref>, values: Values, values': Values)
    requires Known(refs, values) && Known(refs, values') && AgreeOn(refs, values, values')
    ensures ProductOf(pow, refs, values) == ProductOf(pow, refs, values')
  {
    if refs != [] {
      ProductReadsRefs(pow, refs[..|refs| - 1], values, values');
      assert refs[|refs| - 1] in refs;
    }
  }

  /** A node reads nothing but the quotes of its references. */
  lemma {:induction false} ReadsOnlyRefs(pow: Power, refs: seq<Ref>, pipeline: seq<Op>, values: Values, values': Values)
    requires Known(refs, values) && Known(refs, values') && AgreeOn(refs, values, values')
    ensures Piped(pow, refs, pipeline, values) == Piped(pow, refs, pipeline, values')
  {
    if pipeline != [] {
      ReadsOnlyRefs(pow, refs, pipeline[..|pipeline| - 1], values, values');
      SumReadsRefs(refs, values, values');
      ProductReadsRefs(pow, refs, values, values');
    }
  }

  // ----- one pass -----------------------------------------------------------------------------

  /** Every reference leads to a node. */
  predicate Closed(nodes: Nodes, values: Values) {
    values.Keys == nodes.Keys && forall n | n in nodes :: Known(nodes[n].refs, values)
  }

  predicate Settled(pow: Power, nodes: Nodes, values: Values, n: NodeId)
    requires Closed(nodes, values) && n in nodes
  {
    values[n] == Computed(pow, nodes[n], values)
  }

  predicate Refers(nodes: Nodes, n: NodeId, m: NodeId)
    requires n in nodes
  {
    exists r | r in nodes[n].refs :: r.node == m
  }

  /** Recompute the listed nodes one after the other, each from the latest quotes. */
  function Pass(pow: Power, nodes: Nodes, values: Values, todo: seq<NodeId>): (after: Values)
    requires Closed(nodes, values) && forall n | n in todo :: n in nodes
    ensures Closed(nodes, after)
  {
    if todo == [] then values else
    var k := |todo| - 1;
    var before := Pass(pow, nodes, values, todo[..k]);
    assert todo[k] in todo;
    before[todo[k] := Computed(pow, nodes[todo[k]], before)]
  }

  /** No node of the list refers to itself or to a later one. */
  predicate Ordered(nodes: Nodes, todo: seq<NodeId>)
    requires forall n | n in todo :: n in nodes
  {
    forall i, j | 0 <= i <= j < |todo| :: !Refers(nodes, todo[i], todo[j])
  }

  lemma StaysSettled(pow: Power, nodes: Nodes, values: Values, n: NodeId, m: NodeId, q: Quotes)
    requires Closed(nodes, values) && n in nodes && m in nodes && n != m && !Refers(nodes, n, m)
    requires Settled(pow, nodes, values, n)
    ensures Settled(pow, nodes, values[m := q], n)
  {
    ReadsOnlyRefs(pow, nodes[n].refs, nodes[n].pipeline, values, values[m := q]);
  }

  lemma BecomesSettled(pow: Power, nodes: Nodes, values: Values, n: NodeId)
    requires Closed(nodes, values) && n in nodes && !Refers(nodes, n, n)
    ensures Settled(pow, nodes, values[n := Computed(pow, nodes[n], values)], n)
  {
    ReadsOnlyRefs(pow, nodes[n].refs, nodes[n].pipeline, values, values[n := Computed(pow, nodes[n], values)]);
  }

  lemma OneMoreSettled(pow: Power, nodes: Nodes, before: Values, early: seq<NodeId>, last: NodeId)
    requires Closed(nodes, before) && last in nodes && last !in early && !Refers(nodes, last, last)
    requires forall n | n in early :: n in nodes && !Refers(nodes, n, last) && Settled(pow, nodes, before, n)
    ensures forall n | n in early + [last] :: n in nodes && Settled(pow, nodes, before[last := Computed(pow, nodes[last], before)], n)
  {
    var q := Computed(pow, nodes[last], before);
    BecomesSettled(pow, nodes, before, last);
    forall n | n in early
      ensures Settled(pow, nodes, before[last := q], n)
    {
      StaysSettled(pow, nodes, before, n, last, q);
    }
  }

  lemma LastIsUnread(nodes: Nodes, todo: seq<NodeId>)
    requires todo != [] && (forall n | n in todo :: n in nodes) && Distinct(todo) && Ordered(nodes, todo)
    ensures var k := |todo| - 1;
            && todo[k] in nodes && todo[k] !in todo[..k] && !Refers(nodes, todo[k], todo[k]) && todo == todo[..k] + [todo[k]]
            && forall n | n in todo[..k] :: n in nodes && !Refers(nodes, n, todo[k])
  {
    assert todo[|todo| - 1] in todo;
  }

  lemma {:induction false} PassSettles(pow: Power, nodes: Nodes, values: Values, todo: seq<NodeId>)
    requires Closed(nodes, values) && (forall n | n in todo :: n in nodes) && Distinct(todo) && Ordered(nodes, todo)
    ensures forall n | n in todo :: Settled(pow, nodes, Pass(pow, nodes, values, todo), n)
    ensures forall n | n in nodes && n !in todo :: Pass(pow, nodes, values, todo)[n] == values[n]
  {
    if todo != [] {
      var k := |todo| - 1;
      PassSettles(pow, nodes, values, todo[..k]);
      LastIsUnread(nodes, todo);
      OneMoreSettled(pow, nodes, Pass(pow, nodes, values, todo[..k]), todo[..k], todo[k]);
    }
  }

  /** The edges made of the references: from each node referred to, to the node that refers. */
  ghost predicate RefEdges(nodes: Nodes, edges: seq<Edge>) {
    forall a: NodeId, b: NodeId :: Edge(a, b) in edges <==> b in nodes && Refers(nodes, b, a)
  }

  /** What is listed exists, and behind the start no node refers to itself or to a later one. */
  lemma PathIsOrdered(nodes: Nodes, edges: seq<Edge>, start: NodeId, path: seq<NodeId>)
    requires RefEdges(nodes, edges) && Topological(edges, start, path) && start in nodes
    ensures forall n | n in path :: n in nodes
    ensures forall i, j | 0 <= i <= j < |path| :: !Refers(nodes, path[i], path[j])
    ensures (forall n | n in Behind(path) :: n in nodes) && Distinct(Behind(path)) && Ordered(nodes, Behind(path))
    ensures forall n :: n in Behind(path) <==> n in path && n != start
  {
    forall n | n in path
      ensures n in nodes
    {
      var w :| Walk(edges, start, w, n);
      if w != [] {
        var e := edges[w[|w| - 1]];
        assert Edge(e.src, e.dst) in edges;
      }
    }
    forall i, j | 0 <= i <= j < |path|
      ensures !Refers(nodes, path[i], path[j])
    {
      assert path[i] in path;
      assert Edge(path[j], path[i]) in edges <==> Refers(nodes, path[i], path[j]);
    }
    assert forall n | n in Behind(path) :: n in path;
  }

  /** All of a path but its start. */
  function Behind(path: seq<NodeId>): seq<NodeId> { if path == [] then [] else path[1..] }

  /** The values after the start has changed and its path has been recomputed. */
  function Updated(pow: Power, nodes: Nodes, values: Values, start: NodeId, q: Quotes, path: seq<NodeId>): (after: Values)
    requires Closed(nodes, values) && start in nodes && forall n | n in path :: n in nodes
    ensures Closed(nodes, after)
  {
    assert forall n | n in Behind(path) :: n in path;
    Pass(pow, nodes, values[start := q], Behind(path))
  }

  /** One pass settles the graph: every node behind the start has the value its references give it, no
      other node has changed, and a second pass would change nothing. */
  lemma {:induction false} OnePassIsEnough(pow: Power, nodes: Nodes, values: Values, edges: seq<Edge>, start: NodeId, q: Quotes, path: seq<NodeId>)
    requires Closed(nodes, values) && RefEdges(nodes, edges) && Topological(edges, start, path) && start in nodes
    ensures forall n | n in path :: n in nodes
    ensures forall n | Reachable(edges, start, n) && n != start ::
              n in nodes && Settled(pow, nodes, Updated(pow, nodes, values, start, q, path), n)
    ensures Updated(pow, nodes, values, start, q, path)[start] == q
    ensures forall n | n in nodes && !Reachable(edges, start, n) :: Updated(pow, nodes, values, start, q, path)[n] == values[n]
    ensures Pass(pow, nodes, Updated(pow, nodes, values, start, q, path), Behind(path)) == Updated(pow, nodes, values, start, q, path)
  {
    PathIsOrdered(nodes, edges, start, path);
    PassSettles(pow, nodes, values[start := q], Behind(path));
    PassLeavesSettled(pow, nodes, Updated(pow, nodes, values, start, q, path), Behind(path));
  }

  lemma {:induction false} PassLeavesSettled(pow: Power, nodes: Nodes, values: Values, todo: seq<NodeId>)
    requires Closed(nodes, values) && forall n | n in todo :: n in nodes && Settled(pow, nodes, values, n)
    ensures Pass(pow, nodes, values, todo) == values
  {
    if todo != [] {
      PassLeavesSettled(pow, nodes, values, todo[..|todo| - 1]);
      assert todo[|todo| - 1] in todo;
    }
  }

  /** The settled values are the only ones: whatever agrees off the path and is settled on it is equal,
      so any two orders of the same nodes give the same values. */
  lemma SettledIsUnique(pow: Power, nodes: Nodes, edges: seq<Edge>, start: NodeId, path: seq<NodeId>, a: Values, b: Values)
    requires RefEdges(nodes, edges) && Topological(edges, start, path) && start in nodes
    requires Closed(nodes, a) && Closed(nodes, b)
    requires forall n | n in nodes && (n == start || n !in path) :: a[n] == b[n]
    requires forall n | n in path && n != start :: n in nodes && Settled(pow, nodes, a, n) && Settled(pow, nodes, b, n)
    ensures a == b
  {
    AllAgree(pow, nodes, edges, start, path, a, b);
    SameValues(nodes, path, a, b);
  }

  lemma SameValues(nodes: Nodes, path: seq<NodeId>, a: Values, b: Values)
    requires a.Keys == nodes.Keys && b.Keys == nodes.Keys
    requires forall n | n in nodes && n !in path :: a[n] == b[n]
    requires forall i | 0 <= i < |path| :: AgreeAt(path, a, b, i)
    ensures a == b
  {
    forall n | n in nodes && n in path
      ensures a[n] == b[n]
    {
      var i :| 0 <= i < |path| && path[i] == n;
      assert AgreeAt(path, a, b, i);
    }
  }

  /** What a node of a path refers to is off the path or comes earlier. */
  lemma RefIsEarlier(nodes: Nodes, edges: seq<Edge>, start: NodeId, path: seq<NodeId>, k: nat, m: NodeId)
    requires RefEdges(nodes, edges) && Topological(edges, start, path) && start in nodes && k < |path|
    requires path[k] in nodes && Refers(nodes, path[k], m) && m in path
    ensures exists i :: 0 <= i < k && path[i] == m
  {
    var i :| 0 <= i < |path| && path[i] == m;
    assert Edge(path[i], path[k]) in edges;
  }

  lemma NodeAgrees(pow: Power, nodes: Nodes, a: Values, b: Values, n: NodeId)
    requires Closed(nodes, a) && Closed(nodes, b) && n in nodes && Settled(pow, nodes, a, n) && Settled(pow, nodes, b, n)
    requires forall m | m in nodes && Refers(nodes, n, m) :: a[m] == b[m]
    ensures a[n] == b[n]
  {
    forall r | r in nodes[n].refs
      ensures a[r.node] == b[r.node]
    {
      assert Refers(nodes, n, r.node);
    }
    ReadsOnlyRefs(pow, nodes[n].refs, nodes[n].pipeline, a, b);
  }

  /** Two valuations that agree off the path and are both settled on it. */
  ghost predicate Rivals(pow: Power, nodes: Nodes, edges: seq<Edge>, start: NodeId, path: seq<NodeId>, a: Values, b: Values) {
    && RefEdges(nodes, edges) && Topological(edges, start, path) && start in nodes
    && Closed(nodes, a) && Closed(nodes, b)
    && (forall n | n in nodes && (n == start || n !in path) :: a[n] == b[n])
    && (forall n | n in path && n != start :: n in nodes && Settled(pow, nodes, a, n) && Settled(pow, nodes, b, n))
  }

  predicate AgreeAt(path: seq<NodeId>, a: Values, b: Values, i: nat)
    requires i < |path|
  {
    path[i] in a && path[i] in b && a[path[i]] == b[path[i]]
  }

  lemma NextAgrees(pow: Power, nodes: Nodes, edges: seq<Edge>, start: NodeId, path: seq<NodeId>, a: Values, b: Values, k: nat)
    requires Rivals(pow, nodes, edges, start, path, a, b) && k < |path| && forall i | 0 <= i < k :: AgreeAt(path, a, b, i)
    ensures AgreeAt(path, a, b, k)
  {
    var n := path[k];
    assert n in path;
    if n != start {
      forall m | m in nodes && Refers(nodes, n, m)
        ensures a[m] == b[m]
      {
        if m in path {
          RefIsEarlier(nodes, edges, start, path, k, m);
          var i :| 0 <= i < k && path[i] == m;
          assert AgreeAt(path, a, b, i);
        }
      }
      NodeAgrees(pow, nodes, a, b, n);
    }
  }

  lemma {:induction false} StrongInduction(ms: seq<bool>, k: nat)
    requires k <= |ms| && forall j | 0 <= j < |ms| :: (forall i | 0 <= i < j :: ms[i]) ==> ms[j]
    ensures forall i | 0 <= i < k :: ms[i]
  {
    if k > 0 {
      StrongInduction(ms, k - 1);
    }
  }

  lemma AllAgree(pow: Power, nodes: Nodes, edges: seq<Edge>, start: NodeId, path: seq<NodeId>, a: Values, b: Values)
    requires Rivals(pow, nodes, edges, start, path, a, b)
    ensures forall i | 0 <= i < |path| :: AgreeAt(path, a, b, i)
  {
    var ms := seq(|path|, i requires 0 <= i < |path| => AgreeAt(path, a, b, i));
    forall k | 0 <= k < |ms|
      ensures (forall i | 0 <= i < k :: ms[i]) ==> ms[k]
    {
      if forall i | 0 <= i < k :: ms[i] {
        forall i | 0 <= i < k
          ensures AgreeAt(path, a, b, i)
        {
          assert ms[i];
        }
        NextAgrees(pow, nodes, edges, start, path, a, b, k);
      }
    }
    StrongInduction(ms, |ms|);
    forall i | 0 <= i < |path|
      ensures AgreeAt(path, a, b, i)
    {
      assert ms[i];
    }
  }

  // ----- over a run ---------------------------------------------------------------------------

  datatype Update = Update(start: NodeId, quotes: Quotes, path: seq<NodeId>)

  /** Market updates, each for an input node that has a path. */
  ghost predicate Feasible(nodes: Nodes, edges: seq<Edge>, inputs: set<NodeId>, updates: seq<Update>) {
    forall u | u in updates :: u.start in inputs && u.start in nodes && Topological(edges, u.start, u.path)
  }

  /** Every node but the inputs has the value its references give it. */
  ghost predicate AllSettled(pow: Power, nodes: Nodes, inputs: set<NodeId>, values: Values)
    requires Closed(nodes, values)
  {
    forall n | n in nodes && n !in inputs :: Settled(pow, nodes, values, n)
  }

  lemma PathsExist(nodes: Nodes, edges: seq<Edge>, inputs: set<NodeId>, updates: seq<Update>)
    requires RefEdges(nodes, edges) && Feasible(nodes, edges, inputs, updates)
    ensures forall u | u in updates :: forall n | n in u.path :: n in nodes
  {
    forall u | u in updates
      ensures forall n | n in u.path :: n in nodes
    {
      PathIsOrdered(nodes, edges, u.start, u.path);
    }
  }

  ghost predicate Runnable(nodes: Nodes, updates: seq<Update>) {
    forall u | u in updates :: u.start in nodes && forall n | n in u.path :: n in nodes
  }

  ghost function AfterUpdates(pow: Power, nodes: Nodes, values: Values, updates: seq<Update>): (after: Values)
    requires Closed(nodes, values) && Runnable(nodes, updates)
    ensures Closed(nodes, after)
  {
    if updates == [] then values else
    var k := |updates| - 1;
    var u := updates[k];
    assert u in updates;
    Updated(pow, nodes, AfterUpdates(pow, nodes, values, updates[..k]), u.start, u.quotes, u.path)
  }

  lemma UpdateKeepsSettled(pow: Power, nodes: Nodes, values: Values, edges: seq<Edge>, inputs: set<NodeId>, u: Update)
    requires Closed(nodes, values) && RefEdges(nodes, edges) && AllSettled(pow, nodes, inputs, values)
    requires u.start in inputs && u.start in nodes && Topological(edges, u.start, u.path)
    ensures forall n | n in u.path :: n in nodes
    ensures AllSettled(pow, nodes, inputs, Updated(pow, nodes, values, u.start, u.quotes, u.path))
  {
    OnePassIsEnough(pow, nodes, values, edges, u.start, u.quotes, u.path);
    var after := Updated(pow, nodes, values, u.start, u.quotes, u.path);
    forall n | n in nodes && n !in inputs && !Reachable(edges, u.start, n)
      ensures Settled(pow, nodes, after, n)
    {
      forall r | r in nodes[n].refs
        ensures after[r.node] == values[r.node]
      {
        assert Refers(nodes, n, r.node);
        if Reachable(edges, u.start, r.node) {
          ReachOne(edges, u.start, r.node, n);
        }
      }
      ReadsOnlyRefs(pow, nodes[n].refs, nodes[n].pipeline, values, after);
    }
  }

  lemma ReachOne(edges: seq<Edge>, a: NodeId, b: NodeId, c: NodeId)
    requires Reachable(edges, a, b) && Edge(b, c) in edges
    ensures Reachable(edges, a, c)
  {
    var w: seq<nat> :| Walk(edges, a, w, b);
    var e: nat :| e < |edges| && edges[e] == Edge(b, c);
    assert (w + [e])[..|w|] == w;
    assert Walk(edges, a, w + [e], c);
  }

  /** Over every run of market updates, all nodes but the inputs have the value their references give. */
  lemma {:induction false} RunStaysSettled(pow: Power, nodes: Nodes, values: Values, edges: seq<Edge>, inputs: set<NodeId>, updates: seq<Update>)
    requires Closed(nodes, values) && RefEdges(nodes, edges) && AllSettled(pow, nodes, inputs, values)
    requires Feasible(nodes, edges, inputs, updates)
    ensures Runnable(nodes, updates)
    ensures AllSettled(pow, nodes, inputs, AfterUpdates(pow, nodes, values, updates))
  {
    PathsExist(nodes, edges, inputs, updates);
    if updates != [] {
      var k := |updates| - 1;
      RunStaysSettled(pow, nodes, values, edges, inputs, updates[..k]);
      assert updates[k] in updates;
      UpdateKeepsSettled(pow, nodes, AfterUpdates(pow, nodes, values, updates[..k]), edges, inputs, updates[k]);
    }
  }

  // ----- uncrossed ----------------------------------------------------------------------------

  /** What a pipeline needs to keep bid below ask: sums and products first, weights set, non-negative
      spreads, and positive prices in products. */
  ghost predicate Sane(pow: Power, node: Node, values: Values)
    requires Known(node.refs, values)
  {
    && node.pipeline != [] && !node.pipeline[0].QuoteSpread?
    && (forall r | r in node.refs :: r.weight.Finite?)
    && forall op | op in node.pipeline ::
         match op
         case Sum => true
         case QuoteSpread(spread) => spread.Finite? && spread.value >= 0.0
         case Product => GoodPowers(pow, node.refs) && forall r | r in node.refs && !Ignored(r.weight) :: Positive(values[r.node])
  }

  lemma {:induction false} PipelineKeepsUncrossed(pow: Power, node: Node, values: Values, k: nat)
    requires Known(node.refs, values) && Sane(pow, node, values) && 0 < k <= |node.pipeline|
    requires forall r | r in node.refs :: Uncrossed(values[r.node])
    ensures Uncrossed(Piped(pow, node.refs, node.pipeline[..k], values))
  {
    var op := node.pipeline[k - 1];
    assert op in node.pipeline && node.pipeline[..k][..k - 1] == node.pipeline[..k - 1];
    match op
    case Sum => SumIsUncrossed(node.refs, values);
    case Product => ProductIsUncrossed(pow, node.refs, values);
    case QuoteSpread(_) => PipelineKeepsUncrossed(pow, node, values, k - 1);
  }

  /** What a node must look like for bid to stay below ask. */
  ghost predicate Shaped(pow: Power, node: Node) {
    && node.pipeline != [] && !node.pipeline[0].QuoteSpread?
    && (forall r | r in node.refs :: r.weight.Finite?)
    && (forall op | op in node.pipeline && op.QuoteSpread? :: op.spread.Finite? && op.spread.value >= 0.0)
    && (Op.Product in node.pipeline ==> GoodPowers(pow, node.refs))
  }

  /** A node whose prices are positive if those of `pos` are: a product, or a sum whose weights are not
      negative and count at least once, with no spread applied last. */
  predicate YieldsPositive(node: Node, pos: set<NodeId>)
    requires node.pipeline != []
  {
    var last := node.pipeline[|node.pipeline| - 1];
    || (last.Product? && forall r | r in node.refs && !Ignored(r.weight) :: r.node in pos)
    || (last.Sum? && (exists r :: r in node.refs && Sign(r.weight) > 0)
        && forall r | r in node.refs :: Sign(r.weight) >= 0 && (Sign(r.weight) > 0 ==> r.node in pos))
  }

  /** The nodes behind the start are shaped well, products read nodes of `pos` only, and each node of
      `pos` yields positive prices. */
  ghost predicate Certified(pow: Power, nodes: Nodes, start: NodeId, path: seq<NodeId>, pos: set<NodeId>) {
    forall n | n in path && n != start ::
      && n in nodes && Shaped(pow, nodes[n])
      && (Op.Product in nodes[n].pipeline ==> forall r | r in nodes[n].refs && !Ignored(r.weight) :: r.node in pos)
      && (n in pos ==> YieldsPositive(nodes[n], pos))
  }

  /** Uncrossed, and positive where that is claimed. */
  predicate GoodQuotes(q: Quotes, n: NodeId, pos: set<NodeId>) { Uncrossed(q) && (n in pos ==> Positive(q)) }

  lemma PipedLast(pow: Power, node: Node, values: Values)
    requires Known(node.refs, values) && node.pipeline != []
    ensures var last := node.pipeline[|node.pipeline| - 1];
            && (last.Sum? ==> Computed(pow, node, values) == SumOf(node.refs, values))
            && (last.Product? ==> Computed(pow, node, values) == ProductOf(pow, node.refs, values))
  {
  }

  lemma ComputesUncrossed(pow: Power, node: Node, values: Values)
    requires Known(node.refs, values) && Sane(pow, node, values) && forall r | r in node.refs :: Uncrossed(values[r.node])
    ensures Uncrossed(Computed(pow, node, values))
  {
    PipelineKeepsUncrossed(pow, node, values, |node.pipeline|);
    assert node.pipeline[..|node.pipeline|] == node.pipeline;
  }

  /** One node: good quotes at its references give good quotes. */
  lemma ComputesGood(pow: Power, node: Node, n: NodeId, values: Values, pos: set<NodeId>)
    requires Known(node.refs, values) && Shaped(pow, node)
    requires Op.Product in node.pipeline ==> forall r | r in node.refs && !Ignored(r.weight) :: r.node in pos
    requires n in pos ==> YieldsPositive(node, pos)
    requires forall r | r in node.refs :: GoodQuotes(values[r.node], r.node, pos)
    ensures GoodQuotes(Computed(pow, node, values), n, pos)
  {
    ComputesUncrossed(pow, node, values);
    if n in pos {
      PipedLast(pow, node, values);
      if node.pipeline[|node.pipeline| - 1].Sum? {
        SumIsPositive(node.refs, values);
      } else {
        ProductIsUncrossed(pow, node.refs, values);
      }
    }
  }

  /** Uncrossed quotes off the path and at the start give uncrossed quotes along the whole path, with
      positive prices carried along from the nodes that have them to the products that need them. */
  lemma PassKeepsUncrossed(pow: Power, nodes: Nodes, values: Values, edges: seq<Edge>, start: NodeId, q: Quotes, path: seq<NodeId>, pos: set<NodeId>)
    requires Closed(nodes, values) && RefEdges(nodes, edges) && Topological(edges, start, path) && start in nodes
    requires Certified(pow, nodes, start, path, pos) && GoodQuotes(q, start, pos)
    requires forall n | n in nodes && !Reachable(edges, start, n) :: GoodQuotes(values[n], n, pos)
    ensures forall n | n in path :: n in nodes
    ensures forall n | n in nodes :: GoodQuotes(Updated(pow, nodes, values, start, q, path)[n], n, pos)
  {
    OnePassIsEnough(pow, nodes, values, edges, start, q, path);
    GoodUpTo(pow, nodes, Updated(pow, nodes, values, start, q, path), edges, start, path, pos, |path|);
  }

  lemma {:induction false} GoodUpTo(pow: Power, nodes: Nodes, values: Values, edges: seq<Edge>, start: NodeId, path: seq<NodeId>, pos: set<NodeId>, k: nat)
    requires Closed(nodes, values) && RefEdges(nodes, edges) && Topological(edges, start, path) && start in nodes && k <= |path|
    requires Certified(pow, nodes, start, path, pos)
    requires forall n | n in nodes && (n == start || n !in path) :: GoodQuotes(values[n], n, pos)
    requires forall n | n in path && n != start :: n in nodes && Settled(pow, nodes, values, n)
    ensures forall i | 0 <= i < k :: path[i] in nodes && GoodQuotes(values[path[i]], path[i], pos)
  {
    PathIsOrdered(nodes, edges, start, path);
    if k > 0 {
      GoodUpTo(pow, nodes, values, edges, start, path, pos, k - 1);
      var n := path[k - 1];
      assert n in path;
      if n != start {
        forall r | r in nodes[n].refs
          ensures GoodQuotes(values[r.node], r.node, pos)
        {
          assert Refers(nodes, n, r.node);
          if r.node in path {
            var i :| 0 <= i < |path| && path[i] == r.node;
            assert i < k - 1;
          }
        }
        ComputesGood(pow, nodes[n], n, values, pos);
      }
    }
  }

  // ----- the handler as it is -----------------------------------------------------------------

  /** The program's handler of market quotes stores them in the input node and nothing else. That keeps
      the graph settled exactly when no node that refers to the input would come out different. */
  lemma StoringKeepsSettledIff(pow: Power, nodes: Nodes, inputs: set<NodeId>, values: Values, s: NodeId, q: Quotes)
    requires Closed(nodes, values) && AllSettled(pow, nodes, inputs, values) && s in inputs && s in nodes
    ensures AllSettled(pow, nodes, inputs, values[s := q]) <==>
              forall n | n in nodes && n !in inputs && Refers(nodes, n, s) :: Computed(pow, nodes[n], values[s := q]) == values[n]
  {
    var after := values[s := q];
    forall n | n in nodes && n !in inputs && !Refers(nodes, n, s)
      ensures Settled(pow, nodes, after, n)
    {
      StaysSettled(pow, nodes, values, n, s, q);
    }
  }

  /** Already one input and its sum of weight 1 are left apart by any change of the input. */
  lemma StoringUnsettles(pow: Power, was: real, now: real) returns (nodes: Nodes, values: Values, q: Quotes)
    requires was != now
    ensures Closed(nodes, values) && 1 in nodes && values[1] == Quotes(Finite(was), Finite(was)) && q == Quotes(Finite(now), Finite(now))
    ensures AllSettled(pow, nodes, {1}, values) && !AllSettled(pow, nodes, {1}, values[1 := q])
  {
    nodes := map[1 := Node([], [], false), 2 := Node([Ref(1, Finite(1.0))], [Sum], false)];
    var before := Quotes(Finite(was), Finite(was));
    q := Quotes(Finite(now), Finite(now));
    values := map[1 := before, 2 := before];
    CopyOfOne(pow, values, was);
    CopyOfOne(pow, values[1 := q], now);
    assert Settled(pow, nodes, values, 2) && !Settled(pow, nodes, values[1 := q], 2);
  }

  lemma CopyOfOne(pow: Power, values: Values, x: real)
    requires 1 in values && values[1] == Quotes(Finite(x), Finite(x))
    ensures Computed(pow, Node([Ref(1, Finite(1.0))], [Sum], false), values) == values[1]
  {
    var refs := [Ref(1, Finite(1.0))];
    assert refs[..0] == [] && [Op.Sum][..0] == [];
    assert SumOf(refs[..0], values) == Quotes(Finite(0.0), Finite(0.0));
    assert Times(x, 1.0) == x;
    assert SumOf(refs, values) == SumStep(Quotes(Finite(0.0), Finite(0.0)), Finite(1.0), values[1]);
  }

  datatype Publication = Publication(node: NodeId, quotes: Quotes)

  /** What the handler sends for the nodes of a path: the quotes they have stored. */
  function Published(nodes: Nodes, quotes: Values, path: seq<NodeId>): seq<Publication>
    requires forall n | n in path :: n in nodes && n in quotes
  {
    if path == [] then [] else
    var k := |path| - 1;
    assert path[k] in path;
    Published(nodes, quotes, path[..k])
    + if nodes[path[k]].exec && nodes[path[k]].pipeline != [] then [Publication(path[k], quotes[path[k]])] else []
  }

  /** The nodes of the path sent are those that are executed and have a pipeline, with the quotes they store. */
  lemma {:induction false} PublishedIff(nodes: Nodes, quotes: Values, path: seq<NodeId>, p: Publication)
    requires forall n | n in path :: n in nodes && n in quotes
    ensures p in Published(nodes, quotes, path) <==>
              p.node in path && nodes[p.node].exec && nodes[p.node].pipeline != [] && p.quotes == quotes[p.node]
  {
    if path != [] {
      var k := |path| - 1;
      PublishedIff(nodes, quotes, path[..k], p);
      assert path == path[..k] + [path[k]];
    }
  }

  /** So what is sent for a node other than the input is what it had before the market moved. */
  lemma {:induction false} PublishedIsOld(nodes: Nodes, quotes: Values, s: NodeId, q: Quotes, path: seq<NodeId>)
    requires s in nodes && forall n | n in path :: n in nodes && n in quotes
    ensures forall p | p in Published(nodes, quotes[s := q], path) && p.node != s :: p.node in quotes && p.quotes == quotes[p.node]
  {
    if path != [] {
      PublishedIsOld(nodes, quotes, s, q, path[..|path| - 1]);
      assert path[|path| - 1] in path;
    }
  }

  // ----- the pricer ---------------------------------------------------------------------------

  /** What rebuilding makes of a path. */
  ghost predicate Rebuilt(edges: seq<Edge>, s: NodeId, before: seq<NodeId>, path: seq<NodeId>) {
    if Cyclic(edges, s) then path == before else Topological(edges, s, path)
  }

  function PathOf(paths: map<NodeId, seq<NodeId>>, s: NodeId): seq<NodeId> { if s in paths then paths[s] else [] }

  ghost predicate AllRebuilt(edges: seq<Edge>, done: set<NodeId>, was: map<NodeId, seq<NodeId>>, paths: map<NodeId, seq<NodeId>>) {
    && paths.Keys == was.Keys + done
    && forall s: NodeId :: if s in done then Rebuilt(edges, s, PathOf(was, s), PathOf(paths, s)) else PathOf(paths, s) == PathOf(was, s)
  }

  lemma OneMoreRebuilt(edges: seq<Edge>, done: set<NodeId>, was: map<NodeId, seq<NodeId>>, before: map<NodeId, seq<NodeId>>,
                       s: NodeId, paths: map<NodeId, seq<NodeId>>)
    requires AllRebuilt(edges, done, was, before)
    requires paths == before[s := PathOf(paths, s)] && Rebuilt(edges, s, PathOf(before, s), PathOf(paths, s))
    ensures AllRebuilt(edges, done + {s}, was, paths)
  {
  }

  method RunStage(pow: Power, op: Op, refs: seq<Ref>, values: Values, q: Quotes) returns (context: Quotes)
    requires Known(refs, values)
    ensures context == Stage(pow, op, refs, values, q)
  {
    match op
    case Sum => context := AddUp(refs, values);
    case Product => context := Multiply(pow, refs, values);
    case QuoteSpread(spread) => context := Spread(q, spread);
  }

  /** Run the pipeline of a node on a fresh context. */
  method RunPipeline(pow: Power, node: Node, values: Values) returns (context: Quotes)
    requires Known(node.refs, values)
    ensures context == Computed(pow, node, values)
  {
    context := NOTHING;
    for i := 0 to |node.pipeline|
      invariant context == Piped(pow, node.refs, node.pipeline[..i], values)
    {
      assert node.pipeline[..i + 1][..i] == node.pipeline[..i];
      context := RunStage(pow, node.pipeline[i], node.refs, values, context);
    }
    assert node.pipeline[..|node.pipeline|] == node.pipeline;
  }

  class Pricer {
    var nodes: Nodes
    var quotes: Values
    var nodeByMarket: map<MarketId, NodeId>
    var sent: seq<Publication>
    var paths: map<NodeId, seq<NodeId>>

    ghost predicate Valid()
      reads this
    {
      && Closed(nodes, quotes)
      && (forall m | m in nodeByMarket :: nodeByMarket[m] in nodes)
      && forall s, n | s in paths && n in paths[s] :: n in nodes
    }

    constructor (nodes: Nodes, nodeByMarket: map<MarketId, NodeId>)
      requires forall n, r | n in nodes && r in nodes[n].refs :: r.node in nodes
      requires forall m | m in nodeByMarket :: nodeByMarket[m] in nodes
      ensures Valid() && this.nodes == nodes && this.nodeByMarket == nodeByMarket && paths == map[] && sent == []
      ensures forall n | n in nodes :: quotes[n] == NOTHING
    {
      this.nodes := nodes;
      this.quotes := map n | n in nodes :: NOTHING;
      this.nodeByMarket := nodeByMarket;
      this.sent := [];
      this.paths := map[];
    }

    /** One edge for each reference of each node. */
    method CollectEdges() returns (edges: seq<Edge>)
      ensures RefEdges(nodes, edges)
    {
      edges := [];
      var todo := nodes.Keys;
      while todo != {}
        invariant todo <= nodes.Keys
        invariant forall a: NodeId, b: NodeId :: Edge(a, b) in edges <==> b in nodes && b !in todo && Refers(nodes, b, a)
        decreases |todo|
      {
        var n :| n in todo;
        var refs := nodes[n].refs;
        for i := 0 to |refs|
          invariant forall a: NodeId, b: NodeId ::
            Edge(a, b) in edges <==> (b in nodes && b !in todo && Refers(nodes, b, a)) || (b == n && exists r | r in refs[..i] :: r.node == a)
        {
          edges := edges + [Edge(refs[i].node, n)];
          assert refs[..i + 1] == refs[..i] + [refs[i]];
        }
        assert refs[..|refs|] == refs;
        todo := todo - {n};
      }
    }

    /** The path of one input node, in path order; the path it had when a cycle is in reach. */
    method RebuildPath(graph: Graph, s: NodeId)
      requires Valid() && RefEdges(nodes, graph.edges) && s in nodes
      modifies this`paths
      ensures Valid() && paths == old(paths)[s := PathOf(paths, s)]
      ensures Rebuilt(graph.edges, s, PathOf(old(paths), s), PathOf(paths, s))
    {
      var error, path, _ := graph.BuildPath(s, PathOf(paths, s));
      if error == OK {
        PathIsOrdered(nodes, graph.edges, s, path);
      }
      paths := paths[s := path];
    }

    method RebuildPaths() returns (ghost edges: seq<Edge>)
      requires Valid()
      modifies this`paths
      ensures Valid() && RefEdges(nodes, edges)
      ensures AllRebuilt(edges, nodeByMarket.Values, old(paths), paths)
    {
      var found := CollectEdges();
      edges := found;
      var graph := new Graph(found);
      var todo := nodeByMarket.Keys;
      ghost var done: set<NodeId> := {};
      while todo != {}
        invariant Valid() && graph.edges == edges && RefEdges(nodes, edges)
        invariant todo <= nodeByMarket.Keys && done <= nodeByMarket.Values
        invariant forall m | m in nodeByMarket :: m in todo || nodeByMarket[m] in done
        invariant AllRebuilt(edges, done, old(paths), paths)
        decreases |todo|
      {
        var m :| m in todo;
        ghost var before := paths;
        RebuildPath(graph, nodeByMarket[m]);
        OneMoreRebuilt(edges, done, old(paths), before, nodeByMarket[m], paths);
        todo := todo - {m};
        done := done + {nodeByMarket[m]};
      }
      assert done == nodeByMarket.Values;
    }

    /** Run the pipeline of a node and store what comes out. */
    method Compute(pow: Power, id: NodeId)
      requires Valid() && id in nodes
      modifies this`quotes
      ensures Valid() && quotes == old(quotes)[id := Computed(pow, nodes[id], old(quotes))]
    {
      var context := RunPipeline(pow, nodes[id], quotes);
      quotes := quotes[id := context];
    }

    /** Recompute the nodes of a path behind its start. */
    method Recompute(pow: Power, path: seq<NodeId>)
      requires Valid() && forall n | n in Behind(path) :: n in nodes
      modifies this`quotes
      ensures Valid() && quotes == Pass(pow, nodes, old(quotes), Behind(path))
    {
      ghost var behind := Behind(path);
      if path != [] {
        for i := 1 to |path|
          invariant Valid() && quotes == Pass(pow, nodes, old(quotes), behind[..i - 1])
        {
          assert behind[i - 1] == path[i] && behind[..i][..i - 1] == behind[..i - 1];
          Compute(pow, path[i]);
        }
        assert behind[..|behind|] == behind;
      }
    }

    /** Store the quotes of an input node, then recompute the path behind it. */
    method Settle(pow: Power, s: NodeId, q: Quotes)
      requires Valid() && s in nodes
      modifies this`quotes
      ensures Valid() && quotes == Updated(pow, nodes, old(quotes), s, q, PathOf(paths, s))
    {
      quotes := quotes[s := q];
      assert forall n | n in Behind(PathOf(paths, s)) :: n in PathOf(paths, s);
      Recompute(pow, PathOf(paths, s));
    }

    /** New quotes of a market, as the program handles them: store them in the input node, run the
        pipelines along its path on contexts that are thrown away, and send what the nodes have stored. */
    method OnQuotes(pow: Power, market: MarketId, q: Quotes)
      requires Valid()
      modifies this`quotes, this`sent
      ensures Valid()
      ensures market !in nodeByMarket ==> quotes == old(quotes) && sent == old(sent)
      ensures market in nodeByMarket ==>
                var s := nodeByMarket[market];
                quotes == old(quotes)[s := q] && sent == old(sent) + Published(nodes, quotes, PathOf(paths, s))
    {
      if market in nodeByMarket {
        var s := nodeByMarket[market];
        quotes := quotes[s := q];
        var path := PathOf(paths, s);
        for i := 0 to |path|
          invariant Valid() && quotes == old(quotes)[s := q]
          invariant sent == old(sent) + Published(nodes, quotes, path[..i])
        {
          assert path[i] in path && path[..i + 1][..i] == path[..i];
          var _ := RunPipeline(pow, nodes[path[i]], quotes);
          if nodes[path[i]].exec && nodes[path[i]].pipeline != [] {
            sent := sent + [Publication(path[i], quotes[path[i]])];
          }
        }
        assert path[..|path|] == path;
      }
    }
  }
}
