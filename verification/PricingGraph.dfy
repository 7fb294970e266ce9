/** The dependency graph of the pricing nodes and the worklist that orders the nodes behind a start
    node by their longest distance from it. */
module PricingGraph {
  import opened Totals

  type NodeId = nat

  datatype Edge = Edge(src: NodeId, dst: NodeId)

  datatype ErrorCode = OK | CYCLE

  // ----- walks --------------------------------------------------------------------------------

  /** A walk is given by the positions of its edges, so parallel edges are told apart. */
  ghost predicate Walk(edges: seq<Edge>, a: NodeId, w: seq<nat>, b: NodeId) {
    if w == [] then a == b else
    var e := w[|w| - 1];
    e < |edges| && edges[e].dst == b && Walk(edges, a, w[..|w| - 1], edges[e].src)
  }

  ghost predicate Reachable(edges: seq<Edge>, a: NodeId, b: NodeId) {
    exists w :: Walk(edges, a, w, b)
  }

  ghost predicate Loop(edges: seq<Edge>, n: NodeId) {
    exists w :: w != [] && Walk(edges, n, w, n)
  }

  /** Some cycle can be reached. */
  ghost predicate Cyclic(edges: seq<Edge>, a: NodeId) {
    exists n :: Reachable(edges, a, n) && Loop(edges, n)
  }

  ghost predicate WalkOfLength(edges: seq<Edge>, a: NodeId, b: NodeId, length: nat) {
    exists w :: |w| == length && Walk(edges, a, w, b)
  }

  /** The longest walk from one node to another has the given length. */
  ghost predicate Longest(edges: seq<Edge>, a: NodeId, b: NodeId, length: nat) {
    WalkOfLength(edges, a, b, length) && forall w :: Walk(edges, a, w, b) ==> |w| <= length
  }

  function End(edges: seq<Edge>, a: NodeId, w: seq<nat>): NodeId
    requires forall i | 0 <= i < |w| :: w[i] < |edges|
  {
    if w == [] then a else edges[w[|w| - 1]].dst
  }

  lemma {:induction false} WalkInRange(edges: seq<Edge>, a: NodeId, w: seq<nat>, b: NodeId)
    requires Walk(edges, a, w, b)
    ensures forall i | 0 <= i < |w| :: w[i] < |edges|
    ensures End(edges, a, w) == b
  {
    if w != [] {
      WalkInRange(edges, a, w[..|w| - 1], edges[w[|w| - 1]].src);
    }
  }

  lemma SliceOfSlice(w: seq<nat>, i: nat, n: nat)
    requires i <= n && |w| == n + 1
    ensures |w[i..]| == n - i + 1 && w[i..][n - i] == w[n]
    ensures w[i..][..n - i] == w[..n][i..]
  {
  }

  lemma {:induction false} WalkSplit(edges: seq<Edge>, a: NodeId, w: seq<nat>, b: NodeId, i: nat)
    requires Walk(edges, a, w, b) && i <= |w|
    ensures forall j | 0 <= j < i :: w[j] < |edges|
    ensures Walk(edges, a, w[..i], End(edges, a, w[..i])) && Walk(edges, End(edges, a, w[..i]), w[i..], b)
  {
    WalkInRange(edges, a, w, b);
    if i == |w| {
      assert w[..i] == w && w[i..] == [];
    } else {
      var n := |w| - 1;
      WalkSplit(edges, a, w[..n], edges[w[n]].src, i);
      assert w[..n][..i] == w[..i];
      SliceOfSlice(w, i, n);
    }
  }

  lemma {:induction false} WalkJoin(edges: seq<Edge>, a: NodeId, v: seq<nat>, b: NodeId, w: seq<nat>, c: NodeId)
    requires Walk(edges, a, v, b) && Walk(edges, b, w, c)
    ensures Walk(edges, a, v + w, c)
    decreases |w|
  {
    if w == [] {
      assert v + w == v;
    } else {
      var n := |w| - 1;
      WalkJoin(edges, a, v, b, w[..n], edges[w[n]].src);
      assert (v + w)[..|v + w| - 1] == v + w[..n];
    }
  }

  lemma OneStep(edges: seq<Edge>, a: NodeId, e: nat, length: nat)
    requires e < |edges| && WalkOfLength(edges, a, edges[e].src, length)
    ensures WalkOfLength(edges, a, edges[e].dst, length + 1)
  {
    var w: seq<nat> :| |w| == length && Walk(edges, a, w, edges[e].src);
    assert (w + [e])[..length] == w;
    assert Walk(edges, a, w + [e], edges[e].dst);
  }

  // ----- the pigeonhole -----------------------------------------------------------------------

  predicate Distinct<T(==)>(s: seq<T>) { forall i, j | 0 <= i < j < |s| :: s[i] != s[j] }

  lemma {:induction false} DistinctFits<T>(s: seq<T>, within: set<T>)
    requires Distinct(s) && forall x | x in s :: x in within
    ensures |s| <= |within|
  {
    if s != [] {
      var n := |s| - 1;
      assert s == s[..n] + [s[n]] && s[n] !in s[..n];
      DistinctFits(s[..n], within - {s[n]});
    }
  }

  lemma {:induction false} Numbers(n: nat) returns (all: set<nat>)
    ensures |all| == n && forall i: nat :: i in all <==> i < n
  {
    if n == 0 {
      all := {};
    } else {
      all := Numbers(n - 1);
      all := all + {n - 1};
    }
  }

  /** A walk longer than the number of edges repeats one, so it goes round a cycle. */
  lemma LongWalkLoops(edges: seq<Edge>, a: NodeId, b: NodeId, length: nat)
    requires WalkOfLength(edges, a, b, length) && length > |edges|
    ensures Cyclic(edges, a)
  {
    var w: seq<nat> :| |w| == length && Walk(edges, a, w, b);
    WalkInRange(edges, a, w, b);
    var all := Numbers(|edges|);
    if Distinct(w) {
      DistinctFits(w, all);
      assert false;
    }
    var i, j :| 0 <= i < j < |w| && w[i] == w[j];
    var n := edges[w[i]].dst;
    WalkSplit(edges, a, w, b, i + 1);
    WalkSplit(edges, n, w[i + 1..], b, j - i);
    assert w[i + 1..][..j - i] == w[i + 1..j + 1];
    assert w[i + 1..j + 1][j - i - 1] == w[j];
    assert Walk(edges, n, w[i + 1..j + 1], n);
    assert Loop(edges, n) && Reachable(edges, a, n);
  }

  // ----- distances ----------------------------------------------------------------------------

  /** Every node on record but those to do has its successors on record, further away. */
  ghost predicate Relaxed(edges: seq<Edge>, dist: map<NodeId, nat>, todo: set<NodeId>) {
    forall e | 0 <= e < |edges| && edges[e].src in dist && edges[e].src !in todo ::
      edges[e].dst in dist && dist[edges[e].dst] > dist[edges[e].src]
  }

  /** Every distance is the length of a walk from the start. */
  ghost predicate Real(edges: seq<Edge>, start: NodeId, dist: map<NodeId, nat>) {
    forall n | n in dist :: WalkOfLength(edges, start, n, dist[n])
  }

  lemma {:induction false} WalksAreShorter(edges: seq<Edge>, dist: map<NodeId, nat>, a: NodeId, w: seq<nat>, b: NodeId)
    requires Relaxed(edges, dist, {}) && a in dist && Walk(edges, a, w, b)
    ensures b in dist && dist[b] >= dist[a] + |w|
  {
    if w != [] {
      WalksAreShorter(edges, dist, a, w[..|w| - 1], edges[w[|w| - 1]].src);
    }
  }

  /** Once nothing is left to do there is no cycle, and the distances are the longest. */
  lemma RelaxedIsExact(edges: seq<Edge>, start: NodeId, dist: map<NodeId, nat>)
    requires Relaxed(edges, dist, {}) && Real(edges, start, dist) && start in dist
    ensures !Cyclic(edges, start)
    ensures dist[start] == 0 && forall n | n in dist && dist[n] == 0 :: n == start
    ensures forall n :: n in dist <==> Reachable(edges, start, n)
    ensures forall n | n in dist :: Longest(edges, start, n, dist[n])
  {
    var round :| |round| == dist[start] && Walk(edges, start, round, start);
    WalksAreShorter(edges, dist, start, round, start);
    forall n, w | Walk(edges, start, w, n)
      ensures n in dist && dist[n] >= |w|
    {
      WalksAreShorter(edges, dist, start, w, n);
    }
    if n :| Reachable(edges, start, n) && Loop(edges, n) {
      var w :| w != [] && Walk(edges, n, w, n);
      WalksAreShorter(edges, dist, n, w, n);
      assert false;
    }
    forall n | n in dist
      ensures Reachable(edges, start, n) && Longest(edges, start, n, dist[n])
    {
      assert WalkOfLength(edges, start, n, dist[n]);
    }
    forall n | n in dist && dist[n] == 0
      ensures n == start
    {
      assert WalkOfLength(edges, start, n, 0);
    }
  }

  // ----- termination --------------------------------------------------------------------------

  function Nodes(edges: seq<Edge>, start: NodeId): set<NodeId> {
    {start} + set e | e in edges :: e.dst
  }

  /** How far a node's distance may still grow. */
  function Slack(edges: seq<Edge>, dist: map<NodeId, nat>, n: NodeId): int {
    if n in dist then |edges| - dist[n] else |edges| + 1
  }

  ghost function Slacks(edges: seq<Edge>, start: NodeId, dist: map<NodeId, nat>): map<NodeId, int> {
    map n | n in Nodes(edges, start) :: Slack(edges, dist, n)
  }

  ghost function Growth(edges: seq<Edge>, start: NodeId, dist: map<NodeId, nat>): int { Total(Slacks(edges, start, dist)) }

  /** What a queued node is worth: more than all nodes further away together. */
  function Worth(width: nat, slack: nat): nat {
    if slack == 0 then 1 else 1 + width * Worth(width, slack - 1)
  }

  ghost function Queue(width: nat, edges: seq<Edge>, dist: map<NodeId, nat>, todo: set<NodeId>): map<NodeId, int>
    requires forall n | n in dist :: dist[n] <= |edges|
  {
    map n | n in todo && n in dist :: Worth(width, |edges| - dist[n])
  }

  lemma GrowthShrinks(edges: seq<Edge>, start: NodeId, dist: map<NodeId, nat>, d: NodeId, far: nat)
    requires d in Nodes(edges, start) && (d in dist ==> far > dist[d]) && far > 0
    ensures Growth(edges, start, dist[d := far]) < Growth(edges, start, dist)
  {
    assert Slacks(edges, start, dist[d := far]) == Slacks(edges, start, dist)[d := |edges| - far];
    TotalUpdate(Slacks(edges, start, dist), d, |edges| - far);
  }

  lemma GrowthBounded(edges: seq<Edge>, start: NodeId, dist: map<NodeId, nat>)
    requires forall n | n in dist :: dist[n] <= |edges|
    ensures Growth(edges, start, dist) >= 0
  {
    TotalBounds(Slacks(edges, start, dist));
  }

  lemma TimesAtLeast(width: nat, x: nat)
    requires width > 0
    ensures width * x >= x
  {
  }

  lemma {:induction false} WorthGrows(width: nat, j: nat, k: nat)
    requires j <= k && width > 0
    ensures Worth(width, j) <= Worth(width, k)
    decreases k
  {
    if j < k {
      WorthGrows(width, j, k - 1);
      TimesAtLeast(width, Worth(width, k - 1));
    }
  }

  lemma {:induction false} TotalAtMost(m: map<NodeId, int>, each: nat)
    requires forall n | n in m :: m[n] <= each
    ensures Total(m) <= |m| * each
    decreases |m|
  {
    if m != map[] {
      var n :| n in m;
      TotalRemove(m, n);
      TotalAtMost(m - {n}, each);
      assert |m - {n}| == |m| - 1;
      assert |m| * each == (|m| - 1) * each + each;
    }
  }

  ghost function Only(m: map<NodeId, int>, part: set<NodeId>): map<NodeId, int> { map n | n in m && n in part :: m[n] }

  lemma SplitInside(m: map<NodeId, int>, part: set<NodeId>, n: NodeId)
    requires n in m && n in part
    ensures Total(Only(m, part)) == m[n] + Total(Only(m - {n}, part))
    ensures m - part == (m - {n}) - part
  {
    TotalRemove(Only(m, part), n);
    assert Only(m, part) - {n} == Only(m - {n}, part);
  }

  lemma SplitOutside(m: map<NodeId, int>, part: set<NodeId>, n: NodeId)
    requires n in m && n !in part
    ensures Total(m - part) == m[n] + Total((m - {n}) - part)
    ensures Only(m, part) == Only(m - {n}, part)
  {
    TotalRemove(m - part, n);
    assert (m - part) - {n} == (m - {n}) - part;
  }

  lemma {:induction false} TotalSplit(m: map<NodeId, int>, part: set<NodeId>)
    ensures Total(m) == Total(m - part) + Total(Only(m, part))
    decreases |m|
  {
    if m == map[] {
      assert m - part == map[] && Only(m, part) == map[];
    } else {
      var n :| n in m;
      TotalRemove(m, n);
      TotalSplit(m - {n}, part);
      if n in part {
        SplitInside(m, part, n);
      } else {
        SplitOutside(m, part, n);
      }
    }
  }

  lemma StayBound(a: map<NodeId, int>, b: map<NodeId, int>)
    requires b.Keys <= a.Keys && forall n | n in b :: b[n] == a[n]
    requires forall n | n in a :: a[n] >= 0
    ensures Total(b) <= Total(a)
  {
    TotalSplit(a, b.Keys);
    assert Only(a, b.Keys) == b;
    TotalBounds(a - b.Keys);
  }

  lemma AllAtMost(m: map<NodeId, int>, nodes: set<NodeId>, each: nat)
    requires m.Keys <= nodes && forall n | n in m :: m[n] <= each
    ensures Total(m) <= |nodes| * each
  {
    TotalAtMost(m, each);
    Fewer(m, nodes, each);
  }

  lemma FarAtMost(edges: seq<Edge>, width: nat, dist: map<NodeId, nat>, s: NodeId, far: map<NodeId, int>, slack: nat)
    requires (forall n | n in dist :: dist[n] <= |edges|) && s in dist && far.Keys <= dist.Keys && width > 0
    requires slack == |edges| - dist[s] - 1
    requires forall n | n in far :: dist[n] > dist[s] && far[n] == Worth(width, |edges| - dist[n])
    ensures forall n | n in far :: far[n] <= Worth(width, slack)
  {
    forall n | n in far
      ensures far[n] <= Worth(width, slack)
    {
      WorthGrows(width, |edges| - dist[n], slack);
    }
  }

  lemma WorthAbove(width: nat, slack: nat)
    ensures width * Worth(width, slack) < Worth(width, slack + 1)
  {
  }

  /** Nodes further away are together worth less than the node they are further away than. */
  lemma FurtherIsLess(nodes: set<NodeId>, slack: nat, far: map<NodeId, int>)
    requires far.Keys <= nodes && forall n | n in far :: far[n] <= Worth(|nodes|, slack)
    ensures Total(far) < Worth(|nodes|, slack + 1)
  {
    AllAtMost(far, nodes, Worth(|nodes|, slack));
    WorthAbove(|nodes|, slack);
  }

  lemma FarIsLess(edges: seq<Edge>, nodes: set<NodeId>, dist: map<NodeId, nat>, s: NodeId, far: map<NodeId, int>)
    requires dist.Keys <= nodes && (forall n | n in dist :: dist[n] <= |edges|) && s in dist
    requires far.Keys <= dist.Keys
    requires forall n | n in far :: dist[n] > dist[s] && far[n] == Worth(|nodes|, |edges| - dist[n])
    ensures Total(far) < Worth(|nodes|, |edges| - dist[s])
  {
    if far != map[] {
      var any :| any in far;
      CardLe({s}, nodes);
      FarAtMost(edges, |nodes|, dist, s, far, |edges| - dist[s] - 1);
      FurtherIsLess(nodes, |edges| - dist[s] - 1, far);
    }
  }

  /** Taking a node off the queue and putting only nodes further away on it makes the queue worth less. */
  lemma QueueShrinks(edges: seq<Edge>, nodes: set<NodeId>, dist: map<NodeId, nat>, todo: set<NodeId>, s: NodeId, todo': set<NodeId>)
    requires dist.Keys <= nodes && forall n | n in dist :: dist[n] <= |edges|
    requires todo <= dist.Keys && todo' <= dist.Keys && s in todo
    requires forall n | n in todo' :: (n in todo && n != s) || dist[n] > dist[s]
    ensures Total(Queue(|nodes|, edges, dist, todo')) < Total(Queue(|nodes|, edges, dist, todo))
  {
    var before, after := Queue(|nodes|, edges, dist, todo), Queue(|nodes|, edges, dist, todo');
    var further := set n | n in todo' && dist[n] > dist[s];
    TotalSplit(after, further);
    TotalRemove(before, s);
    StayBound(before - {s}, after - further);
    FarIsLess(edges, nodes, dist, s, Only(after, further));
  }

  lemma Fewer(m: map<NodeId, int>, nodes: set<NodeId>, each: nat)
    requires m.Keys <= nodes
    ensures |m| * each <= |nodes| * each
  {
    CardLe(m.Keys, nodes);
    assert |m| == |m.Keys|;
  }

  lemma {:induction false} CardLe<T>(a: set<T>, b: set<T>)
    requires a <= b
    ensures |a| <= |b|
  {
    assert b == a + (b - a);
  }

  // ----- the result ---------------------------------------------------------------------------

  /** A list of the nodes that can be reached, once each, the start first, every edge going forward. */
  ghost predicate Topological(edges: seq<Edge>, start: NodeId, path: seq<NodeId>) {
    && Distinct(path)
    && (forall n :: n in path <==> Reachable(edges, start, n))
    && path != [] && path[0] == start
    && (forall i, j | 0 <= i < |path| && 0 <= j < |path| && Edge(path[i], path[j]) in edges :: i < j)
  }

  ghost predicate SortedBy(dist: map<NodeId, nat>, path: seq<NodeId>)
    requires forall n | n in path :: n in dist
  {
    forall i, j | 0 <= i < j < |path| :: dist[path[i]] <= dist[path[j]]
  }

  lemma SortedIsTopological(edges: seq<Edge>, start: NodeId, dist: map<NodeId, nat>, path: seq<NodeId>)
    requires Relaxed(edges, dist, {}) && Real(edges, start, dist) && start in dist
    requires Distinct(path) && (forall n :: n in path <==> n in dist) && SortedBy(dist, path)
    ensures Topological(edges, start, path)
  {
    RelaxedIsExact(edges, start, dist);
    var k :| 0 <= k < |path| && path[k] == start;
    assert path[0] in path;
    forall i, j | 0 <= i < |path| && 0 <= j < |path| && Edge(path[i], path[j]) in edges
      ensures i < j
    {
      var e :| 0 <= e < |edges| && edges[e] == Edge(path[i], path[j]);
      assert path[i] in path && path[j] in path;
    }
  }

  /** What exploring keeps: the start is on record, distances are real and small, the queue is on
      record, and whatever is not queued is relaxed. */
  ghost predicate Explored(edges: seq<Edge>, start: NodeId, dist: map<NodeId, nat>, todo: set<NodeId>) {
    && start in dist && todo <= dist.Keys && dist.Keys <= Nodes(edges, start)
    && (forall n | n in dist :: dist[n] <= |edges|)
    && Real(edges, start, dist)
    && Relaxed(edges, dist, todo)
  }

  /** In the middle of visiting `s`, with the first `i` edges looked at. */
  ghost predicate Visiting(edges: seq<Edge>, start: NodeId, dist: map<NodeId, nat>, todo: set<NodeId>, s: NodeId, i: nat)
    requires i <= |edges|
  {
    && s in dist && Explored(edges, start, dist, todo + {s})
    && todo <= dist.Keys
    && Looked(edges, dist, todo, s, i)
  }

  function Further(dist: map<NodeId, nat>, s: NodeId, d: NodeId): nat
    requires s in dist
  {
    if d in dist && dist[d] > dist[s] then dist[d] else dist[s] + 1
  }

  lemma RelaxKeepsReal(edges: seq<Edge>, start: NodeId, dist: map<NodeId, nat>, s: NodeId, i: nat)
    requires Real(edges, start, dist) && s in dist && i < |edges| && edges[i].src == s
    ensures Real(edges, start, dist[edges[i].dst := Further(dist, s, edges[i].dst)])
  {
    var d := edges[i].dst;
    OneStep(edges, start, i, dist[s]);
    forall n | n in dist
      ensures WalkOfLength(edges, start, n, dist[n])
    {
    }
  }

  lemma RelaxKeepsRelaxed(edges: seq<Edge>, dist: map<NodeId, nat>, queued: set<NodeId>, d: NodeId, far: nat)
    requires Relaxed(edges, dist, queued) && (d in dist ==> far >= dist[d])
    ensures Relaxed(edges, dist[d := far], queued + {d})
  {
  }

  lemma RelaxKeepsExplored(edges: seq<Edge>, start: NodeId, dist: map<NodeId, nat>, queued: set<NodeId>, s: NodeId, i: nat)
    requires i < |edges| && edges[i].src == s && s in dist && Explored(edges, start, dist, queued)
    requires Further(dist, s, edges[i].dst) <= |edges|
    ensures Explored(edges, start, dist[edges[i].dst := Further(dist, s, edges[i].dst)], queued + {edges[i].dst})
  {
    var d := edges[i].dst;
    RelaxKeepsReal(edges, start, dist, s, i);
    RelaxKeepsRelaxed(edges, dist, queued, d, Further(dist, s, d));
    assert edges[i] in edges && d in Nodes(edges, start);
  }

  /** The edges of `s` looked at so far lead further away, unless `s` is queued again. */
  ghost predicate Looked(edges: seq<Edge>, dist: map<NodeId, nat>, todo: set<NodeId>, s: NodeId, i: nat)
    requires i <= |edges| && s in dist
  {
    forall e | 0 <= e < i && edges[e].src == s :: edges[e].dst in dist && (s in todo || dist[edges[e].dst] > dist[s])
  }

  lemma RelaxKeepsLooked(edges: seq<Edge>, dist: map<NodeId, nat>, todo: set<NodeId>, s: NodeId, i: nat)
    requires i < |edges| && edges[i].src == s && s in dist && Looked(edges, dist, todo, s, i)
    ensures Looked(edges, dist[edges[i].dst := Further(dist, s, edges[i].dst)], todo + {edges[i].dst}, s, i + 1)
  {
  }

  lemma RelaxKeepsVisiting(edges: seq<Edge>, start: NodeId, dist: map<NodeId, nat>, todo: set<NodeId>, s: NodeId, i: nat)
    requires i < |edges| && edges[i].src == s && Visiting(edges, start, dist, todo, s, i)
    requires Further(dist, s, edges[i].dst) <= |edges|
    ensures Visiting(edges, start, dist[edges[i].dst := Further(dist, s, edges[i].dst)], todo + {edges[i].dst}, s, i + 1)
  {
    RelaxKeepsExplored(edges, start, dist, todo + {s}, s, i);
    RelaxKeepsLooked(edges, dist, todo, s, i);
    assert todo + {edges[i].dst} + {s} == todo + {s} + {edges[i].dst};
  }

  lemma VisitingNext(edges: seq<Edge>, start: NodeId, dist: map<NodeId, nat>, todo: set<NodeId>, s: NodeId, i: nat)
    requires i < |edges| && edges[i].src != s && Visiting(edges, start, dist, todo, s, i)
    ensures Visiting(edges, start, dist, todo, s, i + 1)
  {
  }

  lemma VisitedIsExplored(edges: seq<Edge>, start: NodeId, dist: map<NodeId, nat>, todo: set<NodeId>, s: NodeId)
    requires Visiting(edges, start, dist, todo, s, |edges|)
    ensures Explored(edges, start, dist, todo)
  {
  }

  lemma VisitBegins(edges: seq<Edge>, start: NodeId, dist: map<NodeId, nat>, todo: set<NodeId>, s: NodeId)
    requires Explored(edges, start, dist, todo) && s in todo
    ensures Visiting(edges, start, dist, todo - {s}, s, 0)
  {
    assert todo - {s} + {s} == todo;
  }

  /** What one visit does to the measure: distances grow, or only nodes further away are queued. */
  ghost predicate Progress(edges: seq<Edge>, start: NodeId, dist: map<NodeId, nat>, todo: set<NodeId>, s: NodeId,
                           dist': map<NodeId, nat>, todo': set<NodeId>)
    requires s in dist
  {
    || Growth(edges, start, dist') < Growth(edges, start, dist)
    || (dist' == dist && forall n | n in todo' :: n in todo || (n in dist && dist[n] > dist[s]))
  }

  lemma MeasureShrinks(edges: seq<Edge>, start: NodeId, dist: map<NodeId, nat>, todo: set<NodeId>, s: NodeId,
                       dist': map<NodeId, nat>, todo': set<NodeId>)
    requires dist.Keys <= Nodes(edges, start) && (forall n | n in dist :: dist[n] <= |edges|)
    requires todo <= dist.Keys && todo' <= dist'.Keys && s in todo
    requires Progress(edges, start, dist, todo - {s}, s, dist', todo')
    ensures Growth(edges, start, dist) >= 0 && Total(Queue(|Nodes(edges, start)|, edges, dist, todo)) >= 0
    ensures || Growth(edges, start, dist') < Growth(edges, start, dist)
            || (dist' == dist && Total(Queue(|Nodes(edges, start)|, edges, dist', todo')) < Total(Queue(|Nodes(edges, start)|, edges, dist, todo)))
  {
    GrowthBounded(edges, start, dist);
    TotalBounds(Queue(|Nodes(edges, start)|, edges, dist, todo));
    if Growth(edges, start, dist') >= Growth(edges, start, dist) {
      QueueShrinks(edges, Nodes(edges, start), dist, todo, s, todo');
    }
  }

  class Graph {
    var edges: seq<Edge>

    constructor (edges: seq<Edge>)
      ensures this.edges == edges
    {
      this.edges := edges;
    }

    /** From dependencies, each a node and one it depends on. */
    constructor FromDeps(deps: seq<Edge>)
      ensures edges == Flipped(deps)
    {
      edges := [];
      new;
      for i := 0 to |deps|
        invariant edges == Flipped(deps[..i])
      {
        assert deps[..i + 1][..i] == deps[..i];
        edges := edges + [Edge(deps[i].dst, deps[i].src)];
      }
      assert deps[..|deps|] == deps;
    }

    method Reverse()
      modifies this
      ensures edges == Flipped(old(edges))
    {
      var reversed := [];
      for i := 0 to |edges|
        invariant reversed == Flipped(edges[..i])
      {
        assert edges[..i + 1][..i] == edges[..i];
        reversed := reversed + [Edge(edges[i].dst, edges[i].src)];
      }
      assert edges[..|edges|] == edges;
      edges := reversed;
    }

    /** Look at one edge that leaves `s`. */
    method Relax(s: NodeId, i: nat, ghost start: NodeId, dist: map<NodeId, nat>, todo: set<NodeId>)
      returns (dist': map<NodeId, nat>, todo': set<NodeId>, cyclic: bool)
      requires i < |edges| && edges[i].src == s && Visiting(edges, start, dist, todo, s, i)
      ensures cyclic ==> Cyclic(edges, start)
      ensures !cyclic ==> Visiting(edges, start, dist', todo', s, i + 1) && Progress(edges, start, dist, todo, s, dist', todo')
    {
      var d := edges[i].dst;
      var far := if d in dist then dist[d] else 0;
      far := if far < dist[s] + 1 then dist[s] + 1 else far;
      assert far == Further(dist, s, d);
      dist' := dist[d := far];
      todo' := todo + {d};
      cyclic := far > |edges|;
      if cyclic {
        RelaxKeepsReal(edges, start, dist, s, i);
        LongWalkLoops(edges, start, d, dist'[d]);
      } else {
        RelaxKeepsVisiting(edges, start, dist, todo, s, i);
        if d !in dist || far > dist[d] {
          GrowthShrinks(edges, start, dist, d, far);
        } else {
          assert dist' == dist;
        }
      }
    }

    /** Look at every edge that leaves `s`. */
    method Visit(s: NodeId, ghost start: NodeId, dist: map<NodeId, nat>, todo: set<NodeId>)
      returns (dist': map<NodeId, nat>, todo': set<NodeId>, cyclic: bool)
      requires Visiting(edges, start, dist, todo, s, 0)
      ensures cyclic ==> Cyclic(edges, start)
      ensures !cyclic ==> Explored(edges, start, dist', todo') && Progress(edges, start, dist, todo, s, dist', todo')
    {
      dist', todo' := dist, todo;
      for i := 0 to |edges|
        invariant Visiting(edges, start, dist', todo', s, i)
        invariant Progress(edges, start, dist, todo, s, dist', todo')
      {
        if edges[i].src == s {
          dist', todo', cyclic := Relax(s, i, start, dist', todo');
          if cyclic {
            return;
          }
        } else {
          VisitingNext(edges, start, dist', todo', s, i);
        }
      }
      VisitedIsExplored(edges, start, dist', todo', s);
      cyclic := false;
    }

    /** The worklist: visit a queued node until none is left, or a distance exceeds the number of edges. */
    method Explore(start: NodeId) returns (dist: map<NodeId, nat>, cyclic: bool)
      ensures cyclic ==> Cyclic(edges, start)
      ensures !cyclic ==> Explored(edges, start, dist, {})
    {
      var todo := {start};
      dist := map[start := 0];
      assert Walk(edges, start, [], start) && WalkOfLength(edges, start, start, 0);
      ghost var width := |Nodes(edges, start)|;
      while todo != {}
        invariant Explored(edges, start, dist, todo)
        decreases Growth(edges, start, dist), Total(Queue(width, edges, dist, todo))
      {
        var s :| s in todo;
        ghost var before, queued := dist, todo;
        VisitBegins(edges, start, dist, todo, s);
        todo := todo - {s};
        dist, todo, cyclic := Visit(s, start, dist, todo);
        if cyclic {
          return;
        }
        MeasureShrinks(edges, start, before, queued, s, dist, todo);
      }
      cyclic := false;
    }

    /** One bucket of nodes for each distance. */
    method Bucket(dist: map<NodeId, nat>) returns (path: seq<set<NodeId>>)
      ensures forall k | 0 <= k < |path| :: path[k] == set n | n in dist && dist[n] == k
      ensures forall n | n in dist :: dist[n] < |path|
    {
      path := [];
      var todo := dist.Keys;
      while todo != {}
        invariant todo <= dist.Keys
        invariant forall k | 0 <= k < |path| :: path[k] == set n | n in dist && n !in todo && dist[n] == k
        invariant forall n | n in dist && n !in todo :: dist[n] < |path|
        decreases |todo|
      {
        var n :| n in todo;
        while |path| < dist[n] + 1
          invariant forall k | 0 <= k < |path| :: path[k] == set n | n in dist && n !in todo && dist[n] == k
          invariant forall n | n in dist && n !in todo :: dist[n] < |path|
        {
          path := path + [{}];
        }
        path := path[dist[n] := path[dist[n]] + {n}];
        todo := todo - {n};
      }
    }

    /** The buckets one after the other, each in no particular order. */
    method Flatten(dist: map<NodeId, nat>, path: seq<set<NodeId>>) returns (result: seq<NodeId>)
      requires forall k | 0 <= k < |path| :: path[k] == set n | n in dist && dist[n] == k
      requires forall n | n in dist :: dist[n] < |path|
      ensures Distinct(result) && (forall n :: n in result <==> n in dist) && SortedBy(dist, result)
    {
      result := [];
      for k := 0 to |path|
        invariant Distinct(result) && (forall n :: n in result <==> n in dist && dist[n] < k) && SortedBy(dist, result)
      {
        var bucket := path[k];
        while bucket != {}
          invariant bucket <= path[k]
          invariant forall n :: n in result <==> n in dist && (dist[n] < k || (dist[n] == k && n !in bucket))
          invariant Distinct(result) && SortedBy(dist, result)
          decreases |bucket|
        {
          var n :| n in bucket;
          assert forall i | 0 <= i < |result| :: result[i] in result;
          result := result + [n];
          bucket := bucket - {n};
        }
      }
    }

    /** The nodes behind `start` in an order in which each comes after all it depends on. The answer is
        CYCLE exactly when a cycle can be reached, and then the previous result is left alone. */
    method BuildPath(start: NodeId, previous: seq<NodeId>) returns (error: ErrorCode, result: seq<NodeId>, ghost dist: map<NodeId, nat>)
      ensures error == CYCLE <==> Cyclic(edges, start)
      ensures error == CYCLE ==> result == previous
      ensures error == OK ==> Topological(edges, start, result)
      ensures error == OK ==> forall n | n in result :: n in dist && Longest(edges, start, n, dist[n])
      ensures error == OK ==> (forall n | n in result :: n in dist) && SortedBy(dist, result)
    {
      var distances, cyclic := Explore(start);
      dist := distances;
      if cyclic {
        return CYCLE, previous, dist;
      }
      RelaxedIsExact(edges, start, distances);
      var path := Bucket(distances);
      result := Flatten(distances, path);
      SortedIsTopological(edges, start, distances, result);
      error := OK;
    }
  }

  function Flipped(edges: seq<Edge>): seq<Edge> {
    if edges == [] then [] else Flipped(edges[..|edges| - 1]) + [Edge(edges[|edges| - 1].dst, edges[|edges| - 1].src)]
  }

  lemma {:induction false} FlippedAt(edges: seq<Edge>, i: nat)
    requires i < |edges|
    ensures |Flipped(edges)| == |edges| && Flipped(edges)[i] == Edge(edges[i].dst, edges[i].src)
  {
    var n := |edges| - 1;
    if i < n {
      FlippedAt(edges[..n], i);
    } else if n > 0 {
      FlippedAt(edges[..n], 0);
    }
  }

  lemma FlippedEvery(edges: seq<Edge>)
    ensures |Flipped(edges)| == |edges|
    ensures forall i | 0 <= i < |edges| :: Flipped(edges)[i] == Edge(edges[i].dst, edges[i].src)
  {
    if edges != [] {
      FlippedAt(edges, 0);
    }
    forall i | 0 <= i < |edges|
      ensures Flipped(edges)[i] == Edge(edges[i].dst, edges[i].src)
    {
      FlippedAt(edges, i);
    }
  }

  /** Reversing twice gives the graph back. */
  lemma {:induction false} FlippedTwice(edges: seq<Edge>)
    ensures Flipped(Flipped(edges)) == edges
  {
    var once := Flipped(edges);
    FlippedEvery(edges);
    FlippedEvery(once);
  }

  /** Reversing the edges reverses what can be reached. */
  lemma {:induction false} FlippedWalk(edges: seq<Edge>, a: NodeId, w: seq<nat>, b: NodeId)
    requires Walk(edges, a, w, b)
    ensures Reachable(Flipped(edges), b, a)
  {
    if w == [] {
      assert Walk(Flipped(edges), b, [], a);
    } else {
      var n := |w| - 1;
      var e := w[n];
      FlippedWalk(edges, a, w[..n], edges[e].src);
      FlippedAt(edges, e);
      var back :| Walk(Flipped(edges), edges[e].src, back, a);
      assert [e][..0] == [];
      assert Walk(Flipped(edges), b, [e], edges[e].src);
      WalkJoin(Flipped(edges), b, [e], edges[e].src, back, a);
    }
  }

  lemma ReverseReverses(edges: seq<Edge>, a: NodeId, b: NodeId)
    ensures Reachable(Flipped(edges), b, a) <==> Reachable(edges, a, b)
  {
    if w :| Walk(edges, a, w, b) {
      FlippedWalk(edges, a, w, b);
    }
    if w :| Walk(Flipped(edges), b, w, a) {
      FlippedWalk(Flipped(edges), b, w, a);
      FlippedTwice(edges);
    }
  }
}
