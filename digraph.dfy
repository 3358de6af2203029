/**
 * Directed graphs over node ids, as the node objects' successor lists describe
 * them: walks, reachability, acyclicity, and the recursive forward search that
 * both `check_cycle` (composite_graph.py) and `is_node_useful` (graph.py) run.
 */
module Digraph {

  type NodeId = string

  /** For every node id, the ordered list a node object keeps (its successors or its predecessors). */
  type Adj = map<NodeId, seq<NodeId>>

  predicate Edge(adj: Adj, a: NodeId, b: NodeId) {
    a in adj && b in adj[a]
  }

  /** Every node named in a list has a list of its own. */
  ghost predicate Closed(adj: Adj) {
    forall a :: a in adj ==> forall b :: b in adj[a] ==> b in adj
  }

  /** Replacing one list by a list of known nodes keeps every named node present. */
  lemma ClosedUpdate(adj: Adj, k: NodeId, s: seq<NodeId>)
    requires Closed(adj) && forall x :: x in s ==> x in adj || x == k
    ensures Closed(adj[k := s])
  {
  }

  predicate NoDup<T(==)>(s: seq<T>) {
    forall i, j :: 0 <= i < j < |s| ==> s[i] != s[j]
  }

  /** No list names the same node twice. */
  ghost predicate NoDupLists(adj: Adj) {
    forall a :: a in adj ==> NoDup(adj[a])
  }

  /** `pred` is the exact mirror of `succ`: b follows a iff a precedes b. */
  ghost predicate Mirror(succ: Adj, pred: Adj) {
    && succ.Keys == pred.Keys
    && forall a, b :: Edge(succ, a, b) <==> Edge(pred, b, a)
  }

  ghost predicate IsWalk(adj: Adj, w: seq<NodeId>) {
    |w| >= 1 && forall i :: 0 <= i < |w| - 1 ==> Edge(adj, w[i], w[i + 1])
  }

  /** b can be reached from a by following zero or more edges. */
  ghost predicate Reach(adj: Adj, a: NodeId, b: NodeId) {
    exists w {:trigger IsWalk(adj, w)} :: IsWalk(adj, w) && w[0] == a && w[|w| - 1] == b
  }

  /** No edge can be followed back to where it started. */
  ghost predicate Acyclic(adj: Adj) {
    forall a, b :: Edge(adj, a, b) ==> !Reach(adj, b, a)
  }

  ghost function ReachSet(adj: Adj, a: NodeId): set<NodeId> {
    set v | v in adj.Keys && Reach(adj, a, v)
  }

  /** The edge relation of `adj'` is that of `adj` plus the edge x -> y. */
  ghost predicate AddsEdge(adj: Adj, adj': Adj, x: NodeId, y: NodeId) {
    forall a, b :: Edge(adj', a, b) <==> Edge(adj, a, b) || (a == x && b == y)
  }

  /** Every edge of `adj` is an edge of `adj'`. */
  ghost predicate SubGraph(adj: Adj, adj': Adj) {
    forall a, b :: Edge(adj, a, b) ==> Edge(adj', a, b)
  }

  /** `rank` orders every edge forward: a topological certificate. */
  ghost predicate RankedBy(adj: Adj, rank: map<NodeId, int>) {
    forall a, b :: Edge(adj, a, b) ==> a in rank && b in rank && rank[a] < rank[b]
  }

  lemma ReachRefl(adj: Adj, a: NodeId)
    ensures Reach(adj, a, a)
  {
    assert IsWalk(adj, [a]);
  }

  lemma ReachEdge(adj: Adj, a: NodeId, b: NodeId)
    requires Edge(adj, a, b)
    ensures Reach(adj, a, b)
  {
    assert IsWalk(adj, [a, b]);
  }

  lemma ReachPrepend(adj: Adj, a: NodeId, b: NodeId, c: NodeId)
    requires Edge(adj, a, b) && Reach(adj, b, c)
    ensures Reach(adj, a, c)
  {
    var w :| IsWalk(adj, w) && w[0] == b && w[|w| - 1] == c;
    var w' := [a] + w;
    forall i | 0 <= i < |w'| - 1
      ensures Edge(adj, w'[i], w'[i + 1])
    {
      if i > 0 {
        assert w'[i] == w[i - 1] && w'[i + 1] == w[i];
      }
    }
    assert IsWalk(adj, w');
  }

  lemma ReachAppend(adj: Adj, a: NodeId, b: NodeId, c: NodeId)
    requires Reach(adj, a, b) && Edge(adj, b, c)
    ensures Reach(adj, a, c)
  {
    var w :| IsWalk(adj, w) && w[0] == a && w[|w| - 1] == b;
    var w' := w + [c];
    forall i | 0 <= i < |w'| - 1
      ensures Edge(adj, w'[i], w'[i + 1])
    {
      if i < |w| - 1 {
        assert w'[i] == w[i] && w'[i + 1] == w[i + 1];
      }
    }
    assert IsWalk(adj, w');
  }

  lemma ReachTrans(adj: Adj, a: NodeId, b: NodeId, c: NodeId)
    requires Reach(adj, a, b) && Reach(adj, b, c)
    ensures Reach(adj, a, c)
  {
    var w1 :| IsWalk(adj, w1) && w1[0] == a && w1[|w1| - 1] == b;
    var w2 :| IsWalk(adj, w2) && w2[0] == b && w2[|w2| - 1] == c;
    var w := w1 + w2[1..];
    forall i | 0 <= i < |w| - 1
      ensures Edge(adj, w[i], w[i + 1])
    {
      if i < |w1| - 1 {
        assert w[i] == w1[i] && w[i + 1] == w1[i + 1];
      } else {
        var k := i - (|w1| - 1);
        assert w[i] == w2[k] && w[i + 1] == w2[k + 1];
      }
    }
    assert IsWalk(adj, w);
  }

  /** A walk of at least one edge leaves through some successor. */
  lemma ReachFirstStep(adj: Adj, a: NodeId, b: NodeId) returns (s: NodeId)
    requires Reach(adj, a, b) && a != b
    ensures Edge(adj, a, s) && Reach(adj, s, b)
  {
    var w :| IsWalk(adj, w) && w[0] == a && w[|w| - 1] == b;
    s := w[1];
    var w' := w[1..];
    forall i | 0 <= i < |w'| - 1
      ensures Edge(adj, w'[i], w'[i + 1])
    {
      assert w'[i] == w[i + 1] && w'[i + 1] == w[i + 2];
    }
    assert IsWalk(adj, w');
  }

  /** Reachability only grows when edges are added. */
  lemma {:induction false} ReachMono(adj: Adj, adj': Adj, a: NodeId, b: NodeId)
    requires SubGraph(adj, adj') && Reach(adj, a, b)
    ensures Reach(adj', a, b)
  {
    var w :| IsWalk(adj, w) && w[0] == a && w[|w| - 1] == b;
    assert IsWalk(adj', w);
  }

  /** After adding x -> y, a new walk either is old or passes through that edge. */
  lemma {:induction false} ReachAfterAdd(adj: Adj, adj': Adj, x: NodeId, y: NodeId, w: seq<NodeId>)
    requires AddsEdge(adj, adj', x, y) && IsWalk(adj', w)
    ensures Reach(adj, w[0], w[|w| - 1]) || (Reach(adj, w[0], x) && Reach(adj, y, w[|w| - 1]))
    decreases |w|
  {
    if |w| == 1 {
      ReachRefl(adj, w[0]);
    } else {
      var w0 := w[..|w| - 1];
      assert IsWalk(adj', w0) by {
        forall i | 0 <= i < |w0| - 1
          ensures Edge(adj', w0[i], w0[i + 1])
        {
          assert w0[i] == w[i] && w0[i + 1] == w[i + 1];
        }
      }
      ReachAfterAdd(adj, adj', x, y, w0);
      var p, v := w[|w| - 2], w[|w| - 1];
      assert w0[|w0| - 1] == p && w0[0] == w[0];
      assert Edge(adj', p, v);
      if Edge(adj, p, v) {
        if Reach(adj, w[0], p) {
          ReachAppend(adj, w[0], p, v);
        } else {
          ReachAppend(adj, y, p, v);
        }
      } else {
        assert p == x && v == y;
        ReachRefl(adj, y);
      }
    }
  }

  /** Adding an edge x -> y when y cannot already reach x keeps the graph acyclic. */
  lemma AddSafeEdgeKeepsAcyclic(adj: Adj, adj': Adj, x: NodeId, y: NodeId)
    requires Acyclic(adj) && AddsEdge(adj, adj', x, y) && !Reach(adj, y, x)
    ensures Acyclic(adj')
  {
    forall a, b | Edge(adj', a, b)
      ensures !Reach(adj', b, a)
    {
      if Reach(adj', b, a) {
        var w :| IsWalk(adj', w) && w[0] == b && w[|w| - 1] == a;
        ReachAfterAdd(adj, adj', x, y, w);
        if Edge(adj, a, b) {
          if !Reach(adj, b, a) {
            ReachAppend(adj, y, a, b);
            ReachTrans(adj, y, b, x);
          }
        }
        assert false;
      }
    }
  }

  /** Taking edges away never creates a cycle. */
  lemma SubGraphKeepsAcyclic(adj: Adj, adj': Adj)
    requires Acyclic(adj) && SubGraph(adj', adj)
    ensures Acyclic(adj')
  {
    forall a, b | Edge(adj', a, b)
      ensures !Reach(adj', b, a)
    {
      if Reach(adj', b, a) {
        ReachMono(adj', adj, b, a);
        assert false;
      }
    }
  }

  lemma {:induction false} RankedWalk(adj: Adj, rank: map<NodeId, int>, w: seq<NodeId>)
    requires RankedBy(adj, rank) && IsWalk(adj, w) && |w| >= 2
    ensures w[0] in rank && w[|w| - 1] in rank && rank[w[0]] < rank[w[|w| - 1]]
    decreases |w|
  {
    assert Edge(adj, w[0], w[1]);
    if |w| > 2 {
      var w' := w[1..];
      assert IsWalk(adj, w') by {
        forall i | 0 <= i < |w'| - 1
          ensures Edge(adj, w'[i], w'[i + 1])
        {
          assert w'[i] == w[i + 1] && w'[i + 1] == w[i + 2];
        }
      }
      RankedWalk(adj, rank, w');
    }
  }

  /** A graph whose edges all go forward in some ranking has no cycle. */
  lemma RankedIsAcyclic(adj: Adj, rank: map<NodeId, int>)
    requires RankedBy(adj, rank)
    ensures Acyclic(adj)
  {
    forall a, b | Edge(adj, a, b)
      ensures !Reach(adj, b, a)
    {
      if Reach(adj, b, a) {
        var w :| IsWalk(adj, w) && w[0] == b && w[|w| - 1] == a;
        if |w| >= 2 {
          RankedWalk(adj, rank, w);
        }
        assert false;
      }
    }
  }

  lemma SuccReachSmaller(adj: Adj, n: NodeId, s: NodeId)
    requires Acyclic(adj) && n in adj && Edge(adj, n, s)
    ensures ReachSet(adj, s) < ReachSet(adj, n)
    ensures |ReachSet(adj, s)| < |ReachSet(adj, n)|
  {
    forall v | v in ReachSet(adj, s)
      ensures v in ReachSet(adj, n)
    {
      ReachPrepend(adj, n, s, v);
    }
    ReachRefl(adj, n);
    assert n in ReachSet(adj, n) && n !in ReachSet(adj, s);
    var rest := ReachSet(adj, n) - ReachSet(adj, s);
    assert n in rest;
    assert ReachSet(adj, n) == ReachSet(adj, s) + rest;
  }

  /**
   * The forward search of check_cycle / is_node_useful: true iff n is a target or
   * some successor, searched in list order, leads to a target. Like the source it
   * keeps no visited set; it terminates because every step shrinks the set of
   * nodes still reachable, which needs an acyclic graph.
   */
  function ReachesAny(adj: Adj, n: NodeId, targets: set<NodeId>): (r: bool)
    requires Closed(adj) && Acyclic(adj) && n in adj
    ensures r <==> exists t :: t in targets && Reach(adj, n, t)
    decreases |ReachSet(adj, n)|, 1
  {
    if n in targets then
      ReachRefl(adj, n);
      true
    else
      ReachViaAll(adj, n);
      SomeSuccessorReaches(adj, n, 0, targets)
  }

  /** Whether one of n's successors from position i on reaches a target. */
  function SomeSuccessorReaches(adj: Adj, n: NodeId, i: nat, targets: set<NodeId>): (r: bool)
    requires Closed(adj) && Acyclic(adj) && n in adj && i <= |adj[n]| && n !in targets
    ensures r <==> exists t :: t in targets && ReachVia(adj, n, i, t)
    decreases |ReachSet(adj, n)|, 0, |adj[n]| - i
  {
    if i == |adj[n]| then
      false
    else
      var s := adj[n][i];
      assert Edge(adj, n, s);
      SuccReachSmaller(adj, n, s);
      ReachesAny(adj, s, targets) || SomeSuccessorReaches(adj, n, i + 1, targets)
  }

  /** t is reached from n through one of the successors at position i or later. */
  ghost predicate ReachVia(adj: Adj, n: NodeId, i: nat, t: NodeId)
    requires n in adj
  {
    exists j :: i <= j < |adj[n]| && Reach(adj, adj[n][j], t)
  }

  /** Every node reached from n other than n is reached through one of its successors. */
  lemma ReachViaAll(adj: Adj, n: NodeId)
    requires n in adj
    ensures forall t :: t != n ==> (Reach(adj, n, t) <==> ReachVia(adj, n, 0, t))
  {
    forall t | t != n
      ensures Reach(adj, n, t) <==> ReachVia(adj, n, 0, t)
    {
      ReachViaOne(adj, n, t);
    }
  }

  lemma ReachViaOne(adj: Adj, n: NodeId, t: NodeId)
    requires n in adj && n != t
    ensures Reach(adj, n, t) <==> ReachVia(adj, n, 0, t)
  {
    if Reach(adj, n, t) {
      var s := ReachFirstStep(adj, n, t);
      var j :| 0 <= j < |adj[n]| && adj[n][j] == s;
      assert Reach(adj, adj[n][j], t);
    }
    if ReachVia(adj, n, 0, t) {
      var j :| 0 <= j < |adj[n]| && Reach(adj, adj[n][j], t);
      ReachPrepend(adj, n, adj[n][j], t);
    }
  }
}
