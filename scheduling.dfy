/**
 * The scheduling part of Graph.run in swarm/graph/graph.py: which nodes are useful,
 * their in-degrees, the zero-in-degree queue, and the bookkeeping after a node has run.
 * Everything here is about values; the graph object itself is in graph.dfy.
 */
module Scheduling {
  import opened Digraph
  import opened Nodes

  /** is_node_useful: v is in the node map and some output node can be reached from it. */
  ghost predicate Useful(nodes: seq<NodeId>, succ: Adj, outputNodes: seq<NodeId>, v: NodeId) {
    v in nodes && exists t :: t in outputNodes && Reach(succ, v, t)
  }

  /** useful_node_ids: the useful ids, in node-map order. */
  function UsefulIds(succ: Adj, nodes: seq<NodeId>, outputNodes: seq<NodeId>): (r: seq<NodeId>)
    requires Closed(succ) && Acyclic(succ) && forall n :: n in nodes ==> n in succ
    ensures forall v :: v in r <==> Useful(nodes, succ, outputNodes, v)
    ensures NoDup(nodes) ==> NoDup(r)
  {
    if nodes == [] then []
    else
      var init := nodes[..|nodes| - 1];
      var rest := UsefulIds(succ, init, outputNodes);
      assert forall v :: v in nodes <==> v in init || v == Last(nodes);
      assert forall v :: Useful(init, succ, outputNodes, v) ==> Useful(nodes, succ, outputNodes, v);
      assert NoDup(nodes) ==> NoDup(rest + [Last(nodes)]) by {
        if NoDup(nodes) {
          assert NoDup(init) && Last(nodes) !in init;
          NoDupAppend(rest, Last(nodes));
        }
      }
      if ReachesAny(succ, Last(nodes), set t | t in outputNodes) then rest + [Last(nodes)] else rest
  }

  /** The in_degree dictionary: the length of each useful node's predecessor list. */
  function InDegrees(pred: Adj, useful: seq<NodeId>): (r: map<NodeId, int>)
    requires forall v :: v in useful ==> v in pred
    ensures r.Keys == set v | v in useful
    ensures forall v :: v in r ==> r[v] == |pred[v]|
  {
    map v | v in useful :: |pred[v]|
  }

  /** zero_in_degree_queue: the useful nodes without predecessors, in node-map order. */
  function Sources(pred: Adj, useful: seq<NodeId>): (r: seq<NodeId>)
    requires forall v :: v in useful ==> v in pred
    ensures forall v :: v in r <==> v in useful && |pred[v]| == 0
    ensures NoDup(useful) ==> NoDup(r)
  {
    if useful == [] then []
    else
      var init := useful[..|useful| - 1];
      assert forall v :: v in useful <==> v in init || v == Last(useful);
      if |pred[Last(useful)]| == 0 then Sources(pred, init) + [Last(useful)] else Sources(pred, init)
  }

  /** How often v is named in the successor lists of the nodes ps, counting repeats. */
  function Hits(succ: Adj, ps: seq<NodeId>, v: NodeId): nat
    requires forall p :: p in ps ==> p in succ
  {
    if ps == [] then 0 else Hits(succ, ps[..|ps| - 1], v) + multiset(succ[Last(ps)])[v]
  }

  /**
   * The bookkeeping of the scheduling loop. `popped` are the nodes taken off the
   * queue so far; their successor lists have been processed, except for the entries
   * `pending` of the last one.
   */
  ghost predicate Kahn(succ: Adj, pred: Adj, useful: seq<NodeId>, indeg: map<NodeId, int>,
                       popped: seq<NodeId>, queue: seq<NodeId>, pending: multiset<NodeId>)
  {
    && (forall v :: v in useful ==> v in succ && v in pred)
    && indeg.Keys == (set v | v in useful)
    && (forall v :: v in popped + queue ==> v in useful)
    && NoDup(popped + queue)
    && (forall v :: v in useful ==> indeg[v] == |pred[v]| - Hits(succ, popped, v) + pending[v])
    && (forall v :: v in popped + queue ==> indeg[v] <= 0)
    && (forall v :: v in useful && indeg[v] <= 0 ==> v in popped + queue)
  }

  /** Every node of `order` was taken off the queue only once it had been named as often as its predecessor list is long. */
  ghost predicate Ordered(succ: Adj, pred: Adj, order: seq<NodeId>)
    requires forall v :: v in order ==> v in succ && v in pred
  {
    forall i :: 0 <= i < |order| ==> |pred[order[i]]| <= Hits(succ, order[..i], order[i])
  }

  /** The state before the loop: nothing popped, the sources queued. */
  lemma KahnStart(succ: Adj, pred: Adj, useful: seq<NodeId>)
    requires NoDup(useful) && forall v :: v in useful ==> v in succ && v in pred
    ensures Kahn(succ, pred, useful, InDegrees(pred, useful), [], Sources(pred, useful), multiset{})
  {
    assert [] + Sources(pred, useful) == Sources(pred, useful);
  }

  /** Taking the head of the queue: it joins `popped`, and its successor list is pending. */
  lemma KahnPop(succ: Adj, pred: Adj, useful: seq<NodeId>, indeg: map<NodeId, int>, popped: seq<NodeId>, queue: seq<NodeId>)
    requires queue != [] && Kahn(succ, pred, useful, indeg, popped, queue, multiset{})
    ensures Kahn(succ, pred, useful, indeg, popped + [queue[0]], queue[1..], multiset(succ[queue[0]]))
    ensures queue[0] !in popped && queue[0] in useful
    ensures |pred[queue[0]]| <= Hits(succ, popped, queue[0])
  {
    var cur := queue[0];
    var popped' := popped + [cur];
    assert popped' + queue[1..] == popped + queue;
    assert popped'[..|popped|] == popped;
    assert cur !in popped by {
      forall k | 0 <= k < |popped|
        ensures popped[k] != cur
      {
        assert (popped + queue)[k] == popped[k];
        assert (popped + queue)[|popped|] == cur;
      }
    }
    assert cur in popped + queue;
  }

  /** The node taken off the queue keeps the schedule ordered. */
  lemma OrderedPop(succ: Adj, pred: Adj, popped: seq<NodeId>, cur: NodeId)
    requires forall v :: v in popped + [cur] ==> v in succ && v in pred
    requires Ordered(succ, pred, popped) && |pred[cur]| <= Hits(succ, popped, cur)
    ensures Ordered(succ, pred, popped + [cur])
  {
    var popped' := popped + [cur];
    forall i | 0 <= i < |popped'|
      ensures |pred[popped'[i]]| <= Hits(succ, popped'[..i], popped'[i])
    {
      if i < |popped| {
        assert popped'[..i] == popped[..i];
      } else {
        assert popped'[..i] == popped;
      }
    }
  }

  /** One successor entry s of the node just run has been processed. */
  lemma ReleaseOne(succ: Adj, pred: Adj, useful: seq<NodeId>, indeg: map<NodeId, int>, popped: seq<NodeId>,
                   queue: seq<NodeId>, pending: multiset<NodeId>, s: NodeId, indeg': map<NodeId, int>, queue': seq<NodeId>)
    requires Kahn(succ, pred, useful, indeg, popped, queue, pending + multiset{s})
    requires s in useful ==> indeg' == indeg[s := indeg[s] - 1]
    requires s in useful ==> queue' == if indeg[s] - 1 == 0 then queue + [s] else queue
    requires s !in useful ==> indeg' == indeg && queue' == queue
    ensures Kahn(succ, pred, useful, indeg', popped, queue', pending)
  {
    if s in useful && indeg[s] - 1 == 0 {
      assert s !in popped + queue;
      assert popped + queue' == (popped + queue) + [s];
    }
  }

  /**
   * The loop over the successors of the node just run: every successor entry that is
   * useful lowers that node's in-degree, and a node whose in-degree reaches 0 joins
   * the queue.
   */
  method Release(succ: Adj, pred: Adj, useful: seq<NodeId>, indeg: map<NodeId, int>,
                 ghost popped: seq<NodeId>, queue: seq<NodeId>, cur: NodeId)
    returns (indeg': map<NodeId, int>, queue': seq<NodeId>)
    requires cur in succ && Kahn(succ, pred, useful, indeg, popped, queue, multiset(succ[cur]))
    ensures Kahn(succ, pred, useful, indeg', popped, queue', multiset{})
    ensures |queue| <= |queue'| && queue'[..|queue|] == queue
  {
    indeg', queue' := indeg, queue;
    var ss := succ[cur];
    for j := 0 to |ss|
      invariant Kahn(succ, pred, useful, indeg', popped, queue', multiset(ss[j..]))
      invariant |queue| <= |queue'| && queue'[..|queue|] == queue
    {
      var s := ss[j];
      assert multiset(ss[j..]) == multiset(ss[j + 1..]) + multiset{s} by {
        assert ss[j..] == [s] + ss[j + 1..];
      }
      ghost var indeg0, queue0 := indeg', queue';
      if s in useful {
        indeg' := indeg'[s := indeg'[s] - 1];
        if indeg'[s] == 0 {
          queue' := queue' + [s];
        }
      }
      ReleaseOne(succ, pred, useful, indeg0, popped, queue0, multiset(ss[j + 1..]), s, indeg', queue');
    }
  }

  /** One turn of the scheduling loop up to the release of the successors: the head of the queue is popped. */
  lemma Pop(succ: Adj, pred: Adj, useful: seq<NodeId>, indeg: map<NodeId, int>, popped: seq<NodeId>, queue: seq<NodeId>)
    requires queue != [] && Kahn(succ, pred, useful, indeg, popped, queue, multiset{}) && Ordered(succ, pred, popped)
    ensures Kahn(succ, pred, useful, indeg, popped + [queue[0]], queue[1..], multiset(succ[queue[0]]))
    ensures Ordered(succ, pred, popped + [queue[0]])
    ensures queue[0] in succ && |popped| < |indeg.Keys|
  {
    KahnPop(succ, pred, useful, indeg, popped, queue);
    OrderedPop(succ, pred, popped, queue[0]);
    KahnBound(succ, pred, useful, indeg, popped + [queue[0]], queue[1..], multiset(succ[queue[0]]));
  }

  /** The queue and the popped nodes never outnumber the useful nodes: the scheduling loop ends. */
  lemma KahnBound(succ: Adj, pred: Adj, useful: seq<NodeId>, indeg: map<NodeId, int>,
                  popped: seq<NodeId>, queue: seq<NodeId>, pending: multiset<NodeId>)
    requires Kahn(succ, pred, useful, indeg, popped, queue, pending)
    ensures |popped| + |queue| <= |indeg.Keys|
  {
    NoDupCard(popped + queue);
    SubsetCardLe((set x | x in popped + queue), indeg.Keys);
  }

  // ---------------------------------------------------------------------------
  // What the bookkeeping means when the edge lists are symmetric.
  // ---------------------------------------------------------------------------

  lemma NoDupCard(s: seq<NodeId>)
    requires NoDup(s)
    ensures |set x | x in s| == |s|
  {
    if s != [] {
      var init := s[..|s| - 1];
      NoDupCard(init);
      assert (set x | x in s) == (set x | x in init) + {Last(s)};
      assert Last(s) !in init;
    }
  }

  /** On symmetric lists, the count of v among the successor lists of distinct nodes ps is how many of ps are predecessors of v. */
  lemma {:induction false} HitsAreCommonPreds(succ: Adj, pred: Adj, ps: seq<NodeId>, v: NodeId)
    requires Symmetric(Links(succ, pred)) && v in pred && NoDup(ps) && forall p :: p in ps ==> p in succ
    ensures Hits(succ, ps, v) == |(set p | p in ps) * (set p | p in pred[v])|
  {
    if ps != [] {
      var init := ps[..|ps| - 1];
      var x := Last(ps);
      assert NoDup(init);
      HitsAreCommonPreds(succ, pred, init, v);
      assert Hits(succ, ps, v) == Hits(succ, init, v) + multiset(succ[x])[v];
      NamedOnceIffPred(succ, pred, x, v);
      var A := set p | p in init;
      assert (set p | p in ps) == A + {x};
      assert x !in A;
      CommonWithOneMore(A, (set p | p in pred[v]), x);
    }
  }

  /** On symmetric lists, v is named once in the successor list of x if x is a predecessor of v, and not at all otherwise. */
  lemma NamedOnceIffPred(succ: Adj, pred: Adj, x: NodeId, v: NodeId)
    requires Symmetric(Links(succ, pred)) && v in pred && x in succ
    ensures multiset(succ[x])[v] == if x in pred[v] then 1 else 0
  {
    if x in pred[v] {
      assert Edge(succ, x, v);
      MultisetOfNoDup(succ[x], v);
    } else {
      assert !Edge(succ, x, v);
    }
  }

  lemma CommonWithOneMore(A: set<NodeId>, P: set<NodeId>, x: NodeId)
    requires x !in A
    ensures |(A + {x}) * P| == |A * P| + if x in P then 1 else 0
  {
    if x in P {
      assert (A + {x}) * P == (A * P) + {x};
    } else {
      assert (A + {x}) * P == A * P;
    }
  }

  lemma MultisetOfNoDup(s: seq<NodeId>, v: NodeId)
    requires NoDup(s) && v in s
    ensures multiset(s)[v] == 1
  {
    var i :| 0 <= i < |s| && s[i] == v;
    assert s == s[..i] + [v] + s[i + 1..];
    assert v !in s[..i] && v !in s[i + 1..];
  }

  /** A finite set is only as large as a subset when the two are equal. */
  lemma SubsetCard(A: set<NodeId>, B: set<NodeId>)
    requires A <= B && |A| == |B|
    ensures A == B
  {
    assert B == A + (B - A);
    assert |B - A| == 0;
  }

  lemma SubsetCardLe(A: set<NodeId>, B: set<NodeId>)
    requires A <= B
    ensures |A| <= |B|
  {
    if A != {} {
      var x :| x in A;
      SubsetCardLe(A - {x}, B - {x});
    }
  }

  /** Ordered, on symmetric lists: every predecessor of a scheduled node was scheduled before it. */
  lemma OrderedPredsFirst(succ: Adj, pred: Adj, order: seq<NodeId>)
    requires Symmetric(Links(succ, pred)) && NoDup(order) && forall v :: v in order ==> v in succ && v in pred
    requires Ordered(succ, pred, order)
    ensures forall i, p :: 0 <= i < |order| && p in pred[order[i]] ==> p in order[..i]
  {
    forall i | 0 <= i < |order|
      ensures forall p :: p in pred[order[i]] ==> p in order[..i]
    {
      PredsBefore(succ, pred, order[..i], order[i]);
    }
  }

  /** A node named, among the successor lists of distinct nodes ps, as often as it has predecessors has all of them among ps. */
  lemma PredsBefore(succ: Adj, pred: Adj, ps: seq<NodeId>, v: NodeId)
    requires Symmetric(Links(succ, pred)) && v in pred && NoDup(ps) && forall p :: p in ps ==> p in succ
    requires |pred[v]| <= Hits(succ, ps, v)
    ensures forall p :: p in pred[v] ==> p in ps
  {
    var A := set q | q in ps;
    var P := set q | q in pred[v];
    HitsAreCommonPreds(succ, pred, ps, v);
    NoDupCard(pred[v]);
    SubsetCardLe(A * P, P);
    SubsetCard(A * P, P);
    assert forall p :: p in pred[v] ==> p in P;
  }

  /** Among finitely many nodes, one reaches at least as many nodes as any other. */
  lemma MostReaching(succ: Adj, R: set<NodeId>) returns (u: NodeId)
    requires R != {}
    ensures u in R && forall x :: x in R ==> |ReachSet(succ, x)| <= |ReachSet(succ, u)|
  {
    var x :| x in R;
    if R == {x} {
      u := x;
    } else {
      var w := MostReaching(succ, R - {x});
      u := if |ReachSet(succ, x)| <= |ReachSet(succ, w)| then w else x;
    }
  }

  /**
   * On an acyclic graph with symmetric lists, whenever some useful node has not been
   * popped, there is one that is named in the successor lists of popped nodes as often
   * as it has predecessors: one that reaches the most nodes. This needs the
   * predecessors of nodes in the node map to be in the node map as well.
   */
  lemma ReadyNode(succ: Adj, pred: Adj, nodes: seq<NodeId>, outputNodes: seq<NodeId>, useful: seq<NodeId>,
                  popped: seq<NodeId>) returns (u: NodeId)
    requires LinksOk(Links(succ, pred)) && Acyclic(succ) && Symmetric(Links(succ, pred))
    requires forall v :: v in nodes ==> v in succ
    requires forall v :: v in useful <==> Useful(nodes, succ, outputNodes, v)
    requires forall v :: v in nodes ==> forall p :: p in pred[v] ==> p in nodes
    requires NoDup(popped) && forall v :: v in popped ==> v in succ
    requires exists v :: v in useful && v !in popped
    ensures u in useful && u !in popped && u in pred && Hits(succ, popped, u) == |pred[u]|
  {
    var R := set v | v in useful && v !in popped;
    var v0 :| v0 in useful && v0 !in popped;
    assert v0 in R;
    u := MostReaching(succ, R);
    var P := set q | q in pred[u];
    var A := set q | q in popped;
    forall p | p in P
      ensures p in A
    {
      assert Edge(succ, p, u);
      var t :| t in outputNodes && Reach(succ, u, t);
      ReachPrepend(succ, p, u, t);
      SuccReachSmaller(succ, p, u);
      assert p !in R;
    }
    HitsAreCommonPreds(succ, pred, popped, u);
    NoDupCard(pred[u]);
    assert A * P == P;
  }

  /**
   * When the queue runs dry on an acyclic graph with symmetric lists, every useful
   * node has been popped, provided that the predecessors of nodes in the node map are
   * in the node map as well.
   */
  lemma Complete(succ: Adj, pred: Adj, nodes: seq<NodeId>, outputNodes: seq<NodeId>, useful: seq<NodeId>,
                 indeg: map<NodeId, int>, popped: seq<NodeId>)
    requires LinksOk(Links(succ, pred)) && Acyclic(succ) && Symmetric(Links(succ, pred))
    requires forall v :: v in nodes ==> v in succ
    requires forall v :: v in useful <==> Useful(nodes, succ, outputNodes, v)
    requires forall v :: v in nodes ==> forall p :: p in pred[v] ==> p in nodes
    requires Kahn(succ, pred, useful, indeg, popped, [], multiset{})
    ensures forall v :: Useful(nodes, succ, outputNodes, v) ==> v in popped
  {
    assert popped + [] == popped;
    forall v | Useful(nodes, succ, outputNodes, v)
      ensures v in popped
    {
      if v !in popped {
        var u := ReadyNode(succ, pred, nodes, outputNodes, useful, popped);
        assert false;
      }
    }
  }
}
