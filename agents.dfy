/**
 * The build_graph methods of the agents that wire their operations into a single chain:
 * CrosswordsReflection, CrosswordsToT and CrosswordsBruteForceOpt
 * (swarm/environment/agents/crosswords/), COT (swarm/environment/agents/cot.py) and
 * CodeReact (swarm/environment/agents/humaneval/code_react.py).
 *
 * An agent's constructor is Graph.__init__ followed by build_graph, so each builder here
 * starts from a new, empty graph. The random ids the node constructors draw are supplied,
 * distinct, in the order the nodes are created.
 */
module Agents {
  import opened Wrappers
  import opened Digraph
  import opened Nodes
  import opened Arenas
  import opened Graphs

  // ---------------------------------------------------------------------------------------
  // The chain as values

  /**
   * The successor lists of node objects ids created in order, each one linked after the
   * one before it: the newest has none, the one before it has the newest.
   */
  function ChainSucc(ids: seq<NodeId>): Adj {
    if ids == [] then map[]
    else
      var p := ids[..|ids| - 1];
      (if p == [] then ChainSucc(p) else ChainSucc(p)[Last(p) := [Last(ids)]])[Last(ids) := []]
  }

  /** The predecessor lists of the same chain: the newest has the one before it. */
  function ChainPred(ids: seq<NodeId>): Adj {
    if ids == [] then map[]
    else
      var p := ids[..|ids| - 1];
      ChainPred(p)[Last(ids) := if p == [] then [] else [Last(p)]]
  }

  /** The kinds of the node objects ids. */
  function KindMap(ids: seq<NodeId>, ks: seq<Kind>): map<NodeId, Kind>
    requires |ids| == |ks|
  {
    if ids == [] then map[] else KindMap(ids[..|ids| - 1], ks[..|ks| - 1])[Last(ids) := Last(ks)]
  }

  /** One more node at the end of the chain, as map updates. */
  lemma SnocMaps(ids: seq<NodeId>, ks: seq<Kind>, id: NodeId, kind: Kind)
    requires |ids| == |ks| && id !in ChainSucc(ids)
    ensures ids == [] ==> ChainSucc(ids + [id]) == ChainSucc(ids)[id := []] && ChainPred(ids + [id]) == ChainPred(ids)[id := []]
    ensures ids != [] ==> ChainSucc(ids + [id]) == ChainSucc(ids)[id := []][Last(ids) := [id]]
    ensures ids != [] ==> ChainPred(ids + [id]) == ChainPred(ids)[id := []][id := [Last(ids)]]
    ensures KindMap(ids + [id], ks + [kind]) == KindMap(ids, ks)[id := kind]
  {
    assert (ids + [id])[..|ids|] == ids && (ks + [kind])[..|ks|] == ks;
    if ids != [] {
      assert Last(ids) != id;
      assert ChainSucc(ids)[Last(ids) := [id]][id := []] == ChainSucc(ids)[id := []][Last(ids) := [id]];
      assert ChainPred(ids)[id := []][id := [Last(ids)]] == ChainPred(ids)[id := [Last(ids)]];
    }
  }

  /** The newest node of a chain has no successor. */
  lemma NewestEnds(ids: seq<NodeId>)
    requires ids != []
    ensures Last(ids) in ChainSucc(ids) && ChainSucc(ids)[Last(ids)] == []
  {
  }

  /** The chain's lists are exactly those of its nodes. */
  lemma {:induction false} ChainKeys(ids: seq<NodeId>)
    ensures ChainSucc(ids).Keys == ChainPred(ids).Keys
    ensures forall x :: x in ChainSucc(ids) <==> x in ids
  {
    if ids != [] {
      var p := ids[..|ids| - 1];
      ChainKeys(p);
      assert ids == p + [Last(ids)];
    }
  }

  /** The next id is new to the chain on the ids before it. */
  lemma NextFresh(ids: seq<NodeId>, n: nat)
    requires NoDup(ids) && n < |ids|
    ensures ids[n] !in ids[..n] && ids[n] !in ChainSucc(ids[..n])
    ensures ids[..n + 1] == ids[..n] + [ids[n]]
  {
    ChainKeys(ids[..n]);
  }

  /** The first and the newest node of a chain on a prefix of ids. */
  lemma PrefixEnds(ids: seq<NodeId>, n: nat)
    requires 0 < n <= |ids|
    ensures ids[..n][0] == ids[0] && Last(ids[..n]) == ids[n - 1]
  {
  }

  // ---------------------------------------------------------------------------------------
  // What the chain is

  /**
   * The successor and predecessor lists of exactly the node objects ids: each one is the
   * only successor of the one before it and the only predecessor of the one after it.
   */
  ghost predicate ChainLinks(succ: Adj, pred: Adj, ids: seq<NodeId>) {
    && NoDup(ids) && succ.Keys == pred.Keys
    && (forall n :: n in succ <==> n in ids)
    && (forall k {:trigger succ[ids[k]]} :: 0 <= k < |ids| ==> ids[k] in succ && succ[ids[k]] == Next(ids, k))
    && (forall k {:trigger pred[ids[k]]} :: 0 <= k < |ids| ==> ids[k] in pred && pred[ids[k]] == Prev(ids, k))
  }

  /** The node after position k, if any. */
  function Next(ids: seq<NodeId>, k: nat): seq<NodeId>
    requires k < |ids|
  {
    if k + 1 < |ids| then [ids[k + 1]] else []
  }

  /** The node before position k, if any. */
  function Prev(ids: seq<NodeId>, k: nat): seq<NodeId>
    requires k < |ids|
  {
    if k > 0 then [ids[k - 1]] else []
  }

  /** The lists of the node at position k. */
  lemma ChainAt(succ: Adj, pred: Adj, ids: seq<NodeId>, k: nat)
    requires ChainLinks(succ, pred, ids) && k < |ids|
    ensures ids[k] in succ && succ[ids[k]] == Next(ids, k) && ids[k] in pred && pred[ids[k]] == Prev(ids, k)
  {
    assert succ[ids[k]] == Next(ids, k) && pred[ids[k]] == Prev(ids, k);
  }

  /** The node objects ids have the given kinds, in order. */
  ghost predicate ChainKinds(kinds: map<NodeId, Kind>, ids: seq<NodeId>, ks: seq<Kind>) {
    |ids| == |ks| && forall k :: 0 <= k < |ids| ==> ids[k] in kinds && kinds[ids[k]] == ks[k]
  }

  /** n copies of a kind. */
  function Repeat(kind: Kind, n: nat): (r: seq<Kind>)
    ensures |r| == n && forall k :: 0 <= k < n ==> r[k] == kind
  {
    seq(n, _ => kind)
  }

  /** How many nodes of a kind the chain holds. */
  function CountKind(kinds: seq<Kind>, kind: Kind): nat {
    if kinds == [] then 0 else CountKind(kinds[..|kinds| - 1], kind) + (if Last(kinds) == kind then 1 else 0)
  }

  /** Creating a node object after the chain and linking the chain's last node to it extends the chain by one. */
  lemma LinksExtend(succ: Adj, pred: Adj, ids: seq<NodeId>, id: NodeId)
    requires ChainLinks(succ, pred, ids) && id !in succ
    ensures ids == [] ==> ChainLinks(succ[id := []], pred[id := []], ids + [id])
    ensures ids != [] ==> ChainLinks(succ[id := []][Last(ids) := [id]], pred[id := [Last(ids)]], ids + [id])
  {
    var ids2 := ids + [id];
    forall k | 0 <= k < |ids|
      ensures ids[k] != id
    {
      ChainAt(succ, pred, ids, k);
    }
    assert NoDup(ids2);
    var succ2 := if ids == [] then succ[id := []] else succ[id := []][Last(ids) := [id]];
    var pred2 := if ids == [] then pred[id := []] else pred[id := [Last(ids)]];
    if ids != [] {
      ChainAt(succ, pred, ids, |ids| - 1);
    }
    forall k | 0 <= k < |ids2|
      ensures ids2[k] in succ2 && succ2[ids2[k]] == Next(ids2, k)
      ensures ids2[k] in pred2 && pred2[ids2[k]] == Prev(ids2, k)
    {
      if k < |ids| {
        ChainAt(succ, pred, ids, k);
        assert ids2[k] == ids[k] && ids[k] != id;
      }
    }
  }

  /** add_successor from a node without successors to a node without predecessors. */
  lemma FirstEdge(l: Links, a: NodeId, b: NodeId)
    requires a in l.succ && b in l.pred && l.succ[a] == [] && l.pred[b] == []
    ensures Nodes.AddSuccessor(l, a, b) == Links(l.succ[a := [b]], l.pred[b := [a]])
  {
    assert l.succ[a] + [b] == [b] && l.pred[b] + [a] == [a];
  }

  lemma KindsExtend(kinds: map<NodeId, Kind>, ids: seq<NodeId>, ks: seq<Kind>, id: NodeId, kind: Kind)
    requires ChainKinds(kinds, ids, ks) && id !in ids
    ensures ChainKinds(kinds[id := kind], ids + [id], ks + [kind])
  {
    forall k | 0 <= k < |ids|
      ensures (ids + [id])[k] != id
    {
      assert (ids + [id])[k] == ids[k];
    }
  }

  /** The chain's maps give every node its neighbours in the chain and its kind. */
  lemma {:induction false} ChainShape(ids: seq<NodeId>, ks: seq<Kind>)
    requires NoDup(ids) && |ids| == |ks|
    ensures ChainLinks(ChainSucc(ids), ChainPred(ids), ids) && ChainKinds(KindMap(ids, ks), ids, ks)
  {
    if ids != [] {
      var p, id := ids[..|ids| - 1], Last(ids);
      var pk, kind := ks[..|ks| - 1], Last(ks);
      assert ids == p + [id] && ks == pk + [kind];
      assert NoDup(p) by {
        forall i, j | 0 <= i < j < |p|
          ensures p[i] != p[j]
        {
          assert p[i] == ids[i] && p[j] == ids[j];
        }
      }
      assert id !in p by {
        forall i | 0 <= i < |p|
          ensures p[i] != id
        {
          assert p[i] == ids[i] && id == ids[|ids| - 1];
        }
      }
      ChainShape(p, pk);
      ChainKeys(p);
      SnocMaps(p, pk, id, kind);
      LinksExtend(ChainSucc(p), ChainPred(p), p, id);
      KindsExtend(KindMap(p, pk), p, pk, id, kind);
    }
  }

  /** A successor edge of a chain goes from some position to the next one. */
  lemma SuccAt(succ: Adj, pred: Adj, ids: seq<NodeId>, x: NodeId, y: NodeId) returns (k: nat)
    requires ChainLinks(succ, pred, ids) && Edge(succ, x, y)
    ensures k + 1 < |ids| && ids[k] == x && ids[k + 1] == y
  {
    k :| 0 <= k < |ids| && ids[k] == x;
    ChainAt(succ, pred, ids, k);
  }

  /** A predecessor edge of a chain goes from some position to the one before it. */
  lemma PredAt(succ: Adj, pred: Adj, ids: seq<NodeId>, y: NodeId, x: NodeId) returns (k: nat)
    requires ChainLinks(succ, pred, ids) && Edge(pred, y, x)
    ensures 0 < k < |ids| && ids[k] == y && ids[k - 1] == x
  {
    k :| 0 <= k < |ids| && ids[k] == y;
    ChainAt(succ, pred, ids, k);
  }

  /** A chain's successor and predecessor lists are each other's mirror. */
  lemma ChainSymmetric(succ: Adj, pred: Adj, ids: seq<NodeId>)
    requires ChainLinks(succ, pred, ids)
    ensures Symmetric(Links(succ, pred))
  {
    forall x, y
      ensures Edge(succ, x, y) <==> Edge(pred, y, x)
    {
      if Edge(succ, x, y) {
        var k := SuccAt(succ, pred, ids, x, y);
        ChainAt(succ, pred, ids, k + 1);
      }
      if Edge(pred, y, x) {
        var k := PredAt(succ, pred, ids, y, x);
        ChainAt(succ, pred, ids, k - 1);
      }
    }
    forall x | x in succ
      ensures NoDup(succ[x]) && NoDup(pred[x])
    {
      var k :| 0 <= k < |ids| && ids[k] == x;
      ChainAt(succ, pred, ids, k);
    }
  }

  /** The position of each id of a list without duplicates. */
  ghost function Positions(ids: seq<NodeId>): (rank: map<NodeId, int>)
    requires NoDup(ids)
    ensures forall k :: 0 <= k < |ids| ==> ids[k] in rank && rank[ids[k]] == k
  {
    map k | 0 <= k < |ids| :: ids[k] := k
  }

  /** A chain has no cycle: its position orders every edge forward. */
  lemma ChainAcyclic(succ: Adj, pred: Adj, ids: seq<NodeId>)
    requires ChainLinks(succ, pred, ids)
    ensures Acyclic(succ)
  {
    var rank := Positions(ids);
    forall x, y | Edge(succ, x, y)
      ensures x in rank && y in rank && rank[x] < rank[y]
    {
      var k := SuccAt(succ, pred, ids, x, y);
    }
    RankedIsAcyclic(succ, rank);
  }

  /** A chain has one edge fewer than nodes: num_edges counts |ids| - 1. */
  lemma ChainEdges(succ: Adj, pred: Adj, ids: seq<NodeId>)
    requires ChainLinks(succ, pred, ids)
    ensures SuccessorCount(succ, ids) == if ids == [] then 0 else |ids| - 1
  {
    EdgeCount(succ, pred, ids, |ids|);
    assert ids[..|ids|] == ids;
  }

  lemma {:induction false} EdgeCount(succ: Adj, pred: Adj, ids: seq<NodeId>, m: nat)
    requires ChainLinks(succ, pred, ids) && m <= |ids|
    ensures SuccessorCount(succ, ids[..m]) == if m == 0 then 0 else if m < |ids| then m else m - 1
  {
    if m > 0 {
      EdgeCount(succ, pred, ids, m - 1);
      assert ids[..m][..m - 1] == ids[..m - 1];
      assert Last(ids[..m]) == ids[m - 1];
      ChainAt(succ, pred, ids, m - 1);
    }
  }

  /**
   * A chain of distinct node objects is a well-formed graph of the source's kind: the lists
   * mirror each other without repeats, there is no cycle, num_edges is one less than the
   * number of nodes, the first node has no predecessor and the newest no successor.
   */
  lemma ChainGraph(ids: seq<NodeId>, ks: seq<Kind>)
    requires NoDup(ids) && |ids| == |ks|
    ensures Symmetric(Links(ChainSucc(ids), ChainPred(ids)))
    ensures Acyclic(ChainSucc(ids))
    ensures forall x :: x in ChainSucc(ids) <==> x in ids
    ensures SuccessorCount(ChainSucc(ids), ids) == if ids == [] then 0 else |ids| - 1
    ensures ids != [] ==> ChainPred(ids)[ids[0]] == [] && ChainSucc(ids)[Last(ids)] == []
    ensures forall k :: 0 <= k < |ids| ==> ids[k] in KindMap(ids, ks) && KindMap(ids, ks)[ids[k]] == ks[k]
  {
    ChainShape(ids, ks);
    ChainSymmetric(ChainSucc(ids), ChainPred(ids), ids);
    ChainAcyclic(ChainSucc(ids), ChainPred(ids), ids);
    ChainEdges(ChainSucc(ids), ChainPred(ids), ids);
    if ids != [] {
      ChainAt(ChainSucc(ids), ChainPred(ids), ids, 0);
      ChainAt(ChainSucc(ids), ChainPred(ids), ids, |ids| - 1);
    }
  }

  // ---------------------------------------------------------------------------------------
  // The graph

  /** The node objects of an arena are the chain ids, of kinds ks. */
  ghost predicate ChainArena(a: Arena, ids: seq<NodeId>, ks: seq<Kind>) {
    && |ids| == |ks|
    && a.succ == ChainSucc(ids) && a.pred == ChainPred(ids) && a.kinds == KindMap(ids, ks)
  }

  /** The graph's node objects are the chain ids, of kinds ks. */
  ghost predicate Objects(g: Graph, ids: seq<NodeId>, ks: seq<Kind>)
    reads g
  {
    g.Valid() && ChainArena(g.arena, ids, ks)
  }

  /** The graph's node objects form the chain ids, of kinds ks, and its node map holds them in order. */
  ghost predicate Chain(g: Graph, ids: seq<NodeId>, ks: seq<Kind>)
    reads g
  {
    Objects(g, ids, ks) && g.nodes == ids
  }

  /** The arena after a new object is created and, when there is a last node, linked after it. */
  lemma Extended(a0: Arena, b: Arena, ids: seq<NodeId>, ks: seq<Kind>, id: NodeId, kind: Kind, last: Option<NodeId>)
    requires ArenaOk(a0) && id !in a0.kinds && ChainArena(a0, ids, ks)
    requires last == if ids == [] then None else Some(Last(ids))
    requires last.None? ==> b == WithObject(a0, id, kind)
    requires last.Some? ==> b.kinds == WithObject(a0, id, kind).kinds
    requires last.Some? ==> LinksOf(b) == Nodes.AddSuccessor(LinksOf(WithObject(a0, id, kind)), last.value, id)
    ensures ChainArena(b, ids + [id], ks + [kind])
  {
    SnocMaps(ids, ks, id, kind);
    var a1 := WithObject(a0, id, kind);
    assert LinksOf(a1) == Links(a0.succ[id := []], a0.pred[id := []]) && a1.kinds == a0.kinds[id := kind];
    if last.Some? {
      NewestEnds(ids);
      FirstEdge(LinksOf(a1), last.value, id);
    }
  }

  /**
   * A node object created after the chain and, when there is a last node, made its
   * successor, without entering the node map (COT and CodeReact link before add_node).
   */
  method Create(g: Graph, ghost ids: seq<NodeId>, ghost ks: seq<Kind>, id: NodeId, kind: Kind, last: Option<NodeId>)
    requires Objects(g, ids, ks) && id !in g.arena.kinds
    requires last == if ids == [] then None else Some(Last(ids))
    modifies g`arena
    ensures Objects(g, ids + [id], ks + [kind]) && id in g.arena.kinds
  {
    ghost var a0 := g.arena;
    g.NewNode(id, kind);
    if last.Some? {
      g.AddSuccessor(last.value, id);
    }
    Extended(a0, g.arena, ids, ks, id, kind, last);
  }

  /** add_node of the newest object of the chain, after the others. */
  method Admit(g: Graph, ghost ids: seq<NodeId>, ghost ks: seq<Kind>, id: NodeId)
    requires Objects(g, ids + [id], ks) && g.nodes == ids && id !in ids
    modifies g`nodes
    ensures Chain(g, ids + [id], ks)
  {
    var _ := g.AddNode(id);
  }

  /**
   * The body of the crosswords builders' loops: a node of the kind is created with the next
   * id, added to the node map and, when there is a last node, made its successor.
   */
  method Append(g: Graph, ghost ids: seq<NodeId>, ghost ks: seq<Kind>, id: NodeId, kind: Kind, last: Option<NodeId>)
    requires Chain(g, ids, ks) && id !in g.arena.kinds
    requires last == if ids == [] then None else Some(Last(ids))
    modifies g`arena, g`nodes
    ensures Chain(g, ids + [id], ks + [kind]) && id in g.arena.kinds
  {
    assert id !in ids;
    Create(g, ids, ks, id, kind, last);
    Admit(g, ids, ks + [kind], id);
  }

  // ---------------------------------------------------------------------------------------
  // CrosswordsReflection

  /**
   * The kinds after `rounds` iterations of the outer loop: each adds numInnerIters
   * GreedySteps, then a Reflection while the iteration index is below numReflections.
   */
  function ReflectionKinds(rounds: nat, numReflections: int, numInnerIters: nat): seq<Kind> {
    if rounds == 0 then []
    else
      var tail := if rounds - 1 < numReflections then [Reflection] else [];
      ReflectionKinds(rounds - 1, numReflections, numInnerIters) + Repeat(GreedySteps, numInnerIters) + tail
  }

  lemma {:induction false} CountKindAppend(a: seq<Kind>, b: seq<Kind>, kind: Kind)
    ensures CountKind(a + b, kind) == CountKind(a, kind) + CountKind(b, kind)
  {
    if b != [] {
      CountKindAppend(a, b[..|b| - 1], kind);
      assert (a + b)[..|a + b| - 1] == a + b[..|b| - 1];
    } else {
      assert a + b == a;
    }
  }

  lemma {:induction false} CountRepeat(kind: Kind, n: nat, other: Kind)
    ensures CountKind(Repeat(kind, n), other) == if kind == other then n else 0
  {
    if n > 0 {
      CountRepeat(kind, n - 1, other);
      assert Repeat(kind, n)[..n - 1] == Repeat(kind, n - 1);
    }
  }

  /** Each round adds numInnerIters GreedySteps and, up to the last round, one Reflection. */
  lemma {:induction false} ReflectionCounts(rounds: nat, numReflections: nat, numInnerIters: nat)
    requires rounds <= numReflections + 1
    ensures var ks := ReflectionKinds(rounds, numReflections, numInnerIters);
      && CountKind(ks, GreedySteps) == rounds * numInnerIters
      && CountKind(ks, Reflection) == (if rounds <= numReflections then rounds else numReflections)
  {
    if rounds > 0 {
      var prev := ReflectionKinds(rounds - 1, numReflections, numInnerIters);
      var block := Repeat(GreedySteps, numInnerIters);
      var tail: seq<Kind> := if rounds - 1 < numReflections then [Reflection] else [];
      ReflectionCounts(rounds - 1, numReflections, numInnerIters);
      CountKindAppend(prev, block, GreedySteps);
      CountKindAppend(prev + block, tail, GreedySteps);
      CountKindAppend(prev, block, Reflection);
      CountKindAppend(prev + block, tail, Reflection);
      CountRepeat(GreedySteps, numInnerIters, GreedySteps);
      CountRepeat(GreedySteps, numInnerIters, Reflection);
      assert CountKind(tail, GreedySteps) == 0;
      assert (rounds - 1) * numInnerIters + numInnerIters == rounds * numInnerIters;
    }
  }

  /** Up to the last round, each round adds numInnerIters GreedySteps and one Reflection. */
  lemma ReflectionRounds(rounds: nat, numReflections: nat, numInnerIters: nat)
    requires rounds <= numReflections + 1
    ensures var ks := ReflectionKinds(rounds, numReflections, numInnerIters);
      && (rounds <= numReflections ==> |ks| == rounds * (numInnerIters + 1))
      && CountKind(ks, GreedySteps) == rounds * numInnerIters
      && CountKind(ks, Reflection) == (if rounds <= numReflections then rounds else numReflections)
  {
    ReflectionCounts(rounds, numReflections, numInnerIters);
    ReflectionLength(rounds, numReflections, numInnerIters);
    assert rounds * numInnerIters + rounds == rounds * (numInnerIters + 1);
  }

  /**
   * With at least one inner iteration the reflection agent has (R + 1) * I + R nodes for
   * R = num_reflections and I = num_inner_iters: (R + 1) * I GreedySteps and R
   * Reflections, starting and ending with a GreedySteps.
   */
  lemma ReflectionShape(numReflections: nat, numInnerIters: nat)
    requires numInnerIters >= 1
    ensures var ks := ReflectionKinds(numReflections + 1, numReflections, numInnerIters);
      && |ks| == (numReflections + 1) * numInnerIters + numReflections
      && CountKind(ks, GreedySteps) == (numReflections + 1) * numInnerIters
      && CountKind(ks, Reflection) == numReflections
      && ks[0] == GreedySteps && Last(ks) == GreedySteps
  {
    var r := numReflections;
    ReflectionRounds(r, r, numInnerIters);
    ReflectionRounds(r + 1, r, numInnerIters);
    var prev := ReflectionKinds(r, r, numInnerIters);
    var ks := ReflectionKinds(r + 1, r, numInnerIters);
    assert ks == prev + Repeat(GreedySteps, numInnerIters) + [];
    assert r * (numInnerIters + 1) + numInnerIters == (r + 1) * numInnerIters + r;
    if r > 0 {
      ReflectionFirst(r, r, numInnerIters);
    }
  }

  lemma {:induction false} ReflectionFirst(rounds: nat, numReflections: int, numInnerIters: nat)
    requires rounds >= 1 && numInnerIters >= 1
    ensures |ReflectionKinds(rounds, numReflections, numInnerIters)| >= 1
    ensures ReflectionKinds(rounds, numReflections, numInnerIters)[0] == GreedySteps
  {
    if rounds > 1 {
      ReflectionFirst(rounds - 1, numReflections, numInnerIters);
    }
  }

  /**
   * One iteration of the crosswords builders' loops: a node of the kind is added and linked
   * after the last node (`if last_step: ... add_successor`). The first node becomes the
   * graph's input node; nothing reads input_nodes before the builder returns, so the
   * builders set it once their loop ends.
   */
  method Step(g: Graph, ids: seq<NodeId>, n: nat, ghost ks: seq<Kind>, kind: Kind, last: Option<NodeId>)
      returns (last': Option<NodeId>)
    requires NoDup(ids) && n < |ids| && Chain(g, ids[..n], ks)
    requires last == if n == 0 then None else Some(ids[n - 1])
    modifies g`arena, g`nodes
    ensures Chain(g, ids[..n + 1], ks + [kind]) && last' == Some(ids[n])
  {
    NextFresh(ids, n);
    if n > 0 {
      PrefixEnds(ids, n);
    }
    Append(g, ids[..n], ks, ids[n], kind, last);
    last' := Some(ids[n]);
  }

  lemma RepeatSnoc(ks: seq<Kind>, kind: Kind, j: nat)
    ensures ks + Repeat(kind, j + 1) == ks + Repeat(kind, j) + [kind]
  {
    assert Repeat(kind, j + 1) == Repeat(kind, j) + [kind];
  }

  lemma RepeatNext(kind: Kind, j: nat)
    ensures Repeat(kind, j + 1) == Repeat(kind, j) + [kind]
  {
  }

  /** The inner loop of CrosswordsReflection: count GreedySteps in a row. */
  method GreedyRun(g: Graph, ids: seq<NodeId>, n: nat, ghost ks: seq<Kind>, count: nat, last: Option<NodeId>)
      returns (n': nat, last': Option<NodeId>)
    requires NoDup(ids) && n + count <= |ids| && Chain(g, ids[..n], ks)
    requires last == if n == 0 then None else Some(ids[n - 1])
    modifies g`arena, g`nodes
    ensures n' == n + count && Chain(g, ids[..n'], ks + Repeat(GreedySteps, count))
    ensures last' == if n' == 0 then None else Some(ids[n' - 1])
  {
    n', last' := n, last;
    var j := 0;
    assert ks + Repeat(GreedySteps, 0) == ks;
    while j < count
      invariant j <= count && n' == n + j
      invariant Chain(g, ids[..n'], ks + Repeat(GreedySteps, j))
      invariant last' == if n' == 0 then None else Some(ids[n' - 1])
    {
      last' := Step(g, ids, n', ks + Repeat(GreedySteps, j), GreedySteps, last');
      RepeatSnoc(ks, GreedySteps, j);
      n' := n' + 1;
      j := j + 1;
    }
  }

  /** The exception build_graph raises when no GreedySteps node was made. */
  const NoLastStep := "Exception: last_step should not be None"

  /** How many node objects the reflection builder creates before it returns or raises. */
  function ReflectionNodes(numReflections: int, numInnerIters: int): nat {
    if numReflections >= 0 && numInnerIters >= 1 then (numReflections + 1) * numInnerIters + numReflections
    else if numReflections >= 1 then 1
    else 0
  }

  lemma ReflectionNext(i: nat, numReflections: int, numInnerIters: nat)
    ensures ReflectionKinds(i + 1, numReflections, numInnerIters)
      == ReflectionKinds(i, numReflections, numInnerIters) + Repeat(GreedySteps, numInnerIters) + (if i < numReflections then [Reflection] else [])
  {
  }

  /** The number of Reflections in the first `rounds` rounds. */
  function ReflectionsIn(rounds: nat, numReflections: int): nat {
    if numReflections <= 0 then 0 else if rounds <= numReflections then rounds else numReflections
  }

  lemma {:induction false} ReflectionLength(rounds: nat, numReflections: int, numInnerIters: nat)
    ensures |ReflectionKinds(rounds, numReflections, numInnerIters)| == rounds * numInnerIters + ReflectionsIn(rounds, numReflections)
  {
    if rounds > 0 {
      ReflectionLength(rounds - 1, numReflections, numInnerIters);
      assert (rounds - 1) * numInnerIters + numInnerIters == rounds * numInnerIters;
    }
  }

  /** Round i of the outer loop still has the ids it needs. */
  lemma ReflectionBudget(i: nat, numReflections: int, numInnerIters: int)
    requires i <= numReflections
    requires numInnerIters < 1 ==> i == 0 || numReflections <= 0
    ensures |ReflectionKinds(i + 1, numReflections, if numInnerIters > 0 then numInnerIters else 0)| <= ReflectionNodes(numReflections, numInnerIters)
  {
    var inner: nat := if numInnerIters > 0 then numInnerIters else 0;
    ReflectionLength(i + 1, numReflections, inner);
    if inner >= 1 {
      assert (i + 1) * inner <= (numReflections + 1) * inner by {
        assert (numReflections + 1) * inner == (i + 1) * inner + (numReflections - i) * inner;
      }
    }
  }

  /** A Reflection made the next node of the chain; `last` stays None when there is no node. */
  method Reflect(g: Graph, ids: seq<NodeId>, n: nat, ghost ks: seq<Kind>, last: Option<NodeId>) returns (last': Option<NodeId>)
    requires NoDup(ids) && n < |ids| && Chain(g, ids[..n], ks)
    requires last == if n == 0 then None else Some(ids[n - 1])
    modifies g`arena, g`nodes
    ensures Chain(g, ids[..n + 1], ks + [Reflection])
    ensures last' == if n == 0 then None else Some(ids[n])
  {
    NextFresh(ids, n);
    if n > 0 {
      PrefixEnds(ids, n);
    }
    Append(g, ids[..n], ks, ids[n], Reflection, last);
    last' := if last.Some? then Some(ids[n]) else None;
  }

  /**
   * One iteration of CrosswordsReflection's outer loop: the inner loop, then, when
   * `reflect`, a Reflection added to the node map and linked after the last node if there
   * is one. `last'` stays None when no node could be linked to (build_graph then raises).
   */
  method Round(g: Graph, ids: seq<NodeId>, n: nat, ghost ks: seq<Kind>, inner: nat, reflect: bool, last: Option<NodeId>)
      returns (n': nat, last': Option<NodeId>)
    requires NoDup(ids) && n + inner + (if reflect then 1 else 0) <= |ids| && Chain(g, ids[..n], ks)
    requires last == if n == 0 then None else Some(ids[n - 1])
    modifies g`arena, g`nodes
    ensures n' == n + inner + (if reflect then 1 else 0)
    ensures Chain(g, ids[..n'], ks + Repeat(GreedySteps, inner) + (if reflect then [Reflection] else []))
    ensures last' == if n + inner == 0 then None else Some(ids[n' - 1])
  {
    n', last' := GreedyRun(g, ids, n, ks, inner, last);
    if reflect {
      last' := Reflect(g, ids, n', ks + Repeat(GreedySteps, inner), last');
      n' := n' + 1;
    } else {
      assert ks + Repeat(GreedySteps, inner) + [] == ks + Repeat(GreedySteps, inner);
    }
  }

  /**
   * CrosswordsReflection: num_reflections + 1 rounds of num_inner_iters GreedySteps, a
   * Reflection after every round but the last, all in one chain. With no inner iteration
   * there is no step to link a Reflection to, and it raises, after adding the first
   * Reflection when there is one.
   */
  method CrosswordsReflection(numReflections: int, numInnerIters: int, ids: seq<NodeId>) returns (g: Graph, outcome: Result<()>)
    requires NoDup(ids) && |ids| >= ReflectionNodes(numReflections, numInnerIters)
    ensures g.Valid() && fresh(g)
    ensures outcome.Ok? <==> numReflections >= 0 && numInnerIters >= 1
    ensures outcome.Ok? ==>
      var n := ReflectionNodes(numReflections, numInnerIters);
      && Chain(g, ids[..n], ReflectionKinds(numReflections + 1, numReflections, numInnerIters))
      && g.inputNodes == [ids[0]] && g.outputNodes == [ids[n - 1]]
    ensures outcome.Raised? ==>
      && outcome.reason == NoLastStep && g.inputNodes == [] && g.outputNodes == []
      && g.nodes == ids[..ReflectionNodes(numReflections, numInnerIters)]
  {
    g := new Graph();
    var inner: nat := if numInnerIters > 0 then numInnerIters else 0;
    var last: Option<NodeId> := None;
    var n := 0;
    var i := 0;
    ghost var ks: seq<Kind> := [];
    while i < numReflections + 1
      invariant 0 <= i && (numReflections >= 0 ==> i <= numReflections + 1) && (numReflections < 0 ==> i == 0)
      invariant n == |ReflectionKinds(i, numReflections, inner)| && n <= |ids|
      invariant inner == 0 ==> n == 0 && (i == 0 || numReflections <= 0)
      invariant inner >= 1 && i > 0 ==> n > 0
      invariant fresh(g) && ks == ReflectionKinds(i, numReflections, inner) && Chain(g, ids[..n], ks)
      invariant last == if n == 0 then None else Some(ids[n - 1])
      invariant g.inputNodes == [] && g.outputNodes == []
      decreases numReflections + 1 - i
    {
      ReflectionBudget(i, numReflections, numInnerIters);
      var m := n;
      n, last := Round(g, ids, n, ks, inner, i < numReflections, last);
      ReflectionNext(i, numReflections, inner);
      ks := ks + Repeat(GreedySteps, inner) + (if i < numReflections then [Reflection] else []);
      if i < numReflections && last.None? {
        assert m == 0 && n == 1 && ReflectionNodes(numReflections, numInnerIters) == 1;
        return g, Raised(NoLastStep);
      }
      i := i + 1;
    }
    if last.None? {
      assert n == 0 && ReflectionNodes(numReflections, numInnerIters) == 0;
      return g, Raised(NoLastStep);
    }
    ReflectionShape(numReflections, inner);
    assert i == numReflections + 1 && inner == numInnerIters && n == ReflectionNodes(numReflections, numInnerIters);
    g.inputNodes := [ids[0]];
    g.outputNodes := [last.value];
    outcome := Ok(());
  }

  // ---------------------------------------------------------------------------------------
  // The other chain-shaped agents

  /** A new graph holds the empty chain. */
  lemma EmptyChain(g: Graph)
    requires g.Valid() && g.nodes == [] && g.arena.kinds == map[]
    ensures Chain(g, [], [])
  {
    assert g.arena.succ == map[] && g.arena.pred == map[];
  }

  /** The kinds of CrosswordsToT: depth BranchingSteps (at least one), then a ReturnAll. */
  function ToTKinds(depth: int): seq<Kind> {
    Repeat(BranchingStep, if depth > 1 then depth else 1) + [ReturnAll]
  }

  /** CrosswordsToT has max(depth, 1) BranchingSteps and one ReturnAll, which ends the chain. */
  lemma ToTShape(depth: int)
    ensures var ks := ToTKinds(depth); var d := if depth > 1 then depth else 1;
      && |ks| == d + 1 && ks[0] == BranchingStep && Last(ks) == ReturnAll
      && CountKind(ks, BranchingStep) == d && CountKind(ks, ReturnAll) == 1
  {
    var d := if depth > 1 then depth else 1;
    CountKindAppend(Repeat(BranchingStep, d), [ReturnAll], BranchingStep);
    CountKindAppend(Repeat(BranchingStep, d), [ReturnAll], ReturnAll);
    CountRepeat(BranchingStep, d, BranchingStep);
    CountRepeat(BranchingStep, d, ReturnAll);
    assert [ReturnAll][..0] == [];
  }

  /**
   * CrosswordsToT.build_graph: a BranchingStep, depth - 1 more linked one after the other,
   * then a ReturnAll after the last; the first is the input node and the ReturnAll the output.
   */
  method CrosswordsToT(depth: int, ids: seq<NodeId>) returns (g: Graph)
    requires NoDup(ids) && |ids| > (if depth > 1 then depth else 1)
    ensures fresh(g)
    ensures var n := |ToTKinds(depth)|;
      && Chain(g, ids[..n], ToTKinds(depth))
      && g.inputNodes == [ids[0]] && g.outputNodes == [ids[n - 1]]
  {
    g := new Graph();
    EmptyChain(g);
    assert ids[..0] == [];
    var last := Step(g, ids, 0, [], BranchingStep, None);
    g.inputNodes := [ids[0]];
    var n := 1;
    assert [] + [BranchingStep] == Repeat(BranchingStep, 1);
    while n < depth
      invariant 1 <= n <= (if depth > 1 then depth else 1)
      invariant Chain(g, ids[..n], Repeat(BranchingStep, n)) && last == Some(ids[n - 1])
      invariant g.inputNodes == [ids[0]] && g.outputNodes == []
    {
      last := Step(g, ids, n, Repeat(BranchingStep, n), BranchingStep, last);
      RepeatNext(BranchingStep, n);
      n := n + 1;
    }
    assert n == (if depth > 1 then depth else 1);
    assert ToTKinds(depth) == Repeat(BranchingStep, n) + [ReturnAll] && |ToTKinds(depth)| == n + 1;
    last := Step(g, ids, n, Repeat(BranchingStep, n), ReturnAll, last);
    g.outputNodes := [last.value];
  }

  /**
   * CrosswordsBruteForceOpt.build_graph: num_iters BruteForceSteps, each linked after the
   * one before; the first is the input node and the last the output node. With no
   * iteration both stay empty.
   */
  method CrosswordsBruteForceOpt(numIters: int, ids: seq<NodeId>) returns (g: Graph)
    requires NoDup(ids) && |ids| >= numIters
    ensures fresh(g)
    ensures var n := if numIters > 0 then numIters else 0;
      && Chain(g, ids[..n], Repeat(BruteForceStep, n))
      && (n == 0 ==> g.inputNodes == [] && g.outputNodes == [])
      && (n > 0 ==> g.inputNodes == [ids[0]] && g.outputNodes == [ids[n - 1]])
  {
    g := new Graph();
    EmptyChain(g);
    assert ids[..0] == [];
    var last: Option<NodeId> := None;
    var n := 0;
    while n < numIters
      invariant 0 <= n <= |ids| && (numIters > 0 ==> n <= numIters) && (numIters <= 0 ==> n == 0)
      invariant Chain(g, ids[..n], Repeat(BruteForceStep, n))
      invariant last == if n == 0 then None else Some(ids[n - 1])
      invariant n == 0 ==> g.inputNodes == [] && g.outputNodes == []
      invariant n > 0 ==> g.inputNodes == [ids[0]] && g.outputNodes == [ids[n - 1]]
    {
      var first := last.None?;
      last := Step(g, ids, n, Repeat(BruteForceStep, n), BruteForceStep, last);
      if first {
        g.inputNodes := [ids[n]];
      }
      g.outputNodes := [ids[n]];
      RepeatNext(BruteForceStep, n);
      n := n + 1;
    }
  }

  /** The number of thoughts COT.build_graph chains. */
  const NumThoughts := 3

  /** The exception of `assert num_thoughts >= 2`. */
  const FewThoughts := "AssertionError"

  /** The kinds of a chain of thoughts: CoTSteps, only the last of them with is_last_step. */
  function CotKinds(numThoughts: nat): (ks: seq<Kind>)
    ensures |ks| == numThoughts
  {
    seq(numThoughts, k => CoTStep(k == numThoughts - 1))
  }

  lemma {:induction false} CountLastSteps(ks: seq<Kind>, n: nat)
    requires n <= |ks| && forall k :: 0 <= k < |ks| ==> ks[k].CoTStep?
    ensures CountKind(ks[..n], CoTStep(true)) == |set k | 0 <= k < n && ks[k].isLastStep|
  {
    if n > 0 {
      CountLastSteps(ks, n - 1);
      assert ks[..n][..n - 1] == ks[..n - 1];
      var before := set k | 0 <= k < n - 1 && ks[k].isLastStep;
      var now := set k | 0 <= k < n && ks[k].isLastStep;
      if ks[n - 1].isLastStep {
        assert now == before + {n - 1};
      } else {
        assert now == before;
      }
    }
  }

  /** Exactly one thought, the last, is the last step. */
  lemma CotShape(numThoughts: nat)
    requires numThoughts >= 1
    ensures var ks := CotKinds(numThoughts);
      && CountKind(ks, CoTStep(true)) == 1 && Last(ks) == CoTStep(true)
      && CountKind(ks, CoTStep(false)) == numThoughts - 1
  {
    var ks := CotKinds(numThoughts);
    var n := numThoughts;
    CountLastSteps(ks, n);
    assert ks[..n] == ks;
    assert (set k | 0 <= k < n && ks[k].isLastStep) == {n - 1};
    CotOthers(ks, n);
  }

  lemma {:induction false} CotOthers(ks: seq<Kind>, n: nat)
    requires n <= |ks| && forall k :: 0 <= k < |ks| ==> ks[k] == CoTStep(k == |ks| - 1)
    ensures CountKind(ks[..n], CoTStep(false)) == if n == |ks| && n > 0 then n - 1 else n
  {
    if n > 0 {
      CotOthers(ks, n - 1);
      assert ks[..n][..n - 1] == ks[..n - 1];
    }
  }

  /** One thought of COT: created and linked after the one before, not yet in the node map. */
  method Thought(g: Graph, ids: seq<NodeId>, k: nat, ghost ks: seq<Kind>, numThoughts: nat, last: Option<NodeId>)
    requires NoDup(ids) && k < numThoughts <= |ids| && ks == CotKinds(numThoughts)[..k] && Objects(g, ids[..k], ks)
    requires last == if k == 0 then None else Some(ids[k - 1])
    modifies g`arena
    ensures Objects(g, ids[..k + 1], CotKinds(numThoughts)[..k + 1])
    ensures ks + [CoTStep(k == numThoughts - 1)] == CotKinds(numThoughts)[..k + 1]
  {
    NextFresh(ids, k);
    if k > 0 {
      PrefixEnds(ids, k);
    }
    Create(g, ids[..k], ks, ids[k], CoTStep(k == numThoughts - 1), last);
    assert CotKinds(numThoughts)[..k + 1] == ks + [CoTStep(k == numThoughts - 1)];
  }

  /** The chain's ids are node objects of the graph, none yet in its node map. */
  lemma InArena(g: Graph, ids: seq<NodeId>, ks: seq<Kind>)
    requires Objects(g, ids, ks) && g.nodes == []
    ensures forall n :: n in ids ==> n in g.arena.kinds && n !in g.nodes
  {
    ChainKeys(ids);
  }

  /**
   * COT.build_graph with num_thoughts thoughts: each created and linked after the one
   * before it, then the first made the input node and the last the output node, and only
   * then all of them added to the node map in order. The assertion on num_thoughts
   * raises before anything is created.
   */
  method CotGraph(numThoughts: int, ids: seq<NodeId>) returns (g: Graph, outcome: Result<()>)
    requires NoDup(ids) && |ids| >= numThoughts
    ensures fresh(g) && g.Valid()
    ensures outcome.Ok? <==> numThoughts >= 2
    ensures outcome.Ok? ==>
      && Chain(g, ids[..numThoughts], CotKinds(numThoughts))
      && g.inputNodes == [ids[0]] && g.outputNodes == [ids[numThoughts - 1]]
    ensures outcome.Raised? ==>
      && outcome.reason == FewThoughts && g.nodes == [] && g.arena.kinds == map[]
      && g.inputNodes == [] && g.outputNodes == []
  {
    g := new Graph();
    if numThoughts < 2 {
      return g, Raised(FewThoughts);
    }
    EmptyChain(g);
    var last: Option<NodeId> := None;
    var k := 0;
    ghost var ks: seq<Kind> := [];
    assert ids[..0] == [];
    while k < numThoughts
      invariant k <= numThoughts && ks == CotKinds(numThoughts)[..k] && Objects(g, ids[..k], ks)
      invariant last == if k == 0 then None else Some(ids[k - 1])
      invariant g.nodes == [] && g.inputNodes == [] && g.outputNodes == []
    {
      Thought(g, ids, k, ks, numThoughts, last);
      ks := ks + [CoTStep(k == numThoughts - 1)];
      last := Some(ids[k]);
      k := k + 1;
    }
    assert CotKinds(numThoughts)[..numThoughts] == CotKinds(numThoughts);
    InArena(g, ids[..numThoughts], ks);
    g.inputNodes := [ids[0]];
    g.outputNodes := [ids[numThoughts - 1]];
    g.AddNodes(ids[..numThoughts]);
    outcome := Ok(());
  }

  /** COT.build_graph: three thoughts. */
  method Cot(ids: seq<NodeId>) returns (g: Graph)
    requires NoDup(ids) && |ids| >= NumThoughts
    ensures fresh(g)
    ensures Chain(g, ids[..NumThoughts], CotKinds(NumThoughts))
    ensures g.inputNodes == [ids[0]] && g.outputNodes == [ids[NumThoughts - 1]]
  {
    var outcome;
    g, outcome := CotGraph(NumThoughts, ids);
  }

  /** The exception the final `self.output_nodes = [code_rewrite]` raises when the loop never ran. */
  const UnboundRewrite := "UnboundLocalError: code_rewrite"

  /**
   * CodeReact.build_graph: a CodeWriting, then num_reacts more, each linked after the one
   * before it; the first is the input node and the last the output node. With no
   * iteration code_rewrite is never bound and the last assignment raises, after the
   * input node is set.
   */
  method CodeReact(numReacts: int, ids: seq<NodeId>) returns (g: Graph, outcome: Result<()>)
    requires NoDup(ids) && |ids| > numReacts && |ids| >= 1
    ensures fresh(g) && g.Valid()
    ensures var n := if numReacts > 0 then numReacts + 1 else 1;
      && Chain(g, ids[..n], Repeat(CodeWriting, n)) && g.inputNodes == [ids[0]]
      && (outcome.Ok? <==> numReacts >= 1)
      && (outcome.Ok? ==> g.outputNodes == [ids[n - 1]])
      && (outcome.Raised? ==> outcome.reason == UnboundRewrite && g.outputNodes == [])
  {
    g := new Graph();
    EmptyChain(g);
    assert ids[..0] == [];
    var last := Step(g, ids, 0, [], CodeWriting, None);
    assert [] + [CodeWriting] == Repeat(CodeWriting, 1);
    var n := 1;
    while n <= numReacts
      invariant 1 <= n <= |ids| && (numReacts > 0 ==> n <= numReacts + 1) && (numReacts <= 0 ==> n == 1)
      invariant Chain(g, ids[..n], Repeat(CodeWriting, n)) && last == Some(ids[n - 1])
      invariant g.inputNodes == [] && g.outputNodes == []
    {
      last := Step(g, ids, n, Repeat(CodeWriting, n), CodeWriting, last);
      RepeatNext(CodeWriting, n);
      n := n + 1;
    }
    g.inputNodes := [ids[0]];
    if numReacts < 1 {
      return g, Raised(UnboundRewrite);
    }
    g.outputNodes := [last.value];
    outcome := Ok(());
  }
}
