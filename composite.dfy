/**
 * The composite graph of swarm/graph/composite_graph.py: the agents' graphs merged
 * into one, with a final decision node as the only output node, and the candidate
 * connections between agents that `init` and `mutate` (and the edge realizers of
 * parameterization.dfy) try one by one, adding only those that close no cycle.
 *
 * Random draws are oracles: a function from the draw's position to the value drawn.
 */
module Composite {
  import opened Wrappers
  import opened Digraph
  import opened Nodes
  import opened Arenas
  import opened Graphs

  /** A potential connection (from, to), as a pair of node ids. */
  type Connection = (NodeId, NodeId)

  /**
   * check_cycle(in_node, {out_node}) is false: no path leads from the head of the
   * candidate back to its tail, so adding it closes no cycle.
   */
  function CycleSafe(l: Links, c: Connection): (r: bool)
    requires LinksOk(l) && Acyclic(l.succ) && c.1 in l.succ
    ensures r <==> !Reach(l.succ, c.1, c.0)
  {
    !ReachesAny(l.succ, c.1, {c.0})
  }

  /** a.add_successor(b) adds the edge a -> b and no other, whatever the lists hold. */
  lemma AddSuccessorAddsEdge(l: Links, a: NodeId, b: NodeId)
    requires l.succ.Keys == l.pred.Keys && a in l.succ && b in l.succ
    ensures AddsEdge(l.succ, AddSuccessor(l, a, b).succ, a, b)
  {
    var r := AddSuccessor(l, a, b);
    forall x, y
      ensures Edge(r.succ, x, y) <==> Edge(l.succ, x, y) || (x == a && y == b)
    {
      if b !in l.succ[a] && x == a {
        assert r.succ[a] == l.succ[a] + [b];
      }
    }
  }

  /** b.add_predecessor(a) when a -> b is already an edge: the edge relation does not change (at most a duplicate entry). */
  lemma AddPredecessorKeepsEdges(l: Links, b: NodeId, a: NodeId)
    requires l.succ.Keys == l.pred.Keys && a in l.succ && b in l.succ && Edge(l.succ, a, b)
    ensures forall x, y :: Edge(AddPredecessor(l, b, a).succ, x, y) <==> Edge(l.succ, x, y)
  {
    var r := AddPredecessor(l, b, a);
    forall x, y
      ensures Edge(r.succ, x, y) <==> Edge(l.succ, x, y)
    {
      if a !in l.pred[b] && x == a {
        assert r.succ[a] == l.succ[a] + [b];
      }
    }
  }

  /**
   * Connecting a candidate: out.add_successor(in), followed, when `mirror` holds, by
   * in.add_predecessor(out) as realize_full, realize_mask and random_sample_num_edges do.
   */
  function Connect(l: Links, c: Connection, mirror: bool): (r: Links)
    requires l.succ.Keys == l.pred.Keys && c.0 in l.succ && c.1 in l.succ
    ensures r.succ.Keys == l.succ.Keys && r.pred.Keys == l.pred.Keys
  {
    var l1 := AddSuccessor(l, c.0, c.1);
    if mirror then AddPredecessor(l1, c.1, c.0) else l1
  }

  /** A connection adds exactly the edge it names, and keeps every list within the node objects. */
  lemma ConnectSound(l: Links, c: Connection, mirror: bool)
    requires l.succ.Keys == l.pred.Keys && c.0 in l.succ && c.1 in l.succ
    ensures AddsEdge(l.succ, Connect(l, c, mirror).succ, c.0, c.1)
    ensures LinksOk(l) ==> LinksOk(Connect(l, c, mirror))
  {
    AddSuccessorAddsEdge(l, c.0, c.1);
    var l1 := AddSuccessor(l, c.0, c.1);
    if LinksOk(l) {
      AddKeepsShape(l, c.0, c.1);
    }
    if mirror {
      AddPredecessorKeepsEdges(l1, c.1, c.0);
      if LinksOk(l) {
        AddKeepsShape(l1, c.1, c.0);
      }
    }
  }

  /** On symmetric lists the second call of a mirrored connection changes nothing, and the lists stay symmetric. */
  lemma ConnectSymmetric(l: Links, c: Connection, mirror: bool)
    requires LinksOk(l) && Symmetric(l) && c.0 in l.succ && c.1 in l.succ
    ensures Connect(l, c, mirror) == AddSuccessor(l, c.0, c.1)
    ensures Symmetric(Connect(l, c, mirror))
  {
    AddSuccessorSound(l, c.0, c.1);
    var l1 := AddSuccessor(l, c.0, c.1);
    if mirror {
      AddPredecessorMirrors(l1, c.1, c.0);
    }
  }

  /** What happened to one candidate (Missing: one of its ends is no node object at all). */
  datatype Turn = Missing | Unsafe | Skipped | Connected

  /** The edge lists after a run over the candidates, what happened to each, and the connected ones in order. */
  datatype Outcome = Outcome(links: Links, turns: seq<Turn>, picked: seq<Connection>)

  /**
   * The first i candidates tried in order on the lists l: candidate k is Unsafe when,
   * at its turn, its head already reaches its tail (adding it would close a cycle);
   * otherwise it is Connected when wanted[k] holds and Skipped when not.
   */
  ghost function Realized(l: Links, cands: seq<Connection>, wanted: seq<bool>, mirror: bool, i: nat): (r: Outcome)
    requires l.succ.Keys == l.pred.Keys && |wanted| == |cands| && i <= |cands|
    ensures r.links.succ.Keys == l.succ.Keys && r.links.pred.Keys == l.pred.Keys
    ensures |r.turns| == i
  {
    if i == 0 then Outcome(l, [], [])
    else
      var prev := Realized(l, cands, wanted, mirror, i - 1);
      var c := cands[i - 1];
      if c.0 !in l.succ || c.1 !in l.succ then prev.(turns := prev.turns + [Missing])
      else if Reach(prev.links.succ, c.1, c.0) then prev.(turns := prev.turns + [Unsafe])
      else if !wanted[i - 1] then prev.(turns := prev.turns + [Skipped])
      else Outcome(Connect(prev.links, c, mirror), prev.turns + [Connected], prev.picked + [c])
  }

  /**
   * What the turn of candidate i - 1 did to the run `prev` over the candidates before
   * it: earlier turns are kept; a Connected candidate was wanted, closed no cycle,
   * added exactly its own edge and was appended to the picked ones; any other turn
   * changed neither the lists nor the picked ones.
   */
  ghost predicate Stepped(prev: Outcome, r: Outcome, cands: seq<Connection>, wanted: seq<bool>, i: nat) {
    && 0 < i <= |cands| && |wanted| == |cands| && |prev.turns| == i - 1 && |r.turns| == i
    && (forall k :: 0 <= k < i - 1 ==> r.turns[k] == prev.turns[k])
    && (r.turns[i - 1] == Connected ==>
          && wanted[i - 1] && !Reach(prev.links.succ, cands[i - 1].1, cands[i - 1].0)
          && AddsEdge(prev.links.succ, r.links.succ, cands[i - 1].0, cands[i - 1].1)
          && r.picked == prev.picked + [cands[i - 1]])
    && (r.turns[i - 1] != Connected ==> r.links == prev.links && r.picked == prev.picked)
  }

  lemma RealizedStep(l: Links, cands: seq<Connection>, wanted: seq<bool>, mirror: bool, i: nat)
    requires l.succ.Keys == l.pred.Keys && |wanted| == |cands| && 0 < i <= |cands|
    ensures Stepped(Realized(l, cands, wanted, mirror, i - 1), Realized(l, cands, wanted, mirror, i), cands, wanted, i)
    ensures LinksOk(Realized(l, cands, wanted, mirror, i - 1).links) ==> LinksOk(Realized(l, cands, wanted, mirror, i).links)
  {
    var prev := Realized(l, cands, wanted, mirror, i - 1);
    var r := Realized(l, cands, wanted, mirror, i);
    var c := cands[i - 1];
    if c.0 !in l.succ || c.1 !in l.succ {
      assert r == prev.(turns := prev.turns + [Missing]);
    } else if Reach(prev.links.succ, c.1, c.0) {
      assert r == prev.(turns := prev.turns + [Unsafe]);
    } else if !wanted[i - 1] {
      assert r == prev.(turns := prev.turns + [Skipped]);
    } else {
      ConnectSound(prev.links, c, mirror);
      assert r == Outcome(Connect(prev.links, c, mirror), prev.turns + [Connected], prev.picked + [c]);
    }
  }

  /** The lists keep naming only known node objects. */
  lemma {:induction false} RealizedShape(l: Links, cands: seq<Connection>, wanted: seq<bool>, mirror: bool, i: nat)
    requires LinksOk(l) && |wanted| == |cands| && i <= |cands|
    ensures LinksOk(Realized(l, cands, wanted, mirror, i).links)
  {
    if i == 0 {
      assert Realized(l, cands, wanted, mirror, i).links == l;
    } else {
      RealizedShape(l, cands, wanted, mirror, i - 1);
      RealizedStep(l, cands, wanted, mirror, i);
    }
  }

  /** Trying candidates one by one and skipping those that would close a cycle keeps the graph acyclic. */
  lemma {:induction false} RealizedAcyclic(l: Links, cands: seq<Connection>, wanted: seq<bool>, mirror: bool, i: nat)
    requires l.succ.Keys == l.pred.Keys && Acyclic(l.succ) && |wanted| == |cands| && i <= |cands|
    ensures Acyclic(Realized(l, cands, wanted, mirror, i).links.succ)
  {
    if i == 0 {
      assert Realized(l, cands, wanted, mirror, i).links == l;
    } else {
      RealizedAcyclic(l, cands, wanted, mirror, i - 1);
      RealizedStep(l, cands, wanted, mirror, i);
      AcyclicAfterTurn(Realized(l, cands, wanted, mirror, i - 1), Realized(l, cands, wanted, mirror, i), cands, wanted, i);
    }
  }

  lemma AcyclicAfterTurn(prev: Outcome, r: Outcome, cands: seq<Connection>, wanted: seq<bool>, i: nat)
    requires Stepped(prev, r, cands, wanted, i) && Acyclic(prev.links.succ)
    ensures Acyclic(r.links.succ)
  {
    if r.turns[i - 1] == Connected {
      AddSafeEdgeKeepsAcyclic(prev.links.succ, r.links.succ, cands[i - 1].0, cands[i - 1].1);
    }
  }

  /** The candidates among the first i that o marks Connected were all wanted. */
  ghost predicate OnlyWanted(o: Outcome, wanted: seq<bool>, i: nat)
    requires i == |o.turns| <= |wanted|
  {
    forall k :: 0 <= k < i && o.turns[k] == Connected ==> wanted[k]
  }

  /** Only wanted candidates are connected. */
  lemma {:induction false} RealizedWanted(l: Links, cands: seq<Connection>, wanted: seq<bool>, mirror: bool, i: nat)
    requires l.succ.Keys == l.pred.Keys && |wanted| == |cands| && i <= |cands|
    ensures OnlyWanted(Realized(l, cands, wanted, mirror, i), wanted, i)
  {
    if i > 0 {
      RealizedWanted(l, cands, wanted, mirror, i - 1);
      RealizedStep(l, cands, wanted, mirror, i);
      WantedAfterTurn(Realized(l, cands, wanted, mirror, i - 1), Realized(l, cands, wanted, mirror, i), cands, wanted, i);
    }
  }

  lemma WantedAfterTurn(prev: Outcome, r: Outcome, cands: seq<Connection>, wanted: seq<bool>, i: nat)
    requires Stepped(prev, r, cands, wanted, i) && OnlyWanted(prev, wanted, i - 1)
    ensures OnlyWanted(r, wanted, i)
  {
    forall k | 0 <= k < i && r.turns[k] == Connected
      ensures wanted[k]
    {
      if k < i - 1 {
        assert prev.turns[k] == Connected;
      }
    }
  }

  /** The edges of o are those of adj plus the picked connections, and only candidates are picked. */
  ghost predicate AddsExactly(adj: Adj, o: Outcome, cands: seq<Connection>) {
    && (forall x, y :: Edge(o.links.succ, x, y) <==> Edge(adj, x, y) || (x, y) in o.picked)
    && (forall c :: c in o.picked ==> c in cands)
  }

  /** The run over the first i candidates adds to the edges exactly the candidates it picks. */
  lemma {:induction false} RealizedEdges(l: Links, cands: seq<Connection>, wanted: seq<bool>, mirror: bool, i: nat)
    requires l.succ.Keys == l.pred.Keys && |wanted| == |cands| && i <= |cands|
    ensures AddsExactly(l.succ, Realized(l, cands, wanted, mirror, i), cands)
  {
    if i == 0 {
      assert Realized(l, cands, wanted, mirror, i) == Outcome(l, [], []);
    } else {
      RealizedEdges(l, cands, wanted, mirror, i - 1);
      RealizedStep(l, cands, wanted, mirror, i);
      EdgesAfterTurn(l.succ, Realized(l, cands, wanted, mirror, i - 1), Realized(l, cands, wanted, mirror, i), cands, wanted, i);
    }
  }

  lemma EdgesAfterTurn(adj: Adj, prev: Outcome, r: Outcome, cands: seq<Connection>, wanted: seq<bool>, i: nat)
    requires Stepped(prev, r, cands, wanted, i) && AddsExactly(adj, prev, cands)
    ensures AddsExactly(adj, r, cands)
  {
    if r.turns[i - 1] == Connected {
      var c := cands[i - 1];
      forall x, y
        ensures Edge(r.links.succ, x, y) <==> Edge(adj, x, y) || (x, y) in r.picked
      {
        assert (x, y) in r.picked <==> (x, y) in prev.picked || (x, y) == c;
      }
    }
  }

  /** Both ends of each of the first i candidates are in the node map `ids`. */
  ghost predicate EndsIn(ids: set<NodeId>, cands: seq<Connection>, i: nat) {
    i <= |cands| && (i == 0 || (EndsIn(ids, cands, i - 1) && cands[i - 1].0 in ids && cands[i - 1].1 in ids))
  }

  /** One turn of the loop below, on a candidate whose ends are both in the node map: it is connected when it is wanted and closes no cycle. */
  method Advance(l0: Links, cands: seq<Connection>, wanted: seq<bool>, mirror: bool, i: nat, o: Outcome)
    returns (o': Outcome)
    requires LinksOk(l0) && Acyclic(l0.succ) && |wanted| == |cands| && i < |cands|
    requires cands[i].0 in l0.succ && cands[i].1 in l0.succ
    requires o == Realized(l0, cands, wanted, mirror, i)
    ensures o' == Realized(l0, cands, wanted, mirror, i + 1)
    ensures |o'.picked| <= |o.picked| + 1
  {
    RealizedShape(l0, cands, wanted, mirror, i);
    RealizedAcyclic(l0, cands, wanted, mirror, i);
    var c := cands[i];
    if !CycleSafe(o.links, c) {
      o' := o.(turns := o.turns + [Unsafe]);
    } else if !wanted[i] {
      o' := o.(turns := o.turns + [Skipped]);
    } else {
      o' := Outcome(Connect(o.links, c, mirror), o.turns + [Connected], o.picked + [c]);
    }
  }

  /**
   * The loop shared by `init`, the adding half of `mutate` and the edge realizers:
   * candidates are tried in order until `stopAt` of them have been connected, they run
   * out, or the next one has an end that is not in the node map `ids` (looking it up
   * raises there, with every earlier candidate already applied).
   */
  method ConnectCandidates(l0: Links, ids: set<NodeId>, cands: seq<Connection>, wanted: seq<bool>,
                           mirror: bool, stopAt: nat)
    returns (o: Outcome)
    requires LinksOk(l0) && Acyclic(l0.succ) && |wanted| == |cands|
    requires ids <= l0.succ.Keys
    ensures |o.turns| <= |cands| && o == Realized(l0, cands, wanted, mirror, |o.turns|)
    ensures |o.picked| <= stopAt
    ensures EndsIn(ids, cands, |o.turns|)
    ensures |o.turns| < |cands| && |o.picked| < stopAt ==> cands[|o.turns|].0 !in ids || cands[|o.turns|].1 !in ids
  {
    o := Outcome(l0, [], []);
    var i := 0;
    while i < |cands| && |o.picked| < stopAt && cands[i].0 in ids && cands[i].1 in ids
      invariant i == |o.turns| <= |cands| && o == Realized(l0, cands, wanted, mirror, i)
      invariant |o.picked| <= stopAt
      invariant EndsIn(ids, cands, i)
    {
      o := Advance(l0, cands, wanted, mirror, i, o);
      i := i + 1;
    }
  }
  /** No predecessor list got shorter (the add_* operations only ever append). */
  ghost predicate PredsGrow(l: Links, r: Links) {
    forall v :: v in l.pred ==> v in r.pred && |r.pred[v]| >= |l.pred[v]|
  }

  lemma ConnectPredsGrow(l: Links, c: Connection, mirror: bool)
    requires l.succ.Keys == l.pred.Keys && c.0 in l.succ && c.1 in l.succ
    ensures PredsGrow(l, Connect(l, c, mirror))
  {
  }

  /** Trying candidates never shortens a predecessor list. */
  lemma {:induction false} RealizedPredsGrow(l: Links, cands: seq<Connection>, wanted: seq<bool>, mirror: bool, i: nat)
    requires l.succ.Keys == l.pred.Keys && |wanted| == |cands| && i <= |cands|
    ensures PredsGrow(l, Realized(l, cands, wanted, mirror, i).links)
  {
    if i == 0 {
      assert Realized(l, cands, wanted, mirror, i) == Outcome(l, [], []);
    } else {
      RealizedPredsGrow(l, cands, wanted, mirror, i - 1);
      var prev := Realized(l, cands, wanted, mirror, i - 1);
      var c := cands[i - 1];
      if c.0 in l.succ && c.1 in l.succ && !Reach(prev.links.succ, c.1, c.0) && wanted[i - 1] {
        ConnectPredsGrow(prev.links, c, mirror);
      }
    }
  }

  /** At most one candidate is picked per turn. */
  lemma {:induction false} RealizedPickedFew(l: Links, cands: seq<Connection>, wanted: seq<bool>, mirror: bool, i: nat)
    requires l.succ.Keys == l.pred.Keys && |wanted| == |cands| && i <= |cands|
    ensures |Realized(l, cands, wanted, mirror, i).picked| <= i
  {
    if i > 0 {
      RealizedPickedFew(l, cands, wanted, mirror, i - 1);
      RealizedStep(l, cands, wanted, mirror, i);
    }
  }

  /** Everything the callers of ConnectCandidates need about the run over the first i candidates, in one place. */
  lemma RealizedFacts(l: Links, cands: seq<Connection>, wanted: seq<bool>, mirror: bool, i: nat)
    requires LinksOk(l) && Acyclic(l.succ) && |wanted| == |cands| && i <= |cands|
    ensures LinksOk(Realized(l, cands, wanted, mirror, i).links)
    ensures Acyclic(Realized(l, cands, wanted, mirror, i).links.succ)
    ensures AddsExactly(l.succ, Realized(l, cands, wanted, mirror, i), cands)
    ensures OnlyWanted(Realized(l, cands, wanted, mirror, i), wanted, i)
    ensures PredsGrow(l, Realized(l, cands, wanted, mirror, i).links)
  {
    RealizedShape(l, cands, wanted, mirror, i);
    RealizedAcyclic(l, cands, wanted, mirror, i);
    RealizedEdges(l, cands, wanted, mirror, i);
    RealizedWanted(l, cands, wanted, mirror, i);
    RealizedPredsGrow(l, cands, wanted, mirror, i);
  }
  /** The turn of candidate i - 1 either left the lists alone or connected that candidate. */
  lemma RealizedLinks(l: Links, cands: seq<Connection>, wanted: seq<bool>, mirror: bool, i: nat)
    requires l.succ.Keys == l.pred.Keys && |wanted| == |cands| && 0 < i <= |cands|
    ensures var prev := Realized(l, cands, wanted, mirror, i - 1).links;
      || Realized(l, cands, wanted, mirror, i).links == prev
      || (cands[i - 1].0 in prev.succ && cands[i - 1].1 in prev.succ
          && Realized(l, cands, wanted, mirror, i).links == Connect(prev, cands[i - 1], mirror))
  {
  }

  lemma SymmetricAfterTurn(prev: Links, r: Links, c: Connection, mirror: bool)
    requires LinksOk(prev) && Symmetric(prev)
    requires r == prev || (c.0 in prev.succ && c.1 in prev.succ && r == Connect(prev, c, mirror))
    ensures Symmetric(r)
  {
    if r != prev {
      ConnectSymmetric(prev, c, mirror);
    }
  }

  /** The turn of candidate i - 1 keeps symmetric lists symmetric. */
  lemma SymmetricStep(l: Links, cands: seq<Connection>, wanted: seq<bool>, mirror: bool, i: nat)
    requires LinksOk(l) && |wanted| == |cands| && 0 < i <= |cands|
    requires Symmetric(Realized(l, cands, wanted, mirror, i - 1).links)
    ensures Symmetric(Realized(l, cands, wanted, mirror, i).links)
  {
    RealizedShape(l, cands, wanted, mirror, i - 1);
    RealizedLinks(l, cands, wanted, mirror, i);
    SymmetricAfterTurn(Realized(l, cands, wanted, mirror, i - 1).links, Realized(l, cands, wanted, mirror, i).links, cands[i - 1], mirror);
  }

  /** On symmetric lists, trying candidates keeps the lists symmetric, mirrored or not. */
  lemma {:induction false} RealizedSymmetric(l: Links, cands: seq<Connection>, wanted: seq<bool>, mirror: bool, i: nat)
    requires LinksOk(l) && Symmetric(l) && |wanted| == |cands| && i <= |cands|
    ensures Symmetric(Realized(l, cands, wanted, mirror, i).links)
  {
    if i > 0 {
      RealizedSymmetric(l, cands, wanted, mirror, i - 1);
      SymmetricStep(l, cands, wanted, mirror, i);
    }
  }

  /**
   * What the turn of candidate k records: Connected iff both its ends are node
   * objects, it closes no cycle on the lists as they were at its turn, and it is
   * wanted; Unsafe iff it would close a cycle; Missing iff an end is no node object.
   */
  lemma TurnMeaning(l: Links, cands: seq<Connection>, wanted: seq<bool>, mirror: bool, k: nat)
    requires l.succ.Keys == l.pred.Keys && |wanted| == |cands| && k < |cands|
    ensures var before := Realized(l, cands, wanted, mirror, k).links;
      var turn := Realized(l, cands, wanted, mirror, k + 1).turns[k];
      var known := cands[k].0 in l.succ && cands[k].1 in l.succ;
      && (turn == Connected <==> known && !Reach(before.succ, cands[k].1, cands[k].0) && wanted[k])
      && (turn == Unsafe <==> known && Reach(before.succ, cands[k].1, cands[k].0))
      && (turn == Missing <==> !known)
  {
  }
  /** The candidates among the first i that o marks Skipped were all unwanted. */
  ghost predicate SkipsUnwanted(o: Outcome, wanted: seq<bool>, i: nat)
    requires i == |o.turns| <= |wanted|
  {
    forall k :: 0 <= k < i && o.turns[k] == Skipped ==> !wanted[k]
  }

  /** A candidate is skipped only when it is not wanted: every wanted candidate that closes no cycle is connected. */
  lemma {:induction false} RealizedSkips(l: Links, cands: seq<Connection>, wanted: seq<bool>, mirror: bool, i: nat)
    requires l.succ.Keys == l.pred.Keys && |wanted| == |cands| && i <= |cands|
    ensures SkipsUnwanted(Realized(l, cands, wanted, mirror, i), wanted, i)
  {
    if i > 0 {
      RealizedSkips(l, cands, wanted, mirror, i - 1);
      RealizedStep(l, cands, wanted, mirror, i);
      LastSkip(l, cands, wanted, mirror, i);
      SkipsAfterTurn(Realized(l, cands, wanted, mirror, i - 1), Realized(l, cands, wanted, mirror, i), cands, wanted, i);
    }
  }

  lemma LastSkip(l: Links, cands: seq<Connection>, wanted: seq<bool>, mirror: bool, i: nat)
    requires l.succ.Keys == l.pred.Keys && |wanted| == |cands| && 0 < i <= |cands|
    ensures Realized(l, cands, wanted, mirror, i).turns[i - 1] == Skipped ==> !wanted[i - 1]
  {
  }

  lemma SkipsAfterTurn(prev: Outcome, r: Outcome, cands: seq<Connection>, wanted: seq<bool>, i: nat)
    requires Stepped(prev, r, cands, wanted, i) && SkipsUnwanted(prev, wanted, i - 1)
    requires r.turns[i - 1] == Skipped ==> !wanted[i - 1]
    ensures SkipsUnwanted(r, wanted, i)
  {
    forall k | 0 <= k < i && r.turns[k] == Skipped
      ensures !wanted[k]
    {
      if k < i - 1 {
        assert prev.turns[k] == Skipped;
      }
    }
  }
}
