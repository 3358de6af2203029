/**
 * The CompositeGraph class of swarm/graph/composite_graph.py: a graph holding the
 * agents' graphs, whose only output node is the final decision node, and whose
 * `init` and `mutate` add (and take away) connections between the agents.
 *
 * The two halves of `mutate` are value-level methods on the edge lists; the class
 * methods install what they compute. Every random draw is a parameter.
 */
module CompositeGraphs {
  import opened Wrappers
  import opened Digraph
  import opened Nodes
  import opened Arenas
  import opened Graphs
  import opened Composite
  import opened Draws

  /** The KeyError that looking up `id` in the node dictionary raises. */
  function KeyError(id: NodeId): (r: string)
    ensures r != NotInList
  {
    assert ("KeyError: " + id)[0] != NotInList[0];
    "KeyError: " + id
  }

  // ---------------------------------------------------------------------------
  // The removing half of mutate.
  // ---------------------------------------------------------------------------

  /**
   * Why the removing loop stopped before its last turn: nothing learned was left,
   * enough edges were removed, a connection named an id missing from the node
   * dictionary, or remove_successor raised.
   */
  datatype Halt = Running | Emptied | Enough | NoSuchNode(id: NodeId) | Failed(reason: string)

  /** The state of the removing loop: the edge lists, the learned connections, how many edges went, and whether it stopped. */
  datatype Pruning = Pruning(links: Links, learned: seq<Connection>, removed: nat, halt: Halt)

  /**
   * One turn of the removing loop, `draw` being the value random.choice draws: stop
   * when nothing is learned; otherwise look up both ends of the chosen connection,
   * leave it alone when its head is an output node with a single predecessor, and
   * otherwise remove the edge, count it and forget the connection. A ValueError of
   * remove_successor leaves the successor list already shortened.
   */
  function PruneTurn(ids: set<NodeId>, outputs: seq<NodeId>, numRemove: nat, p: Pruning, draw: nat): (r: Pruning)
    requires LinksOk(p.links) && ids <= p.links.succ.Keys
    ensures LinksOk(r.links) && r.links.succ.Keys == p.links.succ.Keys
  {
    if p.learned == [] then p.(halt := Emptied)
    else
      var c := p.learned[draw % |p.learned|];
      if c.0 !in ids then p.(halt := NoSuchNode(c.0))
      else if c.1 !in ids then p.(halt := NoSuchNode(c.1))
      else if c.1 in outputs && |p.links.pred[c.1]| == 1 then p
      else
        RemoveSuccessorKeepsShape(p.links, c.0, c.1);
        match RemoveSuccessor(p.links, c.0, c.1)
        case Raised(e) =>
          p.(links := p.links.(succ := p.links.succ[c.0 := RemoveFirst(p.links.succ[c.0], c.1)]), halt := Failed(e))
        case Ok(l) =>
          Pruning(l, RemoveFirst(p.learned, c), p.removed + 1, if p.removed + 1 >= numRemove then Enough else Running)
  }

  /** The removing loop after t of its turns, `draws(k)` being the value drawn at turn k. */
  ghost function PrunedAfter(l0: Links, ids: set<NodeId>, outputs: seq<NodeId>, learned0: seq<Connection>,
                             numRemove: nat, draws: nat -> nat, t: nat): (r: Pruning)
    requires LinksOk(l0) && ids <= l0.succ.Keys
    ensures LinksOk(r.links) && r.links.succ.Keys == l0.succ.Keys
  {
    if t == 0 then Pruning(l0, learned0, 0, Running)
    else
      var p := PrunedAfter(l0, ids, outputs, learned0, numRemove, draws, t - 1);
      if p.halt != Running then p else PruneTurn(ids, outputs, numRemove, p, draws(t - 1))
  }

  /** Once the loop has stopped, later turns change nothing. */
  lemma {:induction false} PrunedHalted(l0: Links, ids: set<NodeId>, outputs: seq<NodeId>, learned0: seq<Connection>,
                                        numRemove: nat, draws: nat -> nat, t: nat, t': nat)
    requires LinksOk(l0) && ids <= l0.succ.Keys && t <= t'
    requires PrunedAfter(l0, ids, outputs, learned0, numRemove, draws, t).halt != Running
    ensures PrunedAfter(l0, ids, outputs, learned0, numRemove, draws, t') == PrunedAfter(l0, ids, outputs, learned0, numRemove, draws, t)
    decreases t' - t
  {
    if t < t' {
      PrunedHalted(l0, ids, outputs, learned0, numRemove, draws, t, t' - 1);
    }
  }

  /** The removing loop of mutate: at most num_remove_edges * 10 turns. */
  method Prune(l0: Links, ids: set<NodeId>, outputs: seq<NodeId>, learned0: seq<Connection>, numRemove: nat, draws: nat -> nat)
    returns (p: Pruning)
    requires LinksOk(l0) && ids <= l0.succ.Keys
    ensures p == PrunedAfter(l0, ids, outputs, learned0, numRemove, draws, 10 * numRemove)
  {
    p := Pruning(l0, learned0, 0, Running);
    var t := 0;
    while t < 10 * numRemove && p.halt == Running
      invariant t <= 10 * numRemove && p == PrunedAfter(l0, ids, outputs, learned0, numRemove, draws, t)
    {
      p := PruneTurn(ids, outputs, numRemove, p, draws(t));
      t := t + 1;
    }
    if t < 10 * numRemove {
      PrunedHalted(l0, ids, outputs, learned0, numRemove, draws, t, 10 * numRemove);
    }
  }

  /** Only edges are taken away, each of them a learned connection. */
  ghost predicate OnlyLearnedGo(l0: Links, learned0: seq<Connection>, l: Links) {
    && SubGraph(l.succ, l0.succ)
    && (forall x, y :: Edge(l0.succ, x, y) && !Edge(l.succ, x, y) ==> (x, y) in learned0)
  }

  /** One connection is forgotten per removed edge, and no more than numRemove edges go. */
  ghost predicate Counted(learned0: seq<Connection>, numRemove: nat, p: Pruning) {
    && |p.learned| + p.removed == |learned0|
    && multiset(p.learned) <= multiset(learned0)
    && p.removed <= numRemove
    && (p.halt == Running && numRemove > 0 ==> p.removed < numRemove)
  }

  /** Every output node that had a predecessor still has one. */
  ghost predicate OutputsFed(l0: Links, outputs: seq<NodeId>, l: Links) {
    forall o :: o in outputs && o in l0.pred && |l0.pred[o]| > 0 ==> o in l.pred && |l.pred[o]| > 0
  }

  /**
   * What the removing loop keeps, measured against where it started; on symmetric
   * lists, besides, the lists stay symmetric and remove_successor never raises.
   */
  ghost predicate PruneInv(l0: Links, outputs: seq<NodeId>, learned0: seq<Connection>, numRemove: nat, p: Pruning) {
    && LinksOk(p.links) && p.links.succ.Keys == l0.succ.Keys
    && OnlyLearnedGo(l0, learned0, p.links)
    && Counted(learned0, numRemove, p)
    && OutputsFed(l0, outputs, p.links)
    && (Symmetric(l0) ==> Symmetric(p.links) && !p.halt.Failed?)
  }

  /** Removing the first occurrence of x keeps every other element. */
  lemma RemoveFirstKeeps<T>(s: seq<T>, x: T, y: T)
    requires x in s && y in s && y != x
    ensures y in RemoveFirst(s, x)
  {
    assert multiset(RemoveFirst(s, x))[y] == multiset(s)[y];
  }

  /** Removing the edge c.0 -> c.1 (or nothing) from the successor lists takes away that edge at most. */
  lemma SuccAfterRemoval(l0: Links, learned0: seq<Connection>, p: Links, r: Links, c: Connection)
    requires c.0 in p.succ && c in learned0
    requires r.succ == p.succ || (c.1 in p.succ[c.0] && r.succ == p.succ[c.0 := RemoveFirst(p.succ[c.0], c.1)])
    requires OnlyLearnedGo(l0, learned0, p)
    ensures OnlyLearnedGo(l0, learned0, r)
  {
    if r.succ != p.succ {
      forall x, y | Edge(p.succ, x, y) && !Edge(r.succ, x, y)
        ensures x == c.0 && y == c.1
      {
        if x == c.0 && y != c.1 {
          RemoveFirstKeeps(p.succ[c.0], c.1, y);
        }
      }
    }
  }

  /** Removing an edge into an output node that has more than one predecessor leaves it one. */
  lemma PredsAfterRemoval(l0: Links, outputs: seq<NodeId>, p: Links, r: Links, c: Connection)
    requires c.1 in p.pred && !(c.1 in outputs && |p.pred[c.1]| == 1)
    requires r.pred == p.pred || (c.0 in p.pred[c.1] && r.pred == p.pred[c.1 := RemoveFirst(p.pred[c.1], c.0)])
    requires OutputsFed(l0, outputs, p)
    ensures OutputsFed(l0, outputs, r)
  {
  }

  /** What a successful remove_successor did to each of the two lists. */
  lemma RemovedLists(l: Links, a: NodeId, b: NodeId)
    requires a in l.succ && b in l.pred && RemoveSuccessor(l, a, b).Ok?
    ensures var r := RemoveSuccessor(l, a, b).value;
      && (r.succ == l.succ || (b in l.succ[a] && r.succ == l.succ[a := RemoveFirst(l.succ[a], b)]))
      && (r.pred == l.pred || (a in l.pred[b] && r.pred == l.pred[b := RemoveFirst(l.pred[b], a)]))
  {
  }

  /** A successful removal of the learned connection c keeps the invariant. */
  lemma RemovalKeeps(l0: Links, outputs: seq<NodeId>, learned0: seq<Connection>, numRemove: nat, p: Pruning, c: Connection, r: Pruning)
    requires PruneInv(l0, outputs, learned0, numRemove, p) && p.halt == Running && numRemove > 0
    requires c in p.learned && c.0 in p.links.succ && c.1 in p.links.succ && !(c.1 in outputs && |p.links.pred[c.1]| == 1)
    requires RemoveSuccessor(p.links, c.0, c.1) == Ok(r.links) && LinksOk(r.links) && r.links.succ.Keys == p.links.succ.Keys
    requires r.learned == RemoveFirst(p.learned, c) && r.removed == p.removed + 1
    requires r.halt == if p.removed + 1 >= numRemove then Enough else Running
    ensures PruneInv(l0, outputs, learned0, numRemove, r)
  {
    assert c in learned0 by {
      assert multiset(p.learned)[c] > 0;
    }
    RemovedLists(p.links, c.0, c.1);
    SuccAfterRemoval(l0, learned0, p.links, r.links, c);
    PredsAfterRemoval(l0, outputs, p.links, r.links, c);
    if Symmetric(p.links) {
      RemoveSuccessorSound(p.links, c.0, c.1);
    }
  }

  /** A failed removal of the learned connection c keeps the invariant: it cannot happen on symmetric lists. */
  lemma FailureKeeps(l0: Links, outputs: seq<NodeId>, learned0: seq<Connection>, numRemove: nat, p: Pruning, c: Connection, r: Pruning)
    requires PruneInv(l0, outputs, learned0, numRemove, p) && p.halt == Running
    requires c in p.learned && c.0 in p.links.succ && c.1 in p.links.succ
    requires RemoveSuccessor(p.links, c.0, c.1).Raised? && LinksOk(r.links)
    requires r == p.(links := p.links.(succ := p.links.succ[c.0 := RemoveFirst(p.links.succ[c.0], c.1)]), halt := Failed(NotInList))
    ensures PruneInv(l0, outputs, learned0, numRemove, r)
  {
    assert c in learned0 by {
      assert multiset(p.learned)[c] > 0;
    }
    SuccAfterRemoval(l0, learned0, p.links, r.links, c);
    if Symmetric(p.links) {
      RemoveSuccessorSound(p.links, c.0, c.1);
    }
  }

  lemma PruneTurnKeeps(l0: Links, ids: set<NodeId>, outputs: seq<NodeId>, learned0: seq<Connection>, numRemove: nat,
                       p: Pruning, draw: nat)
    requires LinksOk(l0) && ids <= l0.succ.Keys && numRemove > 0
    requires PruneInv(l0, outputs, learned0, numRemove, p) && p.halt == Running
    ensures PruneInv(l0, outputs, learned0, numRemove, PruneTurn(ids, outputs, numRemove, p, draw))
  {
    var r := PruneTurn(ids, outputs, numRemove, p, draw);
    if p.learned != [] {
      var c := p.learned[draw % |p.learned|];
      if c.0 in ids && c.1 in ids && !(c.1 in outputs && |p.links.pred[c.1]| == 1) {
        if RemoveSuccessor(p.links, c.0, c.1).Raised? {
          FailureKeeps(l0, outputs, learned0, numRemove, p, c, r);
        } else {
          RemovalKeeps(l0, outputs, learned0, numRemove, p, c, r);
        }
      }
    }
  }

  /** The removing loop keeps PruneInv at every turn. */
  lemma {:induction false} PrunedKeeps(l0: Links, ids: set<NodeId>, outputs: seq<NodeId>, learned0: seq<Connection>,
                                       numRemove: nat, draws: nat -> nat, t: nat)
    requires LinksOk(l0) && ids <= l0.succ.Keys && (numRemove > 0 || t == 0)
    ensures PruneInv(l0, outputs, learned0, numRemove, PrunedAfter(l0, ids, outputs, learned0, numRemove, draws, t))
  {
    if t == 0 {
      assert PrunedAfter(l0, ids, outputs, learned0, numRemove, draws, t) == Pruning(l0, learned0, 0, Running);
    } else {
      PrunedKeeps(l0, ids, outputs, learned0, numRemove, draws, t - 1);
      var p := PrunedAfter(l0, ids, outputs, learned0, numRemove, draws, t - 1);
      if p.halt == Running {
        PruneTurnKeeps(l0, ids, outputs, learned0, numRemove, p, draws(t - 1));
      }
    }
  }
  // ---------------------------------------------------------------------------
  // mutate as a whole.
  // ---------------------------------------------------------------------------

  /** The connections the adding loop of mutate draws: random.choice(potential_connections) at each of its n turns. */
  function AddDraws(potential: seq<Connection>, n: nat, picks: nat -> nat): (r: seq<Connection>)
    requires potential != []
    ensures |r| == n && forall c :: c in r ==> c in potential
  {
    var r := seq(n, (k: int) requires 0 <= k => Choice(potential, picks(k)).value);
    assert forall k :: 0 <= k < n ==> r[k] == Choice(potential, picks(k)).value;
    r
  }

  /** Every candidate of the adding loop is wanted: mutate connects each one that closes no cycle. */
  function AllWanted(n: nat): (r: seq<bool>)
    ensures |r| == n && forall k :: 0 <= k < n ==> r[k]
  {
    seq(n, _ => true)
  }

  /** How many of the drawn connections, tried in order, close no cycle when they are tried. */
  ghost function SafeCount(l0: Links, cands: seq<Connection>): nat
    requires LinksOk(l0)
  {
    |Realized(l0, cands, AllWanted(|cands|), false, |cands|).picked|
  }

  /** Later turns only add to what was picked. */
  lemma {:induction false} PickedGrows(l: Links, cands: seq<Connection>, wanted: seq<bool>, mirror: bool, i: nat, j: nat)
    requires l.succ.Keys == l.pred.Keys && |wanted| == |cands| && i <= j <= |cands|
    ensures |Realized(l, cands, wanted, mirror, i).picked| <= |Realized(l, cands, wanted, mirror, j).picked|
    decreases j - i
  {
    if i < j {
      PickedGrows(l, cands, wanted, mirror, i, j - 1);
      RealizedStep(l, cands, wanted, mirror, j);
    }
  }

  /**
   * When every drawn connection names two known nodes, the adding loop adds exactly
   * num_new_edges edges if that many of its draws close no cycle, and otherwise every
   * such draw.
   */
  lemma AddedCount(l0: Links, ids: set<NodeId>, cands: seq<Connection>, numNew: nat, o: Outcome)
    requires LinksOk(l0)
    requires |o.turns| <= |cands| && o == Realized(l0, cands, AllWanted(|cands|), false, |o.turns|)
    requires |o.picked| <= numNew
    requires |o.turns| < |cands| && |o.picked| < numNew ==> cands[|o.turns|].0 !in ids || cands[|o.turns|].1 !in ids
    ensures (forall c :: c in cands ==> c.0 in ids && c.1 in ids) ==>
      |o.picked| == if numNew <= SafeCount(l0, cands) then numNew else SafeCount(l0, cands)
  {
    if forall c :: c in cands ==> c.0 in ids && c.1 in ids {
      if |o.turns| < |cands| {
        assert cands[|o.turns|] in cands;
        PickedGrows(l0, cands, AllWanted(|cands|), false, |o.turns|, |cands|);
      }
    }
  }

  /**
   * mutate's counts and edges as the draws determine them: newDraw and removeDraw give the
   * two counts, and, when every connection the adding loop draws names two known nodes,
   * it adds num_new_edges of them, or all the draws that close no cycle when fewer do.
   */
  ghost predicate DrawsFollowed(l0: Links, ids: set<NodeId>, maxNew: int, maxRemove: int, potential: seq<Connection>,
                                newDraw: nat, removeDraw: nat, addPicks: nat -> nat, m: Mutation)
    requires LinksOk(l0)
  {
    var rn := RandInt(0, maxNew, newDraw);
    && (m.drawn.Some? <==> rn.Ok? && RandInt(if rn.value == 0 then 1 else 0, maxRemove, removeDraw).Ok?)
    && (m.drawn.Some? ==> m.drawn.value == (rn.value, RandInt(if rn.value == 0 then 1 else 0, maxRemove, removeDraw).value))
    && (m.drawn.Some? && potential != [] ==>
          var cands := AddDraws(potential, 10 * m.drawn.value.0, addPicks);
          (forall c :: c in cands ==> c.0 in ids && c.1 in ids) ==>
            m.added == if m.drawn.value.0 <= SafeCount(l0, cands) then m.drawn.value.0 else SafeCount(l0, cands))
  }

  /** The exception, if any, that ended the removing loop. */
  function HaltError(h: Halt): (r: Option<string>)
    ensures r.None? <==> !h.NoSuchNode? && !h.Failed?
  {
    match h
    case NoSuchNode(id) => Some(KeyError(id))
    case Failed(e) => Some(e)
    case _ => None
  }

  /**
   * What mutate ended with: the edge lists, the learned connections, the two counts it
   * drew (num_new_edges and num_remove_edges; none when a randint raised), how many
   * edges it added and removed, and what it raised.
   */
  datatype Mutation = Mutation(links: Links, learned: seq<Connection>, drawn: Option<(nat, nat)>,
                               added: nat, removed: nat, err: Option<string>)

  /**
   * The ranges mutate draws its counts from: num_new_edges in 0 .. max_new_edges, and
   * num_remove_edges in 0 .. max_remove_edges, or in 1 .. max_remove_edges when no edge
   * is to be added, so that every call changes something.
   */
  predicate DrawRule(maxNew: int, maxRemove: int, d: (nat, nat)) {
    d.0 <= maxNew && (if d.0 == 0 then 1 else 0) <= d.1 <= maxRemove
  }

  /** Every new edge is a potential connection; every edge that went was learned or potential. */
  ghost predicate EdgesTraced(l0: Links, learned0: seq<Connection>, potential: seq<Connection>, l: Links) {
    && (forall x, y :: Edge(l.succ, x, y) && !Edge(l0.succ, x, y) ==> (x, y) in potential)
    && (forall x, y :: Edge(l0.succ, x, y) && !Edge(l.succ, x, y) ==> (x, y) in learned0 || (x, y) in potential)
  }

  /**
   * What mutate promises, measured against the lists l0 and the learned
   * connections learned0 it started from.
   */
  ghost predicate MutationSound(l0: Links, outputs: seq<NodeId>, learned0: seq<Connection>, maxNew: int, maxRemove: int,
                                potential: seq<Connection>, m: Mutation) {
    // the counts are drawn from their ranges, and no more edges than drawn are added or removed
    && (m.drawn.Some? ==> DrawRule(maxNew, maxRemove, m.drawn.value) && m.added <= m.drawn.value.0 && m.removed <= m.drawn.value.1)
    // a range randint cannot draw from raises before anything changes; with max_remove_edges 0
    // that happens too when num_new_edges is drawn 0
    && (maxNew < 0 || maxRemove < 0 || (maxNew == 0 && maxRemove == 0) ==> m.drawn.None?)
    && (m.drawn.None? ==> maxNew < 0 || maxRemove <= 0)
    && (m.drawn.None? ==> m.err.Some? && m.links == l0 && m.learned == learned0 && m.added == 0 && m.removed == 0)
    // the lists stay well formed and acyclic
    && LinksOk(m.links) && m.links.succ.Keys == l0.succ.Keys && Acyclic(m.links.succ)
    && EdgesTraced(l0, learned0, potential, m.links)
    // the learned list gains the added connections and loses the removed ones
    && |m.learned| == |learned0| + m.added - m.removed
    && (forall c :: c in m.learned ==> c in learned0 || c in potential)
    // an output node that had a predecessor keeps one
    && OutputsFed(l0, outputs, m.links)
    // on symmetric lists nothing can make list.remove raise, and the lists stay symmetric
    && (Symmetric(l0) ==> Symmetric(m.links) && m.err != Some(NotInList))
  }

  /**
   * CompositeGraph.mutate on the edge lists: draw how many edges to add and to remove,
   * add up to that many potential connections that close no cycle (at most ten draws
   * per edge), then remove up to that many learned connections. `newDraw` and
   * `removeDraw` are the two randint draws, `addPicks(k)` and `removePicks(k)` the
   * random.choice draws at turn k of each loop; `ids` is the node dictionary.
   */
  method MutateLinks(l0: Links, ids: set<NodeId>, outputs: seq<NodeId>, learned0: seq<Connection>,
                     maxNew: int, maxRemove: int, potential: seq<Connection>,
                     newDraw: nat, removeDraw: nat, addPicks: nat -> nat, removePicks: nat -> nat)
    returns (m: Mutation)
    requires LinksOk(l0) && Acyclic(l0.succ) && ids <= l0.succ.Keys
    ensures MutationSound(l0, outputs, learned0, maxNew, maxRemove, potential, m)
    ensures DrawsFollowed(l0, ids, maxNew, maxRemove, potential, newDraw, removeDraw, addPicks, m)
  {
    var rn := RandInt(0, maxNew, newDraw);
    if rn.Raised? {
      m := Mutation(l0, learned0, None, 0, 0, Some(rn.reason));
      UnchangedSound(l0, outputs, learned0, maxNew, maxRemove, potential, m);
      return;
    }
    var numNew: nat := rn.value;
    var rr := RandInt(if numNew == 0 then 1 else 0, maxRemove, removeDraw);
    if rr.Raised? {
      m := Mutation(l0, learned0, None, 0, 0, Some(rr.reason));
      UnchangedSound(l0, outputs, learned0, maxNew, maxRemove, potential, m);
      return;
    }
    var numRemove: nat := rr.value;
    if numNew > 0 && potential == [] {
      m := Mutation(l0, learned0, Some((numNew, numRemove)), 0, 0, Some(Choice(potential, addPicks(0)).reason));
      UnchangedSound(l0, outputs, learned0, maxNew, maxRemove, potential, m);
      return;
    }
    m := AddThenPrune(l0, ids, outputs, learned0, maxNew, maxRemove, potential, numNew, numRemove, addPicks, removePicks);
  }

  /** The two loops of mutate, once both counts are drawn and there is something to choose from. */
  method AddThenPrune(l0: Links, ids: set<NodeId>, outputs: seq<NodeId>, learned0: seq<Connection>,
                      maxNew: int, maxRemove: int, potential: seq<Connection>,
                      numNew: nat, numRemove: nat, addPicks: nat -> nat, removePicks: nat -> nat)
    returns (m: Mutation)
    requires LinksOk(l0) && Acyclic(l0.succ) && ids <= l0.succ.Keys
    requires DrawRule(maxNew, maxRemove, (numNew, numRemove)) && (numNew > 0 ==> potential != [])
    ensures MutationSound(l0, outputs, learned0, maxNew, maxRemove, potential, m)
    ensures m.drawn == Some((numNew, numRemove))
    ensures potential != [] ==>
      var cands := AddDraws(potential, 10 * numNew, addPicks);
      (forall c :: c in cands ==> c.0 in ids && c.1 in ids) ==>
        m.added == if numNew <= SafeCount(l0, cands) then numNew else SafeCount(l0, cands)
  {
    var cands := if potential == [] then [] else AddDraws(potential, 10 * numNew, addPicks);
    var always := AllWanted(|cands|);
    var o := ConnectCandidates(l0, ids, cands, always, false, numNew);
    AddingFacts(l0, cands, potential, always, o);
    AddedCount(l0, ids, cands, numNew, o);
    var learned1 := learned0 + o.picked;
    if |o.turns| < |cands| && |o.picked| < numNew {
      var c := cands[|o.turns|];
      m := Mutation(o.links, learned1, Some((numNew, numRemove)), |o.picked|, 0, Some(KeyError(if c.0 !in ids then c.0 else c.1)));
      AddingSound(l0, outputs, learned0, maxNew, maxRemove, potential, cands, o, m);
      return;
    }
    var p := Prune(o.links, ids, outputs, learned1, numRemove, removePicks);
    m := Mutation(p.links, p.learned, Some((numNew, numRemove)), |o.picked|, p.removed, HaltError(p.halt));
    MutationComposes(l0, ids, outputs, learned0, maxNew, maxRemove, potential, cands, o, numRemove, removePicks, p, m);
  }

  /** mutate that raised before changing anything keeps its promises. */
  lemma UnchangedSound(l0: Links, outputs: seq<NodeId>, learned0: seq<Connection>, maxNew: int, maxRemove: int,
                       potential: seq<Connection>, m: Mutation)
    requires LinksOk(l0) && Acyclic(l0.succ)
    requires m == Mutation(l0, learned0, m.drawn, 0, 0, m.err) && m.err.Some? && m.err != Some(NotInList)
    requires maxNew < 0 || maxRemove < 0 || (maxNew == 0 && maxRemove == 0) ==> m.drawn.None?
    requires m.drawn.None? ==> maxNew < 0 || maxRemove <= 0
    requires m.drawn.Some? ==> DrawRule(maxNew, maxRemove, m.drawn.value)
    ensures MutationSound(l0, outputs, learned0, maxNew, maxRemove, potential, m)
  {
  }

  /** The facts about the adding loop that both ways of finishing mutate use. */
  lemma AddingFacts(l0: Links, cands: seq<Connection>, potential: seq<Connection>, always: seq<bool>, o: Outcome)
    requires LinksOk(l0) && Acyclic(l0.succ) && |always| == |cands|
    requires |o.turns| <= |cands| && o == Realized(l0, cands, always, false, |o.turns|)
    ensures LinksOk(o.links) && o.links.succ.Keys == l0.succ.Keys && Acyclic(o.links.succ)
    ensures AddsExactly(l0.succ, o, cands) && PredsGrow(l0, o.links)
    ensures Symmetric(l0) ==> Symmetric(o.links)
    ensures (forall c :: c in cands ==> c in potential) ==> Added(l0, cands, potential, o)
  {
    RealizedFacts(l0, cands, always, false, |o.turns|);
    if Symmetric(l0) {
      RealizedSymmetric(l0, cands, always, false, |o.turns|);
    }
  }

  /** What the adding loop leaves behind, as MutateLinks knows it from AddingFacts. */
  ghost predicate Added(l0: Links, cands: seq<Connection>, potential: seq<Connection>, o: Outcome) {
    && LinksOk(o.links) && o.links.succ.Keys == l0.succ.Keys && Acyclic(o.links.succ)
    && AddsExactly(l0.succ, o, cands) && PredsGrow(l0, o.links)
    && (Symmetric(l0) ==> Symmetric(o.links))
    && forall c :: c in cands ==> c in potential
  }

  /** mutate stopped by a KeyError while adding keeps its promises. */
  lemma AddingSound(l0: Links, outputs: seq<NodeId>, learned0: seq<Connection>, maxNew: int, maxRemove: int,
                    potential: seq<Connection>, cands: seq<Connection>, o: Outcome, m: Mutation)
    requires LinksOk(l0) && Added(l0, cands, potential, o)
    requires m.drawn.Some? && DrawRule(maxNew, maxRemove, m.drawn.value) && |o.picked| <= m.drawn.value.0
    requires m == Mutation(o.links, learned0 + o.picked, m.drawn, |o.picked|, 0, m.err) && m.err.Some? && m.err != Some(NotInList)
    ensures MutationSound(l0, outputs, learned0, maxNew, maxRemove, potential, m)
  {
  }

  /** Adding then removing keeps the promises of mutate. */
  lemma MutationComposes(l0: Links, ids: set<NodeId>, outputs: seq<NodeId>, learned0: seq<Connection>, maxNew: int, maxRemove: int,
                         potential: seq<Connection>, cands: seq<Connection>, o: Outcome,
                         numRemove: nat, removePicks: nat -> nat, p: Pruning, m: Mutation)
    requires LinksOk(l0) && ids <= l0.succ.Keys && Added(l0, cands, potential, o)
    requires m.drawn.Some? && DrawRule(maxNew, maxRemove, m.drawn.value) && |o.picked| <= m.drawn.value.0
    requires numRemove == m.drawn.value.1
    requires p == PrunedAfter(o.links, ids, outputs, learned0 + o.picked, numRemove, removePicks, 10 * numRemove)
    requires m == Mutation(p.links, p.learned, m.drawn, |o.picked|, p.removed, HaltError(p.halt))
    ensures MutationSound(l0, outputs, learned0, maxNew, maxRemove, potential, m)
  {
    PrunedKeeps(o.links, ids, outputs, learned0 + o.picked, numRemove, removePicks, 10 * numRemove);
    SubGraphKeepsAcyclic(o.links.succ, m.links.succ);
    ComposeEdges(l0, learned0, potential, cands, o, m.links);
    forall c | c in m.learned
      ensures c in learned0 || c in potential
    {
      assert multiset(m.learned)[c] > 0;
      assert c in learned0 + o.picked;
    }
  }

  lemma ComposeEdges(l0: Links, learned0: seq<Connection>, potential: seq<Connection>, cands: seq<Connection>, o: Outcome, l: Links)
    requires AddsExactly(l0.succ, o, cands) && forall c :: c in cands ==> c in potential
    requires OnlyLearnedGo(o.links, learned0 + o.picked, l)
    ensures EdgesTraced(l0, learned0, potential, l)
  {
  }
  // ---------------------------------------------------------------------------
  // add_graph: the node objects of two graphs side by side.
  // ---------------------------------------------------------------------------

  /** A walk that starts among the objects of `a` never leaves them, since their lists only name them. */
  lemma {:induction false} WalkStaysIn(a: Adj, u: Adj, w: seq<NodeId>)
    requires Closed(a) && (forall k :: k in a ==> k in u && u[k] == a[k])
    requires IsWalk(u, w) && w[0] in a
    ensures IsWalk(a, w)
    decreases |w|
  {
    if |w| > 1 {
      assert Edge(u, w[0], w[1]);
      assert IsWalk(u, w[1..]) by {
        forall i | 0 <= i < |w[1..]| - 1
          ensures Edge(u, w[1..][i], w[1..][i + 1])
        {
          assert Edge(u, w[i + 1], w[i + 2]);
        }
      }
      WalkStaysIn(a, u, w[1..]);
      forall i | 0 <= i < |w| - 1
        ensures Edge(a, w[i], w[i + 1])
      {
        if i > 0 {
          assert Edge(a, w[1..][i - 1], w[1..][i]);
        }
      }
    }
  }

  /** Whatever reaches from an object of `a` in the merged graph reaches within `a`. */
  lemma ReachStaysIn(a: Adj, u: Adj, x: NodeId, y: NodeId)
    requires Closed(a) && (forall k :: k in a ==> k in u && u[k] == a[k])
    requires Reach(u, x, y) && x in a
    ensures Reach(a, x, y)
  {
    var w :| IsWalk(u, w) && w[0] == x && w[|w| - 1] == y;
    WalkStaysIn(a, u, w);
  }

  /** Putting two acyclic graphs side by side closes no cycle. */
  lemma MergeAcyclic(a: Arena, b: Arena)
    requires ArenaOk(a) && ArenaOk(b) && a.kinds.Keys !! b.kinds.Keys
    requires Acyclic(a.succ) && Acyclic(b.succ)
    ensures Acyclic(Merge(a, b).succ)
  {
    MergeOk(a, b);
    MergeEdges(a, b);
    var u := Merge(a, b).succ;
    forall x, y | Edge(u, x, y)
      ensures !Reach(u, y, x)
    {
      if Reach(u, y, x) {
        if Edge(a.succ, x, y) {
          ReachStaysIn(a.succ, u, y, x);
        } else {
          ReachStaysIn(b.succ, u, y, x);
        }
      }
    }
  }

  /** Putting two graphs with symmetric lists side by side keeps the lists symmetric. */
  lemma MergeSymmetric(a: Arena, b: Arena)
    requires ArenaOk(a) && ArenaOk(b) && a.kinds.Keys !! b.kinds.Keys
    requires Symmetric(LinksOf(a)) && Symmetric(LinksOf(b))
    ensures Symmetric(LinksOf(Merge(a, b)))
  {
    MergeOk(a, b);
    MergeEdges(a, b);
    UnionNoDup(a.succ, b.succ);
    UnionNoDup(a.pred, b.pred);
  }

  /** Each list of the union is a list of one side. */
  lemma UnionNoDup(a: Adj, b: Adj)
    requires NoDupLists(a) && NoDupLists(b) && a.Keys !! b.Keys
    ensures NoDupLists(a + b)
  {
    forall x | x in a + b
      ensures NoDup((a + b)[x])
    {
      if x in a {
        assert (a + b)[x] == a[x];
      } else {
        assert (a + b)[x] == b[x];
      }
    }
  }

  // ---------------------------------------------------------------------------
  // The class.
  // ---------------------------------------------------------------------------

  /** Whether each potential connection is wanted by `init`: random.random() drew below the probability. */
  function Drawn(prob: real, draws: nat -> real, n: nat): (r: seq<bool>)
    ensures |r| == n && forall k :: 0 <= k < n ==> (r[k] <==> draws(k) < prob)
  {
    seq(n, (k: int) requires 0 <= k => draws(k) < prob)
  }

  /** The end of connection c that the node dictionary does not hold (the tail is looked up first). */
  function MissingEnd(ids: set<NodeId>, c: Connection): NodeId {
    if c.0 !in ids then c.0 else c.1
  }

  /**
   * What a run of init over the first |o.turns| potential connections did: exactly the
   * connections it picked were added as edges, each only when its draw fell below the
   * probability, and the graph stayed acyclic.
   */
  ghost predicate InitSound(l0: Links, prob: real, potential: seq<Connection>, draws: nat -> real, o: Outcome)
    requires LinksOk(l0) && Acyclic(l0.succ)
  {
    && |o.turns| <= |potential|
    && o == Realized(l0, potential, Drawn(prob, draws, |potential|), false, |o.turns|)
    && LinksOk(o.links) && o.links.succ.Keys == l0.succ.Keys
    && Acyclic(o.links.succ)
    && AddsExactly(l0.succ, o, potential)
    && (forall k :: 0 <= k < |o.turns| && o.turns[k] == Connected ==> draws(k) < prob)
  }

  /**
   * init on the lists of the node objects: a connection is added (to the successor
   * lists) when its draw fell below the probability and it closes no cycle. The first
   * connection with an end outside the node dictionary raises KeyError.
   */
  method InitLinks(l0: Links, ids: set<NodeId>, prob: real, potential: seq<Connection>, draws: nat -> real)
    returns (o: Outcome, err: Option<string>)
    requires LinksOk(l0) && Acyclic(l0.succ) && ids <= l0.succ.Keys
    ensures InitSound(l0, prob, potential, draws, o)
    ensures err.None? <==> |o.turns| == |potential|
    ensures err.Some? ==> err == Some(KeyError(MissingEnd(ids, potential[|o.turns|])))
  {
    var wanted := Drawn(prob, draws, |potential|);
    o := ConnectCandidates(l0, ids, potential, wanted, false, |potential| + 1);
    RealizedFacts(l0, potential, wanted, false, |o.turns|);
    RealizedPickedFew(l0, potential, wanted, false, |o.turns|);
    if |o.turns| < |potential| {
      err := Some(KeyError(MissingEnd(ids, potential[|o.turns|])));
    } else {
      err := None;
    }
  }

  class CompositeGraph {
    /** The Graph this object also is (CompositeGraph extends Graph). */
    const graph: Graph
    /** The final decision node, the only output node. */
    const decision: NodeId
    /** The agents' graphs added so far. */
    var graphs: seq<Graph>
    /** learned_connections: the connections `init` and `mutate` added and have not taken away. */
    var learned: seq<Connection>

    ghost predicate Valid()
      reads this, graph
    {
      graph.Valid() && decision in graph.nodes && graph.outputNodes == [decision]
    }

    /** CompositeGraph.__init__: a graph holding only the decision node, which is its output node. */
    constructor (decision: NodeId, kind: Kind)
      ensures Valid() && fresh(graph)
      ensures graph.nodes == [decision] && graph.inputNodes == [] && graphs == [] && learned == []
      ensures graph.arena == WithObject(Arena(map[], map[], map[], map[], map[]), decision, kind)
    {
      var g := new Graph();
      g.NewNode(decision, kind);
      var _ := g.AddNode(decision);
      g.outputNodes := [decision];
      this.graph := g;
      this.decision := decision;
      graphs := [];
      learned := [];
    }

    /**
     * add_graph: every node of the agent's graph goes into the node dictionary, in
     * order, the graph is remembered and its input nodes become input nodes too.
     * Distinct node objects have distinct ids here, so no node needs a new id.
     */
    method AddGraph(sub: Graph)
      requires Valid() && sub.Valid() && sub != graph
      requires sub.arena.kinds.Keys !! graph.arena.kinds.Keys
      modifies graph, this`graphs
      ensures Valid()
      ensures graph.arena == Merge(old(graph.arena), old(sub.arena))
      ensures graph.nodes == old(graph.nodes) + old(sub.nodes)
      ensures graph.inputNodes == old(graph.inputNodes) + old(sub.inputNodes)
      ensures graph.outputNodes == old(graph.outputNodes)
      ensures graphs == old(graphs) + [sub]
    {
      graph.Absorb(sub.arena, sub.nodes, sub.inputNodes);
      graphs := graphs + [sub];
    }

    /**
     * init: learned_connections starts empty and the potential connections are tried
     * in order, as InitLinks describes, on this graph's node objects.
     */
    method Init(prob: real, potential: seq<Connection>, draws: nat -> real) returns (err: Option<string>, o: Outcome)
      requires Valid() && Acyclic(graph.arena.succ)
      modifies graph`arena, this`learned
      ensures Valid()
      ensures InitSound(LinksOf(old(graph.arena)), prob, potential, draws, o)
      ensures err.None? <==> |o.turns| == |potential|
      ensures err.Some? ==> err == Some(KeyError(MissingEnd((set n | n in graph.nodes), potential[|o.turns|])))
      ensures LinksOf(graph.arena) == o.links && learned == o.picked
      ensures graph.arena.kinds == old(graph.arena.kinds) && graph.arena.inputs == old(graph.arena.inputs) && graph.arena.outputs == old(graph.arena.outputs)
    {
      o, err := InitLinks(LinksOf(graph.arena), (set n | n in graph.nodes), prob, potential, draws);
      graph.arena := WithLinks(graph.arena, o.links);
      learned := o.picked;
    }

    /**
     * mutate: draw how many edges to add and to remove, add that many potential
     * connections that close no cycle, then take away that many learned ones while
     * never leaving the decision node without a predecessor. `m` is what MutateLinks
     * computes from the same draws.
     */
    method Mutate(maxNew: int, maxRemove: int, potential: seq<Connection>,
                  newDraw: nat, removeDraw: nat, addPicks: nat -> nat, removePicks: nat -> nat)
      returns (err: Option<string>, m: Mutation)
      requires Valid() && Acyclic(graph.arena.succ)
      modifies graph`arena, this`learned
      ensures Valid()
      ensures LinksOf(graph.arena) == m.links
      ensures graph.arena.kinds == old(graph.arena.kinds) && graph.arena.inputs == old(graph.arena.inputs) && graph.arena.outputs == old(graph.arena.outputs)
      ensures learned == m.learned && err == m.err
      ensures MutationSound(LinksOf(old(graph.arena)), [decision], old(learned), maxNew, maxRemove, potential, m)
      ensures DrawsFollowed(LinksOf(old(graph.arena)), (set n | n in old(graph.nodes)), maxNew, maxRemove, potential,
                            newDraw, removeDraw, addPicks, m)
    {
      var ids := set n | n in graph.nodes;
      m := MutateLinks(LinksOf(graph.arena), ids, graph.outputNodes, learned, maxNew, maxRemove, potential,
                       newDraw, removeDraw, addPicks, removePicks);
      var a := WithLinks(graph.arena, m.links);
      assert a.kinds == graph.arena.kinds && a.inputs == graph.arena.inputs && a.outputs == graph.arena.outputs;
      graph.arena := a;
      learned := m.learned;
      err := m.err;
    }
  }
}
