/**
 * The graph of swarm/graph/graph.py, together with the per-node operations of
 * swarm/graph/node.py that change node objects in place.
 *
 * The node objects the graph can reach are held by value in an arena (arena.dfy),
 * keyed by id; `nodes` is the key order of the Python node dictionary. A node object
 * may exist, and be linked, before it is added to that dictionary.
 */
module Graphs {
  import opened Wrappers
  import opened Digraph
  import opened Nodes
  import opened Arenas
  import opened Scheduling
  import opened Execution

  class Graph {
    /** The keys of the node dictionary, in insertion order. */
    var nodes: seq<NodeId>
    /** Every node object the graph can reach. */
    var arena: Arena
    var inputNodes: seq<NodeId>
    var outputNodes: seq<NodeId>

    ghost predicate Valid()
      reads this
    {
      && ArenaOk(arena)
      && NoDup(nodes)
      && (forall n :: n in nodes ==> n in arena.kinds)
      && (forall n :: n in inputNodes ==> n in arena.kinds)
      && (forall n :: n in outputNodes ==> n in arena.kinds)
    }

    /** The predecessors of nodes in the node map are in the node map too. */
    ghost predicate PredsInMap()
      reads this
      requires Valid()
    {
      forall v :: v in nodes ==> forall p :: p in arena.pred[v] ==> p in nodes
    }

    /** Graph.__init__ before build_graph: no nodes, no input or output nodes. */
    constructor ()
      ensures Valid()
      ensures nodes == [] && arena.kinds == map[] && inputNodes == [] && outputNodes == []
    {
      nodes := [];
      arena := Arena(map[], map[], map[], map[], map[]);
      inputNodes, outputNodes := [], [];
    }

    /** Node.__init__: a new node object with no edges, inputs or outputs, not yet in the node map. */
    method NewNode(id: NodeId, kind: Kind)
      requires Valid() && id !in arena.kinds
      modifies this`arena
      ensures Valid()
      ensures arena == WithObject(old(arena), id, kind)
    {
      arena := WithObject(arena, id, kind);
    }

    /**
     * add_node: puts the node into the node map under its id. An id already in the map
     * is never overwritten: the source then draws a new random id, which this model
     * reports as `added == false` without changing anything.
     */
    method AddNode(id: NodeId) returns (added: bool)
      requires Valid() && id in arena.kinds
      modifies this`nodes
      ensures Valid()
      ensures added <==> id !in old(nodes)
      ensures nodes == if added then old(nodes) + [id] else old(nodes)
      ensures id in nodes
    {
      added := id !in nodes;
      if added {
        nodes := nodes + [id];
      }
    }

    /**
     * add_node for each node object in turn, in order (the loop of add_graph). The
     * objects carry ids not yet in the node map and distinct from each other.
     */
    method AddNodes(ids: seq<NodeId>)
      requires Valid() && NoDup(ids)
      requires forall n :: n in ids ==> n in arena.kinds && n !in nodes
      modifies this`nodes
      ensures Valid()
      ensures nodes == old(nodes) + ids
    {
      for i := 0 to |ids|
        invariant Valid() && nodes == old(nodes) + ids[..i]
      {
        assert ids[i] !in nodes by {
          forall j | 0 <= j < i
            ensures ids[..i][j] != ids[i]
          {
          }
        }
        var _ := AddNode(ids[i]);
        assert ids[..i + 1] == ids[..i] + [ids[i]];
      }
      assert ids[..|ids|] == ids;
    }

    /**
     * The graph part of add_graph: the node objects of another graph join this one,
     * their ids are added to the node map in order and its input nodes become input
     * nodes of this graph.
     */
    method Absorb(other: Arena, ids: seq<NodeId>, inputs: seq<NodeId>)
      requires Valid() && ArenaOk(other) && other.kinds.Keys !! arena.kinds.Keys && NoDup(ids)
      requires forall n :: n in ids ==> n in other.kinds
      requires forall n :: n in inputs ==> n in other.kinds
      modifies this
      ensures Valid()
      ensures arena == Merge(old(arena), other)
      ensures nodes == old(nodes) + ids
      ensures inputNodes == old(inputNodes) + inputs && outputNodes == old(outputNodes)
    {
      MergeOk(arena, other);
      arena := Merge(arena, other);
      AddNodes(ids);
      inputNodes := inputNodes + inputs;
    }

    /** a.add_successor(b) on the two node objects. */
    method AddSuccessor(a: NodeId, b: NodeId)
      requires Valid() && a in arena.kinds && b in arena.kinds
      modifies this`arena
      ensures Valid()
      ensures LinksOf(arena) == Nodes.AddSuccessor(LinksOf(old(arena)), a, b)
      ensures arena == old(arena).(succ := arena.succ, pred := arena.pred)
    {
      AddKeepsShape(LinksOf(arena), a, b);
      arena := WithLinks(arena, Nodes.AddSuccessor(LinksOf(arena), a, b));
    }

    /** a.add_predecessor(b) on the two node objects. */
    method AddPredecessor(a: NodeId, b: NodeId)
      requires Valid() && a in arena.kinds && b in arena.kinds
      modifies this`arena
      ensures Valid()
      ensures LinksOf(arena) == Nodes.AddPredecessor(LinksOf(old(arena)), a, b)
      ensures arena == old(arena).(succ := arena.succ, pred := arena.pred)
    {
      AddKeepsShape(LinksOf(arena), a, b);
      arena := WithLinks(arena, Nodes.AddPredecessor(LinksOf(arena), a, b));
    }

    /** a.remove_successor(b); `ok` is false when the second list.remove raised ValueError, after the first one took effect. */
    method RemoveSuccessor(a: NodeId, b: NodeId) returns (ok: bool)
      requires Valid() && a in arena.kinds && b in arena.kinds
      modifies this`arena
      ensures Valid()
      ensures ok <==> Nodes.RemoveSuccessor(LinksOf(old(arena)), a, b).Ok?
      ensures ok ==> LinksOf(arena) == Nodes.RemoveSuccessor(LinksOf(old(arena)), a, b).value
      ensures !ok ==> arena.pred == old(arena.pred) && arena.succ == old(arena.succ)[a := RemoveFirst(old(arena.succ)[a], b)]
      ensures arena == old(arena).(succ := arena.succ, pred := arena.pred)
    {
      RemoveSuccessorKeepsShape(LinksOf(arena), a, b);
      var r := Nodes.RemoveSuccessor(LinksOf(arena), a, b);
      if r.Ok? {
        arena := WithLinks(arena, r.value);
        ok := true;
      } else {
        arena := arena.(succ := arena.succ[a := RemoveFirst(arena.succ[a], b)]);
        ok := false;
      }
    }

    /** a.remove_predecessor(b); `ok` is false when the second list.remove raised ValueError, after the first one took effect. */
    method RemovePredecessor(a: NodeId, b: NodeId) returns (ok: bool)
      requires Valid() && a in arena.kinds && b in arena.kinds
      modifies this`arena
      ensures Valid()
      ensures ok <==> Nodes.RemovePredecessor(LinksOf(old(arena)), a, b).Ok?
      ensures ok ==> LinksOf(arena) == Nodes.RemovePredecessor(LinksOf(old(arena)), a, b).value
      ensures !ok ==> arena.succ == old(arena.succ) && arena.pred == old(arena.pred)[a := RemoveFirst(old(arena.pred)[a], b)]
      ensures arena == old(arena).(succ := arena.succ, pred := arena.pred)
    {
      RemovePredecessorKeepsShape(LinksOf(arena), a, b);
      var r := Nodes.RemovePredecessor(LinksOf(arena), a, b);
      if r.Ok? {
        arena := WithLinks(arena, r.value);
        ok := true;
      } else {
        arena := arena.(pred := arena.pred[a := RemoveFirst(arena.pred[a], b)]);
        ok := false;
      }
    }

    /** The num_edges property: the successor-list lengths of the nodes in the map, summed. */
    method NumEdges() returns (n: nat)
      requires Valid()
      ensures n == SuccessorCount(arena.succ, nodes)
    {
      n := 0;
      for i := 0 to |nodes|
        invariant n == SuccessorCount(arena.succ, nodes[..i])
      {
        assert nodes[..i + 1][..i] == nodes[..i];
        n := n + |arena.succ[nodes[i]]|;
      }
      assert nodes[..|nodes|] == nodes;
    }

    /** find_node: the node whose id is `id`, searching the map in order; raises when there is none. */
    method FindNode(id: NodeId) returns (r: Result<NodeId>)
      requires Valid()
      ensures r.Ok? <==> id in nodes
      ensures r.Ok? ==> r.value == id
      ensures r.Raised? ==> r.reason == NotFound(id)
    {
      for i := 0 to |nodes|
        invariant id !in nodes[..i]
      {
        if nodes[i] == id {
          return Ok(id);
        }
      }
      assert nodes[..|nodes|] == nodes;
      r := Raised(NotFound(id));
    }

    /**
     * Graph.run on an acyclic graph: select the useful nodes, hand out the payload,
     * run the nodes in Kahn order with the retry policy, and collect the answers.
     * `order` is the sequence in which nodes were taken off the queue.
     */
    method Run(payload: Value, maxTries: int, returnAll: bool, attempt: (NodeId, nat) -> Attempt,
               work: (NodeId, Value) -> TaskOutcome) returns (answers: Result<seq<Value>>, ghost order: seq<NodeId>)
      requires Valid() && Acyclic(arena.succ)
      modifies this`arena
      ensures Valid() && arena == old(arena).(inputs := arena.inputs, outputs := arena.outputs) && arena.kinds == old(arena).kinds
      ensures NoDup(order) && forall v :: v in order ==> v in old(arena).kinds
      ensures arena == Schedule(FedArena(old(arena), inputNodes, payload), order, maxTries, attempt, work)
      ensures answers == Answers(outputNodes, arena.outputs, returnAll)
      ensures Symmetric(LinksOf(old(arena))) ==>
        forall v :: v in order ==> arena.outputs[v] == NodeResult(arena, v, maxTries, attempt, work)
      ensures forall v :: v in order ==> Useful(nodes, old(arena).succ, outputNodes, v)
      ensures Symmetric(LinksOf(old(arena))) && old(PredsInMap()) ==>
        forall v :: Useful(nodes, old(arena).succ, outputNodes, v) ==> v in order
    {
      arena, answers, order := RunArena(arena, nodes, inputNodes, outputNodes, payload, maxTries, returnAll, attempt, work);
    }
  }

  /** Graph.run on the node objects of a graph whose node map holds `nodes`. */
  method RunArena(a0: Arena, nodes: seq<NodeId>, inputNodes: seq<NodeId>, outputNodes: seq<NodeId>, payload: Value,
                  maxTries: int, returnAll: bool, attempt: (NodeId, nat) -> Attempt, work: (NodeId, Value) -> TaskOutcome)
    returns (a: Arena, answers: Result<seq<Value>>, ghost order: seq<NodeId>)
    requires ArenaOk(a0) && Acyclic(a0.succ) && NoDup(nodes)
    requires forall n :: n in nodes ==> n in a0.kinds
    requires forall n :: n in inputNodes ==> n in a0.kinds
    requires forall n :: n in outputNodes ==> n in a0.kinds
    ensures ArenaOk(a) && a == a0.(inputs := a.inputs, outputs := a.outputs) && a.kinds == a0.kinds
    ensures NoDup(order) && forall v :: v in order ==> v in a0.kinds
    ensures a == Schedule(FedArena(a0, inputNodes, payload), order, maxTries, attempt, work)
    ensures answers == Answers(outputNodes, a.outputs, returnAll)
    ensures Symmetric(LinksOf(a0)) ==>
      forall v :: v in order ==> a.outputs[v] == NodeResult(a, v, maxTries, attempt, work)
    ensures forall v :: v in order ==> Useful(nodes, a0.succ, outputNodes, v)
    ensures Symmetric(LinksOf(a0)) && (forall v :: v in nodes ==> forall p :: p in a0.pred[v] ==> p in nodes) ==>
      forall v :: Useful(nodes, a0.succ, outputNodes, v) ==> v in order
  {
    var useful, indeg, queue := Select(a0, nodes, outputNodes);
    var inputs := FeedInputs(a0.inputs, inputNodes, payload);
    a := a0.(inputs := inputs);
    ghost var fed := a;
    a, order, indeg := Drain(a, useful, indeg, queue, maxTries, attempt, work);
    RunSound(fed, nodes, outputNodes, useful, indeg, order, maxTries, attempt, work);
    answers := CollectAnswers(outputNodes, a.outputs, returnAll);
  }

  /**
   * The start of `run`: the useful nodes (those in the node map from which an output
   * node can be reached), their in-degrees, and the queue of those without predecessors.
   */
  method Select(a0: Arena, nodes: seq<NodeId>, outputNodes: seq<NodeId>)
    returns (useful: seq<NodeId>, indeg: map<NodeId, int>, queue: seq<NodeId>)
    requires ArenaOk(a0) && Acyclic(a0.succ) && NoDup(nodes) && forall n :: n in nodes ==> n in a0.kinds
    ensures forall v :: v in useful <==> Useful(nodes, a0.succ, outputNodes, v)
    ensures Kahn(a0.succ, a0.pred, useful, indeg, [], queue, multiset{})
  {
    useful := UsefulIds(a0.succ, nodes, outputNodes);
    KahnStart(a0.succ, a0.pred, useful);
    indeg, queue := InDegrees(a0.pred, useful), Sources(a0.pred, useful);
  }

  /**
   * The scheduling loop of `run`: take the head of the queue, run it with the retry
   * policy, then lower the in-degree of its useful successors and queue those that
   * reach zero, until the queue is empty.
   */
  method Drain(fed: Arena, useful: seq<NodeId>, indeg0: map<NodeId, int>, queue0: seq<NodeId>, maxTries: int,
               attempt: (NodeId, nat) -> Attempt, work: (NodeId, Value) -> TaskOutcome)
    returns (a: Arena, ghost order: seq<NodeId>, indeg: map<NodeId, int>)
    requires ArenaOk(fed) && Kahn(fed.succ, fed.pred, useful, indeg0, [], queue0, multiset{})
    ensures Kahn(fed.succ, fed.pred, useful, indeg, order, [], multiset{})
    ensures Ordered(fed.succ, fed.pred, order)
    ensures a == Schedule(fed, order, maxTries, attempt, work) && a == fed.(outputs := a.outputs)
  {
    a, order, indeg := fed, [], indeg0;
    var queue := queue0;
    while queue != []
      invariant Kahn(fed.succ, fed.pred, useful, indeg, order, queue, multiset{})
      invariant Ordered(fed.succ, fed.pred, order)
      invariant a == Schedule(fed, order, maxTries, attempt, work)
      decreases |indeg.Keys| - |order|
    {
      var cur := queue[0];
      Pop(fed.succ, fed.pred, useful, indeg, order, queue);
      queue := queue[1..];
      var tries;
      a, tries := RunNode(a, cur, maxTries, attempt, work);
      ScheduleSnoc(fed, order, cur, maxTries, attempt, work);
      order := order + [cur];
      indeg, queue := Release(a.succ, a.pred, useful, indeg, order, queue, cur);
    }
  }

  /**
   * What the schedule of `run` achieves once its queue is empty, on an acyclic graph:
   * with symmetric edge lists, every useful node has run (when the predecessors of
   * nodes in the map are in the map too), and every node that ran holds what it
   * computes from the final outputs of its predecessors.
   */
  lemma RunSound(fed: Arena, nodes: seq<NodeId>, outputNodes: seq<NodeId>, useful: seq<NodeId>, indeg: map<NodeId, int>,
                 order: seq<NodeId>, maxTries: int, attempt: (NodeId, nat) -> Attempt, work: (NodeId, Value) -> TaskOutcome)
    requires ArenaOk(fed) && Acyclic(fed.succ) && forall v :: v in nodes ==> v in fed.kinds
    requires forall v :: v in useful <==> Useful(nodes, fed.succ, outputNodes, v)
    requires Kahn(fed.succ, fed.pred, useful, indeg, order, [], multiset{}) && Ordered(fed.succ, fed.pred, order)
    ensures NoDup(order) && forall v :: v in order ==> v in nodes && Useful(nodes, fed.succ, outputNodes, v)
    ensures Symmetric(LinksOf(fed)) && (forall v :: v in nodes ==> forall p :: p in fed.pred[v] ==> p in nodes) ==>
      forall v :: Useful(nodes, fed.succ, outputNodes, v) ==> v in order
    ensures Symmetric(LinksOf(fed)) ==> forall v :: v in order ==>
      Schedule(fed, order, maxTries, attempt, work).outputs[v] == NodeResult(Schedule(fed, order, maxTries, attempt, work), v, maxTries, attempt, work)
  {
    assert order + [] == order;
    if Symmetric(LinksOf(fed)) {
      if forall v :: v in nodes ==> forall p :: p in fed.pred[v] ==> p in nodes {
        Complete(fed.succ, fed.pred, nodes, outputNodes, useful, indeg, order);
      }
      OrderedPredsFirst(fed.succ, fed.pred, order);
      ScheduleDataflow(fed, order, maxTries, attempt, work);
    }
  }

  /** The exception find_node raises for an id that is not in the node map (the list of ids it appends is left out). */
  function NotFound(id: NodeId): string {
    "Node not found: " + id
  }

  /** The successor-list lengths of the nodes ks, summed. */
  function SuccessorCount(succ: Adj, ks: seq<NodeId>): nat
    requires forall k :: k in ks ==> k in succ
  {
    if ks == [] then 0 else SuccessorCount(succ, ks[..|ks| - 1]) + |succ[Last(ks)]|
  }
}
