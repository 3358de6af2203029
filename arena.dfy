/**
 * The node objects of swarm/graph/node.py, and what running one of them does to them.
 *
 * Python nodes are objects that point at each other. Here every node object a graph
 * can reach is named by its id, and an `Arena` holds, per id, the fields of that object:
 * its kind, its successor and predecessor lists, its inputs and its outputs.
 */
module Arenas {
  import opened Wrappers
  import opened Digraph
  import opened Nodes

  datatype Arena = Arena(kinds: map<NodeId, Kind>, succ: Adj, pred: Adj,
                         inputs: map<NodeId, seq<Value>>, outputs: map<NodeId, seq<Value>>)

  /** Every field is known for the same node objects, and the edge lists only name those objects. */
  ghost predicate ArenaOk(a: Arena) {
    && a.succ.Keys == a.kinds.Keys && a.pred.Keys == a.kinds.Keys
    && a.inputs.Keys == a.kinds.Keys && a.outputs.Keys == a.kinds.Keys
    && Closed(a.succ) && Closed(a.pred)
  }

  function LinksOf(a: Arena): Links {
    Links(a.succ, a.pred)
  }

  /** Node.__init__: a fresh object with no edges, no inputs and no outputs. */
  function WithObject(a: Arena, id: NodeId, kind: Kind): (r: Arena)
    requires ArenaOk(a) && id !in a.kinds
    ensures ArenaOk(r)
    ensures r.kinds.Keys == a.kinds.Keys + {id}
    ensures forall x, y :: Edge(r.succ, x, y) <==> Edge(a.succ, x, y)
    ensures forall x, y :: Edge(r.pred, x, y) <==> Edge(a.pred, x, y)
  {
    ClosedUpdate(a.succ, id, []);
    ClosedUpdate(a.pred, id, []);
    Arena(a.kinds[id := kind], a.succ[id := []], a.pred[id := []], a.inputs[id := []], a.outputs[id := []])
  }

  /** The objects with their edge lists replaced. */
  function WithLinks(a: Arena, l: Links): (r: Arena)
    requires ArenaOk(a) && LinksOk(l) && l.succ.Keys == a.kinds.Keys
    ensures ArenaOk(r) && LinksOf(r) == l
  {
    a.(succ := l.succ, pred := l.pred)
  }

  /** The node objects of two graphs taken together. */
  function Merge(a: Arena, b: Arena): (r: Arena)
    ensures r.kinds.Keys == a.kinds.Keys + b.kinds.Keys
  {
    Arena(a.kinds + b.kinds, a.succ + b.succ, a.pred + b.pred, a.inputs + b.inputs, a.outputs + b.outputs)
  }

  /** Two well-formed sets of node objects that share no object merge into a well-formed set. */
  lemma MergeOk(a: Arena, b: Arena)
    requires ArenaOk(a) && ArenaOk(b) && a.kinds.Keys !! b.kinds.Keys
    ensures ArenaOk(Merge(a, b))
  {
    UnionClosed(a.succ, b.succ);
    UnionClosed(a.pred, b.pred);
  }

  /** The edges of the merged objects are the edges of the one side or of the other. */
  lemma MergeEdges(a: Arena, b: Arena)
    requires a.succ.Keys !! b.succ.Keys && a.pred.Keys !! b.pred.Keys
    ensures forall x, y :: Edge(Merge(a, b).succ, x, y) <==> Edge(a.succ, x, y) || Edge(b.succ, x, y)
    ensures forall x, y :: Edge(Merge(a, b).pred, x, y) <==> Edge(a.pred, x, y) || Edge(b.pred, x, y)
  {
    UnionEdges(a.succ, b.succ);
    UnionEdges(a.pred, b.pred);
  }

  /** The edges of two adjacency maps over disjoint nodes, taken together, are the edges of either. */
  lemma UnionEdges(a: Adj, b: Adj)
    requires a.Keys !! b.Keys
    ensures forall x, y :: Edge(a + b, x, y) <==> Edge(a, x, y) || Edge(b, x, y)
  {
    var u := a + b;
    forall x | x in u
      ensures u[x] == if x in a then a[x] else b[x]
    {
    }
  }

  /** Two closed adjacency maps over disjoint nodes make a closed map whose edges are theirs. */
  lemma UnionClosed(a: Adj, b: Adj)
    requires Closed(a) && Closed(b) && a.Keys !! b.Keys
    ensures Closed(a + b) && (a + b).Keys == a.Keys + b.Keys
  {
    var u := a + b;
    forall x | x in u
      ensures u[x] == if x in a then a[x] else b[x]
    {
    }
  }

  /** How one attempt at a node's `execute` ended under asyncio.wait_for. */
  datatype Attempt = Completed | TimedOut | Crashed

  /** The first retry whose attempt did not time out, among retries i .. maxTries - 1. */
  function FirstSettled(attempt: (NodeId, nat) -> Attempt, v: NodeId, maxTries: int, i: nat): (r: Option<nat>)
    ensures r.Some? ==> i <= r.value < maxTries && attempt(v, r.value) != TimedOut
    ensures r.Some? ==> forall k :: i <= k < r.value ==> attempt(v, k) == TimedOut
    ensures r.None? ==> forall k :: i <= k < maxTries ==> attempt(v, k) == TimedOut
    decreases maxTries - i
  {
    if i >= maxTries then None
    else if attempt(v, i) != TimedOut then Some(i)
    else FirstSettled(attempt, v, maxTries, i + 1)
  }

  /** The work function (`_execute`) of node v. */
  function WorkOf(work: (NodeId, Value) -> TaskOutcome, v: NodeId): Value -> TaskOutcome {
    x => work(v, x)
  }

  /**
   * The outputs of node v once `run` has been through its retry loop: unchanged if no
   * attempt was made (max_tries <= 0); the result of `execute` if the first attempt
   * that did not time out completed; otherwise empty, since every attempt starts by
   * resetting the outputs.
   */
  function NodeResult(a: Arena, v: NodeId, maxTries: int, attempt: (NodeId, nat) -> Attempt,
                      work: (NodeId, Value) -> TaskOutcome): (r: seq<Value>)
    requires ArenaOk(a) && v in a.kinds
    ensures maxTries <= 0 ==> r == a.outputs[v]
    ensures maxTries > 0 ==> r == [] || r == Executed(a, v, work).outputs[v]
  {
    if maxTries <= 0 then a.outputs[v]
    else
      var k := FirstSettled(attempt, v, maxTries, 0);
      if k.Some? && attempt(v, k.value) == Completed then
        ExecuteOutputs(CombinesInputs(a.kinds[v]), a.inputs[v], a.pred[v], a.outputs[v := []], WorkOf(work, v))
      else []
  }

  /** Node v's objects after a completed `execute`. */
  function Executed(a: Arena, v: NodeId, work: (NodeId, Value) -> TaskOutcome): (r: Arena)
    requires ArenaOk(a) && v in a.kinds
    ensures ArenaOk(r)
  {
    a.(outputs := a.outputs[v := ExecuteOutputs(CombinesInputs(a.kinds[v]), a.inputs[v], a.pred[v], a.outputs[v := []], WorkOf(work, v))])
  }

  /** The objects after node v went through its retry loop. */
  function Step(a: Arena, v: NodeId, maxTries: int, attempt: (NodeId, nat) -> Attempt,
                work: (NodeId, Value) -> TaskOutcome): (r: Arena)
    requires ArenaOk(a) && v in a.kinds
    ensures ArenaOk(r)
  {
    a.(outputs := a.outputs[v := NodeResult(a, v, maxTries, attempt, work)])
  }

  /** The objects after the nodes of `order` went through their retry loops, one after the other. */
  function Schedule(a: Arena, order: seq<NodeId>, maxTries: int, attempt: (NodeId, nat) -> Attempt,
                    work: (NodeId, Value) -> TaskOutcome): (r: Arena)
    requires ArenaOk(a) && forall v :: v in order ==> v in a.kinds
    ensures ArenaOk(r) && r == a.(outputs := r.outputs)
    ensures forall v :: v in a.outputs && v !in order ==> r.outputs[v] == a.outputs[v]
  {
    if order == [] then a
    else Step(Schedule(a, order[..|order| - 1], maxTries, attempt, work), Last(order), maxTries, attempt, work)
  }

  /** Scheduling one more node is one more step. */
  lemma ScheduleSnoc(a: Arena, order: seq<NodeId>, v: NodeId, maxTries: int, attempt: (NodeId, nat) -> Attempt,
                     work: (NodeId, Value) -> TaskOutcome)
    requires ArenaOk(a) && v in a.kinds && forall x :: x in order ==> x in a.kinds
    ensures Schedule(a, order + [v], maxTries, attempt, work) == Step(Schedule(a, order, maxTries, attempt, work), v, maxTries, attempt, work)
  {
    assert (order + [v])[..|order|] == order;
  }

  /** The inputs after `run` hands every input node its own copy of the payload, as a one-element list. */
  function Fed(inputs: map<NodeId, seq<Value>>, inputNodes: seq<NodeId>, payload: Value): (r: map<NodeId, seq<Value>>)
    requires forall n :: n in inputNodes ==> n in inputs
    ensures r.Keys == inputs.Keys
    ensures forall n :: n in r ==> r[n] == if n in inputNodes then [payload] else inputs[n]
  {
    if inputNodes == [] then inputs
    else Fed(inputs, inputNodes[..|inputNodes| - 1], payload)[Last(inputNodes) := [payload]]
  }

  /** One more input node handed the payload. */
  lemma FedStep(inputs: map<NodeId, seq<Value>>, inputNodes: seq<NodeId>, i: nat, payload: Value)
    requires i < |inputNodes| && forall n :: n in inputNodes ==> n in inputs
    ensures Fed(inputs, inputNodes[..i + 1], payload) == Fed(inputs, inputNodes[..i], payload)[inputNodes[i] := [payload]]
  {
    assert inputNodes[..i + 1][..i] == inputNodes[..i];
  }

  /** The objects after the payload has been handed to the input nodes. */
  function FedArena(a: Arena, inputNodes: seq<NodeId>, payload: Value): (r: Arena)
    requires ArenaOk(a) && forall n :: n in inputNodes ==> n in a.kinds
    ensures ArenaOk(r) && r == a.(inputs := r.inputs)
    ensures forall n :: n in r.inputs ==> r.inputs[n] == if n in inputNodes then [payload] else a.inputs[n]
  {
    a.(inputs := Fed(a.inputs, inputNodes, payload))
  }

  /** Running node v reads its own fields and only the outputs of its predecessors. */
  lemma NodeResultLocal(a: Arena, b: Arena, v: NodeId, maxTries: int, attempt: (NodeId, nat) -> Attempt,
                        work: (NodeId, Value) -> TaskOutcome)
    requires ArenaOk(a) && v in a.kinds && b == a.(outputs := b.outputs) && b.outputs.Keys == a.outputs.Keys
    requires forall p :: p in a.pred[v] && p != v ==> a.outputs[p] == b.outputs[p]
    requires maxTries <= 0 ==> a.outputs[v] == b.outputs[v]
    ensures NodeResult(a, v, maxTries, attempt, work) == NodeResult(b, v, maxTries, attempt, work)
  {
    if maxTries > 0 {
      ExecuteOutputsLocal(CombinesInputs(a.kinds[v]), a.inputs[v], a.pred[v], a.outputs[v := []], b.outputs[v := []], WorkOf(work, v));
    }
  }

  /**
   * Dataflow: when every node of `order` comes after all of its predecessors, and no
   * node comes twice, each scheduled node ends up holding exactly what it computes
   * from the final outputs of its predecessors.
   */
  lemma {:induction false} ScheduleDataflow(a: Arena, order: seq<NodeId>, maxTries: int,
                                            attempt: (NodeId, nat) -> Attempt, work: (NodeId, Value) -> TaskOutcome)
    requires ArenaOk(a) && NoDup(order) && forall v :: v in order ==> v in a.kinds
    requires forall i, p :: 0 <= i < |order| && p in a.pred[order[i]] ==> p in order[..i]
    ensures forall v :: v in order ==>
      Schedule(a, order, maxTries, attempt, work).outputs[v] == NodeResult(Schedule(a, order, maxTries, attempt, work), v, maxTries, attempt, work)
  {
    if order != [] {
      var init := order[..|order| - 1];
      var x := Last(order);
      assert order == init + [x];
      forall i, p | 0 <= i < |init| && p in a.pred[init[i]]
        ensures p in init[..i]
      {
        assert order[i] == init[i] && order[..i] == init[..i];
      }
      ScheduleDataflow(a, init, maxTries, attempt, work);
      var prev := Schedule(a, init, maxTries, attempt, work);
      var fin := Schedule(a, order, maxTries, attempt, work);
      assert fin == Step(prev, x, maxTries, attempt, work);
      forall v | v in order
        ensures fin.outputs[v] == NodeResult(fin, v, maxTries, attempt, work)
      {
        if v == x {
          NodeResultLocal(prev, fin, x, maxTries, attempt, work);
        } else {
          DataflowKept(a, order, prev, fin, v, maxTries, attempt, work);
        }
      }
    }
  }

  /** The last node of `order` does not disturb what an earlier node computed. */
  lemma DataflowKept(a: Arena, order: seq<NodeId>, prev: Arena, fin: Arena, v: NodeId, maxTries: int,
                     attempt: (NodeId, nat) -> Attempt, work: (NodeId, Value) -> TaskOutcome)
    requires ArenaOk(a) && NoDup(order) && order != [] && forall v :: v in order ==> v in a.kinds
    requires forall i, p :: 0 <= i < |order| && p in a.pred[order[i]] ==> p in order[..i]
    requires prev == Schedule(a, order[..|order| - 1], maxTries, attempt, work)
    requires fin == Step(prev, Last(order), maxTries, attempt, work)
    requires v in order[..|order| - 1]
    ensures NodeResult(prev, v, maxTries, attempt, work) == NodeResult(fin, v, maxTries, attempt, work)
  {
    var i :| 0 <= i < |order| - 1 && order[i] == v;
    forall p | p in prev.pred[v] && p != v
      ensures prev.outputs[p] == fin.outputs[p]
    {
      assert p in order[..i];
      var k :| 0 <= k < i && order[k] == p;
      assert p != order[|order| - 1];
    }
    assert v != order[|order| - 1];
    NodeResultLocal(prev, fin, v, maxTries, attempt, work);
  }
}
