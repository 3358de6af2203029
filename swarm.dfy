/**
 * Swarm.organize of swarm/graph/swarm.py: the graphs of the agents named for the swarm
 * are put side by side in one composite graph whose only output node is the final
 * decision node, some agent nodes are wired to that node, and the list of potential
 * connections the edge optimizer chooses from is enumerated.
 *
 * What the agent registry builds for each name is a parameter: `Some(agent)`, the
 * fields of the freshly built agent Graph, or `None` for a name it does not know.
 * Node ids are uuids drawn per node; the model takes them to be pairwise distinct
 * across the agents and the decision node, which `Separate` states.
 */
module Swarms {
  import opened Wrappers
  import opened Digraph
  import opened Nodes
  import opened Arenas
  import opened Graphs
  import opened Composite
  import opened CompositeGraphs
  import opened Pairings
  import Parameterization

  /** The fields of an agent's Graph object once build_graph has run. */
  datatype Agent = Agent(arena: Arena, nodes: seq<NodeId>, inputNodes: seq<NodeId>, outputNodes: seq<NodeId>)

  /** What Graph.Valid asks of a graph object, asked of an agent value. */
  ghost predicate AgentOk(a: Agent) {
    && ArenaOk(a.arena) && NoDup(a.nodes)
    && (forall n :: n in a.nodes ==> n in a.arena.kinds)
    && (forall n :: n in a.inputNodes ==> n in a.arena.kinds)
    && (forall n :: n in a.outputNodes ==> n in a.arena.kinds)
  }

  /** The node objects of what the registry built for one name. */
  function Objects(o: Option<Agent>): set<NodeId> {
    match o
    case None => {}
    case Some(a) => a.arena.kinds.Keys
  }

  /** The registry results share no node object with each other or with the decision node. */
  ghost predicate Disjoint(instances: seq<Option<Agent>>, decision: NodeId) {
    && (forall k :: 0 <= k < |instances| ==> decision !in Objects(instances[k]))
    && (forall i, j :: 0 <= i < j < |instances| ==> Objects(instances[i]) !! Objects(instances[j]))
  }

  /** Every agent the registry built is well formed. */
  ghost predicate WellFormed(instances: seq<Option<Agent>>) {
    forall k :: 0 <= k < |instances| && instances[k].Some? ==> AgentOk(instances[k].value)
  }

  /** The registry organize is given: well-formed agents whose node ids are distinct from each other's and the decision node's. */
  ghost predicate Separate(instances: seq<Option<Agent>>, decision: NodeId) {
    Disjoint(instances, decision) && WellFormed(instances)
  }

  // ---------------------------------------------------------------------------
  // Collecting the agents (swarm.py lines 63-76).

  /** `successors = []` on every node of the node map; every other list stays. */
  function ClearedSucc(succ: Adj, ns: seq<NodeId>): Adj {
    map n | n in succ :: if n in ns then [] else succ[n]
  }

  /** The agent as organize adds it: with its inner edges cut when inner connections are not kept. */
  function Cleared(a: Agent, includeInner: bool): Agent {
    if includeInner then a else a.(arena := a.arena.(succ := ClearedSucc(a.arena.succ, a.nodes)))
  }

  /** Cutting the inner edges keeps the agent well formed and its node objects the same. */
  lemma ClearedOk(a: Agent, includeInner: bool)
    requires AgentOk(a)
    ensures AgentOk(Cleared(a, includeInner)) && Cleared(a, includeInner).arena.kinds == a.arena.kinds
    ensures forall x, y :: Edge(Cleared(a, includeInner).arena.succ, x, y) ==> Edge(a.arena.succ, x, y)
  {
    if !includeInner {
      var s := ClearedSucc(a.arena.succ, a.nodes);
      forall x | x in s
        ensures forall y :: y in s[x] ==> y in s
      {
        assert s[x] == [] || s[x] == a.arena.succ[x];
      }
    }
  }

  /**
   * The loop over the node map that empties every successor list. The predecessor
   * lists are left as they were.
   */
  method ClearSuccessors(a: Agent) returns (r: Agent)
    requires AgentOk(a)
    ensures AgentOk(r) && r == Cleared(a, false)
    ensures forall n :: n in a.nodes ==> r.arena.succ[n] == []
    ensures forall n :: n in a.arena.succ && n !in a.nodes ==> r.arena.succ[n] == a.arena.succ[n]
    ensures r.arena.pred == a.arena.pred && r.arena.kinds == a.arena.kinds
  {
    var succ := a.arena.succ;
    for i := 0 to |a.nodes|
      invariant succ == ClearedSucc(a.arena.succ, a.nodes[..i])
    {
      succ := succ[a.nodes[i] := []];
    }
    assert a.nodes[..|a.nodes|] == a.nodes;
    r := a.(arena := a.arena.(succ := succ));
    ClearedOk(a, false);
  }

  /**
   * Cutting the inner edges breaks the mirror between the two lists: an agent whose
   * node map holds a node with a successor keeps that node in the successor's
   * predecessor list although the node no longer lists the successor.
   */
  lemma ClearingBreaksMirror(a: Agent, n: NodeId, m: NodeId)
    requires AgentOk(a) && Mirror(a.arena.succ, a.arena.pred)
    requires n in a.nodes && Edge(a.arena.succ, n, m)
    ensures Edge(Cleared(a, false).arena.pred, m, n) && !Edge(Cleared(a, false).arena.succ, n, m)
    ensures !Mirror(Cleared(a, false).arena.succ, Cleared(a, false).arena.pred)
  {
  }

  /** The agents organize keeps for the first k names, in order: unknown names are skipped. */
  function Processed(instances: seq<Option<Agent>>, k: nat, includeInner: bool): (r: seq<Agent>)
    requires k <= |instances|
    ensures |r| <= k
  {
    if k == 0 then []
    else
      Processed(instances, k - 1, includeInner) +
      match instances[k - 1]
      case None => []
      case Some(a) => [Cleared(a, includeInner)]
  }

  /** An agent is kept exactly when some name has a registered agent, which it is (cut as asked). */
  lemma {:induction false} ProcessedMembers(instances: seq<Option<Agent>>, k: nat, includeInner: bool, b: Agent)
    requires k <= |instances|
    ensures b in Processed(instances, k, includeInner) <==>
              exists i :: 0 <= i < k && instances[i].Some? && b == Cleared(instances[i].value, includeInner)
  {
    if k > 0 {
      ProcessedMembers(instances, k - 1, includeInner, b);
    }
  }

  /** Every node object of the agents registered for the first k names. */
  function InstanceKeys(instances: seq<Option<Agent>>, k: nat): set<NodeId>
    requires k <= |instances|
  {
    if k == 0 then {} else InstanceKeys(instances, k - 1) + Objects(instances[k - 1])
  }

  /** A registry result shares no node object with the results before it. */
  lemma {:induction false} EarlierKeysApart(instances: seq<Option<Agent>>, decision: NodeId, k: nat, j: nat)
    requires Disjoint(instances, decision) && k < |instances| && j <= k
    ensures Objects(instances[k]) !! InstanceKeys(instances, j)
  {
    if j > 0 {
      EarlierKeysApart(instances, decision, k, j - 1);
    }
  }

  /** No registry result holds the decision node. */
  lemma {:induction false} DecisionApart(instances: seq<Option<Agent>>, decision: NodeId, j: nat)
    requires Disjoint(instances, decision) && j <= |instances|
    ensures decision !in InstanceKeys(instances, j)
  {
    if j > 0 {
      DecisionApart(instances, decision, j - 1);
    }
  }

  /** Each kept agent's node objects are node objects of a registry result among the first k. */
  lemma {:induction false} ProcessedKeys(instances: seq<Option<Agent>>, k: nat, includeInner: bool, j: nat)
    requires k <= |instances| && j < |Processed(instances, k, includeInner)|
    ensures Processed(instances, k, includeInner)[j].arena.kinds.Keys <= InstanceKeys(instances, k)
  {
    var prev := Processed(instances, k - 1, includeInner);
    if j < |prev| {
      ProcessedKeys(instances, k - 1, includeInner, j);
    }
  }

  /** The kept agents are well formed. */
  lemma {:induction false} ProcessedOk(instances: seq<Option<Agent>>, k: nat, includeInner: bool, j: nat)
    requires WellFormed(instances) && k <= |instances| && j < |Processed(instances, k, includeInner)|
    ensures AgentOk(Processed(instances, k, includeInner)[j])
  {
    var prev := Processed(instances, k - 1, includeInner);
    if j < |prev| {
      ProcessedOk(instances, k - 1, includeInner, j);
    } else {
      ClearedOk(instances[k - 1].value, includeInner);
    }
  }

  /** Every kept agent is well formed. */
  ghost predicate UsedOk(used: seq<Agent>) {
    forall j :: 0 <= j < |used| ==> AgentOk(used[j])
  }

  /** No kept agent holds the decision node, and two different kept agents share no node object. */
  ghost predicate UsedApart(used: seq<Agent>, decision: NodeId) {
    && (forall j :: 0 <= j < |used| ==> decision !in used[j].arena.kinds)
    && (forall i, j :: 0 <= i < j < |used| ==> used[i].arena.kinds.Keys !! used[j].arena.kinds.Keys)
  }

  /** One more agent sharing no node object with the others or the decision node keeps them apart. */
  lemma ExtendApart(used: seq<Agent>, a: Agent, decision: NodeId)
    requires UsedApart(used, decision)
    requires decision !in a.arena.kinds && forall i :: 0 <= i < |used| ==> used[i].arena.kinds.Keys !! a.arena.kinds.Keys
    ensures UsedApart(used + [a], decision)
  {
  }

  /** Dropping the last agent keeps both. */
  lemma Shorten(used: seq<Agent>, decision: NodeId)
    requires |used| > 0 && UsedOk(used) && UsedApart(used, decision)
    ensures UsedOk(used[..|used| - 1]) && UsedApart(used[..|used| - 1], decision)
    ensures AgentOk(used[|used| - 1]) && decision !in used[|used| - 1].arena.kinds
  {
  }

  /** The agents organize keeps from well-formed registry results are well formed. */
  lemma ProcessedWellFormed(instances: seq<Option<Agent>>, k: nat, includeInner: bool)
    requires WellFormed(instances) && k <= |instances|
    ensures UsedOk(Processed(instances, k, includeInner))
  {
    forall j | 0 <= j < |Processed(instances, k, includeInner)| {
      ProcessedOk(instances, k, includeInner, j);
    }
  }

  /** The agents organize keeps from registry results made of fresh node objects are apart. */
  lemma {:induction false} ProcessedApart(instances: seq<Option<Agent>>, decision: NodeId, k: nat, includeInner: bool)
    requires Disjoint(instances, decision) && k <= |instances|
    ensures UsedApart(Processed(instances, k, includeInner), decision)
  {
    if k > 0 {
      ProcessedApart(instances, decision, k - 1, includeInner);
      if instances[k - 1].Some? {
        KeptApart(instances, decision, k - 1, includeInner);
        ExtendApart(Processed(instances, k - 1, includeInner), Cleared(instances[k - 1].value, includeInner), decision);
      }
    }
  }

  /** The agent built for name k shares no node object with the agents kept before it. */
  lemma KeptApart(instances: seq<Option<Agent>>, decision: NodeId, k: nat, includeInner: bool)
    requires Disjoint(instances, decision) && k < |instances| && instances[k].Some?
    ensures forall i :: 0 <= i < |Processed(instances, k, includeInner)| ==>
              Processed(instances, k, includeInner)[i].arena.kinds.Keys !! instances[k].value.arena.kinds.Keys
  {
    var used := Processed(instances, k, includeInner);
    EarlierKeysApart(instances, decision, k, k);
    forall i | 0 <= i < |used|
      ensures used[i].arena.kinds.Keys !! instances[k].value.arena.kinds.Keys
    {
      ProcessedKeys(instances, k, includeInner, i);
      SubsetApart(used[i].arena.kinds.Keys, InstanceKeys(instances, k), instances[k].value.arena.kinds.Keys);
    }
  }

  /** The agents organize keeps from a registry that satisfies Separate are well formed and apart. */
  lemma ProcessedFacts(instances: seq<Option<Agent>>, decision: NodeId, k: nat, includeInner: bool)
    requires Separate(instances, decision) && k <= |instances|
    ensures UsedOk(Processed(instances, k, includeInner)) && UsedApart(Processed(instances, k, includeInner), decision)
  {
    ProcessedWellFormed(instances, k, includeInner);
    ProcessedApart(instances, decision, k, includeInner);
  }

  lemma SubsetApart(a: set<NodeId>, s: set<NodeId>, b: set<NodeId>)
    requires a <= s && b !! s
    ensures a !! b
  {
  }

  /** Every node object of the kept agents. */
  function UsedKeys(used: seq<Agent>): set<NodeId> {
    if used == [] then {} else UsedKeys(used[..|used| - 1]) + used[|used| - 1].arena.kinds.Keys
  }

  /** Node objects apart from every kept agent's are apart from all of them. */
  lemma {:induction false} KeysApartFrom(used: seq<Agent>, s: set<NodeId>)
    requires forall i :: 0 <= i < |used| ==> used[i].arena.kinds.Keys !! s
    ensures UsedKeys(used) !! s
  {
    if used != [] {
      var init := used[..|used| - 1];
      assert forall i :: 0 <= i < |init| ==> init[i] == used[i];
      KeysApartFrom(init, s);
    }
  }

  /** Each kept agent's node objects are among them. */
  lemma {:induction false} KeysOf(used: seq<Agent>, k: nat)
    requires k < |used|
    ensures used[k].arena.kinds.Keys <= UsedKeys(used)
  {
    var init := used[..|used| - 1];
    if k < |init| {
      KeysOf(init, k);
    }
  }

  /** The last kept agent shares no node object with the agents before it. */
  lemma LastApart(used: seq<Agent>, decision: NodeId)
    requires |used| > 0 && UsedApart(used, decision)
    ensures used[|used| - 1].arena.kinds.Keys !! UsedKeys(used[..|used| - 1])
  {
    var init := used[..|used| - 1];
    assert forall i :: 0 <= i < |init| ==> init[i] == used[i];
    KeysApartFrom(init, used[|used| - 1].arena.kinds.Keys);
  }

  /** The node lists of different kept agents share no node. */
  ghost predicate NodesApart(used: seq<Agent>) {
    forall i, j, x :: 0 <= i < |used| && 0 <= j < |used| && x in used[i].nodes && x in used[j].nodes ==> i == j
  }

  /** Agents apart in their node objects are apart in their node lists. */
  lemma ApartNodes(used: seq<Agent>, decision: NodeId)
    requires UsedOk(used) && UsedApart(used, decision)
    ensures NodesApart(used)
  {
    forall i, j, x | 0 <= i < |used| && 0 <= j < |used| && x in used[i].nodes && x in used[j].nodes
      ensures i == j
    {
      assert AgentOk(used[i]) && AgentOk(used[j]);
    }
  }

  /** The node id lists of the kept agents. */
  function NodeLists(used: seq<Agent>): (r: seq<seq<NodeId>>)
    ensures |r| == |used| && forall k :: 0 <= k < |used| ==> r[k] == used[k].nodes
  {
    seq(|used|, k requires 0 <= k < |used| => used[k].nodes)
  }

  /** The input node lists of the kept agents. */
  function InputLists(used: seq<Agent>): (r: seq<seq<NodeId>>)
    ensures |r| == |used| && forall k :: 0 <= k < |used| ==> r[k] == used[k].inputNodes
  {
    seq(|used|, k requires 0 <= k < |used| => used[k].inputNodes)
  }

  /** The successor lists (forward) or the predecessor lists of some node objects. */
  function Side(ar: Arena, forward: bool): Adj {
    if forward then ar.succ else ar.pred
  }

  /** Some kept agent has the edge x -> y in its successor (forward) or predecessor lists. */
  ghost predicate EdgeAmong(used: seq<Agent>, x: NodeId, y: NodeId, forward: bool) {
    && used != []
    && (EdgeAmong(used[..|used| - 1], x, y, forward) || Edge(Side(used[|used| - 1].arena, forward), x, y))
  }

  // ---------------------------------------------------------------------------
  // The composite graph after the agents were added (swarm.py lines 59-76).

  /** The composite graph's node objects, node map keys and input nodes. */
  datatype Collection = Collection(arena: Arena, nodes: seq<NodeId>, inputs: seq<NodeId>)

  /** A composite graph holding only the decision node. */
  function Start(decision: NodeId, kind: Kind): (c: Collection)
    ensures ArenaOk(c.arena) && c.arena.kinds == map[decision := kind]
    ensures forall x, y :: !Edge(c.arena.succ, x, y) && !Edge(c.arena.pred, x, y)
  {
    Collection(WithObject(Arena(map[], map[], map[], map[], map[]), decision, kind), [decision], [])
  }

  /** The composite graph once the kept agents were added, in order, to a composite graph holding only the decision node. */
  function Collect(used: seq<Agent>, decision: NodeId, kind: Kind): (c: Collection)
    ensures c.arena.kinds.Keys == {decision} + UsedKeys(used)
  {
    if used == [] then Start(decision, kind)
    else
      var c := Collect(used[..|used| - 1], decision, kind);
      var a := used[|used| - 1];
      Collection(Merge(c.arena, a.arena), c.nodes + a.nodes, c.inputs + a.inputNodes)
  }

  /** Adding one more agent is one more add_graph. */
  lemma CollectStep(used: seq<Agent>, a: Agent, decision: NodeId, kind: Kind)
    ensures Collect(used + [a], decision, kind) ==
              Collection(Merge(Collect(used, decision, kind).arena, a.arena),
                         Collect(used, decision, kind).nodes + a.nodes, Collect(used, decision, kind).inputs + a.inputNodes)
  {
    assert (used + [a])[..|used|] == used;
  }

  /** Adding an agent's node objects, none of them already there, keeps the graph well formed and the decision node's kind. */
  lemma AddOk(c: Arena, a: Arena, decision: NodeId, kind: Kind)
    requires ArenaOk(c) && ArenaOk(a) && c.kinds.Keys !! a.kinds.Keys && decision in c.kinds && c.kinds[decision] == kind
    ensures ArenaOk(Merge(c, a)) && Merge(c, a).kinds[decision] == kind
  {
    MergeOk(c, a);
  }

  /** The composite graph stays well formed and the decision node keeps its kind. */
  lemma {:induction false} CollectOk(used: seq<Agent>, decision: NodeId, kind: Kind)
    requires UsedOk(used) && UsedApart(used, decision)
    ensures ArenaOk(Collect(used, decision, kind).arena) && Collect(used, decision, kind).arena.kinds[decision] == kind
  {
    if used != [] {
      var init := used[..|used| - 1];
      Shorten(used, decision);
      CollectOk(init, decision, kind);
      LastApart(used, decision);
      AddOk(Collect(init, decision, kind).arena, used[|used| - 1].arena, decision, kind);
    }
  }

  /** The composite graph's edges are exactly the kept agents' edges. */
  lemma {:induction false} CollectEdges(used: seq<Agent>, decision: NodeId, kind: Kind, forward: bool)
    requires UsedOk(used) && UsedApart(used, decision)
    ensures forall x, y :: Edge(Side(Collect(used, decision, kind).arena, forward), x, y) <==> EdgeAmong(used, x, y, forward)
  {
    if used != [] {
      var init := used[..|used| - 1];
      Shorten(used, decision);
      CollectEdges(init, decision, kind, forward);
      CollectOk(init, decision, kind);
      LastApart(used, decision);
      MergeEdges(Collect(init, decision, kind).arena, used[|used| - 1].arena);
    }
  }

  /** The node map lists the decision node, then every kept agent's nodes; the input nodes are the agents'. */
  lemma {:induction false} CollectLists(used: seq<Agent>, decision: NodeId, kind: Kind)
    ensures Collect(used, decision, kind).nodes == [decision] + Flatten(NodeLists(used))
    ensures Collect(used, decision, kind).inputs == Flatten(InputLists(used))
  {
    if used != [] {
      var n := |used| - 1;
      CollectLists(used[..n], decision, kind);
      var c := Collect(used[..n], decision, kind);
      assert Collect(used, decision, kind).nodes == c.nodes + used[n].nodes;
      assert Collect(used, decision, kind).inputs == c.inputs + used[n].inputNodes;
      ListsSnoc(used);
    }
  }

  /** One more agent appends its node list and its input node list. */
  lemma ListsSnoc(used: seq<Agent>)
    requires used != []
    ensures Flatten(NodeLists(used)) == Flatten(NodeLists(used[..|used| - 1])) + used[|used| - 1].nodes
    ensures Flatten(InputLists(used)) == Flatten(InputLists(used[..|used| - 1])) + used[|used| - 1].inputNodes
  {
    var n := |used| - 1;
    assert NodeLists(used)[..n] == NodeLists(used[..n]);
    assert InputLists(used)[..n] == InputLists(used[..n]);
    FlattenSnoc(NodeLists(used), n);
    FlattenSnoc(InputLists(used), n);
    assert NodeLists(used)[..n + 1] == NodeLists(used);
    assert InputLists(used)[..n + 1] == InputLists(used);
  }

  /** The composite graph holding the decision node and the kept agents, whatever order they were added in. */
  ghost predicate Collected(c: Collection, used: seq<Agent>, decision: NodeId, kind: Kind) {
    && ArenaOk(c.arena) && c.arena.kinds.Keys == {decision} + UsedKeys(used) && c.arena.kinds[decision] == kind
    && (forall x, y :: Edge(c.arena.succ, x, y) <==> EdgeAmong(used, x, y, true))
    && (forall x, y :: Edge(c.arena.pred, x, y) <==> EdgeAmong(used, x, y, false))
    && c.nodes == [decision] + Flatten(NodeLists(used)) && c.inputs == Flatten(InputLists(used))
  }

  /** Adding the kept agents one after the other builds that composite graph. */
  lemma CollectFacts(used: seq<Agent>, decision: NodeId, kind: Kind)
    requires UsedOk(used) && UsedApart(used, decision)
    ensures Collected(Collect(used, decision, kind), used, decision, kind)
  {
    CollectOk(used, decision, kind);
    CollectEdges(used, decision, kind, true);
    CollectEdges(used, decision, kind, false);
    CollectLists(used, decision, kind);
  }

  /** No kept agent has an edge into the decision node, which is none of its node objects. */
  lemma {:induction false} NoEdgeInto(used: seq<Agent>, decision: NodeId, x: NodeId)
    requires UsedOk(used) && UsedApart(used, decision)
    ensures !EdgeAmong(used, x, decision, true)
  {
    if used != [] {
      Shorten(used, decision);
      NoEdgeInto(used[..|used| - 1], decision, x);
    }
  }
  // ---------------------------------------------------------------------------
  // The decision node (swarm.py lines 88-102).

  /**
   * Whether organize gives node n of agent a a static edge into the decision node: an
   * output node, when edges are not optimized or output nodes are connected to it.
   */
  predicate Wired(a: Agent, n: NodeId, edgeOptimize: bool, connectOutputs: bool) {
    n in a.outputNodes && (!edgeOptimize || connectOutputs)
  }

  /** The nodes of the first m kept agents that are wired to the decision node (wired) or not (not wired). */
  ghost function Picked(used: seq<Agent>, m: nat, wired: bool, edgeOptimize: bool, connectOutputs: bool): set<NodeId>
    requires m <= |used|
  {
    if m == 0 then {}
    else
      Picked(used, m - 1, wired, edgeOptimize, connectOutputs) + WiredIn(used[m - 1], wired, edgeOptimize, connectOutputs)
  }

  /** The nodes of agent a that are wired to the decision node (wired) or not (not wired). */
  function WiredIn(a: Agent, wired: bool, edgeOptimize: bool, connectOutputs: bool): set<NodeId> {
    set n | n in a.nodes && Wired(a, n, edgeOptimize, connectOutputs) == wired
  }

  /** A picked node belongs to one of the first m agents, which wires it as asked. */
  lemma {:induction false} PickedSound(used: seq<Agent>, m: nat, wired: bool, edgeOptimize: bool, connectOutputs: bool, x: NodeId)
    returns (k: nat)
    requires m <= |used| && x in Picked(used, m, wired, edgeOptimize, connectOutputs)
    ensures k < m && x in used[k].nodes && Wired(used[k], x, edgeOptimize, connectOutputs) == wired
  {
    if x in Picked(used, m - 1, wired, edgeOptimize, connectOutputs) {
      k := PickedSound(used, m - 1, wired, edgeOptimize, connectOutputs, x);
    } else {
      k := m - 1;
    }
  }

  /** Every node of the first m agents that its agent wires as asked is picked. */
  lemma {:induction false} PickedComplete(used: seq<Agent>, m: nat, wired: bool, edgeOptimize: bool, connectOutputs: bool,
                                          k: nat, x: NodeId)
    requires k < m <= |used| && x in used[k].nodes && Wired(used[k], x, edgeOptimize, connectOutputs) == wired
    ensures x in Picked(used, m, wired, edgeOptimize, connectOutputs)
  {
    if k < m - 1 {
      PickedComplete(used, m - 1, wired, edgeOptimize, connectOutputs, k, x);
    }
  }

  /** The candidates into the decision node from the first i nodes of agent a. */
  function NodeCands(a: Agent, i: nat, decision: NodeId, edgeOptimize: bool, connectOutputs: bool): seq<Connection>
    requires i <= |a.nodes|
  {
    if i == 0 then []
    else
      NodeCands(a, i - 1, decision, edgeOptimize, connectOutputs) +
      if edgeOptimize && !Wired(a, a.nodes[i - 1], edgeOptimize, connectOutputs) then [(a.nodes[i - 1], decision)] else []
  }

  /** The candidates into the decision node, agent by agent. */
  function CandLists(used: seq<Agent>, decision: NodeId, edgeOptimize: bool, connectOutputs: bool): (r: seq<seq<Connection>>)
    ensures |r| == |used|
    ensures forall k :: 0 <= k < |used| ==> r[k] == NodeCands(used[k], |used[k].nodes|, decision, edgeOptimize, connectOutputs)
  {
    seq(|used|, k requires 0 <= k < |used| => NodeCands(used[k], |used[k].nodes|, decision, edgeOptimize, connectOutputs))
  }

  /** The candidate connections into the decision node. */
  function DecisionCands(used: seq<Agent>, decision: NodeId, edgeOptimize: bool, connectOutputs: bool): seq<Connection> {
    Flatten(CandLists(used, decision, edgeOptimize, connectOutputs))
  }

  lemma {:induction false} NodeCandsMembers(a: Agent, i: nat, decision: NodeId, edgeOptimize: bool, connectOutputs: bool,
                                            x: NodeId, y: NodeId)
    requires i <= |a.nodes|
    ensures (x, y) in NodeCands(a, i, decision, edgeOptimize, connectOutputs) <==>
              y == decision && edgeOptimize && x in a.nodes[..i] && !Wired(a, x, edgeOptimize, connectOutputs)
  {
    if i > 0 {
      NodeCandsMembers(a, i - 1, decision, edgeOptimize, connectOutputs, x, y);
      assert a.nodes[..i] == a.nodes[..i - 1] + [a.nodes[i - 1]];
    }
  }

  /**
   * The candidates into the decision node are exactly the connections from the agent
   * nodes that are not wired to it statically, and there are none unless edges are
   * optimized.
   */
  lemma DecisionCandsMembers(used: seq<Agent>, decision: NodeId, edgeOptimize: bool, connectOutputs: bool, x: NodeId, y: NodeId)
    ensures (x, y) in DecisionCands(used, decision, edgeOptimize, connectOutputs) <==>
              y == decision && edgeOptimize && x in Picked(used, |used|, false, edgeOptimize, connectOutputs)
  {
    var lists := CandLists(used, decision, edgeOptimize, connectOutputs);
    if (x, y) in Flatten(lists) {
      var p :| 0 <= p < |Flatten(lists)| && Flatten(lists)[p] == (x, y);
      var k, q := FlattenAt(lists, p);
      assert (x, y) in lists[k];
      NodeCandsMembers(used[k], |used[k].nodes|, decision, edgeOptimize, connectOutputs, x, y);
      assert used[k].nodes[..|used[k].nodes|] == used[k].nodes;
      PickedComplete(used, |used|, false, edgeOptimize, connectOutputs, k, x);
    }
    if y == decision && edgeOptimize && x in Picked(used, |used|, false, edgeOptimize, connectOutputs) {
      var k := PickedSound(used, |used|, false, edgeOptimize, connectOutputs, x);
      NodeCandsMembers(used[k], |used[k].nodes|, decision, edgeOptimize, connectOutputs, x, y);
      assert used[k].nodes[..|used[k].nodes|] == used[k].nodes;
      FlattenHas(lists, k, (x, y));
    }
  }

  /**
   * The add_successor calls into the decision node for one agent, and the candidates
   * into it, node by node.
   */
  method WireAgent(l0: Links, a: Agent, decision: NodeId, edgeOptimize: bool, connectOutputs: bool)
    returns (l: Links, cands: seq<Connection>)
    requires LinksOk(l0) && decision in l0.succ && NoDup(a.nodes) && (forall n :: n in a.nodes ==> n in l0.succ)
    requires forall x :: Edge(l0.succ, x, decision) ==> x !in a.nodes
    ensures LinksOk(l) && l.succ.Keys == l0.succ.Keys
    ensures cands == NodeCands(a, |a.nodes|, decision, edgeOptimize, connectOutputs)
    ensures forall x, y :: Edge(l.succ, x, y) <==>
              Edge(l0.succ, x, y) || (y == decision && x in a.nodes && Wired(a, x, edgeOptimize, connectOutputs))
    ensures forall x, y :: Edge(l.pred, x, y) <==>
              Edge(l0.pred, x, y) || (x == decision && y in a.nodes && Wired(a, y, edgeOptimize, connectOutputs))
  {
    l, cands := l0, [];
    var i := 0;
    while i < |a.nodes|
      invariant i <= |a.nodes|
      invariant LinksOk(l) && l.succ.Keys == l0.succ.Keys
      invariant cands == NodeCands(a, i, decision, edgeOptimize, connectOutputs)
      invariant forall x, y :: Edge(l.succ, x, y) <==>
                  Edge(l0.succ, x, y) || (y == decision && x in a.nodes[..i] && Wired(a, x, edgeOptimize, connectOutputs))
      invariant forall x, y :: Edge(l.pred, x, y) <==>
                  Edge(l0.pred, x, y) || (x == decision && y in a.nodes[..i] && Wired(a, y, edgeOptimize, connectOutputs))
    {
      var n := a.nodes[i];
      assert a.nodes[..i + 1] == a.nodes[..i] + [n];
      if Wired(a, n, edgeOptimize, connectOutputs) {
        AddLinksEdges(l, n, decision);
        assert n !in a.nodes[..i];
        assert !Edge(l.succ, n, decision);
        l := AddSuccessor(l, n, decision);
      } else if edgeOptimize {
        cands := cands + [(n, decision)];
      }
      i := i + 1;
    }
    assert a.nodes[..|a.nodes|] == a.nodes;
  }

  /** add_successor adds the edge to the successor lists and its mirror to the predecessor lists, nothing else. */
  lemma AddLinksEdges(l: Links, a: NodeId, b: NodeId)
    requires LinksOk(l) && a in l.succ && b in l.succ
    ensures LinksOk(AddSuccessor(l, a, b)) && AddSuccessor(l, a, b).succ.Keys == l.succ.Keys
    ensures forall x, y :: Edge(AddSuccessor(l, a, b).succ, x, y) <==> Edge(l.succ, x, y) || (x == a && y == b)
    ensures forall x, y :: Edge(AddSuccessor(l, a, b).pred, x, y) <==>
              (if b in l.succ[a] then Edge(l.pred, x, y) else Edge(l.pred, x, y) || (x == b && y == a))
  {
    AddKeepsShape(l, a, b);
    AddSuccessorAddsEdge(l, a, b);
  }

  /** The decision-node part of organize over all kept agents, agent by agent. */
  method WireDecision(l0: Links, used: seq<Agent>, decision: NodeId, edgeOptimize: bool, connectOutputs: bool)
    returns (l: Links, cands: seq<Connection>)
    requires LinksOk(l0) && decision in l0.succ && NodesApart(used)
    requires forall k :: 0 <= k < |used| ==> NoDup(used[k].nodes) && forall n :: n in used[k].nodes ==> n in l0.succ
    requires forall x :: !Edge(l0.succ, x, decision)
    ensures LinksOk(l) && l.succ.Keys == l0.succ.Keys
    ensures cands == DecisionCands(used, decision, edgeOptimize, connectOutputs)
    ensures forall x, y :: Edge(l.succ, x, y) <==>
              Edge(l0.succ, x, y) || (y == decision && x in Picked(used, |used|, true, edgeOptimize, connectOutputs))
    ensures forall x, y :: Edge(l.pred, x, y) <==>
              Edge(l0.pred, x, y) || (x == decision && y in Picked(used, |used|, true, edgeOptimize, connectOutputs))
  {
    var lists := CandLists(used, decision, edgeOptimize, connectOutputs);
    l, cands := l0, [];
    for k := 0 to |used|
      invariant LinksOk(l) && l.succ.Keys == l0.succ.Keys
      invariant cands == Flatten(lists[..k])
      invariant forall x, y :: Edge(l.succ, x, y) <==>
                  Edge(l0.succ, x, y) || (y == decision && x in Picked(used, k, true, edgeOptimize, connectOutputs))
      invariant forall x, y :: Edge(l.pred, x, y) <==>
                  Edge(l0.pred, x, y) || (x == decision && y in Picked(used, k, true, edgeOptimize, connectOutputs))
    {
      var a := used[k];
      forall x | Edge(l.succ, x, decision)
        ensures x !in a.nodes
      {
        var i := PickedSound(used, k, true, edgeOptimize, connectOutputs, x);
      }
      FlattenSnoc(lists, k);
      var l', c := WireAgent(l, a, decision, edgeOptimize, connectOutputs);
      l, cands := l', cands + c;
    }
    assert lists[..|used|] == lists;
  }

  // ---------------------------------------------------------------------------
  // What organize leaves behind.

  /** The state organize leaves, as values: the collected graph, the static decision edges and the candidate list. */
  ghost predicate Assembled(ar: Arena, nodes: seq<NodeId>, inputs: seq<NodeId>, used: seq<Agent>, potential: seq<Connection>,
                            decision: NodeId, kind: Kind, edgeOptimize: bool, connectOutputs: bool)
  {
    && ArenaOk(ar)
    && nodes == [decision] + Flatten(NodeLists(used)) && inputs == Flatten(InputLists(used))
    && ar.kinds.Keys == {decision} + UsedKeys(used) && ar.kinds[decision] == kind
    && (forall x, y :: Edge(ar.succ, x, y) <==>
          EdgeAmong(used, x, y, true) || (y == decision && x in Picked(used, |used|, true, edgeOptimize, connectOutputs)))
    && (forall x, y :: Edge(ar.pred, x, y) <==>
          EdgeAmong(used, x, y, false) || (x == decision && y in Picked(used, |used|, true, edgeOptimize, connectOutputs)))
    && potential == (if edgeOptimize then Cross(NodeLists(used)) else []) + DecisionCands(used, decision, edgeOptimize, connectOutputs)
  }

  /**
   * The decision-node half of organize on the collected graph: static edges into the
   * decision node and the candidate list.
   */
  method Finish(c: Collection, used: seq<Agent>, decision: NodeId, ghost kind: Kind, edgeOptimize: bool, connectOutputs: bool)
    returns (ar: Arena, potential: seq<Connection>)
    requires UsedOk(used) && UsedApart(used, decision) && Collected(c, used, decision, kind)
    ensures ar.kinds == c.arena.kinds
    ensures Assembled(ar, c.nodes, c.inputs, used, potential, decision, kind, edgeOptimize, connectOutputs)
  {
    ApartNodes(used, decision);
    forall k | 0 <= k < |used|
      ensures NoDup(used[k].nodes) && forall n :: n in used[k].nodes ==> n in c.arena.succ
    {
      KeysOf(used, k);
    }
    forall x
      ensures !Edge(c.arena.succ, x, decision)
    {
      NoEdgeInto(used, decision, x);
    }
    var pairs: seq<Connection> := [];
    if edgeOptimize {
      pairs := CrossPairs(NodeLists(used));
    }
    var l, cands := WireDecision(LinksOf(c.arena), used, decision, edgeOptimize, connectOutputs);
    ar := WithLinks(c.arena, l);
    potential := pairs + cands;
  }

  /** A node of a kept agent is picked as wired (or as not wired) exactly when its own agent wires it so. */
  lemma PickedExactly(used: seq<Agent>, decision: NodeId, edgeOptimize: bool, connectOutputs: bool, k: nat, x: NodeId, wired: bool)
    requires UsedOk(used) && UsedApart(used, decision)
    requires k < |used| && x in used[k].nodes
    ensures x in Picked(used, |used|, wired, edgeOptimize, connectOutputs) <==> Wired(used[k], x, edgeOptimize, connectOutputs) == wired
  {
    ApartNodes(used, decision);
    if Wired(used[k], x, edgeOptimize, connectOutputs) == wired {
      PickedComplete(used, |used|, wired, edgeOptimize, connectOutputs, k, x);
    } else if x in Picked(used, |used|, wired, edgeOptimize, connectOutputs) {
      var j := PickedSound(used, |used|, wired, edgeOptimize, connectOutputs, x);
    }
  }

  /** No pair between two agents ends at the decision node, which is no agent's node. */
  lemma CrossAvoidsDecision(used: seq<Agent>, decision: NodeId, x: NodeId)
    requires UsedOk(used) && UsedApart(used, decision)
    ensures (x, decision) !in Cross(NodeLists(used))
  {
    var lists := NodeLists(used);
    if (x, decision) in Cross(lists) {
      var p :| 0 <= p < |Cross(lists)| && Cross(lists)[p] == (x, decision);
      var i, j := CrossSound(lists, p);
    }
  }

  /** With edge optimization, a node of a kept agent is a candidate into the decision node exactly when it is not wired to it. */
  lemma DecisionCandidate(used: seq<Agent>, potential: seq<Connection>, decision: NodeId, edgeOptimize: bool, connectOutputs: bool,
                          k: nat, x: NodeId)
    requires UsedOk(used) && UsedApart(used, decision)
    requires potential == (if edgeOptimize then Cross(NodeLists(used)) else []) + DecisionCands(used, decision, edgeOptimize, connectOutputs)
    requires k < |used| && x in used[k].nodes
    ensures (x, decision) in potential <==> edgeOptimize && !Wired(used[k], x, edgeOptimize, connectOutputs)
  {
    DecisionCandsMembers(used, decision, edgeOptimize, connectOutputs, x, decision);
    PickedExactly(used, decision, edgeOptimize, connectOutputs, k, x, false);
    CrossAvoidsDecision(used, decision, x);
  }

  /** A node of a kept agent has a static edge into the decision node exactly when its agent wires it. */
  lemma DecisionEdge(ar: Arena, used: seq<Agent>, decision: NodeId, edgeOptimize: bool, connectOutputs: bool, k: nat, x: NodeId)
    requires UsedOk(used) && UsedApart(used, decision)
    requires forall y :: Edge(ar.succ, x, y) <==>
               EdgeAmong(used, x, y, true) || (y == decision && x in Picked(used, |used|, true, edgeOptimize, connectOutputs))
    requires k < |used| && x in used[k].nodes
    ensures Edge(ar.succ, x, decision) <==> Wired(used[k], x, edgeOptimize, connectOutputs)
  {
    NoEdgeInto(used, decision, x);
    PickedExactly(used, decision, edgeOptimize, connectOutputs, k, x, true);
  }

  /**
   * Every agent node has either a static edge into the decision node or a candidate
   * connection into it, never both: with edge optimization a node is a candidate
   * exactly when it is not wired; without it there are no candidates at all and
   * exactly the agents' output nodes are wired.
   */
  lemma EachNodeOnce(ar: Arena, nodes: seq<NodeId>, inputs: seq<NodeId>, used: seq<Agent>, potential: seq<Connection>,
                     decision: NodeId, kind: Kind, edgeOptimize: bool, connectOutputs: bool, k: nat, x: NodeId)
    requires UsedOk(used) && UsedApart(used, decision)
    requires Assembled(ar, nodes, inputs, used, potential, decision, kind, edgeOptimize, connectOutputs)
    requires k < |used| && x in used[k].nodes
    ensures Edge(ar.succ, x, decision) <==> Wired(used[k], x, edgeOptimize, connectOutputs)
    ensures (x, decision) in potential <==> edgeOptimize && !Edge(ar.succ, x, decision)
    ensures !edgeOptimize ==> potential == [] && (Edge(ar.succ, x, decision) <==> x in used[k].outputNodes)
  {
    DecisionEdge(ar, used, decision, edgeOptimize, connectOutputs, k, x);
    DecisionCandidate(used, potential, decision, edgeOptimize, connectOutputs, k, x);
    if !edgeOptimize && potential != [] {
      var c := potential[0];
      DecisionCandsMembers(used, decision, edgeOptimize, connectOutputs, c.0, c.1);
    }
  }

  /**
   * With edge optimization every pair of nodes from two different agents is a
   * candidate, and every candidate not into the decision node is such a pair.
   */
  lemma CandidatesBetweenAgents(used: seq<Agent>, potential: seq<Connection>, decision: NodeId, connectOutputs: bool, x: NodeId, y: NodeId)
    requires potential == Cross(NodeLists(used)) + DecisionCands(used, decision, true, connectOutputs)
    requires y != decision
    ensures (x, y) in potential <==>
              exists i, j :: 0 <= i < |used| && 0 <= j < |used| && i != j && x in used[i].nodes && y in used[j].nodes
  {
    DecisionCandsMembers(used, decision, true, connectOutputs, x, y);
    var lists := NodeLists(used);
    if (x, y) in Cross(lists) {
      var p :| 0 <= p < |Cross(lists)| && Cross(lists)[p] == (x, y);
      var i, j := CrossSound(lists, p);
    }
    if exists i, j :: 0 <= i < |used| && 0 <= j < |used| && i != j && x in used[i].nodes && y in used[j].nodes {
      var i, j :| 0 <= i < |used| && 0 <= j < |used| && i != j && x in used[i].nodes && y in used[j].nodes;
      CrossComplete(lists, i, j, x, y);
    }
  }

  // ---------------------------------------------------------------------------
  // The Swarm object.

  class Swarm {
    /** edge_optimize: the connections are learned rather than fixed. */
    const edgeOptimize: bool
    /** connect_output_nodes_to_final_node. */
    const connectOutputs: bool
    /** used_agents: the agents' graphs, in the order of their names. */
    var usedAgents: seq<Agent>
    /** composite_graph. */
    var composite: CompositeGraph
    /** potential_connections: what the edge distribution is built over. */
    var potential: seq<Connection>
    /** init_connection_probability: the starting probability of every potential connection. */
    const initProbability: real
    /** connection_dist: the edge-wise distribution, or the error its construction raised. */
    var connectionDist: Result<Parameterization.Distribution>

    /**
     * The state organize leaves: the kept agents, a composite graph holding the
     * decision node and every kept agent's node objects with their edges, plus the
     * static edges into the decision node, and the list of potential connections.
     */
    ghost predicate Organized(instances: seq<Option<Agent>>, decision: NodeId, kind: Kind, includeInner: bool)
      reads this, composite, composite.graph
    {
      && composite.Valid() && composite.decision == decision && |composite.graphs| == |usedAgents|
      && usedAgents == Processed(instances, |instances|, includeInner)
      && Assembled(composite.graph.arena, composite.graph.nodes, composite.graph.inputNodes, usedAgents, potential,
                   decision, kind, edgeOptimize, connectOutputs)
      && (connectionDist.Raised? <==> initProbability == 1.0)
      && (connectionDist.Ok? ==> Parameterization.Indexed(connectionDist.value) && connectionDist.value.potential == potential)
    }

    /** Swarm.__init__, which ends by organizing the swarm. */
    constructor (instances: seq<Option<Agent>>, decision: NodeId, kind: Kind,
                 edgeOptimize: bool, connectOutputs: bool, includeInner: bool,
                 initProbability: real, log: real -> real, orderDraws: nat -> real)
      requires Separate(instances, decision)
      ensures this.edgeOptimize == edgeOptimize && this.connectOutputs == connectOutputs
      ensures this.initProbability == initProbability
      ensures Organized(instances, decision, kind, includeInner)
      ensures connectionDist == Parameterization.ConnectionDist(potential, initProbability, log, orderDraws)
    {
      this.edgeOptimize := edgeOptimize;
      this.connectOutputs := connectOutputs;
      this.initProbability := initProbability;
      composite := new CompositeGraph(decision, kind);
      usedAgents, potential := [], [];
      connectionDist := Raised("");
      new;
      Organize(instances, decision, kind, includeInner, log, orderDraws);
    }

    /**
     * organize: collects the registered agents (cutting their inner edges when asked),
     * adds their graphs to a new composite graph, wires the decision node and
     * enumerates the connections the optimizer may learn, over which it builds the
     * edge-wise distribution. The logarithm of that construction and its torch.randn
     * draws are the parameters `log` and `orderDraws`. Where the construction raises
     * (probability 1.0), the source's constructor fails; here the error is what
     * `connectionDist` holds.
     */
    method Organize(instances: seq<Option<Agent>>, decision: NodeId, kind: Kind, includeInner: bool,
                    log: real -> real, orderDraws: nat -> real)
      requires Separate(instances, decision)
      modifies this
      ensures Organized(instances, decision, kind, includeInner)
      ensures connectionDist == Parameterization.ConnectionDist(potential, initProbability, log, orderDraws)
    {
      var cg := new CompositeGraph(decision, kind);
      var used := AddAll(cg, instances, decision, kind, includeInner);
      ProcessedFacts(instances, decision, |instances|, includeInner);
      CollectFacts(used, decision, kind);
      var ar, pot := Finish(Collection(cg.graph.arena, cg.graph.nodes, cg.graph.inputNodes), used, decision, kind,
                            edgeOptimize, connectOutputs);
      var dist := Parameterization.ConnectionDist(pot, initProbability, log, orderDraws);
      Conclude(cg, ar, used, pot, dist, instances, decision, kind, includeInner);
    }

    /** The end of organize: the wired node objects replace the composite graph's, the swarm keeps what was built, and the edge distribution is made. */
    method Conclude(cg: CompositeGraph, ar: Arena, used: seq<Agent>, pot: seq<Connection>, dist: Result<Parameterization.Distribution>,
                    ghost instances: seq<Option<Agent>>, decision: NodeId, ghost kind: Kind, ghost includeInner: bool)
      requires cg.Valid() && cg.decision == decision && |cg.graphs| == |used| && ar.kinds == cg.graph.arena.kinds
      requires used == Processed(instances, |instances|, includeInner)
      requires Assembled(ar, cg.graph.nodes, cg.graph.inputNodes, used, pot, decision, kind, edgeOptimize, connectOutputs)
      requires dist.Raised? <==> initProbability == 1.0
      requires dist.Ok? ==> Parameterization.Indexed(dist.value) && dist.value.potential == pot
      modifies this, cg.graph
      ensures Organized(instances, decision, kind, includeInner)
      ensures potential == pot && connectionDist == dist
    {
      cg.graph.arena := ar;
      composite, usedAgents, potential, connectionDist := cg, used, pot, dist;
    }
  }

  /** The loop of organize over the agent names: each agent the registry knows joins the composite graph. */
  method AddAll(cg: CompositeGraph, instances: seq<Option<Agent>>, decision: NodeId, ghost kind: Kind, includeInner: bool)
    returns (used: seq<Agent>)
    requires Separate(instances, decision)
    requires cg.Valid() && cg.decision == decision && cg.graphs == []
    requires Collection(cg.graph.arena, cg.graph.nodes, cg.graph.inputNodes) == Start(decision, kind)
    modifies cg.graph, cg`graphs
    ensures cg.Valid() && |cg.graphs| == |used| && used == Processed(instances, |instances|, includeInner)
    ensures Collection(cg.graph.arena, cg.graph.nodes, cg.graph.inputNodes) == Collect(used, decision, kind)
  {
    used := [];
    for k := 0 to |instances|
      invariant cg.Valid() && |cg.graphs| == |used|
      invariant used == Processed(instances, k, includeInner)
      invariant Collection(cg.graph.arena, cg.graph.nodes, cg.graph.inputNodes) == Collect(used, decision, kind)
    {
      Prepare(instances, decision, k, includeInner);
      used := AddNext(cg, used, instances, k, decision, kind, includeInner);
    }
  }

  /** What one turn of the loop needs of the registry. */
  lemma Prepare(instances: seq<Option<Agent>>, decision: NodeId, k: nat, includeInner: bool)
    requires Separate(instances, decision) && k < |instances|
    ensures instances[k].Some? ==> AgentOk(instances[k].value)
    ensures UsedOk(Processed(instances, k + 1, includeInner)) && UsedApart(Processed(instances, k + 1, includeInner), decision)
  {
    ProcessedFacts(instances, decision, k + 1, includeInner);
  }

  /** One turn of organize's loop over the agent names: the agent, if the registry knows the name, joins the composite graph. */
  method AddNext(cg: CompositeGraph, used: seq<Agent>, instances: seq<Option<Agent>>, k: nat, decision: NodeId, ghost kind: Kind,
                 includeInner: bool)
    returns (used': seq<Agent>)
    requires k < |instances| && (instances[k].Some? ==> AgentOk(instances[k].value))
    requires UsedOk(Processed(instances, k + 1, includeInner)) && UsedApart(Processed(instances, k + 1, includeInner), decision)
    requires cg.Valid() && cg.decision == decision && |cg.graphs| == |used|
    requires used == Processed(instances, k, includeInner)
    requires Collection(cg.graph.arena, cg.graph.nodes, cg.graph.inputNodes) == Collect(used, decision, kind)
    modifies cg.graph, cg`graphs
    ensures cg.Valid() && |cg.graphs| == |used'| && used' == Processed(instances, k + 1, includeInner)
    ensures Collection(cg.graph.arena, cg.graph.nodes, cg.graph.inputNodes) == Collect(used', decision, kind)
  {
    if instances[k].None? {
      assert Processed(instances, k + 1, includeInner) == used + [];
      assert used + [] == used;
      return used;
    }
    var a := instances[k].value;
    if !includeInner {
      a := ClearSuccessors(a);
    }
    assert Processed(instances, k + 1, includeInner) == used + [a];
    Admit(used, a, decision, kind);
    CollectStep(used, a, decision, kind);
    ghost var c := Collect(used, decision, kind);
    AddAgent(cg, a);
    assert cg.graph.arena == Merge(c.arena, a.arena);
    assert cg.graph.nodes == c.nodes + a.nodes && cg.graph.inputNodes == c.inputs + a.inputNodes;
    used' := used + [a];
  }

  /** The next kept agent is well formed and shares no node object with the composite graph so far. */
  lemma Admit(used: seq<Agent>, a: Agent, decision: NodeId, kind: Kind)
    requires UsedOk(used + [a]) && UsedApart(used + [a], decision)
    ensures AgentOk(a) && a.arena.kinds.Keys !! Collect(used, decision, kind).arena.kinds.Keys
  {
    LastApart(used + [a], decision);
    assert (used + [a])[..|used|] == used;
  }

  /** add_graph for one agent: a graph object with the agent's fields joins the composite graph. */
  method AddAgent(cg: CompositeGraph, a: Agent)
    requires cg.Valid() && AgentOk(a)
    requires a.arena.kinds.Keys !! cg.graph.arena.kinds.Keys
    modifies cg.graph, cg`graphs
    ensures cg.Valid() && |cg.graphs| == old(|cg.graphs|) + 1
    ensures cg.graph.nodes == old(cg.graph.nodes) + a.nodes && cg.graph.inputNodes == old(cg.graph.inputNodes) + a.inputNodes
    ensures cg.graph.arena == Merge(old(cg.graph.arena), a.arena)
  {
    var g := GraphOf(a);
    cg.AddGraph(g);
  }

  /** The agent's own Graph object, as its build_graph leaves it. */
  method GraphOf(a: Agent) returns (g: Graph)
    requires AgentOk(a)
    ensures fresh(g) && g.Valid()
    ensures g.arena == a.arena && g.nodes == a.nodes && g.inputNodes == a.inputNodes && g.outputNodes == a.outputNodes
  {
    g := new Graph();
    g.arena, g.nodes, g.inputNodes, g.outputNodes := a.arena, a.nodes, a.inputNodes, a.outputNodes;
  }
}
