/**
 * The edge realizers of swarm/optimizer/edge_optimizer/parameterization.py: each one
 * takes a copy of a composite graph and tries the potential connections on it, adding
 * those it may.
 *
 * The copy is a value here: a realizer takes the edge lists of the graph (`Links`) and
 * returns new ones, so the graph it was given is never touched. Torch tensors become
 * reals, and every sampled value (torch.rand, Categorical, random.sample) is an oracle
 * parameter. Transcendental functions (log, sigmoid) are parameters as well.
 */
module Parameterization {
  import opened Wrappers
  import opened Digraph
  import opened Nodes
  import opened Graphs
  import opened Composite
  import opened CompositeGraphs
  import opened Scheduling

  // ---------------------------------------------------------------------------
  // EdgeWiseDistribution.__init__
  // ---------------------------------------------------------------------------

  /** node_ids: every node id named by a potential connection. */
  function Endpoints(potential: seq<Connection>): (r: set<NodeId>)
    ensures forall c :: c in potential ==> c.0 in r && c.1 in r
    ensures forall x :: x in r ==> exists c :: c in potential && (c.0 == x || c.1 == x)
  {
    (set c | c in potential :: c.0) + (set c | c in potential :: c.1)
  }

  /** The parameters of an edge-wise distribution: one logit per potential connection, one order parameter per node id. */
  datatype Distribution = Distribution(
    potential: seq<Connection>,
    edgeLogits: seq<real>,
    idx2id: map<nat, NodeId>,
    id2idx: map<NodeId, nat>,
    orderParams: seq<real>)

  /** Every node index names an order parameter. */
  ghost predicate InRange(d: Distribution) {
    forall x :: x in d.id2idx ==> d.id2idx[x] < |d.orderParams|
  }

  /** The shape __init__ gives: a logit per connection, and index maps that are each other's inverse over the node ids. */
  ghost predicate Indexed(d: Distribution) {
    && |d.edgeLogits| == |d.potential|
    && InRange(d)
    && d.id2idx.Keys == Endpoints(d.potential)
    && (forall i: nat :: i in d.idx2id <==> i < |d.orderParams|)
    && (forall i :: i in d.idx2id ==> d.idx2id[i] in d.id2idx && d.id2idx[d.idx2id[i]] == i)
    && (forall x :: x in d.id2idx ==> d.id2idx[x] in d.idx2id && d.idx2id[d.id2idx[x]] == x)
  }

  /**
   * EdgeWiseDistribution.__init__: every edge logit starts at log(p / (1 - p)) (the
   * logarithm is the parameter `log`), and the node ids are numbered in `enumeration`,
   * the order in which the Python set of node ids is iterated. `orderParams` is the
   * torch.randn draw, one value per node id. p == 1 divides by zero.
   */
  function NewDistribution(potential: seq<Connection>, p: real, log: real -> real,
                           enumeration: seq<NodeId>, orderParams: seq<real>): (r: Result<Distribution>)
    requires NoDup(enumeration) && (forall x :: x in enumeration <==> x in Endpoints(potential))
    requires |orderParams| == |enumeration|
    ensures r.Raised? <==> p == 1.0
    ensures r.Ok? ==> Indexed(r.value)
    ensures r.Ok? ==> r.value.potential == potential && r.value.orderParams == orderParams
    ensures r.Ok? ==> forall k :: 0 <= k < |potential| ==> r.value.edgeLogits[k] == log(p / (1.0 - p))
    ensures r.Ok? ==> forall i :: 0 <= i < |enumeration| ==> r.value.idx2id[i] == enumeration[i]
  {
    if p == 1.0 then Raised("ZeroDivisionError: float division by zero")
    else
      EnumerationIndexes(enumeration, potential);
      Ok(Distribution(potential, seq(|potential|, _ => log(p / (1.0 - p))), Idx2Id(enumeration), Id2Idx(enumeration), orderParams))
  }

  /** node_idx2id: position to id. */
  function Idx2Id(enumeration: seq<NodeId>): (r: map<nat, NodeId>)
    ensures forall i: nat :: i in r <==> i < |enumeration|
    ensures forall i :: 0 <= i < |enumeration| ==> r[i] == enumeration[i]
  {
    map i: nat | i < |enumeration| :: enumeration[i]
  }

  /** node_id2idx: id to position. */
  function Id2Idx(enumeration: seq<NodeId>): (r: map<NodeId, nat>)
    requires NoDup(enumeration)
    ensures forall i :: 0 <= i < |enumeration| ==> enumeration[i] in r && r[enumeration[i]] == i
    ensures forall x :: x in r ==> r[x] < |enumeration| && enumeration[r[x]] == x
  {
    map i: nat | i < |enumeration| :: enumeration[i] := i
  }

  /** The two numberings of a duplicate-free enumeration of the end points are each other's inverse. */
  lemma EnumerationIndexes(enumeration: seq<NodeId>, potential: seq<Connection>)
    requires NoDup(enumeration) && (forall x :: x in enumeration <==> x in Endpoints(potential))
    ensures Id2Idx(enumeration).Keys == Endpoints(potential)
    ensures forall i :: i in Idx2Id(enumeration) ==> Idx2Id(enumeration)[i] in Id2Idx(enumeration) && Id2Idx(enumeration)[Idx2Id(enumeration)[i]] == i
  {
    var m := Id2Idx(enumeration);
    forall x | x in Endpoints(potential)
      ensures x in m
    {
      var i :| 0 <= i < |enumeration| && enumeration[i] == x;
    }
  }

  /**
   * One enumeration of the node ids: the order in which they first appear among the
   * potential connections. The source iterates a Python set, whose order is not fixed;
   * any duplicate-free listing of the end points would serve.
   */
  function NodeOrder(potential: seq<Connection>): (r: seq<NodeId>)
    ensures NoDup(r)
    ensures forall x :: x in r <==> x in Endpoints(potential)
    decreases |potential|
  {
    if potential == [] then []
    else
      var init, c := potential[..|potential| - 1], potential[|potential| - 1];
      assert potential == init + [c];
      var rest := NodeOrder(init);
      NodeOrderStep(init, c, rest);
      AddNew(AddNew(rest, c.0), c.1)
  }

  /** Listing the end points of one more connection. */
  lemma NodeOrderStep(init: seq<Connection>, c: Connection, s: seq<NodeId>)
    requires NoDup(s) && forall x :: x in s <==> x in Endpoints(init)
    ensures forall x :: x in AddNew(AddNew(s, c.0), c.1) <==> x in Endpoints(init + [c])
  {
    EndpointsSnoc(init, c);
  }

  /** A list with x appended unless it is already there. */
  function AddNew(s: seq<NodeId>, x: NodeId): (r: seq<NodeId>)
    requires NoDup(s)
    ensures NoDup(r)
    ensures forall y :: y in r <==> y in s || y == x
  {
    if x in s then s else s + [x]
  }

  /** The end points of one more connection. */
  lemma EndpointsSnoc(init: seq<Connection>, c: Connection)
    ensures Endpoints(init + [c]) == Endpoints(init) + {c.0, c.1}
  {
    forall x | x in Endpoints(init)
      ensures x in Endpoints(init + [c])
    {
      var d :| d in init && (d.0 == x || d.1 == x);
      assert d in init + [c];
    }
    assert c in init + [c];
  }

  /** The distribution organize builds: EdgeWiseDistribution over the potential connections, numbering the nodes by NodeOrder. */
  function ConnectionDist(potential: seq<Connection>, p: real, log: real -> real, orderDraws: nat -> real): (r: Result<Distribution>)
    ensures r.Raised? <==> p == 1.0
    ensures r.Ok? ==> Indexed(r.value) && r.value.potential == potential
    ensures r.Ok? ==> forall k :: 0 <= k < |potential| ==> r.value.edgeLogits[k] == log(p / (1.0 - p))
    ensures r.Ok? ==> forall i :: 0 <= i < |r.value.orderParams| ==> r.value.orderParams[i] == orderDraws(i)
  {
    var order := NodeOrder(potential);
    NewDistribution(potential, p, log, order, seq(|order|, i requires 0 <= i => orderDraws(i)))
  }

  // ---------------------------------------------------------------------------
  // realize_full and realize_mask
  // ---------------------------------------------------------------------------

  /** n flags that are all set. */
  function Everything(n: nat): (r: seq<bool>)
    ensures |r| == n && forall k :: 0 <= k < n ==> r[k]
  {
    seq(n, _ => true)
  }

  /**
   * What a realizer run over the first |o.turns| candidates achieved, on lists l0 of
   * an acyclic graph: the run is the one Realized describes; the graph is still
   * acyclic; the edges are the old ones plus exactly the connected candidates; a
   * candidate is connected only when wanted and skipped only when not wanted; and
   * symmetric lists stay symmetric.
   */
  ghost predicate RealizerSound(l0: Links, cands: seq<Connection>, wanted: seq<bool>, mirror: bool, o: Outcome)
    requires LinksOk(l0) && |wanted| == |cands|
  {
    && |o.turns| <= |cands|
    && o == Realized(l0, cands, wanted, mirror, |o.turns|)
    && LinksOk(o.links) && o.links.succ.Keys == l0.succ.Keys
    && Acyclic(o.links.succ)
    && AddsExactly(l0.succ, o, cands)
    && OnlyWanted(o, wanted, |o.turns|)
    && SkipsUnwanted(o, wanted, |o.turns|)
    && (Symmetric(l0) ==> Symmetric(o.links))
  }

  /**
   * The loop the realizers share: candidates in order, each end looked up with
   * find_node (which raises for an id not in the node map `ids`), a candidate added
   * when wanted and cycle-safe at its turn.
   */
  method RealizeWith(l0: Links, ids: set<NodeId>, cands: seq<Connection>, wanted: seq<bool>, mirror: bool)
    returns (o: Outcome, err: Option<string>)
    requires LinksOk(l0) && Acyclic(l0.succ) && ids <= l0.succ.Keys && |wanted| == |cands|
    ensures RealizerSound(l0, cands, wanted, mirror, o)
    ensures err.None? <==> |o.turns| == |cands|
    ensures err.Some? ==> err == Some(NotFound(MissingEnd(ids, cands[|o.turns|])))
  {
    o := ConnectCandidates(l0, ids, cands, wanted, mirror, |cands| + 1);
    RealizedFacts(l0, cands, wanted, mirror, |o.turns|);
    RealizedSkips(l0, cands, wanted, mirror, |o.turns|);
    RealizedPickedFew(l0, cands, wanted, mirror, |o.turns|);
    if Symmetric(l0) {
      RealizedSymmetric(l0, cands, wanted, mirror, |o.turns|);
    }
    if |o.turns| < |cands| {
      err := Some(NotFound(MissingEnd(ids, cands[|o.turns|])));
    } else {
      err := None;
    }
  }

  /**
   * realize_full: every candidate that is cycle-safe at its turn is connected, with
   * add_successor and then add_predecessor. No candidate is ever skipped.
   */
  method RealizeFull(l0: Links, ids: set<NodeId>, potential: seq<Connection>) returns (o: Outcome, err: Option<string>)
    requires LinksOk(l0) && Acyclic(l0.succ) && ids <= l0.succ.Keys
    ensures RealizerSound(l0, potential, Everything(|potential|), true, o)
    ensures forall k :: 0 <= k < |o.turns| ==> o.turns[k] != Skipped
    ensures err.None? <==> |o.turns| == |potential|
    ensures err.Some? ==> err == Some(NotFound(MissingEnd(ids, potential[|o.turns|])))
  {
    o, err := RealizeWith(l0, ids, potential, Everything(|potential|), true);
  }

  function Min(a: nat, b: nat): nat {
    if a <= b then a else b
  }

  /**
   * realize_mask: zip pairs the candidates with the mask and stops at the shorter of
   * the two; a candidate is connected iff its flag is set and it is cycle-safe at its
   * turn.
   */
  method RealizeMask(l0: Links, ids: set<NodeId>, potential: seq<Connection>, mask: seq<bool>)
    returns (o: Outcome, err: Option<string>)
    requires LinksOk(l0) && Acyclic(l0.succ) && ids <= l0.succ.Keys
    ensures var n := Min(|potential|, |mask|);
      && RealizerSound(l0, potential[..n], mask[..n], true, o)
      && (err.None? <==> |o.turns| == n)
      && (err.Some? ==> err == Some(NotFound(MissingEnd(ids, potential[|o.turns|]))))
  {
    var n := Min(|potential|, |mask|);
    o, err := RealizeWith(l0, ids, potential[..n], mask[..n], true);
  }

  // ---------------------------------------------------------------------------
  // realize, without the learned order
  // ---------------------------------------------------------------------------

  /**
   * The edge probability after `if threshold:`. Python's truth test lets a threshold
   * of 0.0 through as if none were given; any other threshold turns the probability
   * into 1 when it exceeds the threshold and 0 otherwise.
   */
  function Thresholded(p: real, threshold: Option<real>): (r: real)
    ensures threshold.None? || threshold.value == 0.0 ==> r == p
    ensures threshold.Some? && threshold.value != 0.0 ==> (r == 1.0 <==> p > threshold.value) && (r == 0.0 <==> p <= threshold.value)
  {
    if threshold.Some? && threshold.value != 0.0 then (if p > threshold.value then 1.0 else 0.0)
    else p
  }

  /** edge_prob for every candidate: sigmoid(logit / temperature), thresholded. */
  function EdgeProbs(d: Distribution, temperature: real, threshold: Option<real>, sigmoid: real -> real): (r: seq<real>)
    requires temperature >= 1.0
    ensures |r| == |d.edgeLogits|
    ensures forall k :: 0 <= k < |r| ==> r[k] == Thresholded(sigmoid(d.edgeLogits[k] / temperature), threshold)
  {
    seq(|d.edgeLogits|, (k: int) requires 0 <= k < |d.edgeLogits| => Thresholded(sigmoid(d.edgeLogits[k] / temperature), threshold))
  }

  /** torch.rand(1) < edge_prob for every candidate; `rands(k)` is the draw of candidate k. */
  function Draws(probs: seq<real>, rands: nat -> real): (r: seq<bool>)
    ensures |r| == |probs| && forall k :: 0 <= k < |r| ==> (r[k] <==> rands(k) < probs[k])
  {
    seq(|probs|, (k: int) requires 0 <= k < |probs| => rands(k) < probs[k])
  }

  /** With a (non-zero) threshold the draw decides nothing: a candidate is wanted iff its probability exceeds the threshold. */
  lemma ThresholdDecides(d: Distribution, temperature: real, t: real, sigmoid: real -> real, rands: nat -> real, k: nat)
    requires temperature >= 1.0 && t != 0.0 && k < |d.edgeLogits| && 0.0 <= rands(k) < 1.0
    ensures Draws(EdgeProbs(d, temperature, Some(t), sigmoid), rands)[k] <==> sigmoid(d.edgeLogits[k] / temperature) > t
  {
  }

  /** One log-probability term of realize: log(p) for a candidate taken, log(1 - p) for one not taken. */
  datatype LogTerm = Taken(p: real) | NotTaken(p: real)

  /** The terms realize appends, in order: one for every candidate that was cycle-safe at its turn. */
  function LogTerms(turns: seq<Turn>, probs: seq<real>): (r: seq<LogTerm>)
    requires |turns| <= |probs|
    ensures |r| == Considered(turns)
    ensures forall t :: t in r ==> exists k :: 0 <= k < |turns| && (t == Taken(probs[k]) || t == NotTaken(probs[k]))
  {
    if turns == [] then []
    else
      var k := |turns| - 1;
      var before := LogTerms(turns[..k], probs);
      assert forall t :: t in before ==> exists j :: 0 <= j < |turns| && (t == Taken(probs[j]) || t == NotTaken(probs[j])) by {
        forall t | t in before
          ensures exists j :: 0 <= j < |turns| && (t == Taken(probs[j]) || t == NotTaken(probs[j]))
        {
          var j :| 0 <= j < |turns[..k]| && (t == Taken(probs[j]) || t == NotTaken(probs[j]));
        }
      }
      match turns[k]
      case Connected => before + [Taken(probs[k])]
      case Skipped => before + [NotTaken(probs[k])]
      case _ => before
  }

  /** How many turns found their candidate cycle-safe (connected or skipped by the draw). */
  function Considered(turns: seq<Turn>): (r: nat)
    ensures r <= |turns|
  {
    if turns == [] then 0
    else Considered(turns[..|turns| - 1]) + (if Last(turns).Connected? || Last(turns).Skipped? then 1 else 0)
  }

  /** How many terms are log(p) terms. */
  function TakenCount(ts: seq<LogTerm>): (r: nat)
    ensures r <= |ts|
  {
    if ts == [] then 0 else TakenCount(ts[..|ts| - 1]) + (if Last(ts).Taken? then 1 else 0)
  }

  /** How many turns connected their candidate. */
  function ConnectedCount(turns: seq<Turn>): (r: nat)
    ensures r <= |turns|
  {
    if turns == [] then 0 else ConnectedCount(turns[..|turns| - 1]) + (if Last(turns) == Connected then 1 else 0)
  }

  /** Exactly the connected candidates contribute a log(p) term; the others that were considered contribute log(1 - p). */
  lemma {:induction false} TakenTerms(turns: seq<Turn>, probs: seq<real>)
    requires |turns| <= |probs|
    ensures TakenCount(LogTerms(turns, probs)) == ConnectedCount(turns)
    ensures |LogTerms(turns, probs)| - TakenCount(LogTerms(turns, probs)) == Considered(turns) - ConnectedCount(turns)
    decreases |turns|
  {
    if turns != [] {
      var k := |turns| - 1;
      TakenTerms(turns[..k], probs);
      var before := LogTerms(turns[..k], probs);
      match turns[k]
      case Connected =>
        assert (before + [Taken(probs[k])])[..|before|] == before;
      case Skipped =>
        assert (before + [NotTaken(probs[k])])[..|before|] == before;
      case _ =>
    }
  }

  // ---------------------------------------------------------------------------
  // realize_ranks
  // ---------------------------------------------------------------------------

  /** One draw of realize_ranks: the order logits of the available nodes and the index chosen among them (its log-softmax is the log-probability term). */
  datatype RankDraw = RankDraw(logits: seq<real>, idx: nat)

  /** torch.argmax: the first position of a largest value. */
  function ArgMax(xs: seq<real>): (r: nat)
    requires xs != []
    ensures r < |xs|
    ensures forall k :: 0 <= k < |xs| ==> xs[k] <= xs[r]
    ensures forall k :: 0 <= k < r ==> xs[k] < xs[r]
  {
    if |xs| == 1 then 0
    else
      var m := ArgMax(xs[..|xs| - 1]);
      if xs[|xs| - 1] > xs[m] then |xs| - 1 else m
  }

  /** avaliable_nodes: the nodes of the node map whose in-degree count is 0, in node-map order. */
  function Available(nodes: seq<NodeId>, indeg: map<NodeId, int>): (r: seq<NodeId>)
    requires forall v :: v in nodes ==> v in indeg
    ensures forall v :: v in r <==> v in nodes && indeg[v] == 0
  {
    if nodes == [] then []
    else
      var init := nodes[..|nodes| - 1];
      assert forall v :: v in nodes <==> v in init || v == Last(nodes);
      if indeg[Last(nodes)] == 0 then Available(init, indeg) + [Last(nodes)] else Available(init, indeg)
  }

  /**
   * The order parameters of the available nodes, in order. node_id2idx raises KeyError
   * at the first available node that is not the end of any potential connection.
   */
  function OrderLogits(avail: seq<NodeId>, d: Distribution): (r: Result<seq<real>>)
    requires InRange(d)
    ensures r.Ok? <==> forall v :: v in avail ==> v in d.id2idx
    ensures r.Ok? ==> |r.value| == |avail| && forall k :: 0 <= k < |avail| ==> r.value[k] == d.orderParams[d.id2idx[avail[k]]]
    ensures r.Raised? ==> exists k :: 0 <= k < |avail| && avail[k] !in d.id2idx && r.reason == KeyError(avail[k])
  {
    if avail == [] then Ok([])
    else
      var init := avail[..|avail| - 1];
      var v := Last(avail);
      assert forall x :: x in avail <==> x in init || x == v;
      var rest := OrderLogits(init, d);
      if rest.Raised? then
        assert exists k :: 0 <= k < |avail| && avail[k] !in d.id2idx && rest.reason == KeyError(avail[k]) by {
          var k :| 0 <= k < |init| && init[k] !in d.id2idx && rest.reason == KeyError(init[k]);
          assert avail[k] == init[k];
        }
        rest
      else if v !in d.id2idx then Raised(KeyError(v))
      else
        var ls := rest.value + [d.orderParams[d.id2idx[v]]];
        assert forall k :: 0 <= k < |init| ==> ls[k] == rest.value[k] && avail[k] == init[k];
        Ok(ls)
  }

  /** The error torch.stack raises on an empty list of logits. */
  const EmptyStack := "RuntimeError: " + "stack expects a non-empty TensorList"

  lemma NotEmptyStack(id: NodeId)
    ensures KeyError(id) != EmptyStack
  {
    assert EmptyStack[0] == 'R';
    assert KeyError(id)[0] == 'K';
  }

  /**
   * The loop over the successors of the node just ranked: each successor entry lowers
   * that node's in-degree count by one; an entry that is not in the node map raises
   * KeyError, the counts changed so far being lost with the exception.
   */
  method LowerInDegrees(indeg: map<NodeId, int>, succs: seq<NodeId>) returns (indeg': map<NodeId, int>, err: Option<string>)
    ensures err.None? <==> forall s :: s in succs ==> s in indeg
    ensures err.Some? ==> exists s :: s in succs && s !in indeg && err == Some(KeyError(s))
    ensures err.None? ==> indeg'.Keys == indeg.Keys && forall v :: v in indeg ==> indeg'[v] == indeg[v] - multiset(succs)[v]
  {
    indeg', err := indeg, None;
    var j := 0;
    while j < |succs| && err.None?
      invariant 0 <= j <= |succs|
      invariant err.None? ==> forall s :: s in succs[..j] ==> s in indeg
      invariant err.None? ==> indeg'.Keys == indeg.Keys && forall v :: v in indeg ==> indeg'[v] == indeg[v] - multiset(succs[..j])[v]
      invariant err.Some? ==> exists s :: s in succs && s !in indeg && err == Some(KeyError(s))
    {
      var s := succs[j];
      assert succs[..j + 1] == succs[..j] + [s];
      if s !in indeg' {
        err := Some(KeyError(s));
      } else {
        indeg' := indeg'[s := indeg'[s] - 1];
      }
      j := j + 1;
    }
    if err.None? {
      assert succs[..j] == succs;
    }
  }

  /**
   * The bookkeeping of realize_ranks after the nodes `order` have been ranked, in that
   * order: each one's rank is its position, its count is negative, and every other node
   * of the node map counts the entries of its predecessor list not yet matched by an
   * entry in the successor lists of ranked nodes. Each ranked node had been named as
   * often as it has predecessors when it was ranked.
   */
  ghost predicate RankInv(l: Links, nodes: seq<NodeId>, indeg: map<NodeId, int>, order: seq<NodeId>, ranks: map<NodeId, nat>) {
    && (forall v :: v in nodes ==> v in l.succ && v in l.pred)
    && indeg.Keys == (set v | v in nodes)
    && (forall v :: v in order ==> v in nodes)
    && Numbered(order, ranks)
    && Counted(l, nodes, indeg, order)
    && Ordered(l.succ, l.pred, order)
  }

  /** The ranked nodes, each once, numbered by position. */
  ghost predicate Numbered(order: seq<NodeId>, ranks: map<NodeId, nat>) {
    && NoDup(order)
    && ranks.Keys == (set v | v in order)
    && (forall j :: 0 <= j < |order| ==> ranks[order[j]] == j)
  }

  /** The in-degree counts: negative for ranked nodes, the unmatched predecessor entries for the others. */
  ghost predicate Counted(l: Links, nodes: seq<NodeId>, indeg: map<NodeId, int>, order: seq<NodeId>)
    requires (forall v :: v in nodes ==> v in l.succ && v in l.pred) && indeg.Keys == (set v | v in nodes)
    requires forall v :: v in order ==> v in nodes
  {
    && (forall v :: v in nodes && v !in order ==> indeg[v] == |l.pred[v]| - Hits(l.succ, order, v))
    && (forall v :: v in order ==> indeg[v] < 0)
  }

  lemma RankStart(l: Links, nodes: seq<NodeId>)
    requires LinksOk(l) && forall v :: v in nodes ==> v in l.succ
    ensures RankInv(l, nodes, map v | v in nodes :: |l.pred[v]|, [], map[])
  {
  }

  /** The successor entries of one more node, counted after the others. */
  lemma HitsAppend(succ: Adj, ps: seq<NodeId>, u: NodeId, v: NodeId)
    requires (forall p :: p in ps ==> p in succ) && u in succ
    ensures Hits(succ, ps + [u], v) == Hits(succ, ps, v) + multiset(succ[u])[v]
  {
    assert (ps + [u])[..|ps|] == ps;
  }

  /** Ranking an available node u next keeps the bookkeeping. */
  lemma RankStep(l: Links, nodes: seq<NodeId>, indeg: map<NodeId, int>, order: seq<NodeId>, ranks: map<NodeId, nat>,
                 u: NodeId, indeg': map<NodeId, int>)
    requires RankInv(l, nodes, indeg, order, ranks) && u in nodes && indeg[u] == 0
    requires indeg'.Keys == indeg.Keys
    requires forall v :: v in indeg ==> indeg'[v] == indeg[u := -1][v] - multiset(l.succ[u])[v]
    ensures u !in order
    ensures RankInv(l, nodes, indeg', order + [u], ranks[u := |order|])
  {
    assert u !in order;
    NumberedStep(order, ranks, u);
    CountedStep(l, nodes, indeg, order, u, indeg');
    OrderedPop(l.succ, l.pred, order, u);
  }

  lemma NumberedStep(order: seq<NodeId>, ranks: map<NodeId, nat>, u: NodeId)
    requires Numbered(order, ranks) && u !in order
    ensures Numbered(order + [u], ranks[u := |order|])
  {
    var order' := order + [u];
    var ranks' := ranks[u := |order|];
    NoDupAppend(order, u);
    assert forall v :: v in order' <==> v in order || v == u;
    forall j | 0 <= j < |order'|
      ensures ranks'[order'[j]] == j
    {
      if j < |order| {
        assert order'[j] == order[j];
      }
    }
  }

  lemma CountedStep(l: Links, nodes: seq<NodeId>, indeg: map<NodeId, int>, order: seq<NodeId>, u: NodeId, indeg': map<NodeId, int>)
    requires (forall v :: v in nodes ==> v in l.succ && v in l.pred) && indeg.Keys == (set v | v in nodes)
    requires (forall v :: v in order ==> v in nodes) && Counted(l, nodes, indeg, order)
    requires u in nodes && u !in order
    requires indeg'.Keys == indeg.Keys
    requires forall v :: v in indeg ==> indeg'[v] == indeg[u := -1][v] - multiset(l.succ[u])[v]
    ensures Counted(l, nodes, indeg', order + [u])
  {
    var order' := order + [u];
    forall v | v in nodes && v !in order'
      ensures indeg'[v] == |l.pred[v]| - Hits(l.succ, order', v)
    {
      HitsAppend(l.succ, order, u, v);
    }
    forall v | v in order'
      ensures indeg'[v] < 0
    {
      assert v in order || v == u;
    }
  }

  /** Ranked nodes number as many as the draws, and no two share a rank. */
  lemma RanksDistinct(l: Links, nodes: seq<NodeId>, indeg: map<NodeId, int>, order: seq<NodeId>, ranks: map<NodeId, nat>)
    requires RankInv(l, nodes, indeg, order, ranks)
    ensures |ranks| == |order|
    ensures forall u :: u in ranks ==> ranks[u] < |order|
    ensures forall u, v :: u in ranks && v in ranks && ranks[u] == ranks[v] ==> u == v
  {
    NoDupCard(order);
    assert |ranks| == |ranks.Keys|;
    forall u | u in ranks
      ensures ranks[u] < |order|
    {
      var j :| 0 <= j < |order| && order[j] == u;
    }
  }

  /** `ranks` numbers the sources of edges before their targets, wherever the target is ranked. */
  ghost predicate Topo(succ: Adj, ranks: map<NodeId, nat>) {
    forall u, v :: Edge(succ, u, v) && v in ranks ==> u in ranks && ranks[u] < ranks[v]
  }

  /** On symmetric lists, the bookkeeping makes the ranks a topological numbering of the ranked nodes. */
  lemma RanksTopo(l: Links, nodes: seq<NodeId>, indeg: map<NodeId, int>, order: seq<NodeId>, ranks: map<NodeId, nat>)
    requires RankInv(l, nodes, indeg, order, ranks) && Symmetric(l) && LinksOk(l)
    ensures Topo(l.succ, ranks)
  {
    OrderedPredsFirst(l.succ, l.pred, order);
    forall u, v | Edge(l.succ, u, v) && v in ranks
      ensures u in ranks && ranks[u] < ranks[v]
    {
      var i :| 0 <= i < |order| && order[i] == v;
      assert Edge(l.pred, v, u);
      assert u in order[..i];
      var j :| 0 <= j < i && order[..i][j] == u;
      assert order[j] == u;
    }
  }

  /** The node map holds the predecessors and the successors of its nodes. */
  ghost predicate MapClosed(l: Links, nodes: seq<NodeId>)
    requires forall v :: v in nodes ==> v in l.succ && v in l.pred
  {
    forall v :: v in nodes ==> (forall p :: p in l.pred[v] ==> p in nodes) && (forall s :: s in l.succ[v] ==> s in nodes)
  }

  /**
   * On an acyclic graph with symmetric lists whose node map is closed, while a node is
   * unranked some unranked node has count 0: one that reaches the most nodes, all of
   * whose predecessors are ranked.
   */
  lemma RankReady(l: Links, nodes: seq<NodeId>, indeg: map<NodeId, int>, order: seq<NodeId>, ranks: map<NodeId, nat>)
    requires RankInv(l, nodes, indeg, order, ranks) && LinksOk(l) && Symmetric(l) && Acyclic(l.succ) && MapClosed(l, nodes)
    requires |order| < |nodes| && NoDup(nodes)
    ensures Available(nodes, indeg) != []
  {
    var v0 := Unranked(l, nodes, order);
    var u := PredsRanked(l, nodes, order, v0);
    ZeroCount(l, nodes, indeg, order, u);
    assert u in Available(nodes, indeg);
  }

  /** On symmetric lists, an unranked node whose predecessors are all ranked has count 0. */
  lemma ZeroCount(l: Links, nodes: seq<NodeId>, indeg: map<NodeId, int>, order: seq<NodeId>, u: NodeId)
    requires (forall v :: v in nodes ==> v in l.succ && v in l.pred) && indeg.Keys == (set v | v in nodes)
    requires (forall v :: v in order ==> v in nodes) && NoDup(order) && Counted(l, nodes, indeg, order)
    requires Symmetric(l) && u in nodes && u !in order && forall p :: p in l.pred[u] ==> p in order
    ensures indeg[u] == 0
  {
    var P := set q | q in l.pred[u];
    var A := set q | q in order;
    HitsAreCommonPreds(l.succ, l.pred, order, u);
    NoDupCard(l.pred[u]);
    assert A * P == P;
  }

  /** Fewer ranked nodes than nodes in the node map: one of the node map is unranked. */
  lemma Unranked(l: Links, nodes: seq<NodeId>, order: seq<NodeId>) returns (v: NodeId)
    requires NoDup(nodes) && NoDup(order) && |order| < |nodes|
    ensures v in nodes && v !in order
  {
    var R := set v | v in nodes && v !in order;
    if R == {} {
      forall v | v in nodes
        ensures v in order
      {
        assert v !in R;
      }
      NoDupCard(order);
      NoDupCard(nodes);
      SubsetCardLe((set v | v in nodes), (set v | v in order));
      assert false;
    }
    v :| v in R;
  }

  /** Some unranked node has every predecessor ranked: among the unranked ones, one that reaches the most nodes. */
  lemma PredsRanked(l: Links, nodes: seq<NodeId>, order: seq<NodeId>, v0: NodeId) returns (u: NodeId)
    requires LinksOk(l) && Symmetric(l) && Acyclic(l.succ)
    requires (forall v :: v in nodes ==> v in l.succ && v in l.pred) && MapClosed(l, nodes)
    requires v0 in nodes && v0 !in order
    ensures u in nodes && u !in order && forall p :: p in l.pred[u] ==> p in order
  {
    var R := set v | v in nodes && v !in order;
    assert v0 in R;
    u := MostReaching(l.succ, R);
    forall p | p in l.pred[u]
      ensures p in order
    {
      assert Edge(l.pred, u, p);
      assert Edge(l.succ, p, u);
      SuccReachSmaller(l.succ, p, u);
      assert p !in R;
    }
  }

  /**
   * One turn of realize_ranks: the available nodes, their logits, the chosen one
   * (argmax, or the sampled index), and the lowered counts of its successors.
   */
  method RankTurn(l: Links, nodes: seq<NodeId>, d: Distribution, useMax: bool, sample: nat,
                  indeg: map<NodeId, int>, ghost order: seq<NodeId>, ghost ranks: map<NodeId, nat>)
    returns (u: NodeId, draw: RankDraw, indeg': map<NodeId, int>, err: Option<string>)
    requires InRange(d) && RankInv(l, nodes, indeg, order, ranks)
    ensures err.None? ==> RankInv(l, nodes, indeg', order + [u], ranks[u := |order|])
    ensures err.None? ==> draw.idx < |draw.logits| && (useMax ==> draw.idx == ArgMax(draw.logits))
    ensures Available(nodes, indeg) == [] <==> err == Some(EmptyStack)
    ensures err.None? <==> Available(nodes, indeg) != [] && (forall v :: v in Available(nodes, indeg) ==> v in d.id2idx)
                             && u in l.succ && (forall s :: s in l.succ[u] ==> s in indeg)
    ensures Available(nodes, indeg) != [] && (forall v :: v in Available(nodes, indeg) ==> v in d.id2idx) ==> u in Available(nodes, indeg)
    ensures err.Some? ==> err.value == EmptyStack || exists v :: err.value == KeyError(v)
  {
    var avail := Available(nodes, indeg);
    var logits := OrderLogits(avail, d);
    u, draw, indeg' := "", RankDraw([], 0), indeg;
    if logits.Raised? {
      err := Some(logits.reason);
      assert err != Some(EmptyStack) by {
        var k :| 0 <= k < |avail| && logits.reason == KeyError(avail[k]);
        NotEmptyStack(avail[k]);
      }
    } else if avail == [] {
      err := Some(EmptyStack);
    } else {
      var idx := if useMax then ArgMax(logits.value) else sample % |avail|;
      u, draw := avail[idx], RankDraw(logits.value, idx);
      indeg', err := LowerInDegrees(indeg[u := -1], l.succ[u]);
      assert err != Some(EmptyStack) by {
        if err.Some? {
          var s :| s in l.succ[u] && s !in indeg && err == Some(KeyError(s));
          NotEmptyStack(s);
        }
      }
      if err.None? {
        RankStep(l, nodes, indeg, order, ranks, u, indeg');
      }
    }
  }

  /** The graph conditions under which realize_ranks cannot fail: see RealizeRanks. */
  ghost predicate Rankable(l: Links, nodes: seq<NodeId>, d: Distribution)
    requires forall v :: v in nodes ==> v in l.succ && v in l.pred
  {
    && Symmetric(l) && Acyclic(l.succ) && MapClosed(l, nodes)
    && (forall v :: v in nodes ==> v in d.id2idx) && |d.orderParams| <= |nodes|
  }

  /**
   * realize_ranks: |orderParams| times, one available node of the node map gets the
   * next rank: the first with the largest order parameter when `useMax` holds, the one
   * Categorical(logits).sample() picks otherwise (`samples(i)` is the draw of turn i).
   * The ranks count the turns from 0, no two nodes share one, and on symmetric lists
   * every predecessor of a ranked node is ranked before it. On an acyclic graph with
   * symmetric lists whose node map holds the predecessors and successors of its nodes
   * and whose nodes are all ends of potential connections, it cannot fail as long as
   * there are no more order parameters than nodes.
   */
  method RealizeRanks(l: Links, nodes: seq<NodeId>, d: Distribution, useMax: bool, samples: nat -> nat)
    returns (ranks: map<NodeId, nat>, draws: seq<RankDraw>, err: Option<string>)
    requires LinksOk(l) && NoDup(nodes) && (forall v :: v in nodes ==> v in l.succ) && InRange(d)
    ensures ranks.Keys <= set v | v in nodes
    ensures |ranks| == |draws| <= |d.orderParams|
    ensures forall u :: u in ranks ==> ranks[u] < |draws|
    ensures forall u, v :: u in ranks && v in ranks && ranks[u] == ranks[v] ==> u == v
    ensures err.None? <==> |draws| == |d.orderParams|
    ensures err.Some? ==> err.value == EmptyStack || exists v :: err.value == KeyError(v)
    ensures forall t :: t in draws ==> t.idx < |t.logits| && (useMax ==> t.idx == ArgMax(t.logits))
    ensures Symmetric(l) ==> Topo(l.succ, ranks)
    ensures Rankable(l, nodes, d) ==> err.None?
  {
    var indeg := map v | v in nodes :: |l.pred[v]|;
    ghost var order: seq<NodeId> := [];
    ranks, draws, err := map[], [], None;
    RankStart(l, nodes);
    while |draws| < |d.orderParams| && err.None?
      invariant RankInv(l, nodes, indeg, order, ranks) && |order| == |draws| <= |d.orderParams|
      invariant err.Some? ==> |draws| < |d.orderParams| && (err.value == EmptyStack || exists v :: err.value == KeyError(v))
      invariant forall t :: t in draws ==> t.idx < |t.logits| && (useMax ==> t.idx == ArgMax(t.logits))
      invariant Rankable(l, nodes, d) ==> err.None?
      decreases |d.orderParams| - |draws|, if err.None? then 1 else 0
    {
      if Rankable(l, nodes, d) {
        RankReady(l, nodes, indeg, order, ranks);
      }
      var u, draw, indeg', e := RankTurn(l, nodes, d, useMax, samples(|draws|), indeg, order, ranks);
      if e.Some? {
        err := e;
      } else {
        ranks, indeg, draws := ranks[u := |draws|], indeg', draws + [draw];
        order := order + [u];
      }
    }
    RanksDistinct(l, nodes, indeg, order, ranks);
    if Symmetric(l) {
      RanksTopo(l, nodes, indeg, order, ranks);
    }
  }

  // ---------------------------------------------------------------------------
  // realize with the learned order
  // ---------------------------------------------------------------------------

  /** Walking forward to a ranked node, the walk starts at a ranked node of no larger rank. */
  lemma {:induction false} TopoWalk(succ: Adj, ranks: map<NodeId, nat>, w: seq<NodeId>)
    requires Topo(succ, ranks) && IsWalk(succ, w) && w[|w| - 1] in ranks
    ensures w[0] in ranks && ranks[w[0]] <= ranks[w[|w| - 1]]
    decreases |w|
  {
    if |w| > 1 {
      var w' := w[1..];
      assert IsWalk(succ, w') by {
        forall i | 0 <= i < |w'| - 1
          ensures Edge(succ, w'[i], w'[i + 1])
        {
          assert w'[i] == w[i + 1] && w'[i + 1] == w[i + 2];
        }
      }
      TopoWalk(succ, ranks, w');
      assert Edge(succ, w[0], w[1]);
    }
  }

  /** An edge from a lower rank to a higher one closes no cycle, and keeps the ranks topological. */
  lemma RankedEdgeSafe(succ: Adj, succ': Adj, ranks: map<NodeId, nat>, x: NodeId, y: NodeId)
    requires Topo(succ, ranks) && Acyclic(succ) && AddsEdge(succ, succ', x, y)
    requires x in ranks && y in ranks && ranks[x] < ranks[y]
    ensures Acyclic(succ') && Topo(succ', ranks)
  {
    if Reach(succ, y, x) {
      var w :| IsWalk(succ, w) && w[0] == y && w[|w| - 1] == x;
      TopoWalk(succ, ranks, w);
    }
    AddSafeEdgeKeepsAcyclic(succ, succ', x, y);
  }

  /**
   * What the learned-order loop does with candidate c, whose ends are both ranked: it
   * is Unsafe when its tail is not ranked before its head, and otherwise Connected or
   * Skipped as the draw says.
   */
  ghost predicate ByRank(c: Connection, ranks: map<NodeId, nat>, want: bool, t: Turn) {
    && c.0 in ranks && c.1 in ranks
    && (t == Connected <==> ranks[c.0] < ranks[c.1] && want)
    && (t == Skipped <==> ranks[c.0] < ranks[c.1] && !want)
    && (t == Unsafe <==> ranks[c.0] >= ranks[c.1])
  }

  /** The error at a candidate the loop cannot handle: find_node raises for an end outside the node map, then ranks[...] raises KeyError, tail first. */
  function RankError(ids: set<NodeId>, ranks: map<NodeId, nat>, c: Connection): string {
    if c.0 !in ids then NotFound(c.0)
    else if c.1 !in ids then NotFound(c.1)
    else if c.0 !in ranks then KeyError(c.0)
    else KeyError(c.1)
  }

  /** Every one of the first i turns is what ByRank says of its candidate. */
  ghost predicate RankTurns(cands: seq<Connection>, wanted: seq<bool>, ranks: map<NodeId, nat>, turns: seq<Turn>, i: nat)
    requires i <= |turns| && i <= |cands| == |wanted|
  {
    forall k :: 0 <= k < i ==> ByRank(cands[k], ranks, wanted[k], turns[k])
  }

  /** The picked candidates are exactly those of the Connected turns among the first i. */
  ghost predicate PickedConnected(cands: seq<Connection>, o: Outcome, i: nat)
    requires i <= |o.turns| && i <= |cands|
  {
    && (forall k :: 0 <= k < i && o.turns[k] == Connected ==> cands[k] in o.picked)
    && (forall c :: c in o.picked ==> exists k :: 0 <= k < i && o.turns[k] == Connected && cands[k] == c)
  }

  /**
   * The connecting loop of realize when use_learned_order holds: a candidate is added
   * (out.add_successor(in) only) when its tail is ranked before its head and its draw
   * says so; no cycle check is made. When the ranks are topological on an acyclic
   * graph, the graph stays acyclic all the same.
   */
  method ConnectByRank(l0: Links, ids: set<NodeId>, cands: seq<Connection>, wanted: seq<bool>, ranks: map<NodeId, nat>)
    returns (o: Outcome, err: Option<string>)
    requires LinksOk(l0) && ids <= l0.succ.Keys && |wanted| == |cands|
    ensures LinksOk(o.links) && o.links.succ.Keys == l0.succ.Keys
    ensures |o.turns| <= |cands| && (err.None? <==> |o.turns| == |cands|)
    ensures forall k :: 0 <= k < |o.turns| ==> ByRank(cands[k], ranks, wanted[k], o.turns[k])
    ensures AddsExactly(l0.succ, o, cands)
    ensures PickedConnected(cands, o, |o.turns|)
    ensures Symmetric(l0) ==> Symmetric(o.links)
    ensures Topo(l0.succ, ranks) && Acyclic(l0.succ) ==> Topo(o.links.succ, ranks) && Acyclic(o.links.succ)
    ensures err.Some? ==> err == Some(RankError(ids, ranks, cands[|o.turns|]))
  {
    o := Outcome(l0, [], []);
    ghost var good := Topo(l0.succ, ranks) && Acyclic(l0.succ);
    var i := 0;
    while i < |cands| && cands[i].0 in ids && cands[i].1 in ids && cands[i].0 in ranks && cands[i].1 in ranks
      invariant i == |o.turns| <= |cands|
      invariant LinksOk(o.links) && o.links.succ.Keys == l0.succ.Keys
      invariant RankTurns(cands, wanted, ranks, o.turns, i)
      invariant AddsExactly(l0.succ, o, cands)
      invariant PickedConnected(cands, o, i)
      invariant Symmetric(l0) ==> Symmetric(o.links)
      invariant good ==> Topo(o.links.succ, ranks) && Acyclic(o.links.succ)
    {
      o := RankAdvance(l0, cands, wanted, ranks, i, o, good);
      i := i + 1;
    }
    if i < |cands| {
      err := Some(RankError(ids, ranks, cands[i]));
    } else {
      err := None;
    }
  }

  /** One turn of ConnectByRank, on a candidate whose ends are ranked nodes of the node map. */
  method RankAdvance(l0: Links, cands: seq<Connection>, wanted: seq<bool>, ranks: map<NodeId, nat>, i: nat, o: Outcome, ghost good: bool)
    returns (o': Outcome)
    requires i == |o.turns| < |cands| == |wanted|
    requires cands[i].0 in o.links.succ && cands[i].1 in o.links.succ && cands[i].0 in ranks && cands[i].1 in ranks
    requires LinksOk(o.links) && o.links.succ.Keys == l0.succ.Keys
    requires RankTurns(cands, wanted, ranks, o.turns, i)
    requires AddsExactly(l0.succ, o, cands)
    requires PickedConnected(cands, o, i)
    requires good ==> Topo(o.links.succ, ranks) && Acyclic(o.links.succ)
    ensures |o'.turns| == i + 1 && RankTurns(cands, wanted, ranks, o'.turns, i + 1)
    ensures LinksOk(o'.links) && o'.links.succ.Keys == l0.succ.Keys
    ensures AddsExactly(l0.succ, o', cands)
    ensures PickedConnected(cands, o', i + 1)
    ensures Symmetric(o.links) ==> Symmetric(o'.links)
    ensures good ==> Topo(o'.links.succ, ranks) && Acyclic(o'.links.succ)
  {
    var c := cands[i];
    var t := if ranks[c.0] >= ranks[c.1] then Unsafe else if wanted[i] then Connected else Skipped;
    if t == Connected {
      ConnectSound(o.links, c, false);
      if Symmetric(o.links) {
        ConnectSymmetric(o.links, c, false);
      }
      if good {
        RankedEdgeSafe(o.links.succ, Connect(o.links, c, false).succ, ranks, c.0, c.1);
      }
      o' := Outcome(Connect(o.links, c, false), o.turns + [t], o.picked + [c]);
      PickedStep(l0.succ, cands, o, o');
    } else {
      o' := o.(turns := o.turns + [t]);
      PickedStep(l0.succ, cands, o, o');
    }
    RankTurnsStep(cands, wanted, ranks, o.turns, t);
  }

  lemma RankTurnsStep(cands: seq<Connection>, wanted: seq<bool>, ranks: map<NodeId, nat>, turns: seq<Turn>, t: Turn)
    requires |turns| < |cands| == |wanted| && RankTurns(cands, wanted, ranks, turns, |turns|)
    requires ByRank(cands[|turns|], ranks, wanted[|turns|], t)
    ensures RankTurns(cands, wanted, ranks, turns + [t], |turns| + 1)
  {
    assert forall k :: 0 <= k < |turns| ==> (turns + [t])[k] == turns[k];
  }

  /** A turn appends its verdict; a Connected one adds exactly the edge of its candidate and picks it. */
  lemma PickedStep(adj: Adj, cands: seq<Connection>, o: Outcome, o': Outcome)
    requires |o.turns| < |cands| && |o'.turns| == |o.turns| + 1 && o'.turns[..|o.turns|] == o.turns
    requires AddsExactly(adj, o, cands) && PickedConnected(cands, o, |o.turns|)
    requires o'.turns[|o.turns|] == Connected ==>
      AddsEdge(o.links.succ, o'.links.succ, cands[|o.turns|].0, cands[|o.turns|].1) && o'.picked == o.picked + [cands[|o.turns|]]
    requires o'.turns[|o.turns|] != Connected ==> o'.links == o.links && o'.picked == o.picked
    ensures AddsExactly(adj, o', cands) && PickedConnected(cands, o', |o'.turns|)
  {
    var i := |o.turns|;
    assert forall k :: 0 <= k < i ==> o'.turns[k] == o.turns[k];
    if o'.turns[i] == Connected {
      var c := cands[i];
      forall x, y
        ensures Edge(o'.links.succ, x, y) <==> Edge(adj, x, y) || (x, y) in o'.picked
      {
        assert (x, y) in o'.picked <==> (x, y) in o.picked || (x, y) == c;
      }
      forall c' | c' in o'.picked
        ensures exists k :: 0 <= k < i + 1 && o'.turns[k] == Connected && cands[k] == c'
      {
        if c' != c {
          var k :| 0 <= k < i && o.turns[k] == Connected && cands[k] == c';
          assert o'.turns[k] == Connected;
        }
      }
    } else {
      forall c' | c' in o'.picked
        ensures exists k :: 0 <= k < i + 1 && o'.turns[k] == Connected && cands[k] == c'
      {
        var k :| 0 <= k < i && o.turns[k] == Connected && cands[k] == c';
        assert o'.turns[k] == Connected;
      }
    }
  }

  /**
   * realize: on a copy of the graph (the lists l0 of the node objects, `nodes` the node
   * map), the potential connections are tried in order. Without the learned order, a
   * candidate that closes no cycle gets probability sigmoid(logit / temperature),
   * thresholded, and is added (add_successor only) when its draw falls below it. With
   * the learned order the nodes are ranked first (by argmax when a threshold is given)
   * and the rank order replaces the cycle check. Each candidate considered contributes
   * one log-probability term.
   */
  method Realize(l0: Links, nodes: seq<NodeId>, d: Distribution, temperature: real, threshold: Option<real>,
                 useLearnedOrder: bool, sigmoid: real -> real, rands: nat -> real, samples: nat -> nat)
    returns (o: Outcome, ranks: map<NodeId, nat>, terms: seq<LogTerm>, draws: seq<RankDraw>, err: Option<string>)
    requires LinksOk(l0) && Acyclic(l0.succ) && NoDup(nodes) && (forall v :: v in nodes ==> v in l0.succ)
    requires Indexed(d) && temperature >= 1.0
    ensures |o.turns| <= |d.potential|
    ensures terms == LogTerms(o.turns, EdgeProbs(d, temperature, threshold, sigmoid))
    ensures !useLearnedOrder ==>
      && draws == [] && ranks == map[]
      && RealizerSound(l0, d.potential, Draws(EdgeProbs(d, temperature, threshold, sigmoid), rands), false, o)
      && (err.None? <==> |o.turns| == |d.potential|)
    ensures useLearnedOrder ==>
      && LinksOk(o.links) && AddsExactly(l0.succ, o, d.potential)
      && (forall k :: 0 <= k < |o.turns| ==> ByRank(d.potential[k], ranks, Draws(EdgeProbs(d, temperature, threshold, sigmoid), rands)[k], o.turns[k]))
      && (err.None? ==> |draws| == |d.orderParams| && |o.turns| == |d.potential|)
      && (forall t :: t in draws ==> t.idx < |t.logits| && (threshold.Some? ==> t.idx == ArgMax(t.logits)))
      && (Symmetric(l0) ==> Topo(o.links.succ, ranks) && Acyclic(o.links.succ))
      && (Symmetric(l0) && MapClosed(l0, nodes) && (forall v :: v in nodes ==> v in d.id2idx) && |d.orderParams| <= |nodes| ==> |draws| == |d.orderParams|)
  {
    var probs := EdgeProbs(d, temperature, threshold, sigmoid);
    var wanted := Draws(probs, rands);
    if !useLearnedOrder {
      ranks, draws := map[], [];
      o, err := RealizeWith(l0, (set v | v in nodes), d.potential, wanted, false);
    } else {
      ranks, draws, err := RealizeRanks(l0, nodes, d, threshold.Some?, samples);
      if err.Some? {
        o := Outcome(l0, [], []);
      } else {
        o, err := ConnectByRank(l0, (set v | v in nodes), d.potential, wanted, ranks);
      }
    }
    terms := LogTerms(o.turns, probs);
  }

  // ---------------------------------------------------------------------------
  // random_sample_num_edges
  // ---------------------------------------------------------------------------

  /** The error random.sample raises when asked for one element of an empty list. */
  const EmptySample := "ValueError: " + "Sample larger than population or is negative"

  /** How the sampling loop ended: enough edges, an exception, or the bound on its turns was reached. */
  datatype Stop = Reached | Broke(reason: string) | OutOfFuel

  /**
   * random_sample_num_edges: until the node map holds `target` successor entries, draw
   * a potential connection (`picks(k)` selects the draw of turn k) and add it, with
   * add_successor and add_predecessor, when it closes no cycle. The source loops
   * forever when no draw can add an edge; `fuel` bounds the turns here.
   */
  method RandomSampleNumEdges(l0: Links, nodes: seq<NodeId>, potential: seq<Connection>, target: int,
                              picks: nat -> nat, fuel: nat)
    returns (l: Links, stop: Stop)
    requires LinksOk(l0) && Acyclic(l0.succ) && forall v :: v in nodes ==> v in l0.succ
    ensures LinksOk(l) && Acyclic(l.succ) && l.succ.Keys == l0.succ.Keys
    ensures SubGraph(l0.succ, l.succ)
    ensures forall x, y :: Edge(l.succ, x, y) ==> Edge(l0.succ, x, y) || (x, y) in potential
    ensures Symmetric(l0) ==> Symmetric(l)
    ensures stop == Reached <==> SuccessorCount(l.succ, nodes) >= target
    ensures stop.Broke? ==>
      || (potential == [] && stop.reason == EmptySample)
      || (exists c :: c in potential && stop.reason == NotFound(MissingEnd((set v | v in nodes), c)))
    ensures SuccessorCount(l0.succ, nodes) >= target ==> l == l0
  {
    l, stop := l0, OutOfFuel;
    var ids := set v | v in nodes;
    var k := 0;
    while k < fuel && stop == OutOfFuel
      invariant LinksOk(l) && Acyclic(l.succ) && l.succ.Keys == l0.succ.Keys
      invariant SubGraph(l0.succ, l.succ)
      invariant forall x, y :: Edge(l.succ, x, y) ==> Edge(l0.succ, x, y) || (x, y) in potential
      invariant Symmetric(l0) ==> Symmetric(l)
      invariant stop == Reached ==> SuccessorCount(l.succ, nodes) >= target
      invariant stop.Broke? ==> SuccessorCount(l.succ, nodes) < target
      invariant stop.Broke? ==>
        || (potential == [] && stop.reason == EmptySample)
        || (exists c :: c in potential && stop.reason == NotFound(MissingEnd(ids, c)))
      invariant SuccessorCount(l0.succ, nodes) >= target ==> l == l0
      decreases fuel - k, if stop == OutOfFuel then 1 else 0
    {
      if SuccessorCount(l.succ, nodes) >= target {
        stop := Reached;
      } else if potential == [] {
        stop := Broke(EmptySample);
      } else {
        var c := potential[picks(k) % |potential|];
        if c.0 !in ids || c.1 !in ids {
          stop := Broke(NotFound(MissingEnd(ids, c)));
        } else if CycleSafe(l, c) {
          l := SampleStep(l0, l, c, potential);
        }
        k := k + 1;
      }
    }
    if stop == OutOfFuel && SuccessorCount(l.succ, nodes) >= target {
      stop := Reached;
    }
  }

  /** Adding a drawn connection that closes no cycle. */
  method SampleStep(l0: Links, l: Links, c: Connection, potential: seq<Connection>) returns (l': Links)
    requires LinksOk(l) && Acyclic(l.succ) && l.succ.Keys == l0.succ.Keys && c.0 in l.succ && c.1 in l.succ
    requires !Reach(l.succ, c.1, c.0) && c in potential
    requires SubGraph(l0.succ, l.succ) && forall x, y :: Edge(l.succ, x, y) ==> Edge(l0.succ, x, y) || (x, y) in potential
    ensures l' == Connect(l, c, true)
    ensures LinksOk(l') && Acyclic(l'.succ) && l'.succ.Keys == l0.succ.Keys
    ensures SubGraph(l0.succ, l'.succ)
    ensures forall x, y :: Edge(l'.succ, x, y) ==> Edge(l0.succ, x, y) || (x, y) in potential
    ensures Symmetric(l) ==> Symmetric(l')
  {
    ConnectSound(l, c, true);
    if Symmetric(l) {
      ConnectSymmetric(l, c, true);
    }
    l' := Connect(l, c, true);
    AddSafeEdgeKeepsAcyclic(l.succ, l'.succ, c.0, c.1);
  }
}
