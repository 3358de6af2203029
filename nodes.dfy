/**
 * The value-level part of a graph node (swarm/graph/node.py): what the messages
 * passed between nodes are, how the symmetric successor/predecessor lists
 * change when an edge is added or removed, how `process_input` reads a node's
 * inputs, how `execute` turns inputs into tasks, and how the results of the tasks are
 * gathered into the node's outputs.
 */
module Nodes {
  import opened Wrappers
  import opened Digraph

  /** A message passed between nodes: Python strings, dicts and lists; anything else is an atom. */
  datatype Value =
    | Str(text: string)
    | Dict(entries: map<string, Value>)
    | List(items: seq<Value>)
    | Atom(tag: int)

  /** The operation classes that the agent builders wire into graphs. */
  datatype Kind =
    | GreedySteps
    | Reflection
    | BranchingStep
    | ReturnAll
    | BruteForceStep
    | CoTStep(isLastStep: bool)
    | CodeWriting
    | FinalDecision
    | OtherOperation(name: string, combine: bool)

  /** The `combine_inputs_as_one` flag each operation class passes to the Node constructor. */
  function CombinesInputs(k: Kind): bool {
    match k
    case GreedySteps => false
    case Reflection => false
    case BranchingStep => false
    case BruteForceStep => false
    case CodeWriting => false
    case ReturnAll => true
    case CoTStep(_) => true
    case FinalDecision => true
    case OtherOperation(_, c) => c
  }

  // ---------------------------------------------------------------------------
  // Edge bookkeeping: a.add_successor(b) and friends, on both nodes' lists.
  // ---------------------------------------------------------------------------

  /** The pair of lists every node keeps: successors and predecessors, per node. */
  datatype Links = Links(succ: Adj, pred: Adj)

  ghost predicate LinksOk(l: Links) {
    l.succ.Keys == l.pred.Keys && Closed(l.succ) && Closed(l.pred)
  }

  /** The lists agree with each other and hold no duplicates. */
  ghost predicate Symmetric(l: Links) {
    Mirror(l.succ, l.pred) && NoDupLists(l.succ) && NoDupLists(l.pred)
  }

  /** `s` without its first occurrence of `x` (Python's list.remove when x is present). */
  function RemoveFirst<T(==)>(s: seq<T>, x: T): (r: seq<T>)
    requires x in s
    ensures |r| == |s| - 1
    ensures multiset(r) == multiset(s) - multiset{x}
    ensures forall y :: y in r ==> y in s
  {
    assert s == [s[0]] + s[1..];
    if s[0] == x then s[1..]
    else [s[0]] + RemoveFirst(s[1..], x)
  }

  /** a.add_successor(b): append b to a's successors and a to b's predecessors, unless b is already a successor. */
  function AddSuccessor(l: Links, a: NodeId, b: NodeId): (r: Links)
    requires a in l.succ && b in l.pred
  {
    if b in l.succ[a] then l
    else Links(l.succ[a := l.succ[a] + [b]], l.pred[b := l.pred[b] + [a]])
  }

  /** a.add_predecessor(b): append b to a's predecessors and a to b's successors, unless b is already a predecessor. */
  function AddPredecessor(l: Links, a: NodeId, b: NodeId): (r: Links)
    requires a in l.pred && b in l.succ
  {
    if b in l.pred[a] then l
    else Links(l.succ[b := l.succ[b] + [a]], l.pred[a := l.pred[a] + [b]])
  }

  /** The ValueError list.remove raises for a missing element. */
  const NotInList := "ValueError: list.remove(x): x not in list"

  /**
   * a.remove_successor(b): if b is a successor, take it out of a's successors and then
   * a out of b's predecessors; the second removal raises ValueError when the lists
   * disagree, after the first one happened.
   */
  function RemoveSuccessor(l: Links, a: NodeId, b: NodeId): (r: Result<Links>)
    requires a in l.succ && b in l.pred
    ensures r.Raised? <==> b in l.succ[a] && a !in l.pred[b]
    ensures r.Raised? ==> r.reason == NotInList
  {
    if b !in l.succ[a] then Ok(l)
    else
      var succ' := l.succ[a := RemoveFirst(l.succ[a], b)];
      if a in l.pred[b] then Ok(Links(succ', l.pred[b := RemoveFirst(l.pred[b], a)]))
      else Raised(NotInList)
  }

  /** a.remove_predecessor(b): the mirror image of RemoveSuccessor. */
  function RemovePredecessor(l: Links, a: NodeId, b: NodeId): (r: Result<Links>)
    requires a in l.pred && b in l.succ
  {
    if b !in l.pred[a] then Ok(l)
    else
      var pred' := l.pred[a := RemoveFirst(l.pred[a], b)];
      if a in l.succ[b] then Ok(Links(l.succ[b := RemoveFirst(l.succ[b], a)], pred'))
      else Raised(NotInList)
  }

  lemma NoDupAppend(s: seq<NodeId>, x: NodeId)
    requires NoDup(s) && x !in s
    ensures NoDup(s + [x])
  {
  }

  lemma {:induction false} NoDupRemoveFirst(s: seq<NodeId>, x: NodeId)
    requires NoDup(s) && x in s
    ensures NoDup(RemoveFirst(s, x))
    ensures forall y :: y in RemoveFirst(s, x) <==> y in s && y != x
  {
    if s[0] != x {
      NoDupRemoveFirst(s[1..], x);
      assert s == [s[0]] + s[1..];
      assert s[0] !in s[1..];
    } else {
      assert s == [s[0]] + s[1..];
    }
  }

  /**
   * add_successor keeps the two lists in agreement, adds exactly the edge a -> b, and
   * a second call with the same arguments changes nothing.
   */
  lemma AddSuccessorSound(l: Links, a: NodeId, b: NodeId)
    requires LinksOk(l) && Symmetric(l) && a in l.succ && b in l.succ
    ensures LinksOk(AddSuccessor(l, a, b)) && Symmetric(AddSuccessor(l, a, b))
    ensures AddsEdge(l.succ, AddSuccessor(l, a, b).succ, a, b)
    ensures AddSuccessor(AddSuccessor(l, a, b), a, b) == AddSuccessor(l, a, b)
  {
    var r := AddSuccessor(l, a, b);
    if b !in l.succ[a] {
      assert !Edge(l.pred, b, a) by { assert !Edge(l.succ, a, b); }
      NoDupAppend(l.succ[a], b);
      NoDupAppend(l.pred[b], a);
      forall x, y
        ensures Edge(r.succ, x, y) <==> Edge(r.pred, y, x)
      {
        assert Edge(r.succ, x, y) <==> Edge(l.succ, x, y) || (x == a && y == b);
        assert Edge(r.pred, y, x) <==> Edge(l.pred, y, x) || (x == a && y == b);
      }
    }
  }

  /** On symmetric lists, a.add_predecessor(b) has exactly the effect of b.add_successor(a). */
  lemma AddPredecessorMirrors(l: Links, a: NodeId, b: NodeId)
    requires LinksOk(l) && Symmetric(l) && a in l.succ && b in l.succ
    ensures AddPredecessor(l, a, b) == AddSuccessor(l, b, a)
  {
    assert b in l.pred[a] <==> Edge(l.succ, b, a);
  }

  /**
   * On symmetric lists remove_successor never raises, removes exactly the edge a -> b
   * (nothing when it is absent) and keeps the lists symmetric.
   */
  lemma RemoveSuccessorSound(l: Links, a: NodeId, b: NodeId)
    requires LinksOk(l) && Symmetric(l) && a in l.succ && b in l.succ
    ensures RemoveSuccessor(l, a, b).Ok?
    ensures LinksOk(RemoveSuccessor(l, a, b).value) && Symmetric(RemoveSuccessor(l, a, b).value)
    ensures forall x, y :: Edge(RemoveSuccessor(l, a, b).value.succ, x, y) <==> Edge(l.succ, x, y) && !(x == a && y == b)
  {
    if b in l.succ[a] {
      assert Edge(l.pred, b, a);
      NoDupRemoveFirst(l.succ[a], b);
      NoDupRemoveFirst(l.pred[b], a);
      var r := RemoveSuccessor(l, a, b).value;
      forall x, y
        ensures Edge(r.succ, x, y) <==> Edge(l.succ, x, y) && !(x == a && y == b)
        ensures Edge(r.pred, y, x) <==> Edge(l.pred, y, x) && !(x == a && y == b)
      {
      }
    }
  }

  /** On symmetric lists, a.remove_predecessor(b) has exactly the effect of b.remove_successor(a). */
  lemma RemovePredecessorMirrors(l: Links, a: NodeId, b: NodeId)
    requires LinksOk(l) && Symmetric(l) && a in l.succ && b in l.succ
    ensures RemovePredecessor(l, a, b) == RemoveSuccessor(l, b, a)
  {
    assert b in l.pred[a] <==> Edge(l.succ, b, a);
  }

  /** Whatever the lists hold, the edge operations keep every list inside the same set of node objects. */
  lemma AddKeepsShape(l: Links, a: NodeId, b: NodeId)
    requires LinksOk(l) && a in l.succ && b in l.succ
    ensures LinksOk(AddSuccessor(l, a, b)) && AddSuccessor(l, a, b).succ.Keys == l.succ.Keys
    ensures LinksOk(AddPredecessor(l, a, b)) && AddPredecessor(l, a, b).succ.Keys == l.succ.Keys
  {
    ClosedUpdate(l.succ, a, l.succ[a] + [b]);
    ClosedUpdate(l.pred, b, l.pred[b] + [a]);
    ClosedUpdate(l.pred, a, l.pred[a] + [b]);
    ClosedUpdate(l.succ, b, l.succ[b] + [a]);
  }

  lemma RemoveSuccessorKeepsShape(l: Links, a: NodeId, b: NodeId)
    requires LinksOk(l) && a in l.succ && b in l.succ
    ensures RemoveSuccessor(l, a, b).Ok? ==> LinksOk(RemoveSuccessor(l, a, b).value) && RemoveSuccessor(l, a, b).value.succ.Keys == l.succ.Keys
    ensures b in l.succ[a] ==> Closed(l.succ[a := RemoveFirst(l.succ[a], b)])
  {
    if b in l.succ[a] {
      ClosedUpdate(l.succ, a, RemoveFirst(l.succ[a], b));
      if a in l.pred[b] {
        ClosedUpdate(l.pred, b, RemoveFirst(l.pred[b], a));
      }
    }
  }

  lemma RemovePredecessorKeepsShape(l: Links, a: NodeId, b: NodeId)
    requires LinksOk(l) && a in l.succ && b in l.succ
    ensures RemovePredecessor(l, a, b).Ok? ==> LinksOk(RemovePredecessor(l, a, b).value) && RemovePredecessor(l, a, b).value.succ.Keys == l.succ.Keys
    ensures b in l.pred[a] ==> Closed(l.pred[a := RemoveFirst(l.pred[a], b)])
  {
    if b in l.pred[a] {
      ClosedUpdate(l.pred, a, RemoveFirst(l.pred[a], b));
      if a in l.succ[b] {
        ClosedUpdate(l.succ, b, RemoveFirst(l.succ[b], a));
      }
    }
  }

  // ---------------------------------------------------------------------------
  // process_input
  // ---------------------------------------------------------------------------

  /**
   * process_input(inputs): with None, the last memory record of every predecessor that
   * has one, in predecessor order (ValueError without predecessors); a list is kept;
   * anything else is wrapped in a one-element list. `records` is what the memory's
   * query_by_id returns for each id.
   */
  function ProcessInput(inputs: Option<Value>, preds: seq<NodeId>, records: map<NodeId, seq<Value>>): (r: Result<seq<Value>>)
    ensures r.Raised? <==> inputs.None? && preds == []
    ensures inputs.Some? && inputs.value.List? ==> r == Ok(inputs.value.items)
    ensures inputs.Some? && !inputs.value.List? ==> r == Ok([inputs.value])
    ensures inputs.None? && r.Ok? ==> |r.value| <= |preds|
    ensures inputs.None? && r.Ok? ==> forall p :: p in preds && p in records && records[p] != [] ==> Last(records[p]) in r.value
    ensures inputs.None? && r.Ok? ==> forall v :: v in r.value ==> exists p :: p in preds && p in records && records[p] != [] && v == Last(records[p])
  {
    match inputs
    case None => if preds == [] then Raised("ValueError: Input must be provided either directly or from predecessors.")
                 else Ok(LastRecords(preds, records))
    case Some(v) => if v.List? then Ok(v.items) else Ok([v])
  }

  function Last<T>(s: seq<T>): T
    requires s != []
  {
    s[|s| - 1]
  }

  /** The loop of process_input over the predecessors. */
  function LastRecords(preds: seq<NodeId>, records: map<NodeId, seq<Value>>): (r: seq<Value>)
    ensures |r| <= |preds|
    ensures forall p :: p in preds && p in records && records[p] != [] ==> Last(records[p]) in r
    ensures forall v :: v in r ==> exists p :: p in preds && p in records && records[p] != [] && v == Last(records[p])
  {
    if preds == [] then []
    else
      var p := Last(preds);
      var rest := LastRecords(preds[..|preds| - 1], records);
      assert forall q :: q in preds ==> q in preds[..|preds| - 1] || q == p;
      if p in records && records[p] != [] then rest + [Last(records[p])] else rest
  }

  /** A single predecessor contributes its last record, or nothing when it has none. */
  lemma LastRecordsOne(p: NodeId, records: map<NodeId, seq<Value>>)
    ensures LastRecords([p], records) == if p in records && records[p] != [] then [Last(records[p])] else []
  {
    assert [p][..0] == [];
  }

  /** The records of two runs of predecessors are those of the first followed by those of the second. */
  lemma {:induction false} LastRecordsAppend(a: seq<NodeId>, b: seq<NodeId>, records: map<NodeId, seq<Value>>)
    ensures LastRecords(a + b, records) == LastRecords(a, records) + LastRecords(b, records)
    decreases |b|
  {
    if b == [] {
      assert a + b == a && LastRecords(a, records) + [] == LastRecords(a, records);
    } else {
      var b0 := b[..|b| - 1];
      assert (a + b)[..|a + b| - 1] == a + b0 && Last(a + b) == Last(b);
      LastRecordsAppend(a, b0, records);
      var xs, ys := LastRecords(a, records), LastRecords(b0, records);
      if Last(b) in records && records[Last(b)] != [] {
        assert xs + ys + [Last(records[Last(b)])] == xs + (ys + [Last(records[Last(b)])]);
      }
    }
  }

  // ---------------------------------------------------------------------------
  // execute: dispatch of inputs into tasks, and gathering of results
  // ---------------------------------------------------------------------------

  /** The outputs of the predecessors, concatenated in predecessor order. */
  function Concat(preds: seq<NodeId>, outs: map<NodeId, seq<Value>>): (r: seq<Value>)
    requires forall p :: p in preds ==> p in outs
  {
    if preds == [] then [] else Concat(preds[..|preds| - 1], outs) + outs[Last(preds)]
  }

  /** Where the outputs of preds[j] start in Concat(preds, outs). */
  function Offset(preds: seq<NodeId>, outs: map<NodeId, seq<Value>>, j: nat): nat
    requires j <= |preds| && forall p :: p in preds ==> p in outs
  {
    |Concat(preds[..j], outs)|
  }

  /** Concat lays the outputs of every predecessor end to end, in predecessor order. */
  lemma {:induction false} ConcatAt(preds: seq<NodeId>, outs: map<NodeId, seq<Value>>, j: nat)
    requires j < |preds| && forall p :: p in preds ==> p in outs
    ensures Offset(preds, outs, j) + |outs[preds[j]]| <= |Concat(preds, outs)|
    ensures Concat(preds, outs)[Offset(preds, outs, j)..Offset(preds, outs, j) + |outs[preds[j]]|] == outs[preds[j]]
    decreases |preds|
  {
    var init := preds[..|preds| - 1];
    assert forall p :: p in init ==> p in preds;
    if j == |preds| - 1 {
      assert preds[..j] == init;
    } else {
      ConcatAt(init, outs, j);
      assert init[..j] == preds[..j];
      assert init[j] == preds[j];
      var c := Concat(init, outs);
      assert Concat(preds, outs) == c + outs[Last(preds)];
      var o := Offset(preds, outs, j);
      assert Concat(preds, outs)[o..o + |outs[preds[j]]|] == c[o..o + |outs[preds[j]]|];
    }
  }

  /** Its length is the sum of the predecessors' output counts. */
  function TotalOutputs(preds: seq<NodeId>, outs: map<NodeId, seq<Value>>): nat
    requires forall p :: p in preds ==> p in outs
  {
    if preds == [] then 0 else TotalOutputs(preds[..|preds| - 1], outs) + |outs[Last(preds)]|
  }

  lemma {:induction false} ConcatLength(preds: seq<NodeId>, outs: map<NodeId, seq<Value>>)
    requires forall p :: p in preds ==> p in outs
    ensures |Concat(preds, outs)| == TotalOutputs(preds, outs)
    decreases |preds|
  {
    if preds != [] {
      var init := preds[..|preds| - 1];
      assert forall p :: p in init ==> p in preds;
      ConcatLength(init, outs);
    }
  }

  /**
   * The arguments of the tasks `execute` starts: None when it only warns "No input received"
   * and returns; otherwise one task per explicit input when the node has inputs;
   * else, for a combining node, one task holding all predecessor outputs, and for
   * any other node one task per predecessor output element.
   */
  function Dispatch(combine: bool, own: seq<Value>, preds: seq<NodeId>, outs: map<NodeId, seq<Value>>): (r: Option<seq<Value>>)
    requires forall p :: p in preds ==> p in outs
    ensures r.None? <==> own == [] && preds == []
    ensures own != [] ==> r == Some(own)
  {
    if own == [] && preds != [] then
      if combine then Some([List(Concat(preds, outs))]) else Some(Concat(preds, outs))
    else if own != [] then Some(own)
    else None
  }

  /**
   * Without explicit inputs, a combining node starts exactly one task, whose argument
   * lays the outputs of every predecessor end to end in predecessor order.
   */
  lemma DispatchCombined(own: seq<Value>, preds: seq<NodeId>, outs: map<NodeId, seq<Value>>, j: nat)
    requires forall p :: p in preds ==> p in outs
    requires own == [] && j < |preds|
    ensures Dispatch(true, own, preds, outs).Some? && |Dispatch(true, own, preds, outs).value| == 1
    ensures Dispatch(true, own, preds, outs).value[0].List?
    ensures |Dispatch(true, own, preds, outs).value[0].items| == TotalOutputs(preds, outs)
    ensures Offset(preds, outs, j) + |outs[preds[j]]| <= TotalOutputs(preds, outs)
    ensures Dispatch(true, own, preds, outs).value[0].items[Offset(preds, outs, j)..Offset(preds, outs, j) + |outs[preds[j]]|] == outs[preds[j]]
  {
    ConcatLength(preds, outs);
    ConcatAt(preds, outs, j);
  }

  /**
   * Without explicit inputs, any other node starts one task per predecessor output
   * element: the outputs of predecessor j are the arguments of the tasks at its offset.
   */
  lemma DispatchPerElement(own: seq<Value>, preds: seq<NodeId>, outs: map<NodeId, seq<Value>>, j: nat)
    requires forall p :: p in preds ==> p in outs
    requires own == [] && j < |preds|
    ensures Dispatch(false, own, preds, outs).Some?
    ensures |Dispatch(false, own, preds, outs).value| == TotalOutputs(preds, outs)
    ensures Offset(preds, outs, j) + |outs[preds[j]]| <= TotalOutputs(preds, outs)
    ensures Dispatch(false, own, preds, outs).value[Offset(preds, outs, j)..Offset(preds, outs, j) + |outs[preds[j]]|] == outs[preds[j]]
  {
    ConcatLength(preds, outs);
    ConcatAt(preds, outs, j);
  }

  /** How one task ended: it raised, or returned a value. */
  datatype TaskOutcome = Threw | Returned(v: Value)

  /** What one task adds to the outputs: nothing if it raised, a list's elements, or the value itself. */
  function Piece(t: TaskOutcome): seq<Value> {
    match t
    case Threw => []
    case Returned(v) => if v.List? then v.items else [v]
  }

  /** The loop over the gathered results, extending the outputs in task order. */
  function Gather(results: seq<TaskOutcome>): seq<Value> {
    if results == [] then [] else Gather(results[..|results| - 1]) + Piece(Last(results))
  }

  /** Gathering two batches of results is gathering each and concatenating. */
  lemma {:induction false} GatherConcat(a: seq<TaskOutcome>, b: seq<TaskOutcome>)
    ensures Gather(a + b) == Gather(a) + Gather(b)
    decreases |b|
  {
    if b == [] {
      assert a + b == a;
    } else {
      var b', x := b[..|b| - 1], Last(b);
      assert b == b' + [x] && a + b == (a + b') + [x];
      GatherSnoc(a + b', x);
      GatherSnoc(b', x);
      GatherConcat(a, b');
      AppendAssoc(Gather(a), Gather(b'), Piece(x));
    }
  }

  lemma AppendAssoc<T>(x: seq<T>, y: seq<T>, z: seq<T>)
    ensures (x + y) + z == x + (y + z)
  {
  }

  /**
   * Each task's contribution sits, in task order, between those of the tasks before and
   * after it: a raised task adds nothing, a list its elements, anything else itself.
   */
  lemma {:induction false} GatherSplit(results: seq<TaskOutcome>, k: nat)
    requires k < |results|
    ensures Gather(results) == Gather(results[..k]) + Piece(results[k]) + Gather(results[k + 1..])
  {
    var front, x, back := results[..k], results[k], results[k + 1..];
    assert results == (front + [x]) + back;
    GatherConcat(front + [x], back);
    GatherSnoc(front, x);
  }

  lemma {:induction false} GatherSnoc(a: seq<TaskOutcome>, x: TaskOutcome)
    ensures Gather(a + [x]) == Gather(a) + Piece(x)
  {
    assert (a + [x])[..|a + [x]| - 1] == a;
  }

  /** One more task gathered. */
  lemma GatherNext(work: Value -> TaskOutcome, tasks: seq<Value>, k: nat)
    requires k < |tasks|
    ensures Gather(Apply(work, tasks[..k + 1])) == Gather(Apply(work, tasks[..k])) + Piece(work(tasks[k]))
  {
    assert Apply(work, tasks[..k + 1]) == Apply(work, tasks[..k]) + [work(tasks[k])];
    GatherSnoc(Apply(work, tasks[..k]), work(tasks[k]));
  }

  /** The results of the tasks: the work function applied to each task argument, in order. */
  function Apply(work: Value -> TaskOutcome, tasks: seq<Value>): (r: seq<TaskOutcome>)
    ensures |r| == |tasks| && forall i :: 0 <= i < |tasks| ==> r[i] == work(tasks[i])
  {
    seq(|tasks|, i requires 0 <= i < |tasks| => work(tasks[i]))
  }

  /**
   * The outputs of a node after `execute` completes: reset to [], then the gathered
   * results of its tasks (none when it only warned). `outs` already holds the node's
   * own reset outputs.
   */
  function ExecuteOutputs(combine: bool, own: seq<Value>, preds: seq<NodeId>, outs: map<NodeId, seq<Value>>, work: Value -> TaskOutcome): (r: seq<Value>)
    requires forall p :: p in preds ==> p in outs
    ensures own == [] && preds == [] ==> r == []
    ensures own != [] ==> r == Gather(Apply(work, own))
  {
    match Dispatch(combine, own, preds, outs)
    case None => []
    case Some(tasks) => Gather(Apply(work, tasks))
  }

  /** Only the outputs of the predecessors matter to `execute`. */
  lemma {:induction false} ConcatLocal(preds: seq<NodeId>, outs: map<NodeId, seq<Value>>, outs': map<NodeId, seq<Value>>)
    requires forall p :: p in preds ==> p in outs && p in outs' && outs[p] == outs'[p]
    ensures Concat(preds, outs) == Concat(preds, outs')
  {
    if preds != [] {
      ConcatLocal(preds[..|preds| - 1], outs, outs');
    }
  }

  lemma ExecuteOutputsLocal(combine: bool, own: seq<Value>, preds: seq<NodeId>, outs: map<NodeId, seq<Value>>, outs': map<NodeId, seq<Value>>, work: Value -> TaskOutcome)
    requires forall p :: p in preds ==> p in outs && p in outs' && outs[p] == outs'[p]
    ensures ExecuteOutputs(combine, own, preds, outs, work) == ExecuteOutputs(combine, own, preds, outs', work)
  {
    ConcatLocal(preds, outs, outs');
  }
}
