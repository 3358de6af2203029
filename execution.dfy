/**
 * Running node objects, as Graph.run does it in swarm/graph/graph.py and Node.execute
 * in swarm/graph/node.py, and collecting the answers of the output nodes. These
 * methods work on the arena of node objects as a value; graph.dfy stores the result.
 */
module Execution {
  import opened Wrappers
  import opened Digraph
  import opened Nodes
  import opened Arenas

  const Placeholder: string := "No answer since there are no inputs provided"

  /** msg.get("output", msg): a dict gives its "output" entry or itself; anything else raises. */
  function AnswerOf(m: Value): (r: Result<Value>)
    ensures r.Ok? <==> m.Dict?
    ensures m.Dict? && "output" in m.entries ==> r == Ok(m.entries["output"])
    ensures m.Dict? && "output" !in m.entries ==> r == Ok(m)
  {
    match m
    case Dict(e) => if "output" in e then Ok(e["output"]) else Ok(m)
    case _ => Raised("AttributeError: object has no attribute 'get'")
  }

  function AnswersOf(ms: seq<Value>): (r: Result<seq<Value>>)
    ensures r.Ok? ==> |r.value| == |ms|
    ensures r.Ok? <==> forall m :: m in ms ==> m.Dict?
    ensures r.Ok? ==> forall k :: 0 <= k < |ms| ==> AnswerOf(ms[k]) == Ok(r.value[k])
  {
    if ms == [] then Ok([])
    else
      var init := AnswersOf(ms[..|ms| - 1]);
      assert forall m :: m in ms <==> m in ms[..|ms| - 1] || m == Last(ms);
      match init
      case Raised(e) => Raised(e)
      case Ok(xs) =>
        match AnswerOf(Last(ms))
        case Raised(e) => Raised(e)
        case Ok(x) => Ok(xs + [x])
  }

  /** A single message is answered by AnswerOf alone. */
  lemma AnswersOfOne(m: Value)
    ensures AnswersOf([m]) == if AnswerOf(m).Ok? then Ok([AnswerOf(m).value]) else Raised(AnswerOf(m).reason)
  {
    assert [m][..0] == [] && Last([m]) == m;
    match AnswerOf(m)
    case Raised(e) =>
    case Ok(x) => assert [] + [x] == [x];
  }

  /** What one output node contributes: its last message, or every message when all are asked for or there are none. */
  function Contribution(ms: seq<Value>, returnAll: bool): (r: Result<seq<Value>>)
    ensures r.Ok? && !returnAll ==> |r.value| <= 1
    ensures r.Ok? && returnAll ==> |r.value| == |ms|
    ensures !returnAll && ms != [] ==> (r.Ok? <==> Last(ms).Dict?)
    ensures !returnAll && ms != [] && r.Ok? ==> r.value == [AnswerOf(Last(ms)).value]
    ensures returnAll || ms == [] ==> r == AnswersOf(ms)
  {
    if |ms| > 0 && !returnAll then AnswersOfOne(Last(ms)); AnswersOf([Last(ms)]) else AnswersOf(ms)
  }

  /** The answers gathered from the output nodes, in output-node order. */
  function Collected(outputNodes: seq<NodeId>, outputs: map<NodeId, seq<Value>>, returnAll: bool): (r: Result<seq<Value>>)
    requires forall n :: n in outputNodes ==> n in outputs
    ensures r.Ok? && !returnAll ==> |r.value| <= |outputNodes|
    ensures r.Ok? && returnAll ==> |r.value| == TotalOutputs(outputNodes, outputs)
  {
    if outputNodes == [] then Ok([])
    else
      match Collected(outputNodes[..|outputNodes| - 1], outputs, returnAll)
      case Raised(e) => Raised(e)
      case Ok(xs) =>
        match Contribution(outputs[Last(outputNodes)], returnAll)
        case Raised(e) => Raised(e)
        case Ok(ys) => Ok(xs + ys)
  }

  /** The list `run` returns: the collected answers, or the placeholder when there are none. */
  function Answers(outputNodes: seq<NodeId>, outputs: map<NodeId, seq<Value>>, returnAll: bool): (r: Result<seq<Value>>)
    requires forall n :: n in outputNodes ==> n in outputs
    ensures r.Ok? ==> |r.value| >= 1
    ensures r.Ok? && !returnAll ==> |r.value| <= |outputNodes| || r.value == [Str(Placeholder)]
    ensures r.Ok? <==> Collected(outputNodes, outputs, returnAll).Ok?
    ensures Collected(outputNodes, outputs, returnAll).Ok? && Collected(outputNodes, outputs, returnAll).value != [] ==>
      r == Collected(outputNodes, outputs, returnAll)
    ensures Collected(outputNodes, outputs, returnAll) == Ok([]) ==> r == Ok([Str(Placeholder)])
  {
    match Collected(outputNodes, outputs, returnAll)
    case Raised(e) => Raised(e)
    case Ok(xs) => if |xs| == 0 then Ok([Str(Placeholder)]) else Ok(xs)
  }

  /** Once one output node's messages raise, the whole collection raises with the same error. */
  lemma {:induction false} CollectedRaisedStays(outputNodes: seq<NodeId>, outputs: map<NodeId, seq<Value>>, returnAll: bool, i: nat)
    requires i <= |outputNodes| && forall n :: n in outputNodes ==> n in outputs
    requires Collected(outputNodes[..i], outputs, returnAll).Raised?
    ensures Collected(outputNodes, outputs, returnAll) == Collected(outputNodes[..i], outputs, returnAll)
    decreases |outputNodes| - i
  {
    if i < |outputNodes| {
      assert outputNodes[..i + 1][..i] == outputNodes[..i];
      CollectedRaisedStays(outputNodes, outputs, returnAll, i + 1);
    } else {
      assert outputNodes[..i] == outputNodes;
    }
  }

  /** One output node's answers are its contribution. */
  lemma CollectedOne(n: NodeId, outputs: map<NodeId, seq<Value>>, returnAll: bool)
    requires n in outputs
    ensures Collected([n], outputs, returnAll) == Contribution(outputs[n], returnAll)
  {
    assert [n][..0] == [] && Last([n]) == n;
    match Contribution(outputs[n], returnAll)
    case Raised(e) =>
    case Ok(ys) => assert [] + ys == ys;
  }

  /** The answers are collected exactly when no output node's contribution raises. */
  lemma {:induction false} CollectedOk(outputNodes: seq<NodeId>, outputs: map<NodeId, seq<Value>>, returnAll: bool)
    requires forall n :: n in outputNodes ==> n in outputs
    ensures Collected(outputNodes, outputs, returnAll).Ok? <==> forall n :: n in outputNodes ==> Contribution(outputs[n], returnAll).Ok?
  {
    if outputNodes != [] {
      var init := outputNodes[..|outputNodes| - 1];
      assert forall n :: n in outputNodes <==> n in init || n == Last(outputNodes);
      CollectedOk(init, outputs, returnAll);
    }
  }

  /** One more output node adds its contribution after the answers so far. */
  lemma CollectedSnoc(ns: seq<NodeId>, n: NodeId, outputs: map<NodeId, seq<Value>>, returnAll: bool, xs: seq<Value>, zs: seq<Value>)
    requires forall m :: m in ns ==> m in outputs
    requires n in outputs && Collected(ns, outputs, returnAll) == Ok(xs) && Contribution(outputs[n], returnAll) == Ok(zs)
    ensures forall m :: m in ns + [n] ==> m in outputs
    ensures Collected(ns + [n], outputs, returnAll) == Ok(xs + zs)
  {
    assert (ns + [n])[..|ns|] == ns && Last(ns + [n]) == n;
  }

  /** The answers of two runs of output nodes are those of the first followed by those of the second. */
  lemma {:induction false} CollectedAppend(a: seq<NodeId>, b: seq<NodeId>, outputs: map<NodeId, seq<Value>>, returnAll: bool)
    requires forall n :: n in a ==> n in outputs
    requires forall n :: n in b ==> n in outputs
    requires Collected(a, outputs, returnAll).Ok? && Collected(b, outputs, returnAll).Ok?
    ensures forall n :: n in a + b ==> n in outputs
    ensures Collected(a + b, outputs, returnAll) == Ok(Collected(a, outputs, returnAll).value + Collected(b, outputs, returnAll).value)
    decreases |b|
  {
    var xs := Collected(a, outputs, returnAll).value;
    if b == [] {
      assert a + b == a && xs + [] == xs;
    } else {
      var b0, n := b[..|b| - 1], Last(b);
      assert b == b0 + [n];
      CollectedSnocOk(b0, n, outputs, returnAll);
      var ys, zs := Collected(b0, outputs, returnAll).value, Contribution(outputs[n], returnAll).value;
      CollectedAppend(a, b0, outputs, returnAll);
      CollectedSnoc(b0, n, outputs, returnAll, ys, zs);
      CollectedAppendStep(a + b0, n, outputs, returnAll, xs, ys, zs);
      assert a + b == (a + b0) + [n];
    }
  }

  /** The step of CollectedAppend: one more node at the end of the joined runs. */
  lemma CollectedAppendStep(c: seq<NodeId>, n: NodeId, outputs: map<NodeId, seq<Value>>, returnAll: bool,
                            xs: seq<Value>, ys: seq<Value>, zs: seq<Value>)
    requires forall m :: m in c ==> m in outputs
    requires n in outputs && Contribution(outputs[n], returnAll) == Ok(zs)
    requires Collected(c, outputs, returnAll) == Ok(xs + ys)
    ensures forall m :: m in c + [n] ==> m in outputs
    ensures Collected(c + [n], outputs, returnAll) == Ok(xs + (ys + zs))
  {
    CollectedSnoc(c, n, outputs, returnAll, xs + ys, zs);
    assert xs + ys + zs == xs + (ys + zs);
  }

  /** When the answers of ns + [n] are collected, those of ns and the contribution of n are too. */
  lemma CollectedSnocOk(ns: seq<NodeId>, n: NodeId, outputs: map<NodeId, seq<Value>>, returnAll: bool)
    requires forall m :: m in ns + [n] ==> m in outputs
    requires Collected(ns + [n], outputs, returnAll).Ok?
    ensures forall m :: m in ns ==> m in outputs
    ensures Collected(ns, outputs, returnAll).Ok? && Contribution(outputs[n], returnAll).Ok?
  {
    assert forall m :: m in ns ==> m in ns + [n];
    assert (ns + [n])[..|ns|] == ns && Last(ns + [n]) == n;
  }

  lemma {:induction false} AnswersRaisedStays(ms: seq<Value>, i: nat)
    requires i <= |ms| && AnswersOf(ms[..i]).Raised?
    ensures AnswersOf(ms) == AnswersOf(ms[..i])
    decreases |ms| - i
  {
    if i < |ms| {
      assert ms[..i + 1][..i] == ms[..i];
      AnswersRaisedStays(ms, i + 1);
    } else {
      assert ms[..i] == ms;
    }
  }

  /** The arguments of the tasks of `execute`, or None when it only warns "No input received". */
  method BuildTasks(combine: bool, own: seq<Value>, preds: seq<NodeId>, outputs: map<NodeId, seq<Value>>)
    returns (tasks: Option<seq<Value>>)
    requires forall p :: p in preds ==> p in outputs
    ensures tasks == Dispatch(combine, own, preds, outputs)
  {
    if own == [] && preds != [] {
      if combine {
        var combined: seq<Value> := [];
        for k := 0 to |preds|
          invariant combined == Concat(preds[..k], outputs)
        {
          assert preds[..k + 1][..k] == preds[..k];
          combined := combined + outputs[preds[k]];
        }
        assert preds[..|preds|] == preds;
        tasks := Some([List(combined)]);
      } else {
        var each: seq<Value> := [];
        for k := 0 to |preds|
          invariant each == Concat(preds[..k], outputs)
        {
          assert preds[..k + 1][..k] == preds[..k];
          var po := outputs[preds[k]];
          for m := 0 to |po|
            invariant each == Concat(preds[..k], outputs) + po[..m]
          {
            assert po[..m + 1] == po[..m] + [po[m]];
            each := each + [po[m]];
          }
          assert po[..|po|] == po;
        }
        assert preds[..|preds|] == preds;
        tasks := Some(each);
      }
    } else if own != [] {
      tasks := Some(own);
    } else {
      tasks := None;
    }
  }

  /** Runs the tasks and extends `outs` with their results in task order: a failed task adds nothing, a list adds its items, anything else itself. */
  method GatherResults(outs: seq<Value>, tasks: seq<Value>, work: Value -> TaskOutcome) returns (outs': seq<Value>)
    ensures outs' == outs + Gather(Apply(work, tasks))
  {
    outs' := outs;
    assert Apply(work, tasks[..0]) == [];
    for k := 0 to |tasks|
      invariant outs' == outs + Gather(Apply(work, tasks[..k]))
    {
      GatherNext(work, tasks, k);
      var result := work(tasks[k]);
      match result {
        case Threw =>
        case Returned(x) =>
          if x.List? {
            outs' := outs' + x.items;
          } else {
            outs' := outs' + [x];
          }
      }
    }
    assert tasks[..|tasks|] == tasks;
  }

  /** Node.execute on node v: reset its outputs, build the tasks, run them and extend the outputs. */
  method Execute(a: Arena, v: NodeId, work: (NodeId, Value) -> TaskOutcome) returns (a': Arena)
    requires ArenaOk(a) && v in a.kinds
    ensures a' == Executed(a, v, work)
  {
    var reset := a.outputs[v := []];
    var tasks := BuildTasks(CombinesInputs(a.kinds[v]), a.inputs[v], a.pred[v], reset);
    var outs: seq<Value> := [];
    if tasks.Some? {
      outs := GatherResults(outs, tasks.value, WorkOf(work, v));
      assert outs == [] + Gather(Apply(WorkOf(work, v), tasks.value));
    }
    assert outs == ExecuteOutputs(CombinesInputs(a.kinds[v]), a.inputs[v], a.pred[v], reset, WorkOf(work, v));
    a' := a.(outputs := a.outputs[v := outs]);
  }

  /**
   * The retry loop of `run` for node v: up to max_tries attempts while they time out;
   * a completed attempt or any other exception ends the loop. `tries` counts the
   * attempts that timed out.
   */
  method RunNode(a: Arena, v: NodeId, maxTries: int, attempt: (NodeId, nat) -> Attempt, work: (NodeId, Value) -> TaskOutcome)
    returns (a': Arena, tries: nat)
    requires ArenaOk(a) && v in a.kinds
    ensures a' == Step(a, v, maxTries, attempt, work)
    ensures maxTries <= 0 ==> tries == 0
    ensures maxTries > 0 ==> tries <= maxTries
    ensures forall i :: 0 <= i < tries ==> attempt(v, i) == TimedOut
    ensures tries < maxTries ==> attempt(v, tries) != TimedOut
  {
    tries := 0;
    a' := a;
    while tries < maxTries
      invariant maxTries > 0 ==> tries <= maxTries
      invariant maxTries <= 0 ==> tries == 0
      invariant forall i :: 0 <= i < tries ==> attempt(v, i) == TimedOut
      invariant FirstSettled(attempt, v, maxTries, 0) == FirstSettled(attempt, v, maxTries, tries)
      invariant a' == if tries == 0 then a else a.(outputs := a.outputs[v := []])
    {
      var outcome := attempt(v, tries);
      if outcome == Completed {
        // execute starts by resetting the outputs, so earlier attempts leave no trace
        assert FirstSettled(attempt, v, maxTries, tries) == Some(tries);
        a' := Execute(a, v, work);
        return;
      } else if outcome == Crashed {
        assert FirstSettled(attempt, v, maxTries, tries) == Some(tries);
        a' := a.(outputs := a.outputs[v := []]);
        return;
      }
      a' := a.(outputs := a.outputs[v := []]);
      tries := tries + 1;
    }
    assert maxTries > 0 ==> FirstSettled(attempt, v, maxTries, tries) == None;
  }

  /** The loop of `run` that gives every input node its own copy of the payload. */
  method FeedInputs(inputs: map<NodeId, seq<Value>>, inputNodes: seq<NodeId>, payload: Value)
    returns (inputs': map<NodeId, seq<Value>>)
    requires forall n :: n in inputNodes ==> n in inputs
    ensures inputs' == Fed(inputs, inputNodes, payload)
  {
    inputs' := inputs;
    for i := 0 to |inputNodes|
      invariant inputs' == Fed(inputs, inputNodes[..i], payload)
    {
      FedStep(inputs, inputNodes, i, payload);
      inputs' := inputs'[inputNodes[i] := [payload]];
    }
    assert inputNodes[..|inputNodes|] == inputNodes;
  }

  /** The loop of `run` that collects the final answers from the output nodes. */
  method CollectAnswers(outputNodes: seq<NodeId>, outputs: map<NodeId, seq<Value>>, returnAll: bool)
    returns (r: Result<seq<Value>>)
    requires forall n :: n in outputNodes ==> n in outputs
    ensures r == Answers(outputNodes, outputs, returnAll)
  {
    var finals: seq<Value> := [];
    for i := 0 to |outputNodes|
      invariant Collected(outputNodes[..i], outputs, returnAll) == Ok(finals)
    {
      assert outputNodes[..i + 1][..i] == outputNodes[..i];
      var ms := outputs[outputNodes[i]];
      assert Last(outputNodes[..i + 1]) == outputNodes[i];
      if |ms| > 0 && !returnAll {
        AnswersOfOne(ms[|ms| - 1]);
        match AnswerOf(ms[|ms| - 1]) {
          case Raised(e) =>
            CollectedRaisedStays(outputNodes, outputs, returnAll, i + 1);
            return Raised(e);
          case Ok(x) =>
            finals := finals + [x];
        }
      } else {
        var part := AnswerEach(ms);
        if part.Raised? {
          CollectedRaisedStays(outputNodes, outputs, returnAll, i + 1);
          return Raised(part.reason);
        }
        finals := finals + part.value;
      }
    }
    assert outputNodes[..|outputNodes|] == outputNodes;
    r := if |finals| == 0 then Ok([Str(Placeholder)]) else Ok(finals);
  }

  /** The inner loop over one output node's messages. */
  method AnswerEach(ms: seq<Value>) returns (r: Result<seq<Value>>)
    ensures r == AnswersOf(ms)
  {
    var xs: seq<Value> := [];
    for k := 0 to |ms|
      invariant AnswersOf(ms[..k]) == Ok(xs)
    {
      assert ms[..k + 1][..k] == ms[..k];
      match AnswerOf(ms[k]) {
        case Raised(e) =>
          AnswersRaisedStays(ms, k + 1);
          return Raised(e);
        case Ok(x) =>
          xs := xs + [x];
      }
    }
    assert ms[..|ms|] == ms;
    r := Ok(xs);
  }
}
