/**
 * The FinalDecision operation of swarm/environment/operations/final_decision.py, without
 * its LLM call: the MajorityVote and RandomChoice merging strategies, which pick one of the
 * incoming answers, and the materials dictionary meta_prompt gathers from the inputs for
 * get_combine_materials.
 */
module FinalDecisions {
  import opened Wrappers
  import opened Draws
  import opened Materials

  // ---------------------------------------------------------------------------------------
  // MajorityVote and RandomChoice

  /** How often x occurs among the answers: Counter(answers)[x]. */
  function Count<T(==)>(answers: seq<T>, x: T): nat {
    if answers == [] then 0
    else Count(answers[..|answers| - 1], x) + (if answers[|answers| - 1] == x then 1 else 0)
  }

  /** The distinct answers in order of first occurrence: the keys of the Counter. */
  function Distinct<T(==)>(answers: seq<T>): seq<T> {
    if answers == [] then []
    else
      var d := Distinct(answers[..|answers| - 1]);
      if answers[|answers| - 1] in d then d else d + [answers[|answers| - 1]]
  }

  /** The highest count among the candidates. */
  function MaxCount<T(==)>(answers: seq<T>, candidates: seq<T>): nat {
    if candidates == [] then 0
    else
      var m := MaxCount(answers, candidates[1..]);
      if Count(answers, candidates[0]) > m then Count(answers, candidates[0]) else m
  }

  /** The candidates whose count is f, in order. */
  function WithCount<T(==)>(answers: seq<T>, candidates: seq<T>, f: nat): seq<T> {
    if candidates == [] then []
    else (if Count(answers, candidates[0]) == f then [candidates[0]] else []) + WithCount(answers, candidates[1..], f)
  }

  /**
   * The equally frequent answers: most_common sorts the Counter by count, keeping the
   * first-occurrence order among equal counts, and the answers sharing the first count are kept.
   */
  function MostFrequent<T(==)>(answers: seq<T>): seq<T> {
    var d := Distinct(answers);
    WithCount(answers, d, MaxCount(answers, d))
  }

  /** MajorityVote: an exception on no inputs, otherwise a random choice among the most frequent answers. */
  function MajorityVote<T(==)>(answers: seq<T>, draw: nat): (r: Result<T>)
    ensures r.Ok? <==> answers != []
    ensures r.Ok? ==> r.value in answers
  {
    MostFrequentMeaning(answers);
    if |answers| == 0 then Raised("Exception: No inputs is not supported for MajorityVote")
    else Choice(MostFrequent(answers), draw)
  }

  /** RandomChoice: an exception on no inputs, otherwise a random choice among all answers. */
  function RandomChoice<T>(answers: seq<T>, draw: nat): (r: Result<T>)
    ensures r.Ok? <==> answers != []
    ensures r.Ok? ==> r.value in answers
  {
    if |answers| == 0 then Raised("Exception: No inputs is not supported for RandomChoice")
    else Choice(answers, draw)
  }

  /** An answer counts at least once exactly when it occurs. */
  lemma {:induction false} CountPositive<T>(answers: seq<T>, x: T)
    ensures Count(answers, x) > 0 <==> x in answers
  {
    if answers != [] {
      CountPositive(answers[..|answers| - 1], x);
      assert answers == answers[..|answers| - 1] + [answers[|answers| - 1]];
    }
  }

  /** The Counter's keys: every answer once, nothing else, no repeats. */
  lemma {:induction false} DistinctMeaning<T>(answers: seq<T>)
    ensures forall x :: x in Distinct(answers) <==> x in answers
    ensures forall i, j :: 0 <= i < j < |Distinct(answers)| ==> Distinct(answers)[i] != Distinct(answers)[j]
  {
    if answers != [] {
      DistinctMeaning(answers[..|answers| - 1]);
      assert answers == answers[..|answers| - 1] + [answers[|answers| - 1]];
    }
  }

  /** The highest count bounds every candidate's count and is attained by one of them. */
  lemma {:induction false} MaxCountMeaning<T>(answers: seq<T>, candidates: seq<T>)
    ensures forall y :: y in candidates ==> Count(answers, y) <= MaxCount(answers, candidates)
    ensures candidates != [] ==> exists y :: y in candidates && Count(answers, y) == MaxCount(answers, candidates)
  {
    if candidates != [] {
      var rest := candidates[1..];
      MaxCountMeaning(answers, rest);
      assert candidates == [candidates[0]] + rest;
      if Count(answers, candidates[0]) > MaxCount(answers, rest) || rest == [] {
        assert Count(answers, candidates[0]) == MaxCount(answers, candidates);
      } else {
        var y :| y in rest && Count(answers, y) == MaxCount(answers, rest);
        assert y in candidates && Count(answers, y) == MaxCount(answers, candidates);
      }
    }
  }

  lemma {:induction false} WithCountMeaning<T>(answers: seq<T>, candidates: seq<T>, f: nat)
    ensures forall y :: y in WithCount(answers, candidates, f) <==> y in candidates && Count(answers, y) == f
  {
    if candidates != [] {
      WithCountMeaning(answers, candidates[1..], f);
      assert candidates == [candidates[0]] + candidates[1..];
    }
  }

  /**
   * The equally frequent answers are exactly the answers no other answer outnumbers,
   * and there is one whenever there are answers.
   */
  lemma MostFrequentMeaning<T>(answers: seq<T>)
    ensures forall x :: x in MostFrequent(answers) <==>
      x in answers && forall y :: y in answers ==> Count(answers, y) <= Count(answers, x)
    ensures answers != [] ==> MostFrequent(answers) != []
  {
    var d := Distinct(answers);
    DistinctMeaning(answers);
    MaxCountMeaning(answers, d);
    WithCountMeaning(answers, d, MaxCount(answers, d));
    if answers != [] {
      assert answers[0] in d;
      var y :| y in d && Count(answers, y) == MaxCount(answers, d);
      assert y in MostFrequent(answers);
    }
  }

  /**
   * MajorityVote raises exactly on no answers; otherwise its response is an answer with
   * maximal frequency, and every answer with maximal frequency is a possible response.
   */
  lemma MajorityVoteCorrect<T>(answers: seq<T>, draw: nat)
    ensures MajorityVote(answers, draw).Ok? <==> answers != []
    ensures MajorityVote(answers, draw).Ok? ==>
      var x := MajorityVote(answers, draw).value;
      x in answers && forall y :: y in answers ==> Count(answers, y) <= Count(answers, x)
    ensures forall x :: x in answers && (forall y :: y in answers ==> Count(answers, y) <= Count(answers, x)) ==>
      exists k: nat :: MajorityVote(answers, k) == Ok(x)
  {
    MostFrequentMeaning(answers);
    forall x | x in answers && (forall y :: y in answers ==> Count(answers, y) <= Count(answers, x))
      ensures exists k: nat :: MajorityVote(answers, k) == Ok(x)
    {
      var m := MostFrequent(answers);
      var k :| 0 <= k < |m| && m[k] == x;
      DrawsCoverAll(0, 0, 0, m, k);
      assert MajorityVote(answers, k) == Ok(x);
    }
  }

  /** A unanimous vote returns the common answer whatever the draw. */
  lemma {:induction false} UnanimousVote<T>(answers: seq<T>, x: T, draw: nat)
    requires answers != [] && forall k :: 0 <= k < |answers| ==> answers[k] == x
    ensures MajorityVote(answers, draw) == Ok(x)
  {
    MajorityVoteCorrect(answers, draw);
    assert answers[0] == x;
  }

  // ---------------------------------------------------------------------------------------
  // meta_prompt's materials

  /**
   * One node input as meta_prompt reads it: input.get('operation') as a key (None is a
   * non-string key), the text of input.get("output", "") as an f-string renders it, and
   * input.get("files") and input.get('task') (None when absent is a Scalar).
   */
  datatype Input = Input(operation: Key, output: string, files: Material, task: Material)

  const FileAnalyse := Name("FileAnalyse")

  /** dict.get on the entries. */
  function Lookup(m: Entries, k: Key): Option<Material> {
    if m == [] then None
    else if m[0].0 == k then Some(m[0].1)
    else Lookup(m[1..], k)
  }

  /** d[k] = v: an existing key keeps its place, a new key goes last. */
  function Put(m: Entries, k: Key, v: Material): (r: Entries)
    ensures |r| >= |m|
  {
    if m == [] then [(k, v)]
    else if m[0].0 == k then [(k, v)] + m[1..]
    else [m[0]] + Put(m[1..], k, v)
  }

  /** A key maps to what it was last set to; the other keys keep their values. */
  lemma {:induction false} PutLookup(m: Entries, k: Key, v: Material, j: Key)
    ensures Lookup(Put(m, k, v), j) == if j == k then Some(v) else Lookup(m, j)
  {
    if m != [] && m[0].0 != k {
      PutLookup(m[1..], k, v, j);
    }
  }

  /** The characters of a string as the one-character strings list += str appends. */
  function Chars(t: string): (r: seq<Material>)
    ensures |r| == |t|
  {
    seq(|t|, i requires 0 <= i < |t| => Text([t[i]]))
  }

  /** v += t: string concatenation, a list extended by the characters, a TypeError otherwise. */
  function AppendText(v: Material, t: string): Result<Material> {
    match v
    case Text(s) => Ok(Text(s + t))
    case Items(xs) => Ok(Items(xs + Chars(t)))
    case _ => Raised("TypeError: unsupported operand type(s) for +=")
  }

  /** One iteration of meta_prompt's loop over the node inputs. */
  function Absorb(m: Entries, x: Input): (r: Result<Entries>)
    ensures r.Raised? ==> x.operation != FileAnalyse
    ensures r.Ok? ==> Lookup(r.value, Name("task")) == Some(x.task)
  {
    var updated :=
      if x.operation != FileAnalyse then
        var current := match Lookup(m, x.operation) case Some(v) => v case None => Text("");
        match AppendText(current, x.output + "\n")
        case Raised(e) => Raised(e)
        case Ok(v) => Ok(Put(m, x.operation, v))
      else Ok(Put(m, Name("files"), x.files));
    match updated
    case Raised(e) => Raised(e)
    case Ok(m1) => PutLookup(m1, Name("task"), x.task, Name("task")); Ok(Put(m1, Name("task"), x.task))
  }

  /** The materials after the inputs in order, starting from an empty defaultdict; the first exception stops the loop. */
  function Gathered(inputs: seq<Input>): (r: Result<Entries>)
    ensures inputs != [] && r.Ok? ==> Lookup(r.value, Name("task")) == Some(inputs[|inputs| - 1].task)
  {
    if inputs == [] then Ok([])
    else
      match Gathered(inputs[..|inputs| - 1])
      case Raised(e) => Raised(e)
      case Ok(m) => Absorb(m, inputs[|inputs| - 1])
  }

  /** The outputs of the inputs that write to key k, each followed by a newline, in order. */
  function Outputs(inputs: seq<Input>, k: Key): string {
    if inputs == [] then ""
    else Outputs(inputs[..|inputs| - 1], k) + (if Writes(inputs[|inputs| - 1], k) then inputs[|inputs| - 1].output + "\n" else "")
  }

  /** The input appends its output under k. */
  predicate Writes(x: Input, k: Key) {
    x.operation == k && k != FileAnalyse
  }

  /** No input writes to k: nothing is gathered under it. */
  lemma {:induction false} OutputsNone(inputs: seq<Input>, k: Key)
    requires forall i :: 0 <= i < |inputs| ==> !Writes(inputs[i], k)
    ensures Outputs(inputs, k) == ""
  {
    if inputs != [] {
      OutputsNone(inputs[..|inputs| - 1], k);
      assert !Writes(inputs[|inputs| - 1], k);
    }
  }

  /** The files of the last FileAnalyse input, if any. */
  function LastFiles(inputs: seq<Input>): Option<Material> {
    if inputs == [] then None
    else if inputs[|inputs| - 1].operation == FileAnalyse then Some(inputs[|inputs| - 1].files)
    else LastFiles(inputs[..|inputs| - 1])
  }

  /** No input names one of the keys meta_prompt itself sets, so no `+=` meets a value it did not write. */
  predicate NoReservedOperation(inputs: seq<Input>) {
    forall i :: 0 <= i < |inputs| ==> inputs[i].operation != Name("files") && inputs[i].operation != Name("task")
  }

  /**
   * The materials meta_prompt gathers, stated key by key: 'task' holds the last input's
   * task, 'files' the last FileAnalyse input's files, and every other key that some
   * non-FileAnalyse input names holds those inputs' outputs, each with a newline, in order.
   */
  function Reference(inputs: seq<Input>, k: Key): Option<Material> {
    if k == Name("task") then (if inputs == [] then None else Some(inputs[|inputs| - 1].task))
    else if k == Name("files") then LastFiles(inputs)
    else if exists i :: 0 <= i < |inputs| && Writes(inputs[i], k) then Some(Text(Outputs(inputs, k)))
    else None
  }

  /** Without reserved operation names, the loop never raises and builds the reference materials. */
  lemma {:induction false} GatheredMeaning(inputs: seq<Input>)
    requires NoReservedOperation(inputs)
    ensures Gathered(inputs).Ok?
    ensures forall k :: Lookup(Gathered(inputs).value, k) == Reference(inputs, k)
  {
    if inputs != [] {
      var init, x := inputs[..|inputs| - 1], inputs[|inputs| - 1];
      assert NoReservedOperation(init) by {
        forall i | 0 <= i < |init| ensures init[i].operation != Name("files") && init[i].operation != Name("task") {
          assert init[i] == inputs[i];
        }
      }
      assert x.operation != Name("files") && x.operation != Name("task") by {
        assert x == inputs[|inputs| - 1];
      }
      GatheredMeaning(init);
      var m := Gathered(init).value;
      forall k
        ensures Lookup(Gathered(inputs).value, k) == Reference(inputs, k)
      {
        AbsorbStep(inputs, m, k);
      }
    }
  }

  /** One iteration of the loop keeps the materials equal to the reference, key by key. */
  lemma AbsorbStep(inputs: seq<Input>, m: Entries, k: Key)
    requires inputs != []
    requires var x := inputs[|inputs| - 1]; x.operation != Name("files") && x.operation != Name("task")
    requires forall j :: Lookup(m, j) == Reference(inputs[..|inputs| - 1], j)
    ensures Absorb(m, inputs[|inputs| - 1]).Ok?
    ensures Lookup(Absorb(m, inputs[|inputs| - 1]).value, k) == Reference(inputs, k)
  {
    var init, x := inputs[..|inputs| - 1], inputs[|inputs| - 1];
    var op := x.operation;
    var m1 := if op != FileAnalyse then Put(m, op, Text(Outputs(inputs, op))) else Put(m, Name("files"), x.files);
    if op != FileAnalyse {
      assert Lookup(m, op) == Reference(init, op);
      if exists i :: 0 <= i < |init| && Writes(init[i], op) {
        var i :| 0 <= i < |init| && Writes(init[i], op);
        assert Writes(inputs[i], op);
      } else {
        OutputsNone(init, op);
        assert Outputs(inputs, op) == "" + (x.output + "\n");
      }
      assert Writes(inputs[|inputs| - 1], op);
    }
    assert Absorb(m, x) == Ok(Put(m1, Name("task"), x.task));
    PutLookup(m1, Name("task"), x.task, k);
    if op != FileAnalyse {
      PutLookup(m, op, Text(Outputs(inputs, op)), k);
    } else {
      PutLookup(m, Name("files"), x.files, k);
    }
    if k == Name("files") && op != FileAnalyse {
      assert LastFiles(inputs) == LastFiles(init);
    } else if k != Name("task") && k != Name("files") && (k != op || op == FileAnalyse) {
      assert Outputs(inputs, k) == Outputs(init, k) + "" == Outputs(init, k);
      assert !Writes(inputs[|inputs| - 1], k);
      if exists i :: 0 <= i < |inputs| && Writes(inputs[i], k) {
        var i :| 0 <= i < |inputs| && Writes(inputs[i], k);
        assert i != |inputs| - 1;
        assert init[i] == inputs[i];
      }
      if exists i :: 0 <= i < |init| && Writes(init[i], k) {
        var i :| 0 <= i < |init| && Writes(init[i], k);
        assert Writes(inputs[i], k);
      }
    }
  }

  /**
   * The question meta_prompt puts to the LLM: get_combine_materials on the gathered materials
   * with the request for a specific answer; a task that is not a string cannot be extended.
   */
  function Question(inputs: seq<Input>): (r: Result<string>)
    ensures r.Ok? ==> |r.value| >= |AvoidVague| && r.value[|r.value| - |AvoidVague|..] == AvoidVague
    ensures Gathered(inputs).Raised? ==> r == Raised(Gathered(inputs).reason)
  {
    match Gathered(inputs)
    case Raised(e) => Raised(e)
    case Ok(m) =>
      if TaskOf(m).Some? then Combine(m, true)
      else Raised("TypeError: the 'task' material is not a string")
  }

  /** With no inputs the question is the default task followed by the request. */
  lemma NoInputsQuestion()
    ensures Question([]) == Ok(DefaultTask + AvoidVague)
  {
    assert Blocks([]) == Ok("");
    assert DefaultTask + "" == DefaultTask;
  }

  /** The FinalDecision node's state that meta_prompt changes. */
  class FinalDecision {
    var materials: Entries

    constructor()
      ensures materials == []
    {
      materials := [];
    }

    /**
     * meta_prompt: resets the materials, gathers them input by input, and combines them
     * into the question; the materials are left as gathered when no exception was raised.
     */
    method MetaPrompt(inputs: seq<Input>) returns (question: Result<string>)
      modifies this
      ensures question == Question(inputs)
      ensures Gathered(inputs).Ok? ==> materials == Gathered(inputs).value
    {
      materials := [];
      var i := 0;
      while i < |inputs|
        invariant i <= |inputs| && Gathered(inputs[..i]) == Ok(materials)
      {
        assert inputs[..i + 1][..i] == inputs[..i];
        var next := Absorb(materials, inputs[i]);
        if next.Raised? {
          GatheredRaised(inputs, i + 1);
          return Raised(next.reason);
        }
        materials := next.value;
        i := i + 1;
      }
      assert inputs[..i] == inputs;
      if TaskOf(materials).None? {
        return Raised("TypeError: the 'task' material is not a string");
      }
      question := GetCombineMaterials(materials, true);
    }
  }

  /** Once the loop raises, the whole run raises the same exception. */
  lemma {:induction false} GatheredRaised(inputs: seq<Input>, i: nat)
    requires i <= |inputs| && Gathered(inputs[..i]).Raised?
    ensures Gathered(inputs) == Gathered(inputs[..i])
    decreases |inputs| - i
  {
    if i < |inputs| {
      assert inputs[..i + 1][..i] == inputs[..i];
      GatheredRaised(inputs, i + 1);
    } else {
      assert inputs[..i] == inputs;
    }
  }
}
