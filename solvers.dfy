/**
 * The two crossword operations that apply parsed candidates to the environment:
 * brute_force_step.py (the best-scoring set of candidates that can all be placed
 * in order) and greedy_steps.py (every candidate in turn, skipping those that raise).
 * Both step with allow_change=False, so a filled letter is never overwritten.
 */
module CrosswordSolvers {
  import opened Wrappers
  import opened Text
  import opened Crosswords
  import opened CrosswordParser

  /** The actions of the candidates, in order. */
  function Actions(cands: seq<Candidate>): (r: seq<string>)
    ensures |r| == |cands| && forall i :: 0 <= i < |cands| ==> r[i] == cands[i].action
  {
    seq(|cands|, i requires 0 <= i < |cands| => cands[i].action)
  }

  /** Their confidences, in the same order. */
  function Scores(cands: seq<Candidate>): (r: seq<int>)
    ensures |r| == |cands| && forall i :: 0 <= i < |cands| ==> r[i] == cands[i].score
  {
    seq(|cands|, i requires 0 <= i < |cands| => cands[i].score)
  }

  /**
   * brute_force_optimize on values: the best score and board without the first candidate,
   * and, when its step does not raise, with it; the latter wins only on a strictly greater score.
   * Scores add as exact tenths, where the source adds floats, whose rounding can split a tie.
   */
  function BruteForce(cands: seq<string>, scores: seq<int>, s: State, gt: seq<char>): (r: (int, State))
    requires |cands| == |scores| && StateOk(s) && |gt| == 25
    ensures StateOk(r.1)
    decreases |cands|
  {
    if cands == [] then (0, s)
    else
      var best := BruteForce(cands[1..], scores[1..], s, gt);
      var m := Move(s, gt, cands[0], false);
      if m.reply.Raised? then best
      else
        var later := BruteForce(cands[1..], scores[1..], m.state, gt);
        if later.0 + scores[0] > best.0 then (later.0 + scores[0], later.1) else best
  }

  /** One unfolding of BruteForce, score and board apart, for the method that computes it on the environment. */
  lemma {:induction false} BruteForceNext(cands: seq<string>, scores: seq<int>, s: State, gt: seq<char>)
    requires |cands| == |scores| && cands != [] && StateOk(s) && |gt| == 25
    ensures var best := BruteForce(cands[1..], scores[1..], s, gt);
      var m := Move(s, gt, cands[0], false);
      var later := BruteForce(cands[1..], scores[1..], m.state, gt);
      var take := !m.reply.Raised? && later.0 + scores[0] > best.0;
      && BruteForce(cands, scores, s, gt).0 == (if take then later.0 + scores[0] else best.0)
      && BruteForce(cands, scores, s, gt).1 == (if take then later.1 else best.1)
  {
  }

  /** Taking the candidates a plan marks, in order: none when one of their steps raises. */
  function Apply(cands: seq<string>, plan: seq<bool>, s: State, gt: seq<char>): (r: Option<State>)
    requires |plan| == |cands| && StateOk(s) && |gt| == 25
    ensures r.Some? ==> StateOk(r.value)
    decreases |cands|
  {
    if cands == [] then Some(s)
    else if !plan[0] then Apply(cands[1..], plan[1..], s, gt)
    else
      var m := Move(s, gt, cands[0], false);
      if m.reply.Raised? then None else Apply(cands[1..], plan[1..], m.state, gt)
  }

  /** The summed scores of the candidates a plan marks. */
  function Total(scores: seq<int>, plan: seq<bool>): int
    requires |plan| == |scores|
  {
    if scores == [] then 0 else (if plan[0] then scores[0] else 0) + Total(scores[1..], plan[1..])
  }

  /** No plan whose steps all succeed scores more than brute_force_optimize. */
  lemma {:induction false} BruteForceOptimal(cands: seq<string>, scores: seq<int>, s: State, gt: seq<char>, plan: seq<bool>)
    requires |cands| == |scores| == |plan| && StateOk(s) && |gt| == 25
    requires Apply(cands, plan, s, gt).Some?
    ensures Total(scores, plan) <= BruteForce(cands, scores, s, gt).0
    decreases |cands|
  {
    if cands != [] {
      var m := Move(s, gt, cands[0], false);
      if plan[0] {
        BruteForceOptimal(cands[1..], scores[1..], m.state, gt, plan[1..]);
      } else {
        BruteForceOptimal(cands[1..], scores[1..], s, gt, plan[1..]);
      }
    }
  }

  /** brute_force_optimize's score and board are those of one plan whose steps all succeed; no candidates give (0, env). */
  lemma {:induction false} BruteForceAttained(cands: seq<string>, scores: seq<int>, s: State, gt: seq<char>) returns (plan: seq<bool>)
    requires |cands| == |scores| && StateOk(s) && |gt| == 25
    ensures |plan| == |cands|
    ensures Apply(cands, plan, s, gt) == Some(BruteForce(cands, scores, s, gt).1)
    ensures Total(scores, plan) == BruteForce(cands, scores, s, gt).0
    ensures cands == [] ==> BruteForce(cands, scores, s, gt) == (0, s)
    decreases |cands|
  {
    if cands == [] {
      return [];
    }
    var skip := BruteForceAttained(cands[1..], scores[1..], s, gt);
    var m := Move(s, gt, cands[0], false);
    var best := BruteForce(cands[1..], scores[1..], s, gt);
    if m.reply.Raised? {
      plan := [false] + skip;
    } else {
      var take := BruteForceAttained(cands[1..], scores[1..], m.state, gt);
      var later := BruteForce(cands[1..], scores[1..], m.state, gt);
      plan := if later.0 + scores[0] > best.0 then [true] + take else [false] + skip;
    }
  }

  /** Every state a plan reaches keeps the letters that were already filled. */
  lemma {:induction false} ApplyKeepsFilled(cands: seq<string>, plan: seq<bool>, s: State, gt: seq<char>)
    requires |plan| == |cands| && StateOk(s) && |gt| == 25
    requires Apply(cands, plan, s, gt).Some?
    ensures forall c :: 0 <= c < 25 && s.board[c] != Empty ==> Apply(cands, plan, s, gt).value.board[c] == s.board[c]
    decreases |cands|
  {
    if cands != [] {
      var m := Move(s, gt, cands[0], false);
      if plan[0] {
        StepKeepsFilled(s, gt, cands[0]);
        ApplyKeepsFilled(cands[1..], plan[1..], m.state, gt);
      } else {
        ApplyKeepsFilled(cands[1..], plan[1..], s, gt);
      }
    }
  }

  /** The board brute_force_optimize returns keeps every letter that was filled. */
  lemma BruteForceKeepsFilled(cands: seq<string>, scores: seq<int>, s: State, gt: seq<char>)
    requires |cands| == |scores| && StateOk(s) && |gt| == 25
    ensures forall c :: 0 <= c < 25 && s.board[c] != Empty ==> BruteForce(cands, scores, s, gt).1.board[c] == s.board[c]
  {
    var plan := BruteForceAttained(cands, scores, s, gt);
    ApplyKeepsFilled(cands, plan, s, gt);
  }

  /** The greedy loop on values: every action stepped in turn; one that raises has still advanced the step counter. */
  function Greedy(actions: seq<string>, s: State, gt: seq<char>): (r: State)
    requires StateOk(s) && |gt| == 25
    ensures StateOk(r) && r.steps == s.steps + |actions|
  {
    if actions == [] then s
    else Move(Greedy(actions[..|actions| - 1], s, gt), gt, actions[|actions| - 1], false).state
  }

  /** Greedy steps never change a letter that was filled. */
  lemma {:induction false} GreedyKeepsFilled(actions: seq<string>, s: State, gt: seq<char>)
    requires StateOk(s) && |gt| == 25
    ensures forall c :: 0 <= c < 25 && s.board[c] != Empty ==> Greedy(actions, s, gt).board[c] == s.board[c]
  {
    if actions != [] {
      var init := actions[..|actions| - 1];
      GreedyKeepsFilled(init, s, gt);
      StepKeepsFilled(Greedy(init, s, gt), gt, actions[|actions| - 1]);
    }
  }

  /**
   * brute_force_optimize on the environment object: the skip branch works on a copy, the
   * take branch steps the given environment and recurses on a copy of it.
   */
  method BruteForceOptimize(cands: seq<string>, scores: seq<int>, env: CrosswordsEnv) returns (score: int, best: CrosswordsEnv)
    requires |cands| == |scores| && env.Valid()
    modifies env`board, env`ans, env`status, env`steps
    ensures env.Valid() && best.Valid() && best.boardGt == env.boardGt
    ensures score == BruteForce(cands, scores, old(env.CurrentState()), env.boardGt).0
    ensures best.CurrentState() == BruteForce(cands, scores, old(env.CurrentState()), env.boardGt).1
    ensures best == env || fresh(best)
    ensures env.CurrentState() == if cands == [] then old(env.CurrentState())
                                  else Move(old(env.CurrentState()), env.boardGt, cands[0], false).state
    decreases |cands|, 1
  {
    if cands == [] {
      return 0, env;
    }
    BruteForceNext(cands, scores, env.CurrentState(), env.boardGt);
    var copy := new CrosswordsEnv.Copy(env);
    var bestScore, bestEnv := BruteForceOptimize(cands[1..], scores[1..], copy);
    assert bestEnv != env;
    score, best := TryFirst(cands, scores, env, bestScore, bestEnv);
  }

  /**
   * The second half of one level of brute_force_optimize: step the first candidate and,
   * unless that raises, recurse on a copy; the better of the two results wins.
   */
  method TryFirst(cands: seq<string>, scores: seq<int>, env: CrosswordsEnv, bestScore: int, bestEnv: CrosswordsEnv)
    returns (score: int, best: CrosswordsEnv)
    requires |cands| == |scores| && cands != [] && env.Valid() && bestEnv.Valid() && bestEnv != env
    modifies env`board, env`ans, env`status, env`steps
    ensures env.Valid() && env.CurrentState() == Move(old(env.CurrentState()), env.boardGt, cands[0], false).state
    ensures var m := Move(old(env.CurrentState()), env.boardGt, cands[0], false);
      var later := BruteForce(cands[1..], scores[1..], m.state, env.boardGt);
      var take := !m.reply.Raised? && later.0 + scores[0] > bestScore;
      && score == (if take then later.0 + scores[0] else bestScore)
      && (take ==> fresh(best) && best.Valid() && best.boardGt == env.boardGt && best.CurrentState() == later.1)
      && (!take ==> best == bestEnv)
    decreases |cands|, 0
  {
    var reply := env.Step(cands[0], false);
    if reply.Raised? {
      return bestScore, bestEnv;
    }
    var copy := new CrosswordsEnv.Copy(env);
    var laterScore, laterEnv := BruteForceOptimize(cands[1..], scores[1..], copy);
    laterScore := laterScore + scores[0];
    if laterScore > bestScore {
      return laterScore, laterEnv;
    }
    return bestScore, bestEnv;
  }

  /** BruteForceStep._execute: a copy of the environment and the first max_candidates candidates of the response. */
  method BruteForceStep(env: CrosswordsEnv, response: string, maxCandidates: nat) returns (out: CrosswordsEnv)
    requires env.Valid()
    ensures fresh(out) && out.Valid() && out.boardGt == env.boardGt
    ensures var cands := Take(ParseResponse(response), maxCandidates);
      out.CurrentState() == BruteForce(Actions(cands), Scores(cands), env.CurrentState(), env.boardGt).1
  {
    var copy := new CrosswordsEnv.Copy(env);
    var cands := Take(ParseResponse(response), maxCandidates);
    var _, best := BruteForceOptimize(Actions(cands), Scores(cands), copy);
    out := best;
  }

  /** GreedySteps._execute: a copy of the environment stepped with every candidate of the response. */
  method GreedySteps(env: CrosswordsEnv, response: string) returns (out: CrosswordsEnv)
    requires env.Valid()
    ensures fresh(out) && out.Valid() && out.boardGt == env.boardGt
    ensures out.CurrentState() == Greedy(Actions(ParseResponse(response)), env.CurrentState(), env.boardGt)
  {
    var actions := Actions(ParseResponse(response));
    out := new CrosswordsEnv.Copy(env);
    var i := 0;
    while i < |actions|
      invariant i <= |actions| && fresh(out) && out.Valid() && out.boardGt == env.boardGt
      invariant out.CurrentState() == Greedy(actions[..i], env.CurrentState(), env.boardGt)
    {
      assert actions[..i + 1][..i] == actions[..i];
      var _ := out.Step(actions[i], false);
      i := i + 1;
    }
    assert actions[..i] == actions;
  }
}
