/**
 * parse_response of swarm/environment/domain/crosswords/parser.py: the candidate
 * answers an LLM proposes, one per line as "h1. apple (certain)", turned into
 * step actions ordered by confidence.
 *
 * Confidences are kept in tenths (certain 10, high 5, medium 2, low 1). One compares
 * with another exactly as the source's 1, .5, .2 and .1 do; their sums here are
 * exact, where the source's float sums are rounded.
 */
module CrosswordParser {
  import opened Wrappers
  import opened Text
  import Crosswords

  /** One parsed line: the action "h1. apple" and its confidence in tenths. */
  datatype Candidate = Candidate(action: string, score: nat)

  /** [a-zA-Z] */
  predicate IsLetter(c: char) {
    'a' <= c <= 'z' || 'A' <= c <= 'Z'
  }

  /** The four confidence words of the pattern, with their values in tenths. */
  const Confidences: seq<(string, nat)> := [("certain", 10), ("high", 5), ("medium", 2), ("low", 1)]

  /** The head of the pattern: [hv][1-5], ". ", five letters, " (". */
  predicate Head(line: string) {
    && |line| >= 11
    && (line[0] == 'h' || line[0] == 'v')
    && '1' <= line[1] <= '5'
    && line[2] == '.' && line[3] == ' '
    && (forall k :: 4 <= k < 9 ==> IsLetter(line[k]))
    && line[9] == ' ' && line[10] == '('
  }

  /** The whole pattern ^([hv][1-5])\. ([a-zA-Z]{5,5}) \((certain|high|medium|low)\).*$ with confidence i. */
  predicate MatchesWith(line: string, i: nat) {
    Head(line) && i < |Confidences| && StartsWith(line[11..], Confidences[i].0 + ")")
  }

  /** The confidence the line's confidence word names, trying the words in turn. */
  function ConfidenceOf(rest: string): (r: Option<nat>)
    ensures r.Some? ==> r.value < |Confidences| && StartsWith(rest, Confidences[r.value].0 + ")")
    ensures r.None? ==> forall i :: 0 <= i < |Confidences| ==> !StartsWith(rest, Confidences[i].0 + ")")
  {
    if StartsWith(rest, "certain)") then Some(0)
    else if StartsWith(rest, "high)") then Some(1)
    else if StartsWith(rest, "medium)") then Some(2)
    else if StartsWith(rest, "low)") then Some(3)
    else None
  }

  /** parse_line and the comprehension at line 29: the lower-cased "pos. word" and the confidence's value. */
  function ParseLine(line: string): (r: Option<Candidate>)
    ensures r.Some? <==> exists i :: 0 <= i < |Confidences| && MatchesWith(line, i)
    ensures r.Some? ==> exists i :: 0 <= i < |Confidences| && MatchesWith(line, i) && r.value.score == Confidences[i].1
    ensures r.Some? ==> r.value.action == Lower(line[..2]) + ". " + Lower(line[4..9])
  {
    if !Head(line) then None
    else
      match ConfidenceOf(line[11..])
      case None => None
      case Some(i) => assert MatchesWith(line, i); Some(Candidate(Lower(line[..2]) + ". " + Lower(line[4..9]), Confidences[i].1))
  }

  /** The lines that match, parsed, in order. */
  function Parsed(lines: seq<string>): (r: seq<Candidate>)
    ensures |r| <= |lines|
  {
    if lines == [] then []
    else
      var rest := Parsed(lines[1..]);
      match ParseLine(lines[0])
      case None => rest
      case Some(c) => [c] + rest
  }

  /** Every parsed candidate comes from a line that matches. */
  lemma {:induction false} ParsedFrom(lines: seq<string>, c: Candidate)
    requires c in Parsed(lines)
    ensures exists line :: line in lines && ParseLine(line) == Some(c)
  {
    if ParseLine(lines[0]) != Some(c) {
      ParsedFrom(lines[1..], c);
      var line :| line in lines[1..] && ParseLine(line) == Some(c);
      assert line in lines;
    }
  }

  /** Higher confidence first. */
  predicate SortedDesc(xs: seq<Candidate>) {
    forall i, j :: 0 <= i < j < |xs| ==> xs[i].score >= xs[j].score
  }

  /** The candidates of one confidence, in order. */
  function WithScore(xs: seq<Candidate>, v: nat): seq<Candidate> {
    if xs == [] then []
    else (if xs[0].score == v then [xs[0]] else []) + WithScore(xs[1..], v)
  }

  /** Place x before the first candidate that is not more confident. */
  function Insert(x: Candidate, ys: seq<Candidate>): seq<Candidate> {
    if ys == [] || x.score >= ys[0].score then [x] + ys
    else [ys[0]] + Insert(x, ys[1..])
  }

  /** sorted(xs, key=score, reverse=True): a stable sort, by insertion. */
  function SortDesc(xs: seq<Candidate>): seq<Candidate> {
    if xs == [] then [] else Insert(xs[0], SortDesc(xs[1..]))
  }

  /** A candidate at least as confident as every one of a sorted list can go in front of it. */
  lemma SortedCons(h: Candidate, r: seq<Candidate>)
    requires SortedDesc(r) && forall k :: 0 <= k < |r| ==> h.score >= r[k].score
    ensures SortedDesc([h] + r)
  {
    forall i, j | 0 <= i < j < |[h] + r|
      ensures ([h] + r)[i].score >= ([h] + r)[j].score
    {
      if i > 0 {
        assert ([h] + r)[i] == r[i - 1];
      }
      assert ([h] + r)[j] == r[j - 1];
    }
  }

  /** A bound on x and on every candidate of t bounds every candidate of a permutation of [x] + t. */
  lemma Bounded(h: Candidate, x: Candidate, t: seq<Candidate>, r: seq<Candidate>)
    requires multiset(r) == multiset([x] + t) && h.score >= x.score
    requires forall k :: 0 <= k < |t| ==> h.score >= t[k].score
    ensures forall k :: 0 <= k < |r| ==> h.score >= r[k].score
  {
    forall k | 0 <= k < |r|
      ensures h.score >= r[k].score
    {
      assert r[k] in multiset([x] + t);
      if r[k] != x {
        assert r[k] in t;
      }
    }
  }

  lemma {:induction false} InsertSorted(x: Candidate, ys: seq<Candidate>)
    requires SortedDesc(ys)
    ensures SortedDesc(Insert(x, ys)) && multiset(Insert(x, ys)) == multiset([x] + ys)
  {
    if ys != [] && x.score < ys[0].score {
      var t := ys[1..];
      assert ys == [ys[0]] + t;
      assert SortedDesc(t);
      InsertSorted(x, t);
      var r := Insert(x, t);
      assert Insert(x, ys) == [ys[0]] + r;
      Bounded(ys[0], x, t, r);
      SortedCons(ys[0], r);
      assert multiset([x] + ys) == multiset([ys[0]]) + multiset([x] + t);
    } else if ys != [] {
      forall k | 0 <= k < |ys|
        ensures x.score >= ys[k].score
      {
      }
      SortedCons(x, ys);
    }
  }

  lemma {:induction false} InsertStable(x: Candidate, ys: seq<Candidate>, v: nat)
    ensures WithScore(Insert(x, ys), v) == WithScore([x] + ys, v)
  {
    if ys != [] && x.score < ys[0].score {
      InsertStable(x, ys[1..], v);
      assert ([ys[0]] + Insert(x, ys[1..]))[1..] == Insert(x, ys[1..]);
      assert ([x] + ys)[1..] == ys && ([x] + ys[1..])[1..] == ys[1..];
    }
  }

  /** The sort puts higher confidences first, loses and adds nothing, and keeps the order within each confidence. */
  lemma {:induction false} SortDescCorrect(xs: seq<Candidate>)
    ensures SortedDesc(SortDesc(xs))
    ensures multiset(SortDesc(xs)) == multiset(xs)
    ensures forall v :: WithScore(SortDesc(xs), v) == WithScore(xs, v)
  {
    if xs != [] {
      SortDescCorrect(xs[1..]);
      InsertSorted(xs[0], SortDesc(xs[1..]));
      assert xs == [xs[0]] + xs[1..];
      forall v
        ensures WithScore(SortDesc(xs), v) == WithScore(xs, v)
      {
        InsertStable(xs[0], SortDesc(xs[1..]), v);
        assert ([xs[0]] + SortDesc(xs[1..]))[1..] == SortDesc(xs[1..]);
      }
    }
  }

  /** parse_response: every matching line of the response, most confident first. */
  function ParseResponse(response: string): (r: seq<Candidate>)
    ensures SortedDesc(r)
    ensures |r| <= |Split(response, "\n")|
  {
    var parsed := Parsed(Split(response, "\n"));
    SortDescCorrect(parsed);
    assert |SortDesc(parsed)| == |multiset(SortDesc(parsed))|;
    SortDesc(parsed)
  }

  /**
   * The response's candidates: sorted by descending confidence, a permutation of the matching
   * lines' candidates that keeps their order within each confidence, never more than the lines.
   */
  lemma ParseResponseCorrect(response: string)
    ensures var r, lines := ParseResponse(response), Split(response, "\n");
      && SortedDesc(r)
      && multiset(r) == multiset(Parsed(lines))
      && (forall v :: WithScore(r, v) == WithScore(Parsed(lines), v))
      && |r| <= |lines|
  {
    var parsed := Parsed(Split(response, "\n"));
    SortDescCorrect(parsed);
    assert |ParseResponse(response)| == |multiset(ParseResponse(response))|;
  }

  /** Every candidate the response yields is a placement the environment accepts: K in 1 .. 5 and five letters. */
  lemma CandidateFits(line: string)
    requires ParseLine(line).Some?
    ensures var cmd := Crosswords.ParseAction(ParseLine(line).value.action);
      && cmd.Place? && Crosswords.Fits(cmd.k, cmd.word)
      && cmd.across == (line[0] == 'h') && cmd.k == line[1] as int - '0' as int
      && cmd.word == Upper(Lower(line[4..9]))
  {
    var pos, word := Lower(line[..2]), Lower(line[4..9]);
    assert pos[0] == line[0] && pos[1] == line[1];
    forall k | 0 <= k < 5
      ensures 'a' <= word[k] <= 'z'
    {
      assert IsLetter(line[4 + k]);
    }
    Crosswords.ParsePlacement(pos, word);
  }
}
