/**
 * The two MMLU dataset helpers of experiments/evaluator/datasets/mmlu_dataset.py:
 * the question put to the swarm for a dataset record, and the post-processing of
 * the swarm's answer into a single option letter.
 */
module Mmlu {
  import opened Wrappers
  import opened Text

  /** A dataset record: the question and its four options. */
  datatype Record = Record(question: string, a: string, b: string, c: string, d: string)

  /** The question text: the question, then one line per option, each of the five parts ending in a newline. */
  function TaskText(r: Record): (t: string)
    ensures |t| > |r.question| && t[..|r.question| + 1] == r.question + "\n"
    ensures t[|t| - 1] == '\n'
  {
    (r.question + "\n")
      + (("Option A: " + r.a + "\n")
      + (("Option B: " + r.b + "\n")
      + (("Option C: " + r.c + "\n")
      + ("Option D: " + r.d + "\n"))))
  }

  /** record_to_swarm_input: an input dictionary holding only the question under 'task'. */
  function RecordToSwarmInput(r: Record): (input: map<string, string>)
    ensures input.Keys == {"task"}
    ensures input["task"] == TaskText(r)
  {
    map["task" := TaskText(r)]
  }

  /**
   * When no field holds a newline, the lines of the 'task' text are the question and the four
   * labelled options, followed by the empty piece after the final newline.
   */
  lemma TaskLines(r: Record)
    requires '\n' !in r.question && '\n' !in r.a && '\n' !in r.b && '\n' !in r.c && '\n' !in r.d
    ensures Split(RecordToSwarmInput(r)["task"], "\n")
      == [r.question, "Option A: " + r.a, "Option B: " + r.b, "Option C: " + r.c, "Option D: " + r.d, ""]
  {
    var lines := [r.question, "Option A: " + r.a, "Option B: " + r.b, "Option C: " + r.c, "Option D: " + r.d, ""];
    TaskJoin(r);
    forall p | p in lines
      ensures '\n' !in p
    {
      if p != r.question && p != "" {
        assert p[..10] in {"Option A: ", "Option B: ", "Option C: ", "Option D: "};
      }
    }
    JoinSplit(lines, '\n');
  }

  /** The 'task' text is its lines joined with newlines. */
  lemma TaskJoin(r: Record)
    ensures Join([r.question, "Option A: " + r.a, "Option B: " + r.b, "Option C: " + r.c, "Option D: " + r.d, ""], "\n")
      == TaskText(r)
  {
    var l0, l1, l2, l3, l4 := r.question, "Option A: " + r.a, "Option B: " + r.b, "Option C: " + r.c, "Option D: " + r.d;
    var nl := "\n";
    JoinCons(l4, [""], nl);
    JoinCons(l3, [l4, ""], nl);
    JoinCons(l2, [l3, l4, ""], nl);
    JoinCons(l1, [l2, l3, l4, ""], nl);
    JoinCons(l0, [l1, l2, l3, l4, ""], nl);
    assert l4 + nl + "" == l4 + nl;
  }

  /** Joining a head and a non-empty tail puts the separator between them. */
  lemma JoinCons(h: string, t: seq<string>, sep: string)
    requires t != []
    ensures Join([h] + t, sep) == h + sep + Join(t, sep)
  {
    assert ([h] + t)[1..] == t;
  }

  /** The swarm's answer: a string, a list of answers, or some other value. */
  datatype Answer = Str(text: string) | List(items: seq<Answer>) | Other

  /**
   * postprocess_answer: a list is replaced by its first element, or by "" when empty; what
   * is then not a string raises; a non-empty string is cut to its first character.
   */
  function PostprocessAnswer(answer: Answer): (r: Result<string>)
    ensures r.Ok? ==> |r.value| <= 1
  {
    var a := match answer
      case List(items) => if |items| > 0 then items[0] else Str("")
      case _ => answer;
    if !a.Str? then Raised("Exception: Expected string")
    else if |a.text| > 0 then Ok(a.text[..1])
    else Ok("")
  }

  /**
   * The answer is the first character of the string (or of the list's first string), ""
   * for an empty string or list, and an exception exactly when no string is found.
   */
  lemma PostprocessMeaning(answer: Answer)
    ensures answer.Str? ==> PostprocessAnswer(answer) == Ok(Take(answer.text, 1))
    ensures answer.Other? ==> PostprocessAnswer(answer).Raised?
    ensures answer.List? && answer.items == [] ==> PostprocessAnswer(answer) == Ok("")
    ensures answer.List? && answer.items != [] ==>
      (PostprocessAnswer(answer).Ok? <==> answer.items[0].Str?)
      && (answer.items[0].Str? ==> PostprocessAnswer(answer) == PostprocessAnswer(answer.items[0]))
  {
  }

  /** Post-processing is idempotent: a processed answer passes through unchanged. */
  lemma PostprocessIdempotent(answer: Answer)
    requires PostprocessAnswer(answer).Ok?
    ensures PostprocessAnswer(Str(PostprocessAnswer(answer).value)) == PostprocessAnswer(answer)
  {
    var v := PostprocessAnswer(answer).value;
    if |v| == 1 {
      assert v[..1] == v;
    }
  }
}
