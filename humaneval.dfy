/**
 * The two helpers of the HumanEval code-writing operations
 * (swarm/environment/operations/humaneval/code_writing.py and unitest_generation.py,
 * whose extract_example is the same function): turning the doctest examples of a
 * prompt into assert statements, and laying out the chat messages for the LLM.
 */
module HumanEval {
  import opened Text

  const PromptMarker := ">>>"

  /** The stripped lines of the prompt that are not blank, in order. */
  function NonBlank(lines: seq<string>): (r: seq<string>)
    ensures |r| <= |lines|
    ensures forall k :: 0 <= k < |r| ==> r[k] != []
  {
    if lines == [] then []
    else (if Strip(lines[0]) != [] then [Strip(lines[0])] else []) + NonBlank(lines[1..])
  }

  /** The assert for a '>>>' line (minus its first four characters) and the line after it. */
  function Assertion(callLine: string, expected: string): string {
    "assert " + Drop(callLine, 4) + " == " + expected
  }

  /**
   * The iterator loop of extract_example: a '>>>' line takes the next line as its expected
   * output, which is thereby consumed; a '>>>' line at the end yields nothing.
   */
  function Examples(lines: seq<string>): (r: seq<string>)
    ensures forall k :: 0 <= k < |r| ==> StartsWith(r[k], "assert ")
  {
    if lines == [] then []
    else if StartsWith(lines[0], PromptMarker) then
      (if |lines| >= 2 then [Assertion(lines[0], lines[1])] + Examples(lines[2..]) else [])
    else Examples(lines[1..])
  }

  /** The number of '>>>' lines. */
  function CountCalls(lines: seq<string>): nat {
    if lines == [] then 0 else (if StartsWith(lines[0], PromptMarker) then 1 else 0) + CountCalls(lines[1..])
  }

  /** There are never more asserts than '>>>' lines. */
  lemma {:induction false} ExamplesBound(lines: seq<string>)
    ensures |Examples(lines)| <= CountCalls(lines)
  {
    if lines != [] {
      if StartsWith(lines[0], PromptMarker) && |lines| >= 2 {
        ExamplesBound(lines[2..]);
        CountCallsDrop(lines[1..]);
      } else if !StartsWith(lines[0], PromptMarker) {
        ExamplesBound(lines[1..]);
      }
    }
  }

  lemma CountCallsDrop(lines: seq<string>)
    requires lines != []
    ensures CountCalls(lines[1..]) <= CountCalls(lines)
  {
  }

  /** Every assert pairs a '>>>' line with the line right after it. */
  lemma {:induction false} ExamplesFromPairs(lines: seq<string>, a: string)
    requires a in Examples(lines)
    ensures exists j :: 0 <= j && j + 1 < |lines| && StartsWith(lines[j], PromptMarker) && a == Assertion(lines[j], lines[j + 1])
  {
    if StartsWith(lines[0], PromptMarker) {
      if a != Assertion(lines[0], lines[1]) {
        ExamplesFromPairs(lines[2..], a);
        var j :| 0 <= j && j + 1 < |lines[2..]| && StartsWith(lines[2..][j], PromptMarker) && a == Assertion(lines[2..][j], lines[2..][j + 1]);
        assert lines[j + 2] == lines[2..][j] && lines[j + 3] == lines[2..][j + 1];
      }
    } else {
      ExamplesFromPairs(lines[1..], a);
      var j :| 0 <= j && j + 1 < |lines[1..]| && StartsWith(lines[1..][j], PromptMarker) && a == Assertion(lines[1..][j], lines[1..][j + 1]);
      assert lines[j + 1] == lines[1..][j] && lines[j + 2] == lines[1..][j + 1];
    }
  }

  /** An expected line is consumed even when it is itself a '>>>' line: two calls in a row give one assert. */
  lemma ExpectedLineConsumed()
    ensures Examples([">>> f(1)", ">>> f(2)", "3"]) == [Assertion(">>> f(1)", ">>> f(2)")]
  {
    var lines := [">>> f(1)", ">>> f(2)", "3"];
    assert StartsWith(lines[0], PromptMarker);
    assert lines[2..] == ["3"] && !StartsWith("3", PromptMarker);
    assert Examples(["3"]) == Examples([]);
  }

  /** extract_example: the iterator loop over the non-blank stripped lines of the prompt. */
  method ExtractExample(prompt: string) returns (results: seq<string>)
    ensures results == Examples(NonBlank(Split(prompt, "\n")))
  {
    var lines := NonBlank(Split(prompt, "\n"));
    results := [];
    var i := 0;
    while i < |lines|
      invariant i <= |lines|
      invariant results + Examples(lines[i..]) == Examples(lines)
      decreases |lines| - i
    {
      if StartsWith(lines[i], PromptMarker) {
        if i + 1 < |lines| {
          assert lines[i..][2..] == lines[i + 2..];
          results := results + [Assertion(lines[i], lines[i + 1])];
          i := i + 2;
        } else {
          i := i + 1;
          assert lines[i..] == [];
          results := results + [];
        }
      } else {
        assert lines[i..][1..] == lines[i + 1..];
        i := i + 1;
      }
    }
  }

  /** A chat message. */
  datatype Message = Message(role: string, content: string)

  /** A demonstration: an example input and the output wanted for it. */
  datatype Demonstration = Demonstration(input: string, output: string)

  /**
   * get_messages: the system prompt, then a user/assistant pair per demonstration in order,
   * then the problem as the last user message.
   */
  method GetMessages(task: string, prompt: string, demos: seq<Demonstration>) returns (messages: seq<Message>)
    ensures |messages| == 2 * |demos| + 2
    ensures messages[0] == Message("system", prompt)
    ensures forall k :: 0 <= k < |demos| ==>
      messages[2 * k + 1] == Message("user", demos[k].input) && messages[2 * k + 2] == Message("assistant", demos[k].output)
    ensures messages[|messages| - 1] == Message("user", task)
  {
    messages := [Message("system", prompt)];
    var i := 0;
    while i < |demos|
      invariant i <= |demos| && |messages| == 2 * i + 1
      invariant messages[0] == Message("system", prompt)
      invariant forall k :: 0 <= k < i ==>
        messages[2 * k + 1] == Message("user", demos[k].input) && messages[2 * k + 2] == Message("assistant", demos[k].output)
    {
      messages := messages + [Message("user", demos[i].input), Message("assistant", demos[i].output)];
      i := i + 1;
    }
    messages := messages + [Message("user", task)];
  }
}
