/**
 * The plan text parser of swarm/environment/prompt/plan.py: a plan answer made of a
 * "Plan:" section and an "Operations, Purposes and Inputs:" section, each operation
 * line "Tool ### purpose ### inputs", turned into the plan text, the tools, the
 * purposes and one input dictionary per operation.
 *
 * ast.literal_eval is not modelled: what it makes of an input string is a parameter.
 */
module Plans {
  import opened Wrappers
  import opened Text

  /** The Python values plan_parser and operation_parser are given: strings, lists, and anything else. */
  datatype PyObj = PyStr(text: string) | PyList(items: seq<PyObj>) | PyOther

  /** A value of an input dictionary: a string, a list of strings, or another literal by its text. */
  datatype Field = Word(text: string) | Words(items: seq<string>) | OtherLiteral(repr: string)

  /** What ast.literal_eval makes of a string: a dict, another literal, a syntax or value error, or another exception. */
  datatype Literal =
    | LiteralDict(entries: map<string, Field>)
    | LiteralOther
    | Unparsable
    | EvalRaises(message: string)

  type Inputs = map<string, Field>

  /** The characters strip("[] ") removes. */
  const Brackets: set<char> := {'[', ']', ' '}

  /** s.replace('"', ''). */
  function RemoveQuotes(s: string): (r: string)
    ensures forall k :: 0 <= k < |r| ==> r[k] != '"'
    ensures |r| <= |s|
  {
    if s == [] then []
    else (if s[0] == '"' then [] else [s[0]]) + RemoveQuotes(s[1..])
  }

  /** Strings as Python string values. */
  function Strs(xs: seq<string>): (r: seq<PyObj>)
    ensures |r| == |xs| && forall k :: 0 <= k < |xs| ==> r[k] == PyStr(xs[k])
  {
    seq(|xs|, k requires 0 <= k < |xs| => PyStr(xs[k]))
  }

  /** The cleaned value text after the first colon: brackets and spaces stripped, quotes removed. */
  function Cleaned(s: string, i: nat): string
    requires i < |s|
  {
    RemoveQuotes(StripChars(s[i + 1..], Brackets))
  }

  /**
   * The fallback for an input string literal_eval cannot parse: 'k: a, b' gives {k: [a, b]},
   * 'k: a' gives {k: a}, and a string without a colon gives {'Inputs': s}.
   */
  function Fallback(s: string): (r: Inputs)
    ensures |r| == 1
  {
    match Find(s, ":")
    case None => map["Inputs" := Word(s)]
    case Some(i) =>
      var values := Split(Cleaned(s, i), ", ");
      map[Strip(s[..i]) := if |values| > 1 then Words(values) else Word(values[0])]
  }

  /**
   * The fallback dictionary has one key, the stripped text before the first colon (which holds no
   * colon); its values, joined again with ", ", give back the cleaned text after that colon, and none
   * of them contains ", " or a quote.
   */
  lemma FallbackMeaning(s: string)
    ensures !Contains(s, ":") ==> Fallback(s) == map["Inputs" := Word(s)]
    ensures Contains(s, ":") ==>
      var i := Find(s, ":").value;
      var d := Fallback(s);
      var values := Split(Cleaned(s, i), ", ");
      && !Contains(s[..i], ":")
      && d.Keys == {Strip(s[..i])}
      && Join(values, ", ") == Cleaned(s, i)
      && (forall v :: v in values ==> !Contains(v, ", "))
      && (d[Strip(s[..i])] == if |values| > 1 then Words(values) else Word(Cleaned(s, i)))
  {
    if Contains(s, ":") {
      var i := Find(s, ":").value;
      var c := Cleaned(s, i);
      FindFirst(s, ":");
      if Contains(s[..i], ":") {
        FindFirst(s[..i], ":");
        var j := Find(s[..i], ":").value;
        assert s[..i][j..j + 1] == s[j..j + 1];
        assert At(s, ":", j);
        assert false;
      }
      SplitJoin(c, ", ");
      SplitPieces(c, ", ");
    }
  }

  /** The lists operation_parser builds, and the last input dictionary it assigned. */
  datatype Ops = Ops(tools: seq<string>, targets: seq<string>, inputs: seq<Inputs>, last: Option<Inputs>)

  /** An operation line: a string with exactly three '###' parts. */
  predicate WellFormed(item: PyObj) {
    item.PyStr? && |Split(item.text, "###")| == 3
  }

  /**
   * One item of the loop of operation_parser: anything but a well-formed line is skipped; a dict
   * literal is the input; another literal repeats the last input, and raises when there was none;
   * an unparsable one goes to the fallback.
   */
  function OperationStep(st: Ops, item: PyObj, eval: string -> Literal): (r: Result<Ops>)
    ensures !WellFormed(item) ==> r == Ok(st)
    ensures r.Ok? && WellFormed(item) ==>
      var parts := Split(item.text, "###");
      && r.value.tools == st.tools + [Strip(parts[0])]
      && r.value.targets == st.targets + [Strip(parts[1])]
      && |r.value.inputs| == |st.inputs| + 1 && r.value.inputs[..|st.inputs|] == st.inputs
      && r.value.last == Some(r.value.inputs[|st.inputs|])
  {
    if !WellFormed(item) then Ok(st)
    else
      var parts := Split(item.text, "###");
      var tool, target, input := Strip(parts[0]), Strip(parts[1]), Strip(parts[2]);
      match eval(input)
      case LiteralDict(d) => Ok(Ops(st.tools + [tool], st.targets + [target], st.inputs + [d], Some(d)))
      case LiteralOther =>
        (match st.last
         case None => Raised("UnboundLocalError: local variable 'input_dict' referenced before assignment")
         case Some(d) => Ok(Ops(st.tools + [tool], st.targets + [target], st.inputs + [d], st.last)))
      case Unparsable =>
        var d := Fallback(input);
        Ok(Ops(st.tools + [tool], st.targets + [target], st.inputs + [d], Some(d)))
      case EvalRaises(message) => Raised(message)
  }

  /** The loop of operation_parser over a prefix of the list. */
  function ParseOps(items: seq<PyObj>, eval: string -> Literal): (r: Result<Ops>)
    ensures r.Raised? ==> exists k :: 0 <= k < |items| && WellFormed(items[k])
  {
    if items == [] then Ok(Ops([], [], [], None))
    else
      match ParseOps(items[..|items| - 1], eval)
      case Raised(e) => Raised(e)
      case Ok(st) => OperationStep(st, items[|items| - 1], eval)
  }

  /** The number of operation lines in a list. */
  function CountWellFormed(items: seq<PyObj>): nat {
    if items == [] then 0
    else CountWellFormed(items[..|items| - 1]) + (if WellFormed(items[|items| - 1]) then 1 else 0)
  }

  /**
   * tools, targets and inputs stay in step: one entry each per operation line; the last input
   * assigned is the last input listed, and there is one exactly when some input is listed.
   */
  lemma {:induction false} ParseOpsShape(items: seq<PyObj>, eval: string -> Literal)
    requires ParseOps(items, eval).Ok?
    ensures var st := ParseOps(items, eval).value;
      && |st.tools| == |st.targets| == |st.inputs| == CountWellFormed(items)
      && (st.last.Some? <==> st.inputs != [])
      && (st.inputs != [] ==> st.last == Some(st.inputs[|st.inputs| - 1]))
  {
    if items != [] {
      ParseOpsShape(items[..|items| - 1], eval);
    }
  }

  /** A literal that is not a dict repeats the previous operation's input, or raises when there is none. */
  lemma OtherLiteralRepeats(items: seq<PyObj>, item: PyObj, eval: string -> Literal)
    requires ParseOps(items, eval).Ok? && WellFormed(item)
    requires eval(Strip(Split(item.text, "###")[2])) == LiteralOther
    ensures var st := ParseOps(items, eval).value;
      && (ParseOps(items + [item], eval).Ok? <==> st.inputs != [])
      && (ParseOps(items + [item], eval).Ok? ==>
            ParseOps(items + [item], eval).value.inputs == st.inputs + [st.inputs[|st.inputs| - 1]])
  {
    ParseOpsShape(items, eval);
    assert (items + [item])[..|items|] == items;
  }

  /** operation_parser: the tools, purposes and input dictionaries of the operation lines, in order. */
  method OperationParser(operations: PyObj, eval: string -> Literal)
    returns (r: Result<(seq<string>, seq<string>, seq<Inputs>)>)
    ensures !operations.PyList? ==> r == Raised("ValueError: The operations_list must be a list.")
    ensures operations.PyList? ==>
      match ParseOps(operations.items, eval)
      case Raised(e) => r == Raised(e)
      case Ok(st) => r == Ok((st.tools, st.targets, st.inputs))
  {
    if !operations.PyList? {
      return Raised("ValueError: The operations_list must be a list.");
    }
    var items := operations.items;
    var st := Ops([], [], [], None);
    var i := 0;
    while i < |items|
      invariant i <= |items| && ParseOps(items[..i], eval) == Ok(st)
    {
      assert items[..i + 1][..i] == items[..i];
      var next := OperationStep(st, items[i], eval);
      if next.Raised? {
        ParseOpsRaised(items, i + 1, eval);
        return Raised(next.reason);
      }
      st := next.value;
      i := i + 1;
    }
    assert items[..i] == items;
    r := Ok((st.tools, st.targets, st.inputs));
  }

  /** Once the loop raises, the whole list raises the same exception. */
  lemma {:induction false} ParseOpsRaised(items: seq<PyObj>, i: nat, eval: string -> Literal)
    requires i <= |items| && ParseOps(items[..i], eval).Raised?
    ensures ParseOps(items, eval) == ParseOps(items[..i], eval)
    decreases |items| - i
  {
    if i < |items| {
      assert items[..i + 1][..i] == items[..i];
      ParseOpsRaised(items, i + 1, eval);
    } else {
      assert items[..i] == items;
    }
  }

  const PlanLabel := "Plan:"
  const OperationsHeader := "Operations, Purposes and Inputs:"

  /** Which section the loop of plan_parser is in. */
  datatype Section = NoSection | PlanSection | OperationsSection

  datatype Scan = Scan(current: Section, plan: string, operations: seq<string>)

  /**
   * One line of plan_parser's loop: a line holding 'Plan:' opens the plan section (and is part of it),
   * the operations header opens the operations section (and is skipped); plan lines other than '----'
   * are added with a space, operation lines other than '====' and 'END...' are collected, all stripped.
   */
  function ScanLine(st: Scan, line: string): Scan {
    var current := if Contains(line, PlanLabel) then PlanSection
                   else if Contains(line, OperationsHeader) then OperationsSection
                   else st.current;
    var t := Strip(line);
    if !Contains(line, PlanLabel) && Contains(line, OperationsHeader) then st.(current := current)
    else if current == PlanSection && t != "----" then Scan(current, st.plan + t + " ", st.operations)
    else if current == OperationsSection && t != "====" && !StartsWith(t, "END") then Scan(current, st.plan, st.operations + [t])
    else st.(current := current)
  }

  function ScanLines(lines: seq<string>): (r: Scan)
    ensures r.plan == [] || r.plan[|r.plan| - 1] == ' '
    ensures lines != [] && Contains(lines[|lines| - 1], PlanLabel) ==> r.current == PlanSection
  {
    if lines == [] then Scan(NoSection, "", [])
    else ScanLine(ScanLines(lines[..|lines| - 1]), lines[|lines| - 1])
  }

  /**
   * Every collected operation is a stripped input line that is neither '====' nor an 'END' line
   * and holds neither the label nor the header; there are never more operations than lines.
   */
  lemma {:induction false} ScanOperations(lines: seq<string>)
    ensures |ScanLines(lines).operations| <= |lines|
    ensures forall op :: op in ScanLines(lines).operations ==>
      op != "====" && !StartsWith(op, "END") &&
      exists line :: line in lines && op == Strip(line) && !Contains(line, PlanLabel) && !Contains(line, OperationsHeader)
  {
    if lines != [] {
      var init, line := lines[..|lines| - 1], lines[|lines| - 1];
      ScanOperations(init);
      assert lines == init + [line];
      forall op | op in ScanLines(lines).operations
        ensures exists l :: l in lines && op == Strip(l) && !Contains(l, PlanLabel) && !Contains(l, OperationsHeader)
      {
        if op !in ScanLines(init).operations {
          assert op == Strip(line) && line in lines;
        }
      }
    }
  }

  /** The characters of "Plan:", which str.strip takes as a set. */
  const LabelChars: set<char> := {'P', 'l', 'a', 'n', ':'}

  /** plan.strip("Plan:").strip() as written: every 'P', 'l', 'a', 'n' and ':' is stripped from both ends. */
  function PlanTextAsWritten(plan: string): (r: string)
    ensures r == [] || (!IsSpace(r[0]) && !IsSpace(r[|r| - 1]))
  {
    Strip(StripChars(plan, LabelChars))
  }

  /** The label "Plan:" removed once from the front, then whitespace stripped. */
  function PlanText(plan: string): (r: string)
    ensures r == [] || (!IsSpace(r[0]) && !IsSpace(r[|r| - 1]))
    ensures |r| <= |plan|
  {
    Strip(if StartsWith(plan, PlanLabel) then plan[|PlanLabel|..] else plan)
  }

  /** The corrected plan text is the body after the label, whatever letters the body starts with. */
  lemma PlanTextKeepsBody(body: string)
    ensures PlanText(PlanLabel + body) == Strip(body)
  {
    assert (PlanLabel + body)[|PlanLabel|..] == body;
  }

  /** As written, "Plan:analyze the file" loses "anal" with the label. */
  lemma PlanTextAsWrittenLosesLetters()
    ensures PlanTextAsWritten("Plan:analyze the file ") == "yze the file"
  {
    LabelCharsStripped();
    StripTrailingSpace("yze the file");
    assert "yze the file " == "yze the file" + " ";
  }

  /** The corrected text of the same plan keeps the whole body. */
  lemma PlanTextKeepsLetters()
    ensures PlanText("Plan:analyze the file ") == "analyze the file"
  {
    var body := "analyze the file ";
    assert "Plan:analyze the file " == PlanLabel + body;
    PlanTextKeepsBody(body);
    StripTrailingSpace("analyze the file");
    assert body == "analyze the file" + " ";
  }

  /** The set "Plan:" strips the letters of the first word of the sample plan. */
  lemma LabelCharsStripped()
    ensures StripChars("Plan:analyze the file ", LabelChars) == "yze the file "
  {
    var rest := "yze the file ";
    assert "Plan:analyze the file " == "Plan:anal" + rest;
    TrimLeftPrefix("Plan:anal", rest, LabelChars);
    assert rest[0] !in LabelChars && rest[|rest| - 1] !in LabelChars;
  }

  /** A word followed by one space strips to the word. */
  lemma StripTrailingSpace(w: string)
    requires w != [] && !IsSpace(w[0]) && !IsSpace(w[|w| - 1])
    ensures Strip(w + " ") == w
  {
    WhitespaceIsSpace(w[0]);
    WhitespaceIsSpace(w[|w| - 1]);
    var t := w + " ";
    assert t[0] == w[0] && t[|t| - 1] == ' ' && t[..|t| - 1] == w;
    assert TrimLeft(t, Whitespace) == t;
    assert TrimRight(t, Whitespace) == TrimRight(w, Whitespace);
    assert TrimRight(w, Whitespace) == w;
  }

  /** What plan_parser returns. */
  datatype ParsedPlan = ParsedPlan(plan: string, operations: seq<string>, targets: seq<string>, inputs: seq<Inputs>)

  /**
   * plan_parser: a ValueError for a non-string or blank input, an empty plan or no operation;
   * otherwise the plan text and what operation_parser makes of the operation lines.
   */
  method PlanParser(input: PyObj, eval: string -> Literal) returns (r: Result<ParsedPlan>)
    ensures !input.PyStr? ==> r == Raised("ValueError: Input must be a string.")
    ensures input.PyStr? && Blank(input.text) ==> r == Raised("ValueError: Input string is empty.")
    ensures input.PyStr? && !Blank(input.text) ==>
      var sc := ScanLines(Split(input.text, "\n"));
      if PlanText(sc.plan) == [] then r == Raised("ValueError: Plan section is empty.")
      else if sc.operations == [] then r == Raised("ValueError: Operations, Purposes and Inputs section is empty.")
      else match ParseOps(Strs(sc.operations), eval)
           case Raised(e) => r == Raised(e)
           case Ok(st) => r == Ok(ParsedPlan(PlanText(sc.plan), st.tools, st.targets, st.inputs))
  {
    if !input.PyStr? {
      return Raised("ValueError: Input must be a string.");
    }
    BlankStrip(input.text);
    if Strip(input.text) == [] {
      return Raised("ValueError: Input string is empty.");
    }
    var lines := Split(input.text, "\n");
    var st := Scan(NoSection, "", []);
    var i := 0;
    while i < |lines|
      invariant i <= |lines| && st == ScanLines(lines[..i])
    {
      assert lines[..i + 1][..i] == lines[..i];
      st := ScanLine(st, lines[i]);
      i := i + 1;
    }
    assert lines[..i] == lines;
    var plan := PlanText(st.plan);
    if plan == [] {
      return Raised("ValueError: Plan section is empty.");
    }
    if st.operations == [] {
      return Raised("ValueError: Operations, Purposes and Inputs section is empty.");
    }
    var ops := OperationParser(PyList(Strs(st.operations)), eval);
    match ops
    case Raised(e) => r := Raised(e);
    case Ok(t) => r := Ok(ParsedPlan(plan, t.0, t.1, t.2));
  }
}
