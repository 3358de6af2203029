/**
 * get_combine_materials of swarm/environment/prompt/common.py: the 'task' text followed
 * by one reference block per other material, and optionally a fixed request for a
 * specific answer.
 */
module Materials {
  import opened Wrappers
  import opened Text

  /** A key of the materials dictionary. */
  datatype Key = Name(name: string) | NonStrKey(tag: int)

  /**
   * A value of the materials dictionary: a string, a list, another container (`in`
   * works on it, but it is neither a string nor a list), or a scalar (`in` raises).
   */
  datatype Material = Text(text: string) | Items(items: seq<Material>) | Container | Scalar

  /** The dictionary in its insertion order. */
  type Entries = seq<(Key, Material)>

  const UselessMarker := "No useful information from WebSearch"
  const DefaultTask := "No problem provided"
  const Rule := "\n----------------------------------------------\n"
  const AvoidVague := "\nProvide a specific answer. For questions with known answers, ensure to provide accurate and factual responses. "
    + "Avoid vague responses or statements like 'unable to...' that don't contribute to a definitive answer. "
    + "For example: if a question asks 'who will be the president of America', and the answer is currently unknown, you could suggest possibilities like 'Donald Trump', or 'Biden'. However, if the answer is known, provide the correct information."

  /** Keys are distinct, as in a dictionary. */
  ghost predicate DistinctKeys(entries: Entries) {
    forall i, j :: 0 <= i < j < |entries| ==> entries[i].0 != entries[j].0
  }

  /** materials.get('task', 'No problem provided'), when it is absent or a string. */
  function TaskOf(entries: Entries): Option<string> {
    if entries == [] then Some(DefaultTask)
    else if entries[0].0 == Name("task") then (if entries[0].1.Text? then Some(entries[0].1.text) else None)
    else TaskOf(entries[1..])
  }

  /** All list items are strings. */
  predicate AllText(items: seq<Material>) {
    forall k :: 0 <= k < |items| ==> items[k].Text?
  }

  function Texts(items: seq<Material>): (r: seq<string>)
    requires AllText(items)
    ensures |r| == |items| && forall k :: 0 <= k < |items| ==> r[k] == items[k].text
  {
    seq(|items|, k requires 0 <= k < |items| => items[k].text)
  }

  /** The reference block for a key and its non-blank stripped value. */
  function Block(key: string, value: string): string {
    "\n\nReference information for " + key + ":" + Rule + value + Rule + "\n"
  }

  /**
   * What one entry adds to the question: nothing when its value carries the WebSearch
   * marker, when the key is not a string, when the key is 'task' or when the stripped value
   * is blank; a TypeError for a scalar or a list with a non-string item.
   */
  function Contribution(key: Key, value: Material): Result<string> {
    match value
    case Scalar => Raised("TypeError: argument is not iterable")
    case Container => Ok("")
    case Text(s) =>
      if Contains(s, UselessMarker) || !key.Name? then Ok("")
      else BlockFor(key.name, s)
    case Items(items) =>
      if Text(UselessMarker) in items then Ok("")
      else if !AllText(items) then Raised("TypeError: sequence item: expected str instance")
      else if !key.Name? then Ok("")
      else BlockFor(key.name, Join(Texts(items), "\n"))
  }

  /** value.strip("\n").strip(), then a block unless the key is 'task' or nothing is left. */
  function BlockFor(key: string, s: string): Result<string> {
    var v := Strip(StripChars(s, {'\n'}));
    if key != "task" && v != [] then Ok(Block(key, v)) else Ok("")
  }

  /** What each entry adds, in dictionary order. */
  function Contributions(entries: Entries): (r: seq<Result<string>>)
    ensures |r| == |entries| && forall i :: 0 <= i < |entries| ==> r[i] == Contribution(entries[i].0, entries[i].1)
  {
    seq(|entries|, i requires 0 <= i < |entries| => Contribution(entries[i].0, entries[i].1))
  }

  /** The pieces joined in order; the first exception stops the loop. */
  function Concat(pieces: seq<Result<string>>): Result<string> {
    if pieces == [] then Ok("")
    else
      match Concat(pieces[..|pieces| - 1])
      case Raised(e) => Raised(e)
      case Ok(b) =>
        match pieces[|pieces| - 1]
        case Raised(e) => Raised(e)
        case Ok(c) => Ok(b + c)
  }

  /** The blocks of the entries, in order. */
  function Blocks(entries: Entries): (r: Result<string>)
    ensures r.Raised? <==> exists i :: 0 <= i < |entries| && Contribution(entries[i].0, entries[i].1).Raised?
  {
    ConcatRaises(Contributions(entries));
    Concat(Contributions(entries))
  }

  /** Joining two runs of pieces: the first run's text followed by the second's, or the first exception. */
  lemma {:induction false} ConcatAppend(a: seq<Result<string>>, b: seq<Result<string>>)
    ensures Concat(a + b) == match Concat(a)
                             case Raised(e) => Raised(e)
                             case Ok(x) => (match Concat(b) case Raised(e) => Raised(e) case Ok(y) => Ok(x + y))
  {
    if b == [] {
      assert a + b == a;
      if Concat(a).Ok? {
        assert Concat(a).value + "" == Concat(a).value;
      }
    } else {
      var init, last := b[..|b| - 1], b[|b| - 1];
      ConcatAppend(a, init);
      assert (a + b)[..|a + b| - 1] == a + init && (a + b)[|a + b| - 1] == last;
      if Concat(a).Ok? && Concat(init).Ok? && last.Ok? {
        var x, y, c := Concat(a).value, Concat(init).value, last.value;
        assert x + y + c == x + (y + c);
      }
    }
  }

  /** The blocks of two dictionaries' entries in a row are the first's blocks followed by the second's. */
  lemma BlocksAppend(a: Entries, b: Entries)
    ensures Blocks(a + b) == match Blocks(a)
                             case Raised(e) => Raised(e)
                             case Ok(x) => (match Blocks(b) case Raised(e) => Raised(e) case Ok(y) => Ok(x + y))
  {
    assert Contributions(a + b) == Contributions(a) + Contributions(b);
    ConcatAppend(Contributions(a), Contributions(b));
  }

  /** Entries that add nothing: the 'task' key, a value carrying the marker, a non-string key on a string value. */
  lemma Ignored(key: Key, value: Material)
    ensures key == Name("task") && (value.Text? || (value.Items? && AllText(value.items))) ==> Contribution(key, value) == Ok("")
    ensures value.Text? && Contains(value.text, UselessMarker) ==> Contribution(key, value) == Ok("")
    ensures value.Items? && Text(UselessMarker) in value.items ==> Contribution(key, value) == Ok("")
    ensures value.Text? && !key.Name? ==> Contribution(key, value) == Ok("")
  {
  }

  /** A string value under another key adds exactly one block, holding the stripped value, unless that is blank. */
  lemma OneBlock(key: string, s: string)
    requires key != "task" && !Contains(s, UselessMarker)
    ensures var v := Strip(StripChars(s, {'\n'}));
      Contribution(Name(key), Text(s)) == Ok(if v == [] then "" else Block(key, v))
  {
  }

  /** get_combine_materials: the 'task' text, the blocks, and the request when avoid_vague is set. */
  function Combine(entries: Entries, avoidVague: bool): (r: Result<string>)
    requires TaskOf(entries).Some?
    ensures r.Raised? <==> Blocks(entries).Raised?
    ensures r.Ok? && avoidVague ==> |r.value| >= |AvoidVague| && r.value[|r.value| - |AvoidVague|..] == AvoidVague
  {
    match Blocks(entries)
    case Raised(e) => Raised(e)
    case Ok(b) => Ok(TaskOf(entries).value + b + (if avoidVague then AvoidVague else ""))
  }

  /** The question starts with the 'task' text (or the default), and with avoid_vague ends with the request, added once. */
  lemma CombineShape(entries: Entries, avoidVague: bool)
    requires TaskOf(entries).Some? && Combine(entries, avoidVague).Ok?
    ensures StartsWith(Combine(entries, avoidVague).value, TaskOf(entries).value)
    ensures avoidVague ==> Combine(entries, avoidVague).value == Combine(entries, false).value + AvoidVague
  {
    var t := TaskOf(entries).value;
    var b := Blocks(entries).value;
    var tail := if avoidVague then AvoidVague else "";
    assert Combine(entries, avoidVague).value == t + b + tail;
    assert (t + b + tail)[..|t|] == t;
    assert Combine(entries, false).value == t + b + "" == t + b;
  }

  /** get_combine_materials: the 'task' text, then the loop's blocks, then the request when avoid_vague is set. */
  method GetCombineMaterials(entries: Entries, avoidVague: bool) returns (r: Result<string>)
    requires TaskOf(entries).Some?
    ensures r == Combine(entries, avoidVague)
  {
    var question := TaskOf(entries).value;
    var blocks := ReferenceBlocks(entries);
    if blocks.Raised? {
      return Raised(blocks.reason);
    }
    question := question + blocks.value;
    if avoidVague {
      question := question + AvoidVague;
    } else {
      assert question + "" == question;
    }
    r := Ok(question);
  }

  /** The loop of get_combine_materials, entry by entry; the first exception stops it. */
  method ReferenceBlocks(entries: Entries) returns (r: Result<string>)
    ensures r == Blocks(entries)
  {
    ghost var pieces := Contributions(entries);
    var blocks := "";
    var i := 0;
    while i < |entries|
      invariant i <= |entries| && Concat(pieces[..i]) == Ok(blocks)
    {
      assert pieces[..i + 1][..i] == pieces[..i];
      var c := Contribution(entries[i].0, entries[i].1);
      assert pieces[..i + 1][i] == c;
      if c.Raised? {
        ConcatRaised(pieces, i + 1);
        return Raised(c.reason);
      }
      blocks := blocks + c.value;
      i := i + 1;
    }
    assert pieces[..i] == pieces;
    r := Ok(blocks);
  }

  /** The pieces raise exactly when one of them is an exception. */
  lemma {:induction false} ConcatRaises(pieces: seq<Result<string>>)
    ensures Concat(pieces).Raised? <==> exists k :: 0 <= k < |pieces| && pieces[k].Raised?
  {
    if pieces != [] {
      var init := pieces[..|pieces| - 1];
      ConcatRaises(init);
      assert forall k :: 0 <= k < |init| ==> init[k] == pieces[k];
    }
  }

  /** Once the loop raises, the whole run raises the same exception. */
  lemma {:induction false} ConcatRaised(pieces: seq<Result<string>>, i: nat)
    requires i <= |pieces| && Concat(pieces[..i]).Raised?
    ensures Concat(pieces) == Concat(pieces[..i])
    decreases |pieces| - i
  {
    if i < |pieces| {
      assert pieces[..i + 1][..i] == pieces[..i];
      ConcatRaised(pieces, i + 1);
    } else {
      assert pieces[..i] == pieces;
    }
  }
}
