/**
 * The 5x5 mini-crossword environment of swarm/environment/domain/crosswords/env.py:
 * a board of 25 cells read row by row, the ten answers it spells (rows h1-h5,
 * then columns v1-v5), one status per clue, and a step counter.
 *
 * `Move` is the value-level meaning of env.step; the class `CrosswordsEnv` holds
 * the fields the Python object updates in place and applies it.
 */
module Crosswords {
  import opened Wrappers
  import opened Text

  /** An empty cell. */
  const Empty := '_'

  /** Clue statuses: never written, written, written and then changed by a crossing word. */
  const Unfilled := 0
  const Filled := 1
  const Changed := 2

  /** step returns done once this many steps were taken. */
  const MaxSteps := 20

  const FormatMessage := "Invalid! Format should be like \"h1. apple\""
  const PositionMessage := "Invalid! Position should be h1-h5 or v1-v5"
  const FilledMessage := "Invalid! You cannot change a filled letter."

  /** Cell t (0 .. 4) of clue k: clues 0 .. 4 are the rows, 5 .. 9 the columns. */
  function Cell(k: nat, t: nat): nat
    requires k < 10 && t < 5
  {
    if k < 5 then 5 * k + t else 5 * t + (k - 5)
  }

  /** Cell t of a row clue sits in that row at column t; cell t of a column clue in row t of that column. */
  lemma CellPosition(k: nat, t: nat)
    requires k < 10 && t < 5
    ensures k < 5 ==> Cell(k, t) / 5 == k && Cell(k, t) % 5 == t
    ensures k >= 5 ==> Cell(k, t) % 5 == k - 5 && Cell(k, t) / 5 == t
  {
  }

  /** get_ans: the five rows, then the five columns, each read as a word. */
  function GetAns(board: seq<char>): (ans: seq<string>)
    requires |board| == 25
    ensures |ans| == 10
    ensures forall k :: 0 <= k < 10 ==> |ans[k]| == 5
    ensures forall k, t :: 0 <= k < 10 && 0 <= t < 5 ==> ans[k][t] == board[Cell(k, t)]
  {
    seq(10, k requires 0 <= k < 10 =>
      if k < 5 then board[5 * k..5 * k + 5]
      else seq(5, t requires 0 <= t < 5 => board[5 * t + (k - 5)]))
  }

  /** Two boards with the same answers are the same board. */
  lemma AnsDetermineBoard(a: seq<char>, b: seq<char>)
    requires |a| == 25 && |b| == 25
    ensures GetAns(a) == GetAns(b) <==> a == b
  {
    if GetAns(a) == GetAns(b) {
      forall c | 0 <= c < 25
        ensures a[c] == b[c]
      {
        assert GetAns(a)[c / 5][c % 5] == GetAns(b)[c / 5][c % 5];
      }
    }
  }

  /** The number of positions where two lists agree, over the shorter length (sum over zip). */
  function CountSame<T(==)>(a: seq<T>, b: seq<T>): (n: nat)
    ensures n <= |a| && n <= |b|
  {
    if a == [] || b == [] then 0
    else CountSame(a[..|a| - 1], b[..|b| - 1]) + (if a[|a| - 1] == b[|b| - 1] && |a| == |b| then 1 else 0)
  }

  /** For lists of one length, every position agrees exactly when the lists are equal. */
  lemma {:induction false} CountSameAll<T>(a: seq<T>, b: seq<T>)
    requires |a| == |b|
    ensures CountSame(a, b) == |a| <==> a == b
  {
    if a != [] {
      CountSameAll(a[..|a| - 1], b[..|b| - 1]);
      if a[..|a| - 1] == b[..|b| - 1] && a[|a| - 1] == b[|b| - 1] {
        assert a == a[..|a| - 1] + [a[|a| - 1]] && b == b[..|b| - 1] + [b[|b| - 1]];
      }
    }
  }

  /** The fields step and reset update. */
  datatype State = State(board: seq<char>, ans: seq<string>, status: seq<int>, steps: int)

  /** The shape the environment keeps: 25 cells, the answers they spell, ten statuses. */
  ghost predicate StateOk(s: State) {
    |s.board| == 25 && s.ans == GetAns(s.board) && |s.status| == 10
  }

  /** A board with no letter. */
  function EmptyBoard(): (b: seq<char>)
    ensures |b| == 25 && forall c :: 0 <= c < 25 ==> b[c] == Empty
  {
    seq(25, c => Empty)
  }

  /** An ASCII decimal digit. */
  predicate IsDigit(c: char) {
    '0' <= c <= '9'
  }

  /** The digits int() accepts: ASCII digits, with single underscores between two digits. */
  predicate Numeral(b: string) {
    && b != [] && IsDigit(b[0]) && IsDigit(b[|b| - 1])
    && (forall k :: 0 <= k < |b| ==> IsDigit(b[k]) || b[k] == '_')
    && (forall k :: 0 <= k < |b| - 1 && b[k] == '_' ==> b[k + 1] != '_')
  }

  /** The value of a numeral, underscores skipped. */
  function DigitsValue(s: string): nat {
    if s == [] then 0
    else if s[|s| - 1] == '_' then DigitsValue(s[..|s| - 1])
    else
      var d := s[|s| - 1] as int - '0' as int;
      DigitsValue(s[..|s| - 1]) * 10 + (if 0 <= d <= 9 then d else 0)
  }

  /**
   * int(s) on a str: surrounding whitespace, an optional sign, then a numeral; anything
   * else is a ValueError.
   */
  function ParseInt(s: string): (r: Option<int>)
    ensures r.Some? ==> Strip(s) != []
  {
    var t := Strip(s);
    var signed := t != [] && (t[0] == '-' || t[0] == '+');
    var body := if signed then t[1..] else t;
    var v: int := DigitsValue(body);
    if !Numeral(body) then None
    else Some(if signed && t[0] == '-' then -v else v)
  }

  /** A single digit reads as its value. */
  lemma ParseDigit(d: char)
    requires IsDigit(d)
    ensures ParseInt([d]) == Some(d as int - '0' as int)
  {
    assert d !in Whitespace;
    assert TrimLeft([d], Whitespace) == [d];
    assert TrimRight([d], Whitespace) == [d];
    assert Strip([d]) == [d];
    assert Numeral([d]);
    assert [d][..0] == [];
    assert DigitsValue([d]) == DigitsValue([]) * 10 + (d as int - '0' as int);
  }

  /** What the action string of env.step asks for. */
  datatype Command =
    | BadFormat                                  // not exactly one ". " in the last line
    | BadPosition                                // the position starts with neither 'h' nor 'v'
    | BadNumber(text: string)                    // int() refuses what follows the letter
    | Place(across: bool, k: int, word: string)  // 'hK' / 'vK' and word[:5].upper()

  /** The parsing at the top of env.step: last line, split on ". ", then the position letter and number. */
  function ParseAction(action: string): (r: Command)
    ensures r.Place? ==> |r.word| <= 5 && forall t :: 0 <= t < |r.word| ==> !('a' <= r.word[t] <= 'z')
    ensures r.BadNumber? ==> ParseInt(r.text).None?
  {
    var lines := Split(action, "\n");
    var parts := Split(lines[|lines| - 1], ". ");
    if |parts| != 2 then BadFormat
    else
      var pos, word := parts[0], Upper(Take(parts[1], 5));
      if !StartsWith(pos, "h") && !StartsWith(pos, "v") then BadPosition
      else
        match ParseInt(Drop(pos, 1))
        case None => BadNumber(Drop(pos, 1))
        case Some(k) => Place(StartsWith(pos, "h"), k, word)
  }

  /** "hK. word" (or "vK. word") with one digit K and five lower-case letters reads as that placement. */
  lemma ParsePlacement(pos: string, word: string)
    requires |pos| == 2 && (pos[0] == 'h' || pos[0] == 'v') && IsDigit(pos[1])
    requires |word| == 5 && forall k :: 0 <= k < 5 ==> 'a' <= word[k] <= 'z'
    ensures ParseAction(pos + ". " + word) == Place(pos[0] == 'h', pos[1] as int - '0' as int, Upper(word))
  {
    var a := pos + ". " + word;
    // the action has no newline, so its last line is itself
    Absent(a, "\n");
    assert Split(a, "\n") == [a];
    SplitPlacement(pos, word);
    var lines := Split(a, "\n");
    var parts := Split(lines[|lines| - 1], ". ");
    assert parts == [pos, word];
    assert Take(parts[1], 5) == word;
    assert StartsWith(pos, "h") <==> pos[0] == 'h';
    assert StartsWith(pos, "h") || StartsWith(pos, "v");
    assert Drop(pos, 1) == [pos[1]];
    ParseDigit(pos[1]);
  }

  /** The only ". " of "hK. word" is the one after the position. */
  lemma SplitPlacement(pos: string, word: string)
    requires |pos| == 2 && pos[0] != '.' && pos[1] != '.'
    requires forall k :: 0 <= k < |word| ==> word[k] != '.'
    ensures Split(pos + ". " + word, ". ") == [pos, word]
  {
    var a := pos + ". " + word;
    Absent(word, ". ");
    assert Split(word, ". ") == [word];
    assert At(a, ". ", 2);
    FindFirst(a, ". ");
    assert Find(a, ". ") == Some(2);
    assert a[..2] == pos && a[4..] == word;
  }

  /** The clue a placement writes: row k - 1 or column k - 1. */
  function Clue(across: bool, k: int): nat
    requires 1 <= k
  {
    if across then k - 1 else k - 1 + 5
  }

  /** A placement the board can hold: K in 1 .. 5 and a word of five letters. */
  predicate Fits(k: int, word: string) {
    1 <= k <= 5 && |word| == 5
  }

  /** With allow_change=False: some filled cell of the clue holds a different letter. */
  predicate Conflict(board: seq<char>, clue: nat, word: string)
    requires |board| == 25 && clue < 10 && |word| == 5
  {
    exists t :: 0 <= t < 5 && board[Cell(clue, t)] != Empty && board[Cell(clue, t)] != word[t]
  }

  /** board[idx*5:(idx+1)*5] = list(word), for a row of the board and a five-letter word. */
  function WriteRow(board: seq<char>, idx: nat, word: string): (b: seq<char>)
    requires |board| == 25 && idx < 5 && |word| == 5
    ensures |b| == 25
    ensures forall c :: 0 <= c < 25 ==> b[c] == if c / 5 == idx then word[c % 5] else board[c]
  {
    board[..5 * idx] + word + board[5 * idx + 5..]
  }

  /** board[idx::5] = list(word): every fifth cell from idx. */
  function WriteColumn(board: seq<char>, idx: nat, word: string): (b: seq<char>)
    requires |board| == 25 && idx < 5 && |word| == 5
    ensures |b| == 25
    ensures forall c :: 0 <= c < 25 ==> b[c] == if c % 5 == idx then word[c / 5] else board[c]
  {
    seq(25, c requires 0 <= c < 25 => if c % 5 == idx then word[c / 5] else board[c])
  }

  /** A bound of a Python slice on a list of n elements: negative counts from the end, then clamped to 0 .. n. */
  function SliceBound(n: nat, i: int): (b: nat)
    ensures b <= n
  {
    if i < 0 then (if i + n < 0 then 0 else i + n) else if i > n then n else i
  }

  /**
   * board[idx*5:(idx+1)*5] = list(word) as Python performs it for any idx and any word:
   * the slice is replaced by the word whatever their lengths, so the list can grow or shrink.
   */
  function WriteRowAsWritten(board: seq<char>, idx: int, word: string): (b: seq<char>)
  {
    var lo := SliceBound(|board|, 5 * idx);
    var hi := SliceBound(|board|, 5 * idx + 5);
    board[..lo] + word + board[(if hi < lo then lo else hi)..]
  }

  /**
   * The row write as written keeps a 25-cell board only for a five-letter word in rows 1 .. 5:
   * "h1. cat" leaves 23 cells, "h6. apple" 30, "h0. apple" inserts the word before the
   * last row, so every later index of the board is off, and "h-1. apple" overwrites row 4.
   */
  lemma RowWriteResizes(board: seq<char>, idx: int, word: string)
    requires |board| == 25
    ensures 0 <= idx < 5 ==> |WriteRowAsWritten(board, idx, word)| == 20 + |word|
    ensures idx == 5 ==> |WriteRowAsWritten(board, idx, word)| == 25 + |word|
    ensures |WriteRowAsWritten(board, 0, "CAT")| == 23
    ensures WriteRowAsWritten(board, -1, "APPLE") == board[..20] + "APPLE" + board[20..]
    ensures WriteRowAsWritten(board, -2, "APPLE") == board[..15] + "APPLE" + board[20..]
  {
  }

  /** The write Move performs agrees with the one as written wherever the latter keeps the board's shape. */
  lemma RowWriteAgrees(board: seq<char>, idx: nat, word: string)
    requires |board| == 25 && idx < 5 && |word| == 5
    ensures WriteRowAsWritten(board, idx, word) == WriteRow(board, idx, word)
  {
  }

  /** Some letter of the old answer that was not '_' differs in the new one. */
  predicate Altered(old_: string, new_: string) {
    exists t :: 0 <= t < |old_| && t < |new_| && old_[t] != new_[t] && old_[t] != Empty
  }

  /** The status list after writing clue `clue`: it becomes filled, altered clues become changed. */
  function NewStatus(status: seq<int>, ans: seq<string>, newAns: seq<string>, clue: nat): (r: seq<int>)
    requires |status| == 10 && |ans| == 10 && |newAns| == 10 && clue < 10
    ensures |r| == 10
  {
    seq(10, j requires 0 <= j < 10 => if j == clue then Filled else if Altered(ans[j], newAns[j]) then Changed else status[j])
  }

  /** What step returns when it does not raise. */
  datatype Reply =
    | Rejected(message: string)
    | Observed(rGame: bool, done: bool, rLetter: nat, rWord: nat)

  /** The new fields and the reply (or the exception) of one step. */
  datatype Stepped = Stepped(state: State, reply: Result<Reply>)

  /** The reply after a write: game won, done, and the letter and word agreement counts (r_letter * 25, r_word * 10). */
  function Observe(board: seq<char>, steps: int, gt: seq<char>): (r: Reply)
    requires |board| == 25 && |gt| == 25
    ensures r.Observed? && r.rLetter <= 25 && r.rWord <= 10
    ensures r.done <==> r.rGame || steps >= MaxSteps
  {
    var won := board == gt;
    Observed(won, won || steps >= MaxSteps, CountSame(board, gt), CountSame(GetAns(board), GetAns(gt)))
  }

  /**
   * env.step(action, allow_change): the counter always advances; a malformed action is
   * answered with a message; a conflicting letter under allow_change=False raises before
   * anything is written; otherwise the word is written and the statuses are updated.
   */
  function Move(s: State, gt: seq<char>, action: string, allowChange: bool): (r: Stepped)
    requires StateOk(s) && |gt| == 25
    ensures StateOk(r.state) && r.state.steps == s.steps + 1
    ensures r.reply.Raised? || r.reply.value.Rejected? ==> r.state == s.(steps := s.steps + 1)
  {
    var s1 := s.(steps := s.steps + 1);
    match ParseAction(action)
    case BadFormat => Stepped(s1, Ok(Rejected(FormatMessage)))
    case BadPosition => Stepped(s1, Ok(Rejected(PositionMessage)))
    case BadNumber(text) => Stepped(s1, Raised("ValueError: invalid literal for int() with base 10: '" + text + "'"))
    case Place(across, k, word) =>
      if !(1 <= k <= 5) then Stepped(s1, Ok(Rejected(PositionMessage)))
      else if |word| != 5 then Stepped(s1, Ok(Rejected(FormatMessage)))
      else
        var clue := Clue(across, k);
        if !allowChange && Conflict(s.board, clue, word) then Stepped(s1, Raised(FilledMessage))
        else
          var board := if across then WriteRow(s.board, k - 1, word) else WriteColumn(s.board, k - 1, word);
          var ans := GetAns(board);
          Stepped(State(board, ans, NewStatus(s.status, s.ans, ans, clue), s1.steps), Ok(Observe(board, s1.steps, gt)))
  }

  /** A placement writes exactly the cells of its clue. */
  lemma StepWrites(s: State, gt: seq<char>, action: string, allowChange: bool)
    requires StateOk(s) && |gt| == 25
    requires ParseAction(action).Place? && Fits(ParseAction(action).k, ParseAction(action).word)
    requires allowChange || !Conflict(s.board, Clue(ParseAction(action).across, ParseAction(action).k), ParseAction(action).word)
    ensures var p := ParseAction(action); var b := Move(s, gt, action, allowChange).state.board;
      && Move(s, gt, action, allowChange).reply.Ok?
      && (forall t :: 0 <= t < 5 ==> b[Cell(Clue(p.across, p.k), t)] == p.word[t])
      && (forall c :: 0 <= c < 25 && (if p.across then c / 5 else c % 5) != p.k - 1 ==> b[c] == s.board[c])
  {
    var p := ParseAction(action);
    var b := if p.across then WriteRow(s.board, p.k - 1, p.word) else WriteColumn(s.board, p.k - 1, p.word);
    assert Move(s, gt, action, allowChange).state.board == b;
    forall t | 0 <= t < 5
      ensures b[Cell(Clue(p.across, p.k), t)] == p.word[t]
    {
      CellPosition(Clue(p.across, p.k), t);
    }
  }

  /** With allow_change=False a filled letter never changes: the step raises instead. */
  lemma StepKeepsFilled(s: State, gt: seq<char>, action: string)
    requires StateOk(s) && |gt| == 25
    ensures var r := Move(s, gt, action, false);
      forall c :: 0 <= c < 25 && s.board[c] != Empty ==> r.state.board[c] == s.board[c]
  {
    var r := Move(s, gt, action, false);
    var p := ParseAction(action);
    if p.Place? && Fits(p.k, p.word) && !Conflict(s.board, Clue(p.across, p.k), p.word) {
      forall c | 0 <= c < 25 && s.board[c] != Empty
        ensures r.state.board[c] == s.board[c]
      {
        if p.across && c / 5 == p.k - 1 {
          assert Cell(Clue(p.across, p.k), c % 5) == c;
        } else if !p.across && c % 5 == p.k - 1 {
          assert Cell(Clue(p.across, p.k), c / 5) == c;
        }
      }
    }
  }

  /** A fitting placement with allow_change=False raises exactly when it conflicts with a filled letter. */
  lemma StepRaisesOnConflict(s: State, gt: seq<char>, action: string)
    requires StateOk(s) && |gt| == 25
    requires ParseAction(action).Place? && Fits(ParseAction(action).k, ParseAction(action).word)
    ensures Move(s, gt, action, false).reply.Raised?
        <==> Conflict(s.board, Clue(ParseAction(action).across, ParseAction(action).k), ParseAction(action).word)
  {
  }

  /** After a write the written clue is filled, a clue with an altered letter is changed, the rest keep their status. */
  lemma StepStatus(s: State, gt: seq<char>, action: string, allowChange: bool, j: nat)
    requires StateOk(s) && |gt| == 25 && j < 10
    requires Move(s, gt, action, allowChange).reply.Ok? && Move(s, gt, action, allowChange).reply.value.Observed?
    ensures var r := Move(s, gt, action, allowChange); var p := ParseAction(action);
      && p.Place?
      && r.state.status[j] == (if j == Clue(p.across, p.k) then Filled
                               else if Altered(s.ans[j], r.state.ans[j]) then Changed else s.status[j])
  {
  }

  /** A clue crossing nothing that changed keeps its letters, so it is never marked changed. */
  lemma UntouchedNotAltered(s: State, gt: seq<char>, action: string, allowChange: bool)
    requires StateOk(s) && |gt| == 25
    requires Move(s, gt, action, allowChange).reply.Ok? && Move(s, gt, action, allowChange).reply.value.Observed?
    ensures var r := Move(s, gt, action, allowChange);
      forall j :: 0 <= j < 10 && r.state.ans[j] == s.ans[j] ==> r.state.status[j] == s.status[j] || r.state.status[j] == Filled
  {
  }

  /** done: the board is solved or the step budget is spent; the game is won exactly when every letter and every word agree. */
  lemma ObserveMeaning(board: seq<char>, steps: int, gt: seq<char>)
    requires |board| == 25 && |gt| == 25
    ensures Observe(board, steps, gt).done <==> board == gt || steps >= MaxSteps
    ensures Observe(board, steps, gt).rLetter <= 25 && Observe(board, steps, gt).rWord <= 10
    ensures Observe(board, steps, gt).rGame <==> Observe(board, steps, gt).rLetter == 25
    ensures Observe(board, steps, gt).rGame <==> Observe(board, steps, gt).rWord == 10
  {
    CountSameAll(board, gt);
    CountSameAll(GetAns(board), GetAns(gt));
    AnsDetermineBoard(board, gt);
  }

  /** One puzzle of the data file: the ten clues and the solution board. */
  datatype Puzzle = Puzzle(data: seq<string>, boardGt: seq<char>)

  /** file[idx] with Python's negative indices; IndexError outside. */
  function PyIndex(n: nat, idx: int): (r: Option<nat>)
    ensures r.Some? ==> r.value < n
    ensures r.Some? <==> -(n as int) <= idx < n
  {
    if 0 <= idx < n then Some(idx) else if -(n as int) <= idx < 0 then Some(idx + n) else None
  }

  class CrosswordsEnv {
    const file: seq<Puzzle>
    var idx: int
    var data: seq<string>
    var boardGt: seq<char>
    var ansGt: seq<string>
    var board: seq<char>
    var ans: seq<string>
    var status: seq<int>
    var steps: int
    var hints: seq<string>
    var extendable: bool

    ghost predicate Valid()
      reads this
    {
      && (forall p :: p in file ==> |p.boardGt| == 25)
      && |boardGt| == 25 && ansGt == GetAns(boardGt)
      && StateOk(State(board, ans, status, steps))
    }

    function CurrentState(): State
      reads this
    {
      State(board, ans, status, steps)
    }

    /** MiniCrosswordsEnv(file): no puzzle chosen yet (idx -1); the board fields hold an empty board until the first reset. */
    constructor (file: seq<Puzzle>)
      requires forall p :: p in file ==> |p.boardGt| == 25
      ensures Valid() && this.file == file && idx == -1 && extendable
      ensures board == EmptyBoard() && steps == 0
    {
      this.file := file;
      idx := -1;
      extendable := true;
      data, hints := [], [];
      boardGt := EmptyBoard();
      ansGt := GetAns(EmptyBoard());
      board := EmptyBoard();
      ans := GetAns(EmptyBoard());
      status := seq(10, j => Unfilled);
      steps := 0;
    }

    /** deepcopy(env): a new environment with the same fields. */
    constructor Copy(other: CrosswordsEnv)
      requires other.Valid()
      ensures Valid() && file == other.file && idx == other.idx && data == other.data
      ensures boardGt == other.boardGt && ansGt == other.ansGt && CurrentState() == other.CurrentState()
      ensures hints == other.hints && extendable == other.extendable
    {
      file, idx, data := other.file, other.idx, other.data;
      boardGt, ansGt := other.boardGt, other.ansGt;
      board, ans, status, steps := other.board, other.ans, other.status, other.steps;
      hints, extendable := other.hints, other.extendable;
    }

    /**
     * reset(idx, board, status, steps): load puzzle idx (the current one when idx is None),
     * then an empty board, '_____' answers, unfilled statuses and no steps, each replaced by
     * the argument when one is given. idx is stored before the puzzle is looked up, so an
     * index outside the file (IndexError, `ok` false) still changes idx.
     */
    method Reset(newIdx: Option<int>, newBoard: Option<seq<char>>, newStatus: Option<seq<int>>, newSteps: Option<int>)
      returns (ok: bool)
      requires Valid()
      requires newBoard.Some? ==> |newBoard.value| == 25
      requires newStatus.Some? ==> |newStatus.value| == 10
      modifies this
      ensures Valid()
      ensures var i := if newIdx.Some? then newIdx.value else old(idx);
        ok <==> PyIndex(|file|, i).Some?
      ensures ok ==> && idx == (if newIdx.Some? then newIdx.value else old(idx))
                     && boardGt == file[PyIndex(|file|, idx).value].boardGt
                     && data == file[PyIndex(|file|, idx).value].data
                     && board == (if newBoard.Some? then newBoard.value else EmptyBoard())
                     && ans == GetAns(board)
                     && status == (if newStatus.Some? then newStatus.value else seq(10, j => Unfilled))
                     && steps == (if newSteps.Some? then newSteps.value else 0)
                     && hints == (if newIdx.Some? then [] else old(hints))
                     && extendable
      ensures !ok ==> && idx == (if newIdx.Some? then newIdx.value else old(idx))
                      && hints == (if newIdx.Some? then [] else old(hints))
                      && CurrentState() == old(CurrentState())
    {
      var i := idx;
      if newIdx.Some? {
        i := newIdx.value;
        hints := [];
      }
      extendable := true;
      idx := i;
      var at := PyIndex(|file|, i);
      if at.None? {
        return false;
      }
      Load(at.value, if newBoard.Some? then newBoard.value else EmptyBoard(),
           if newStatus.Some? then newStatus.value else seq(10, j => Unfilled),
           if newSteps.Some? then newSteps.value else 0);
      ok := true;
    }

    /** The puzzle fields of file[at] and the given board, statuses and step count. */
    method Load(at: nat, b: seq<char>, st: seq<int>, n: int)
      requires Valid() && at < |file| && |b| == 25 && |st| == 10
      modifies this`data, this`boardGt, this`ansGt, this`board, this`ans, this`status, this`steps
      ensures Valid() && data == file[at].data && boardGt == file[at].boardGt
      ensures CurrentState() == State(b, GetAns(b), st, n)
    {
      var puzzle := file[at];
      assert puzzle in file;
      data, boardGt, ansGt := puzzle.data, puzzle.boardGt, GetAns(puzzle.boardGt);
      board, ans, status, steps := b, GetAns(b), st, n;
    }

    /** step(action, allow_change): the fields become those of Move, which also gives the reply or the exception. */
    method Step(action: string, allowChange: bool) returns (reply: Result<Reply>)
      requires Valid()
      modifies this`board, this`ans, this`status, this`steps
      ensures Valid()
      ensures CurrentState() == Move(old(CurrentState()), boardGt, action, allowChange).state
      ensures reply == Move(old(CurrentState()), boardGt, action, allowChange).reply
    {
      var r := Move(CurrentState(), boardGt, action, allowChange);
      board, ans, status, steps := r.state.board, r.state.ans, r.state.status, r.state.steps;
      reply := r.reply;
    }

    /** r_word, r_letter and r_game, as counts: answers and cells that agree with the solution. */
    function Scores(): (r: (nat, nat, bool))
      reads this
      requires Valid()
      ensures r.0 <= 10 && r.1 <= 25 && (r.2 <==> r.0 == 10) && (r.2 <==> r.1 == 25)
    {
      CountSameAll(ans, ansGt);
      CountSameAll(board, boardGt);
      AnsDetermineBoard(board, boardGt);
      (CountSame(ans, ansGt), CountSame(board, boardGt), board == boardGt)
    }
  }
}
