/**
 * The Python string operations the parsers of the project rely on, on strings of
 * characters: `in`, `find`, `split(sep)`, `sep.join`, `strip`, `startswith`,
 * `lower` and `upper`.
 */
module Text {
  import opened Wrappers

  /** s[i..i + |sub|] == sub. */
  predicate At(s: string, sub: string, i: nat) {
    i + |sub| <= |s| && s[i..i + |sub|] == sub
  }

  /** str.find: the first position where sub occurs, or none. */
  function Find(s: string, sub: string): (r: Option<nat>)
    ensures r.Some? ==> r.value + |sub| <= |s|
    decreases |s|
  {
    if |s| < |sub| then None
    else if s[..|sub|] == sub then Some(0)
    else
      match Find(s[1..], sub)
      case None => None
      case Some(k) => Some(k + 1)
  }

  /** An occurrence past the first character is an occurrence in the rest. */
  lemma AtShift(s: string, sub: string, j: nat)
    requires 1 <= j
    ensures |s| >= 1 ==> (At(s, sub, j) <==> At(s[1..], sub, j - 1))
  {
    if |s| >= 1 && j + |sub| <= |s| {
      var u, v := s[j..j + |sub|], s[1..][j - 1..j - 1 + |sub|];
      forall k | 0 <= k < |sub|
        ensures u[k] == v[k]
      {
        assert u[k] == s[j + k] && v[k] == s[1..][j - 1 + k];
      }
      assert u == v;
    }
  }

  /** Find gives the first occurrence, and none only when there is none. */
  lemma {:induction false} FindFirst(s: string, sub: string)
    ensures Find(s, sub).Some? ==> At(s, sub, Find(s, sub).value)
    ensures forall j :: 0 <= j <= |s| && At(s, sub, j) ==> Find(s, sub).Some? && Find(s, sub).value <= j
    decreases |s|
  {
    if |s| >= |sub| && s[..|sub|] != sub {
      FindFirst(s[1..], sub);
      forall j | 1 <= j <= |s| {
        AtShift(s, sub, j);
      }
    }
  }

  /** A string without the first character of sub does not contain sub. */
  lemma Absent(s: string, sub: string)
    requires sub != [] && forall k :: 0 <= k < |s| ==> s[k] != sub[0]
    ensures Find(s, sub) == None
  {
    forall j: nat | j + |sub| <= |s|
      ensures !At(s, sub, j)
    {
      assert s[j..j + |sub|][0] == s[j];
    }
    FindFirst(s, sub);
  }

  /** sub in s. */
  predicate Contains(s: string, sub: string) {
    Find(s, sub).Some?
  }

  /** s.startswith(p). */
  predicate StartsWith(s: string, p: string) {
    |p| <= |s| && s[..|p|] == p
  }

  /** s.split(sep) for a non-empty separator: the pieces between the occurrences, left to right. */
  function Split(s: string, sep: string): (r: seq<string>)
    requires sep != []
    ensures r != []
    decreases |s|
  {
    match Find(s, sep)
    case None => [s]
    case Some(i) => [s[..i]] + Split(s[i + |sep|..], sep)
  }

  /** sep.join(parts). */
  function Join(parts: seq<string>, sep: string): string {
    if parts == [] then ""
    else if |parts| == 1 then parts[0]
    else parts[0] + sep + Join(parts[1..], sep)
  }

  /** Joining the pieces of a split with the same separator gives the string back. */
  lemma {:induction false} SplitJoin(s: string, sep: string)
    requires sep != []
    ensures Join(Split(s, sep), sep) == s
    decreases |s|
  {
    match Find(s, sep)
    case None =>
    case Some(i) =>
      var rest := s[i + |sep|..];
      FindFirst(s, sep);
      SplitJoin(rest, sep);
      assert Split(s, sep) == [s[..i]] + Split(rest, sep);
      assert s == s[..i] + sep + rest by {
        assert s[i..i + |sep|] == sep;
      }
  }

  /** Splitting on one character the pieces joined with it gives the pieces back, when none holds that character. */
  lemma {:induction false} JoinSplit(parts: seq<string>, c: char)
    requires parts != [] && forall p :: p in parts ==> c !in p
    ensures Split(Join(parts, [c]), [c]) == parts
  {
    var head := parts[0];
    assert head in parts;
    forall k | 0 <= k < |head|
      ensures head[k] != [c][0]
    {
      assert head[k] in head;
    }
    Absent(head, [c]);
    if |parts| > 1 {
      var rest := Join(parts[1..], [c]);
      var s := head + [c] + rest;
      FindFirst(s, [c]);
      assert At(s, [c], |head|);
      assert s[|head| + 1..] == rest;
      assert s[..|head|] == head;
      JoinSplit(parts[1..], c);
    }
  }

  /** No piece of a split contains the separator. */
  lemma {:induction false} SplitPieces(s: string, sep: string)
    requires sep != []
    ensures forall p :: p in Split(s, sep) ==> !Contains(p, sep)
    decreases |s|
  {
    match Find(s, sep)
    case None =>
    case Some(i) =>
      SplitPieces(s[i + |sep|..], sep);
      var head := s[..i];
      FindFirst(s, sep);
      if Contains(head, sep) {
        FindFirst(head, sep);
        var j := Find(head, sep).value;
        assert s[j..j + |sep|] == head[j..j + |sep|];
        assert At(s, sep, j);
      }
  }

  /** str.isspace for one character: the ASCII whitespace characters. */
  predicate IsSpace(c: char) {
    c == ' ' || c == '\t' || c == '\n' || c == '\r' || c == '\U{0B}' || c == '\U{0C}'
    || c == '\U{1C}' || c == '\U{1D}' || c == '\U{1E}' || c == '\U{1F}'
  }

  /** Leading characters of the set removed. */
  function TrimLeft(s: string, cs: set<char>): string {
    if s != [] && s[0] in cs then TrimLeft(s[1..], cs) else s
  }

  /** Trailing characters of the set removed. */
  function TrimRight(s: string, cs: set<char>): string {
    if s != [] && s[|s| - 1] in cs then TrimRight(s[..|s| - 1], cs) else s
  }

  /** TrimLeft drops a prefix of characters of the set and stops at the first other one. */
  lemma {:induction false} TrimLeftSpec(s: string, cs: set<char>)
    ensures var r := TrimLeft(s, cs);
      && |r| <= |s| && r == s[|s| - |r|..]
      && (r == [] || r[0] !in cs)
      && (forall k :: 0 <= k < |s| - |r| ==> s[k] in cs)
  {
    if s != [] && s[0] in cs {
      TrimLeftSpec(s[1..], cs);
    }
  }

  /** TrimRight drops a suffix of characters of the set and stops at the last other one. */
  lemma {:induction false} TrimRightSpec(s: string, cs: set<char>)
    ensures var r := TrimRight(s, cs);
      && |r| <= |s| && r == s[..|r|]
      && (r == [] || r[|r| - 1] !in cs)
      && (forall k :: |r| <= k < |s| ==> s[k] in cs)
  {
    if s != [] && s[|s| - 1] in cs {
      TrimRightSpec(s[..|s| - 1], cs);
    }
  }

  /** A prefix made only of characters of the set is trimmed away entirely. */
  lemma {:induction false} TrimLeftPrefix(p: string, q: string, cs: set<char>)
    requires forall k :: 0 <= k < |p| ==> p[k] in cs
    ensures TrimLeft(p + q, cs) == TrimLeft(q, cs)
  {
    if p != [] {
      assert (p + q)[0] == p[0] && p[0] in cs;
      assert (p + q)[1..] == p[1..] + q;
      TrimLeftPrefix(p[1..], q, cs);
    } else {
      assert p + q == q;
    }
  }

  /** s.strip(chars): the characters of the set removed from both ends. */
  function StripChars(s: string, cs: set<char>): string {
    TrimRight(TrimLeft(s, cs), cs)
  }

  /** What strip keeps is one slice of the string, cut only at characters of the set, with no such character at either end. */
  lemma StripSlice(s: string, cs: set<char>) returns (i: nat, j: nat)
    ensures i <= j <= |s| && StripChars(s, cs) == s[i..j]
    ensures forall k :: 0 <= k < i || j <= k < |s| ==> s[k] in cs
    ensures i < j ==> s[i] !in cs && s[j - 1] !in cs
  {
    var l := TrimLeft(s, cs);
    var r := TrimRight(l, cs);
    TrimLeftSpec(s, cs);
    TrimRightSpec(l, cs);
    i := |s| - |l|;
    j := i + |r|;
    assert r == s[i..j];
    forall k | j <= k < |s|
      ensures s[k] in cs
    {
      assert s[k] == l[k - i];
    }
  }

  const Whitespace: set<char> := {' ', '\t', '\n', '\r', '\U{0B}', '\U{0C}', '\U{1C}', '\U{1D}', '\U{1E}', '\U{1F}'}

  lemma WhitespaceIsSpace(c: char)
    ensures c in Whitespace <==> IsSpace(c)
  {
  }

  /** s.strip(): whitespace removed from both ends. */
  function Strip(s: string): (r: string)
    ensures r == [] || (!IsSpace(r[0]) && !IsSpace(r[|r| - 1]))
    ensures |r| <= |s|
  {
    StripsSpace(s);
    StripChars(s, Whitespace)
  }

  /** Stripping whitespace leaves a string that neither starts nor ends with a space. */
  lemma StripsSpace(s: string)
    ensures var r := StripChars(s, Whitespace); |r| <= |s| && (r == [] || (!IsSpace(r[0]) && !IsSpace(r[|r| - 1])))
  {
    var i, j := StripSlice(s, Whitespace);
    if i < j {
      WhitespaceIsSpace(s[i]);
      WhitespaceIsSpace(s[j - 1]);
    }
  }

  /** s.strip() is empty, i.e. `not s.strip()`: every character is whitespace. */
  predicate Blank(s: string) {
    forall k :: 0 <= k < |s| ==> IsSpace(s[k])
  }

  lemma BlankStrip(s: string)
    ensures Strip(s) == [] <==> Blank(s)
  {
    var i, j := StripSlice(s, Whitespace);
    if Strip(s) == [] {
      forall k | 0 <= k < |s| ensures IsSpace(s[k]) {
        WhitespaceIsSpace(s[k]);
      }
    } else {
      WhitespaceIsSpace(s[i]);
    }
  }

  /** str.lower on one ASCII character. */
  function LowerChar(c: char): char {
    if 'A' <= c <= 'Z' then (c as int + 32) as char else c
  }

  /** str.upper on one ASCII character. */
  function UpperChar(c: char): char {
    if 'a' <= c <= 'z' then (c as int - 32) as char else c
  }

  function Lower(s: string): (r: string)
    ensures |r| == |s| && forall k :: 0 <= k < |s| ==> r[k] == LowerChar(s[k])
  {
    seq(|s|, k requires 0 <= k < |s| => LowerChar(s[k]))
  }

  function Upper(s: string): (r: string)
    ensures |r| == |s| && forall k :: 0 <= k < |s| ==> r[k] == UpperChar(s[k])
  {
    seq(|s|, k requires 0 <= k < |s| => UpperChar(s[k]))
  }

  /** s[:n]: at most the first n characters. */
  function Take<T>(s: seq<T>, n: nat): (r: seq<T>)
    ensures |r| == if n < |s| then n else |s|
    ensures r == s[..|r|]
  {
    if n < |s| then s[..n] else s
  }

  /** s[n:]: everything after the first n characters, or nothing. */
  function Drop<T>(s: seq<T>, n: nat): (r: seq<T>)
    ensures s == Take(s, n) + r
  {
    if n < |s| then s[n..] else []
  }
}
