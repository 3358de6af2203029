/**
 * The nested loops of Swarm.organize that enumerate connections: every node of one
 * agent paired with every node of every other agent. Written over lists of any
 * element type; the swarm uses them with the agents' node id lists.
 */
module Pairings {

  /** The lists one after the other. */
  function Flatten<T>(ss: seq<seq<T>>): seq<T> {
    if ss == [] then [] else Flatten(ss[..|ss| - 1]) + ss[|ss| - 1]
  }

  /** Flattening one more list appends it. */
  lemma FlattenSnoc<T>(ss: seq<seq<T>>, i: nat)
    requires i < |ss|
    ensures Flatten(ss[..i + 1]) == Flatten(ss[..i]) + ss[i]
  {
    assert ss[..i + 1][..i] == ss[..i];
  }

  /** Every position of the flattened list is a position of one of the lists. */
  lemma {:induction false} FlattenAt<T>(ss: seq<seq<T>>, p: nat) returns (k: nat, q: nat)
    requires p < |Flatten(ss)|
    ensures k < |ss| && q < |ss[k]| && Flatten(ss)[p] == ss[k][q]
  {
    var init := ss[..|ss| - 1];
    if p < |Flatten(init)| {
      k, q := FlattenAt(init, p);
      assert init[k] == ss[k];
    } else {
      k, q := |ss| - 1, p - |Flatten(init)|;
    }
  }

  /** Every element of one of the lists is in the flattened list. */
  lemma {:induction false} FlattenHas<T>(ss: seq<seq<T>>, k: nat, x: T)
    requires k < |ss| && x in ss[k]
    ensures x in Flatten(ss)
  {
    var init := ss[..|ss| - 1];
    if k < |ss| - 1 {
      assert init[k] == ss[k];
      FlattenHas(init, k, x);
    }
  }

  /** (x, y) for every y, in order. */
  function Row<T>(x: T, ys: seq<T>): seq<(T, T)> {
    if ys == [] then [] else Row(x, ys[..|ys| - 1]) + [(x, ys[|ys| - 1])]
  }

  /** (x, y) for every x and, inside that, every y. */
  function Grid<T>(xs: seq<T>, ys: seq<T>): seq<(T, T)> {
    if xs == [] then [] else Grid(xs[..|xs| - 1], ys) + Row(xs[|xs| - 1], ys)
  }

  lemma {:induction false} RowMembers<T>(x: T, ys: seq<T>, a: T, b: T)
    ensures (a, b) in Row(x, ys) <==> a == x && b in ys
  {
    if ys != [] {
      RowMembers(x, ys[..|ys| - 1], a, b);
      assert ys == ys[..|ys| - 1] + [ys[|ys| - 1]];
    }
  }

  /** The pairs of two lists are every x of the first with every y of the second. */
  lemma {:induction false} GridMembers<T>(xs: seq<T>, ys: seq<T>, a: T, b: T)
    ensures (a, b) in Grid(xs, ys) <==> a in xs && b in ys
  {
    if xs != [] {
      GridMembers(xs[..|xs| - 1], ys, a, b);
      RowMembers(xs[|xs| - 1], ys, a, b);
      assert xs == xs[..|xs| - 1] + [xs[|xs| - 1]];
    }
  }

  lemma {:induction false} RowSize<T>(x: T, ys: seq<T>)
    ensures |Row(x, ys)| == |ys|
  {
    if ys != [] {
      RowSize(x, ys[..|ys| - 1]);
    }
  }

  /** Two lists have |xs| * |ys| pairs. */
  lemma {:induction false} GridSize<T>(xs: seq<T>, ys: seq<T>)
    ensures |Grid(xs, ys)| == |xs| * |ys|
  {
    if xs != [] {
      GridSize(xs[..|xs| - 1], ys);
      RowSize(xs[|xs| - 1], ys);
      assert |xs| * |ys| == (|xs| - 1) * |ys| + |ys|;
    }
  }

  /** Appends Grid(xs, ys) to acc one pair at a time, as the two innermost loops do. */
  method AppendGrid<T>(acc: seq<(T, T)>, xs: seq<T>, ys: seq<T>) returns (r: seq<(T, T)>)
    ensures r == acc + Grid(xs, ys)
  {
    r := acc;
    for a := 0 to |xs|
      invariant r == acc + Grid(xs[..a], ys)
    {
      for b := 0 to |ys|
        invariant r == acc + Grid(xs[..a], ys) + Row(xs[a], ys[..b])
      {
        assert ys[..b + 1][..b] == ys[..b];
        r := r + [(xs[a], ys[b])];
      }
      assert ys[..|ys|] == ys;
      assert xs[..a + 1][..a] == xs[..a];
    }
    assert xs[..|xs|] == xs;
  }

  /** For list i, the pairs into each list j in turn; none into itself. */
  function Blocks<T>(lists: seq<seq<T>>, i: nat): (r: seq<seq<(T, T)>>)
    requires i < |lists|
    ensures |r| == |lists|
    ensures forall j :: 0 <= j < |lists| ==> r[j] == if i != j then Grid(lists[i], lists[j]) else []
  {
    seq(|lists|, j requires 0 <= j < |lists| => if i != j then Grid(lists[i], lists[j]) else [])
  }

  /** The pairs out of list i into lists 0 .. j - 1 other than itself. */
  function RowUpTo<T>(lists: seq<seq<T>>, i: nat, j: nat): seq<(T, T)>
    requires i < |lists| && j <= |lists|
  {
    if j == 0 then [] else RowUpTo(lists, i, j - 1) + (if i != j - 1 then Grid(lists[i], lists[j - 1]) else [])
  }

  /** The pairs out of list i into every other list. */
  function CrossRow<T>(lists: seq<seq<T>>, i: nat): seq<(T, T)>
    requires i < |lists|
  {
    RowUpTo(lists, i, |lists|)
  }

  /** The row so far is the blocks so far, one after the other. */
  lemma {:induction false} RowUpToBlocks<T>(lists: seq<seq<T>>, i: nat, j: nat)
    requires i < |lists| && j <= |lists|
    ensures RowUpTo(lists, i, j) == Flatten(Blocks(lists, i)[..j])
  {
    if j > 0 {
      RowUpToBlocks(lists, i, j - 1);
      FlattenSnoc(Blocks(lists, i), j - 1);
    }
  }

  /** A whole row is all of its blocks, one after the other. */
  lemma CrossRowBlocks<T>(lists: seq<seq<T>>, i: nat)
    requires i < |lists|
    ensures CrossRow(lists, i) == Flatten(Blocks(lists, i))
  {
    RowUpToBlocks(lists, i, |lists|);
    assert Blocks(lists, i)[..|lists|] == Blocks(lists, i);
  }

  /** For each list, its pairs into every other list. */
  function Rows<T>(lists: seq<seq<T>>): (r: seq<seq<(T, T)>>)
    ensures |r| == |lists| && forall i :: 0 <= i < |lists| ==> r[i] == CrossRow(lists, i)
  {
    seq(|lists|, i requires 0 <= i < |lists| => CrossRow(lists, i))
  }

  /** Every pair of elements of two different lists: first list, second list, first element, second element order. */
  function Cross<T>(lists: seq<seq<T>>): seq<(T, T)> {
    Flatten(Rows(lists))
  }

  /** One pass of the loop over the second list: the pairs into list j unless it is list i. */
  method AppendBlock<T>(r: seq<(T, T)>, ghost acc: seq<(T, T)>, lists: seq<seq<T>>, i: nat, j: nat) returns (r': seq<(T, T)>)
    requires i < |lists| && j < |lists| && r == acc + RowUpTo(lists, i, j)
    ensures r' == acc + RowUpTo(lists, i, j + 1)
  {
    r' := r;
    if i != j {
      r' := AppendGrid(r, lists[i], lists[j]);
    }
  }

  /** The loop over the second list for one first list. */
  method AppendRow<T>(acc: seq<(T, T)>, lists: seq<seq<T>>, i: nat) returns (r: seq<(T, T)>)
    requires i < |lists|
    ensures r == acc + CrossRow(lists, i)
  {
    r := acc;
    var j := 0;
    while j < |lists|
      invariant j <= |lists| && r == acc + RowUpTo(lists, i, j)
    {
      r := AppendBlock(r, acc, lists, i, j);
      j := j + 1;
    }
  }

  /** The four nested loops: every pair of elements of two different lists, in order. */
  method CrossPairs<T>(lists: seq<seq<T>>) returns (pairs: seq<(T, T)>)
    ensures pairs == Cross(lists)
  {
    var rows := Rows(lists);
    pairs := [];
    for i := 0 to |lists|
      invariant pairs == Flatten(rows[..i])
    {
      FlattenSnoc(rows, i);
      pairs := AppendRow(pairs, lists, i);
    }
    assert rows[..|lists|] == rows;
  }

  /** Every pair joins an element of one list to an element of a different list. */
  lemma CrossSound<T>(lists: seq<seq<T>>, p: nat) returns (i: nat, j: nat)
    requires p < |Cross(lists)|
    ensures i < |lists| && j < |lists| && i != j && Cross(lists)[p].0 in lists[i] && Cross(lists)[p].1 in lists[j]
  {
    var q;
    i, q := FlattenAt(Rows(lists), p);
    CrossRowBlocks(lists, i);
    var r;
    j, r := FlattenAt(Blocks(lists, i), q);
    var c := Cross(lists)[p];
    assert c in Grid(lists[i], lists[j]);
    GridMembers(lists[i], lists[j], c.0, c.1);
  }

  /** Every element of a list paired with every element of a different list is a pair. */
  lemma CrossComplete<T>(lists: seq<seq<T>>, i: nat, j: nat, x: T, y: T)
    requires i < |lists| && j < |lists| && i != j && x in lists[i] && y in lists[j]
    ensures (x, y) in Cross(lists)
  {
    GridMembers(lists[i], lists[j], x, y);
    FlattenHas(Blocks(lists, i), j, (x, y));
    CrossRowBlocks(lists, i);
    FlattenHas(Rows(lists), i, (x, y));
  }
}
