/**
 * Python's `random` module as an oracle: every call takes the value it draws as a
 * parameter (a natural number), and the functions here say which results that value
 * can produce and when the call raises instead.
 */
module Draws {
  import opened Wrappers

  /** random.randint(lo, hi): a number in lo .. hi; ValueError when the range is empty. */
  function RandInt(lo: int, hi: int, draw: nat): (r: Result<int>)
    ensures r.Ok? <==> lo <= hi
    ensures r.Ok? ==> lo <= r.value <= hi
  {
    if lo > hi then Raised("ValueError: empty range for randrange()")
    else Ok(lo + draw % (hi - lo + 1))
  }

  /** random.choice(xs): one element; IndexError on an empty sequence. */
  function Choice<T>(xs: seq<T>, draw: nat): (r: Result<T>)
    ensures r.Ok? <==> xs != []
    ensures r.Ok? ==> r.value in xs
  {
    if xs == [] then Raised("IndexError: Cannot choose from an empty sequence")
    else Ok(xs[draw % |xs|])
  }

  /** Every number of the range, and every element, is drawn by some value: the oracle loses no outcome. */
  lemma DrawsCoverAll<T>(lo: int, hi: int, v: int, xs: seq<T>, k: nat)
    ensures lo <= v <= hi ==> RandInt(lo, hi, v - lo) == Ok(v)
    ensures k < |xs| ==> Choice(xs, k) == Ok(xs[k])
  {
  }
}
