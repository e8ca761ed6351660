/** Python's prefix slice `xs[:n]` on sequences. */
module Slices {

  /**
   * `xs[:n]`: the first `n` elements (all of them when there are fewer); a negative `n`
   * counts from the end, dropping the last `-n` elements.
   */
  function Head<T>(xs: seq<T>, n: int): (r: seq<T>)
    ensures |r| <= |xs| && r == xs[..|r|]
    ensures n >= 0 ==> |r| == if n < |xs| then n else |xs|
    ensures n < 0 ==> |r| == if |xs| + n < 0 then 0 else |xs| + n
  {
    if n >= 0 then (if n < |xs| then xs[..n] else xs)
    else if |xs| + n < 0 then [] else xs[..|xs| + n]
  }
}
