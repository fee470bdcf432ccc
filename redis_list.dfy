/** The reading of a Redis list by index range, which the stores rely on. Indices
    follow Redis: negative ones count from the end, both ends are included, and out of
    range indices are clamped. */
module RedisList {
  /** `LRANGE key start stop` on the list `xs`. */
  function LRange<T>(xs: seq<T>, start: int, stop: int): (r: seq<T>)
    ensures |r| <= |xs|
  {
    var n := |xs|;
    var s0 := if start < 0 then n + start else start;
    var e0 := if stop < 0 then n + stop else stop;
    var s := if s0 < 0 then 0 else s0;
    if s > e0 || s >= n then []
    else
      var e := if e0 >= n then n - 1 else e0;
      xs[s..e + 1]
  }

  /** The whole list is read by the range 0 .. -1. */
  lemma LRangeAll<T>(xs: seq<T>)
    ensures LRange(xs, 0, -1) == xs
  {
  }

  /** Reading forward from `start` in windows of `size`: the window is the next `size`
      elements, or what is left of them. */
  lemma LRangeWindow<T>(xs: seq<T>, start: nat, size: nat)
    requires size >= 1
    ensures start >= |xs| ==> LRange(xs, start, start + size - 1) == []
    ensures start < |xs| && start + size <= |xs| ==> LRange(xs, start, start + size - 1) == xs[start..start + size]
    ensures start < |xs| && start + size > |xs| ==> LRange(xs, start, start + size - 1) == xs[start..]
  {
  }
}
