/** Two-dimensional integer rasters (label maps, masks) as sequences of
    rows, and the bounds a Python slice `a[start:stop]` selects. */
module Grid {

  /** Every row of `g` has `w` columns. */
  predicate IsGrid(g: seq<seq<int>>, w: nat) {
    forall i :: 0 <= i < |g| ==> |g[i]| == w
  }

  /** Python's normalisation of one slice bound against a length `n`:
      a negative bound counts from the end, then it is clamped to [0, n]. */
  function SliceBound(b: int, n: nat): (r: nat)
    ensures r <= n
    ensures 0 <= b <= n ==> r == b
    ensures b > n ==> r == n
    ensures -(n as int) <= b < 0 ==> r == b + n as int
    ensures b < -(n as int) ==> r == 0
  {
    var c := if b < 0 then b + n else b;
    if c < 0 then 0 else if c > n then n else c
  }

  /** The index range [lo, hi) of `a[start:stop]` for a sequence of length n. */
  function SliceRange(start: int, stop: int, n: nat): (r: (nat, nat))
    ensures r.0 <= r.1 <= n
  {
    var lo := SliceBound(start, n);
    var hi := SliceBound(stop, n);
    (lo, if hi < lo then lo else hi)
  }

  /** `max(0, min(v, n - 1))`: a coordinate clamped into [0, n). */
  function ClampInto(v: int, n: int): (r: int)
    ensures r >= 0
    ensures n >= 1 ==> r < n
    ensures 0 <= v < n ==> r == v
    ensures n >= 1 && v >= n ==> r == n - 1
  {
    var m := if v < n - 1 then v else n - 1;
    if m > 0 then m else 0
  }
}
