/**
 * The one-dimensional lookup machinery used by `calculate_zntol`: sorting the
 * keys of a table, picking the key nearest to a query, and linear
 * interpolation with extrapolation along the first and last segments
 * (the behaviour of `interp1d(kind='linear', fill_value="extrapolate")`).
 */
module Interp {
  import opened Common

  predicate StrictlyIncreasing(xs: seq<real>)
  {
    forall i, j | 0 <= i < j < |xs| :: xs[i] < xs[j]
  }

  predicate NonIncreasing(ys: seq<real>)
  {
    forall i, j | 0 <= i < j < |ys| :: ys[i] >= ys[j]
  }

  /** Every non-empty finite set of reals has a least element. */
  lemma {:induction false} LeastExists(s: set<real>)
    requires s != {}
    ensures exists m :: m in s && forall x | x in s :: m <= x
  {
    var y := NonEmptyHas(s);
    if s == {y} {
      assert forall x | x in s :: y <= x;
    } else {
      LeastExists(s - {y});
      var m :| m in s - {y} && forall x | x in s - {y} :: m <= x;
      if y < m {
        forall x | x in s ensures y <= x {
          if x != y { assert x in s - {y}; }
        }
      } else {
        forall x | x in s ensures m <= x {
          if x != y { assert x in s - {y}; }
        }
      }
    }
  }

  function Least(s: set<real>): (m: real)
    requires s != {}
    ensures m in s
    ensures forall x | x in s :: m <= x
  {
    LeastExists(s);
    var m :| m in s && forall x | x in s :: m <= x;
    m
  }

  /** Python's `sorted(d.keys())`: the keys in ascending order, each once. */
  function SortedKeys(s: set<real>): (r: seq<real>)
    ensures StrictlyIncreasing(r)
    ensures |r| == |s|
    ensures forall x :: x in r <==> x in s
    decreases |s|
  {
    if s == {} then []
    else
      var m := Least(s);
      [m] + SortedKeys(s - {m})
  }

  /**
   * Python's `min(ks, key=lambda x: abs(x - t))`, as an index: the FIRST
   * position whose distance to `t` is smallest (min keeps the earliest of equals).
   */
  function ClosestIndex(ks: seq<real>, t: real): (i: nat)
    requires |ks| > 0
    ensures i < |ks|
    ensures forall m | 0 <= m < |ks| :: Abs(ks[i] - t) <= Abs(ks[m] - t)
    ensures forall m | 0 <= m < i :: Abs(ks[m] - t) > Abs(ks[i] - t)
  {
    if |ks| == 1 then 0
    else
      var best := ClosestIndex(ks[..|ks| - 1], t);
      if Abs(ks[|ks| - 1] - t) < Abs(ks[best] - t) then |ks| - 1 else best
  }

  /** Over ascending keys, a tie between two equally near keys goes to the lower one. */
  lemma ClosestTieGoesLow(ks: seq<real>, t: real, m: nat)
    requires |ks| > 0 && StrictlyIncreasing(ks)
    requires m < |ks| && Abs(ks[m] - t) == Abs(ks[ClosestIndex(ks, t)] - t)
    ensures ks[ClosestIndex(ks, t)] <= ks[m]
  {
  }

  /**
   * `np.searchsorted(xs, x)` with the default side='left' on ascending `xs`:
   * the first index whose sample is at least `x`, or |xs| when there is none.
   */
  function SearchLeft(xs: seq<real>, x: real): (n: nat)
    ensures n <= |xs|
    ensures forall k | 0 <= k < n :: xs[k] < x
    ensures n < |xs| ==> x <= xs[n]
  {
    if |xs| == 0 || x <= xs[0] then 0 else 1 + SearchLeft(xs[1..], x)
  }

  /**
   * The segment interp1d evaluates for `x`: the search index clipped to
   * [1, |xs| - 1], minus one; the segment runs from `lo` to `lo + 1`.
   */
  function Segment(xs: seq<real>, x: real): (lo: nat)
    requires |xs| >= 2
    ensures lo + 1 < |xs|
    // the segment holding x, or an end segment when x lies outside the samples
    ensures xs[lo] < x <= xs[lo + 1] || (lo == 0 && x <= xs[0]) || (lo == |xs| - 2 && x > xs[|xs| - 1])
  {
    var idx := SearchLeft(xs, x);
    var clipped := if idx < 1 then 1 else if idx > |xs| - 1 then |xs| - 1 else idx;
    clipped - 1
  }

  /** The straight line through (x0, y0) and (x1, y1), evaluated at x. */
  function Line(x0: real, y0: real, x1: real, y1: real, x: real): real
    requires x0 != x1
  {
    (y1 - y0) / (x1 - x0) * (x - x0) + y0
  }

  /** Piecewise-linear interpolation through (xs[k], ys[k]); outside the samples the end segments are extended. */
  function Interpolate(xs: seq<real>, ys: seq<real>, x: real): (y: real)
    requires |xs| >= 2 && |ys| == |xs| && StrictlyIncreasing(xs)
    // below the second sample the first segment is extended; above the last but one, the last segment
    ensures x <= xs[1] ==> y == Line(xs[0], ys[0], xs[1], ys[1], x)
    ensures x > xs[|xs| - 2] ==> y == Line(xs[|xs| - 2], ys[|xs| - 2], xs[|xs| - 1], ys[|xs| - 1], x)
  {
    assert x <= xs[1] ==> SearchLeft(xs, x) <= 1;
    assert x > xs[|xs| - 2] ==> SearchLeft(xs, x) >= |xs| - 1;
    var lo := Segment(xs, x);
    Line(xs[lo], ys[lo], xs[lo + 1], ys[lo + 1], x)
  }

  lemma {:induction false} SearchLeftAtKnot(xs: seq<real>, k: nat)
    requires StrictlyIncreasing(xs) && k < |xs|
    ensures SearchLeft(xs, xs[k]) == k
  {
    if k > 0 {
      assert xs[1..][k - 1] == xs[k];
      SearchLeftAtKnot(xs[1..], k - 1);
    }
  }

  lemma {:induction false} SearchLeftInside(xs: seq<real>, k: nat, x: real)
    requires StrictlyIncreasing(xs) && k + 1 < |xs|
    requires xs[k] < x <= xs[k + 1]
    ensures SearchLeft(xs, x) == k + 1
  {
    if k > 0 {
      SearchLeftInside(xs[1..], k - 1, x);
    }
  }

  lemma LineAtEnds(x0: real, y0: real, x1: real, y1: real)
    requires x0 != x1
    ensures Line(x0, y0, x1, y1, x0) == y0
    ensures Line(x0, y0, x1, y1, x1) == y1
  {
    var s := (y1 - y0) / (x1 - x0);
    assert s * (x1 - x0) == y1 - y0;
  }

  /** Between its two end points a line stays between their heights. */
  lemma LineBetween(x0: real, y0: real, x1: real, y1: real, x: real)
    requires x0 < x1 && x0 <= x <= x1
    ensures Min(y0, y1) <= Line(x0, y0, x1, y1, x) <= Max(y0, y1)
  {
    var d := x1 - x0;
    var u := x - x0;
    var t := u / d;
    assert 0.0 <= t <= 1.0;
    assert Line(x0, y0, x1, y1, x) == t * (y1 - y0) + y0;
    if y0 <= y1 {
      assert 0.0 <= t * (y1 - y0) <= y1 - y0;
    } else {
      assert y1 - y0 <= t * (y1 - y0) <= 0.0;
    }
  }

  /** At a sampled altitude the interpolant returns the sampled weight exactly. */
  lemma InterpolateAtKnot(xs: seq<real>, ys: seq<real>, k: nat)
    requires |xs| >= 2 && |ys| == |xs| && StrictlyIncreasing(xs) && k < |xs|
    ensures Interpolate(xs, ys, xs[k]) == ys[k]
  {
    SearchLeftAtKnot(xs, k);
    var lo := Segment(xs, xs[k]);
    LineAtEnds(xs[lo], ys[lo], xs[lo + 1], ys[lo + 1]);
  }

  /** Inside the sampled range the interpolant lies between the two neighbouring samples. */
  lemma InterpolateBetween(xs: seq<real>, ys: seq<real>, k: nat, x: real)
    requires |xs| >= 2 && |ys| == |xs| && StrictlyIncreasing(xs) && k + 1 < |xs|
    requires xs[k] <= x <= xs[k + 1]
    ensures Min(ys[k], ys[k + 1]) <= Interpolate(xs, ys, x) <= Max(ys[k], ys[k + 1])
  {
    if x == xs[k] {
      InterpolateAtKnot(xs, ys, k);
    } else {
      SearchLeftInside(xs, k, x);
      assert Segment(xs, x) == k;
      LineBetween(xs[k], ys[k], xs[k + 1], ys[k + 1], x);
    }
  }

  /** Between two neighbouring samples the interpolant is the straight line through them. */
  lemma InterpolateOnSegment(xs: seq<real>, ys: seq<real>, k: nat, x: real)
    requires |xs| >= 2 && |ys| == |xs| && StrictlyIncreasing(xs) && k + 1 < |xs|
    requires xs[k] <= x <= xs[k + 1]
    ensures Interpolate(xs, ys, x) == Line(xs[k], ys[k], xs[k + 1], ys[k + 1], x)
  {
    if x == xs[k] {
      InterpolateAtKnot(xs, ys, k);
      LineAtEnds(xs[k], ys[k], xs[k + 1], ys[k + 1]);
    } else {
      SearchLeftInside(xs, k, x);
      assert Segment(xs, x) == k;
    }
  }

  lemma {:induction false} SearchLeftMonotone(xs: seq<real>, a: real, b: real)
    requires a <= b
    ensures SearchLeft(xs, a) <= SearchLeft(xs, b)
  {
    if |xs| > 0 && a > xs[0] {
      SearchLeftMonotone(xs[1..], a, b);
    }
  }

  /** A falling line keeps falling. */
  lemma LineFalls(x0: real, y0: real, x1: real, y1: real, a: real, b: real)
    requires x0 < x1 && y0 >= y1 && a <= b
    ensures Line(x0, y0, x1, y1, a) >= Line(x0, y0, x1, y1, b)
  {
    var slope := (y1 - y0) / (x1 - x0);
    assert slope <= 0.0;
    assert slope * (a - x0) >= slope * (b - x0);
  }

  /**
   * When the samples never increase with altitude, neither does the
   * interpolant, extrapolated ends included.
   */
  lemma InterpolateMonotone(xs: seq<real>, ys: seq<real>, a: real, b: real)
    requires |xs| >= 2 && |ys| == |xs| && StrictlyIncreasing(xs) && NonIncreasing(ys)
    requires a <= b
    ensures Interpolate(xs, ys, a) >= Interpolate(xs, ys, b)
  {
    var la, lb := Segment(xs, a), Segment(xs, b);
    SearchLeftMonotone(xs, a, b);
    if la == lb {
      LineFalls(xs[la], ys[la], xs[la + 1], ys[la + 1], a, b);
    } else {
      assert la < lb;
      assert a <= xs[la + 1];
      assert xs[lb] < b;
      LineFalls(xs[la], ys[la], xs[la + 1], ys[la + 1], a, xs[la + 1]);
      LineAtEnds(xs[la], ys[la], xs[la + 1], ys[la + 1]);
      LineFalls(xs[lb], ys[lb], xs[lb + 1], ys[lb + 1], xs[lb], b);
      LineAtEnds(xs[lb], ys[lb], xs[lb + 1], ys[lb + 1]);
      assert ys[la + 1] >= ys[lb];
    }
  }
}
