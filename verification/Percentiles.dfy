/** Latency percentiles and medians (`ServerMetrics._percentile` and `statistics.median` as used by
    huddle_cluster.py), over real arithmetic. */
module Percentiles {

  // ----- sorted() -----

  function Insert(x: real, s: seq<real>): seq<real> {
    if s == [] || x <= s[0] then [x] + s else [s[0]] + Insert(x, s[1..])
  }

  function Sorted(s: seq<real>): seq<real> {
    if s == [] then [] else Insert(s[0], Sorted(s[1..]))
  }

  ghost predicate Ascending(s: seq<real>) { forall i, j :: 0 <= i <= j < |s| ==> s[i] <= s[j] }

  lemma {:induction false} InsertSorts(x: real, s: seq<real>)
    requires Ascending(s)
    ensures Ascending(Insert(x, s)) && multiset(Insert(x, s)) == multiset(s) + multiset{x}
    ensures |Insert(x, s)| == |s| + 1
  {
    if s != [] && x > s[0] {
      InsertSorts(x, s[1..]);
      assert s == [s[0]] + s[1..];
      InsertedAbove(s[0], x, s[1..]);
      AscendingCons(s[0], Insert(x, s[1..]));
    }
  }

  lemma AscendingCons(x: real, s: seq<real>)
    requires Ascending(s) && forall i :: 0 <= i < |s| ==> x <= s[i]
    ensures Ascending([x] + s)
  {
  }

  lemma {:induction false} InsertedAbove(low: real, x: real, s: seq<real>)
    requires low <= x && forall i :: 0 <= i < |s| ==> low <= s[i]
    ensures forall i :: 0 <= i < |Insert(x, s)| ==> low <= Insert(x, s)[i]
  {
    if s != [] && x > s[0] {
      InsertedAbove(low, x, s[1..]);
    }
  }

  lemma {:induction false} SortedSorts(s: seq<real>)
    ensures Ascending(Sorted(s)) && multiset(Sorted(s)) == multiset(s) && |Sorted(s)| == |s|
  {
    if s != [] {
      SortedSorts(s[1..]);
      InsertSorts(s[0], Sorted(s[1..]));
      assert s == [s[0]] + s[1..];
    }
  }

  lemma Smallest(s: seq<real>, x: real)
    requires Ascending(s) && x in multiset(s)
    ensures s[0] <= x
  {
    assert x in s;
  }

  lemma WithoutFirst(s: seq<real>)
    requires s != []
    ensures multiset(s[1..]) == multiset(s) - multiset{s[0]}
  {
    assert s == [s[0]] + s[1..];
  }

  lemma SameFirst(s: seq<real>, t: seq<real>)
    requires Ascending(s) && Ascending(t) && multiset(s) == multiset(t) && s != [] && t != []
    ensures s[0] == t[0] && multiset(s[1..]) == multiset(t[1..])
  {
    assert s[0] in multiset(s) && t[0] in multiset(t);
    Smallest(t, s[0]);
    Smallest(s, t[0]);
    WithoutFirst(s);
    WithoutFirst(t);
  }

  /** There is one way to arrange a bag of samples in ascending order. */
  lemma {:induction false} SortedIsUnique(s: seq<real>, t: seq<real>)
    requires Ascending(s) && Ascending(t) && multiset(s) == multiset(t)
    ensures s == t
  {
    SameLength(s, t);
    if s != [] {
      SameFirst(s, t);
      SortedIsUnique(s[1..], t[1..]);
      assert s == [s[0]] + s[1..] && t == [t[0]] + t[1..];
    }
  }

  lemma SameLength(s: seq<real>, t: seq<real>)
    requires multiset(s) == multiset(t)
    ensures |s| == |t|
  {
    assert |multiset(s)| == |s| && |multiset(t)| == |t|;
  }

  // ----- _percentile and median -----

  function Min(a: int, b: int): int { if a < b then a else b }

  /** Linear interpolation at rank x. */
  function Interpolate(w: seq<real>, x: real): real
    requires w != [] && 0.0 <= x <= (|w| - 1) as real
  {
    var lo := x.Floor;
    var hi := Min(lo + 1, |w| - 1);
    w[lo] + (x - lo as real) * (w[hi] - w[lo])
  }

  function Rank(n: nat, p: real): real { p / 100.0 * (n - 1) as real }

  lemma NotNegative(a: real, b: real)
    requires a >= 0.0 && b >= 0.0
    ensures a * b >= 0.0
  {
  }

  lemma RankInRange(n: nat, p: real)
    requires n >= 1 && 0.0 <= p <= 100.0
    ensures 0.0 <= Rank(n, p) <= (n - 1) as real
  {
    var m := (n - 1) as real;
    var rest := 100.0 - p;
    NotNegative(p, m);
    NotNegative(rest, m);
    assert p * m + rest * m == 100.0 * m;
    assert Rank(n, p) == p * m / 100.0;
  }

  lemma Scale(a: real, b: real, k: real)
    requires a <= b && k >= 0.0
    ensures a * k <= b * k
  {
    NotNegative(b - a, k);
    assert (b - a) * k == b * k - a * k;
  }

  function Percentile(window: seq<real>, p: real): real
    requires 0.0 <= p <= 100.0
  {
    var w := Sorted(window);
    var n := |w|;
    if n == 0 then 0.0
    else if n == 1 then w[0]
    else
      RankInRange(n, p);
      Interpolate(w, Rank(n, p))
  }

  /** statistics.median of a non-empty list */
  function Median(data: seq<real>): real
    requires data != []
  {
    var w := Sorted(data);
    SortedSorts(data);
    if |w| % 2 == 1 then w[|w| / 2] else (w[|w| / 2 - 1] + w[|w| / 2]) / 2.0
  }

  // ----- Laws -----

  lemma Mix(a: real, b: real, f: real)
    requires a <= b && 0.0 <= f <= 1.0
    ensures a <= a + f * (b - a) <= b
  {
    Scale(0.0, f, b - a);
    Scale(f, 1.0, b - a);
  }

  /** Between two samples, interpolation stays between them. */
  lemma InterpolateStep(w: seq<real>, x: real)
    requires Ascending(w) && w != [] && 0.0 <= x <= (|w| - 1) as real
    ensures w[x.Floor] <= Interpolate(w, x) <= w[Min(x.Floor + 1, |w| - 1)]
  {
    Mix(w[x.Floor], w[Min(x.Floor + 1, |w| - 1)], x - x.Floor as real);
  }

  lemma InterpolateGrows(w: seq<real>, x: real, y: real)
    requires Ascending(w) && w != [] && 0.0 <= x <= y <= (|w| - 1) as real
    ensures Interpolate(w, x) <= Interpolate(w, y)
  {
    var lo, up := x.Floor, y.Floor;
    var hi := Min(lo + 1, |w| - 1);
    if lo == up {
      var fx, fy, d := x - lo as real, y - lo as real, w[hi] - w[lo];
      Scale(fx, fy, d);
      assert Interpolate(w, x) == w[lo] + fx * d;
      assert Interpolate(w, y) == w[lo] + fy * d;
    } else {
      assert hi <= up;
      InterpolateStep(w, x);
      InterpolateStep(w, y);
    }
  }

  lemma RankGrows(n: nat, p: real, q: real)
    requires n >= 1 && p <= q
    ensures Rank(n, p) <= Rank(n, q)
  {
    Scale(p / 100.0, q / 100.0, (n - 1) as real);
  }

  /** A higher percentile is never smaller. */
  lemma PercentileGrows(window: seq<real>, p: real, q: real)
    requires 0.0 <= p <= q <= 100.0
    ensures Percentile(window, p) <= Percentile(window, q)
  {
    SortedSorts(window);
    var n := |window|;
    if n >= 2 {
      RankInRange(n, p);
      RankInRange(n, q);
      RankGrows(n, p, q);
      InterpolateGrows(Sorted(window), Rank(n, p), Rank(n, q));
    }
  }

  /** Percentile 100 k / (n - 1) is the k-th smallest sample: nothing is interpolated there. */
  lemma {:induction false} PercentileOfSample(window: seq<real>, k: nat)
    requires |window| >= 2 && k < |window|
    ensures
      var p := 100.0 * k as real / (|window| - 1) as real;
      |Sorted(window)| == |window| && 0.0 <= p <= 100.0 && Percentile(window, p) == Sorted(window)[k]
  {
    SortedSorts(window);
    RankOfSample(|window|, k);
  }

  lemma RankOfSample(n: nat, k: nat)
    requires n >= 2 && k < n
    ensures
      var p := 100.0 * k as real / (n - 1) as real;
      0.0 <= p <= 100.0 && Rank(n, p) == k as real
  {
    var m := (n - 1) as real;
    var f := k as real / m;
    Divide(k as real, m);
    assert 100.0 * k as real / m == 100.0 * f by {
      Divide(100.0 * k as real, m);
      assert (100.0 * f) * m == 100.0 * (f * m);
      SameQuotient(100.0 * k as real / m, 100.0 * f, m);
    }
    if f > 1.0 {
      ScaleStrictly(1.0, f, m);
    }
    if f < 0.0 {
      ScaleStrictly(f, 0.0, m);
    }
  }

  lemma Divide(a: real, m: real)
    requires m > 0.0
    ensures a / m * m == a
  {
  }

  lemma SameQuotient(a: real, b: real, m: real)
    requires m > 0.0 && a * m == b * m
    ensures a == b
  {
    if a < b { ScaleStrictly(a, b, m); } else if b < a { ScaleStrictly(b, a, m); }
  }

  lemma ScaleStrictly(a: real, b: real, m: real)
    requires a < b && m > 0.0
    ensures a * m < b * m
  {
    assert (b - a) * m > 0.0;
  }

  lemma InterpolateBetween(w: seq<real>, x: real, k: nat, f: real)
    requires k + 1 < |w| && 0.0 <= f < 1.0 && x == k as real + f
    ensures 0.0 <= x <= (|w| - 1) as real && Interpolate(w, x) == w[k] + f * (w[k + 1] - w[k])
  {
    assert x.Floor == k;
  }

  lemma RankOfMix(n: nat, k: nat, f: real)
    requires n >= 2 && k + 1 < n && 0.0 <= f < 1.0
    ensures
      var p := 100.0 * (k as real + f) / (n - 1) as real;
      0.0 <= p <= 100.0 && Rank(n, p) == k as real + f
  {
    var m, x := (n - 1) as real, k as real + f;
    var p := 100.0 * x / m;
    Divide(100.0 * x, m);
    assert p / 100.0 * m == p * m / 100.0;
    if p > 100.0 {
      ScaleStrictly(100.0, p, m);
    }
    if p < 0.0 {
      ScaleStrictly(p, 0.0, m);
    }
  }

  /** Between the ranks of two neighbouring samples the percentile runs along a straight line. */
  lemma {:induction false} PercentileIsLinear(window: seq<real>, k: nat, f: real)
    requires k + 1 < |window| && 0.0 <= f < 1.0
    ensures
      var p := 100.0 * (k as real + f) / (|window| - 1) as real;
      var w := Sorted(window);
      |w| == |window| && 0.0 <= p <= 100.0 && Percentile(window, p) == w[k] + f * (w[k + 1] - w[k])
  {
    SortedSorts(window);
    var p := 100.0 * (k as real + f) / (|window| - 1) as real;
    RankOfMix(|window|, k, f);
    InterpolateBetween(Sorted(window), Rank(|window|, p), k, f);
  }

  lemma EndsAreExtremes(window: seq<real>)
    requires window != []
    ensures |Sorted(window)| == |window|
    ensures Percentile(window, 0.0) == Sorted(window)[0]
    ensures Percentile(window, 100.0) == Sorted(window)[|window| - 1]
  {
    SortedSorts(window);
    assert Rank(|window|, 0.0) == 0.0 && Rank(|window|, 100.0) == (|window| - 1) as real;
  }

  lemma SampleIsSorted(window: seq<real>, x: real) returns (i: nat)
    requires x in window
    ensures |Sorted(window)| == |window| && i < |window| && Sorted(window)[i] == x
  {
    SortedSorts(window);
    assert x in multiset(window);
    assert x in Sorted(window);
    i :| 0 <= i < |window| && Sorted(window)[i] == x;
  }

  lemma SortedIsSample(window: seq<real>, i: nat)
    requires i < |window|
    ensures |Sorted(window)| == |window| && Sorted(window)[i] in window
  {
    SortedSorts(window);
    assert Sorted(window)[i] in multiset(window);
  }

  /** Every percentile lies between two samples of the window, the 0th and the 100th being the smallest
      and the largest. */
  lemma PercentileIsWithin(window: seq<real>, p: real)
    requires window != [] && 0.0 <= p <= 100.0
    ensures Percentile(window, 0.0) in window && Percentile(window, 100.0) in window
    ensures forall x :: x in window ==> Percentile(window, 0.0) <= x <= Percentile(window, 100.0)
    ensures Percentile(window, 0.0) <= Percentile(window, p) <= Percentile(window, 100.0)
  {
    PercentileGrows(window, 0.0, p);
    PercentileGrows(window, p, 100.0);
    EndsAreExtremes(window);
    SortedIsSample(window, 0);
    SortedIsSample(window, |window| - 1);
    forall x | x in window
      ensures Percentile(window, 0.0) <= x <= Percentile(window, 100.0)
    {
      var i := SampleIsSorted(window, x);
      SortedSorts(window);
    }
  }

  /** The order in which samples arrived does not matter. */
  lemma {:induction false} PercentileOfBag(a: seq<real>, b: seq<real>, p: real)
    requires 0.0 <= p <= 100.0 && multiset(a) == multiset(b)
    ensures Percentile(a, p) == Percentile(b, p)
  {
    SortedSorts(a);
    SortedSorts(b);
    SortedIsUnique(Sorted(a), Sorted(b));
  }

  lemma InterpolateWhole(w: seq<real>, k: nat)
    requires k < |w|
    ensures 0.0 <= k as real <= (|w| - 1) as real && Interpolate(w, k as real) == w[k]
  {
    assert (k as real).Floor == k;
  }

  lemma InterpolateHalf(w: seq<real>, k: nat)
    requires k + 1 < |w|
    ensures 0.0 <= k as real + 0.5 <= (|w| - 1) as real
    ensures Interpolate(w, k as real + 0.5) == (w[k] + w[k + 1]) / 2.0
  {
    assert (k as real + 0.5).Floor == k;
  }

  /** The median is the 50th percentile. */
  lemma MedianIsFiftieth(data: seq<real>)
    requires data != []
    ensures Median(data) == Percentile(data, 50.0)
  {
    SortedSorts(data);
    var n := |data|;
    assert Rank(n, 50.0) == (n - 1) as real / 2.0;
    if n % 2 == 1 {
      HalfIsWhole(n);
      InterpolateWhole(Sorted(data), n / 2);
    } else {
      HalfIsHalf(n);
      InterpolateHalf(Sorted(data), n / 2 - 1);
    }
  }

  /** No sample of `s` is above its counterpart in `t`. */
  ghost predicate Below(s: seq<real>, t: seq<real>) {
    |s| == |t| && forall i :: 0 <= i < |s| ==> s[i] <= t[i]
  }

  lemma BelowCons(x: real, s: seq<real>, y: real, t: seq<real>)
    requires Below(s, t) && x <= y
    ensures Below([x] + s, [y] + t)
  {
  }

  /** An insertion goes no further down when everything moves up. */
  lemma {:induction false} InsertRises(x: real, s: seq<real>, y: real, t: seq<real>)
    requires Ascending(s) && Ascending(t) && Below(s, t) && x <= y
    ensures Below(Insert(x, s), Insert(y, t))
    decreases |s|
  {
    if s != [] {
      assert s == [s[0]] + s[1..] && t == [t[0]] + t[1..];
      if x <= s[0] && y > t[0] {
        InsertRises(s[0], s[1..], y, t[1..]);
        InsertFront(s[0], s[1..]);
        BelowCons(x, s, t[0], Insert(y, t[1..]));
      } else if x > s[0] && y <= t[0] {
        InsertRises(x, s[1..], t[0], t[1..]);
        InsertFront(t[0], t[1..]);
        BelowCons(s[0], Insert(x, s[1..]), y, t);
      } else if x > s[0] {
        InsertRises(x, s[1..], y, t[1..]);
        BelowCons(s[0], Insert(x, s[1..]), t[0], Insert(y, t[1..]));
      } else {
        BelowCons(x, s, y, t);
      }
    }
  }

  lemma InsertFront(x: real, s: seq<real>)
    requires Ascending([x] + s)
    ensures Insert(x, s) == [x] + s
  {
    assert s != [] ==> ([x] + s)[0] <= ([x] + s)[1];
  }

  lemma {:induction false} SortedRises(s: seq<real>, t: seq<real>)
    requires Below(s, t)
    ensures Below(Sorted(s), Sorted(t))
  {
    if s != [] {
      SortedRises(s[1..], t[1..]);
      SortedSorts(s[1..]);
      SortedSorts(t[1..]);
      InsertRises(s[0], Sorted(s[1..]), t[0], Sorted(t[1..]));
    }
  }

  /** When no sample falls, the median does not fall. */
  lemma {:induction false} MedianRises(s: seq<real>, t: seq<real>)
    requires s != [] && Below(s, t)
    ensures Median(s) <= Median(t)
  {
    SortedRises(s, t);
    SortedSorts(s);
    SortedSorts(t);
  }

  /** The median of equal samples is that sample. */
  lemma {:induction false} MedianOfEqual(s: seq<real>, x: real)
    requires s != [] && forall i :: 0 <= i < |s| ==> s[i] == x
    ensures Median(s) == x
  {
    SortedSorts(s);
    forall i | 0 <= i < |s|
      ensures Sorted(s)[i] == x
    {
      SortedIsSample(s, i);
    }
  }

  lemma HalfIsWhole(n: nat)
    requires n % 2 == 1
    ensures (n - 1) as real / 2.0 == (n / 2) as real
  {
    assert n - 1 == 2 * (n / 2);
  }

  lemma HalfIsHalf(n: nat)
    requires n % 2 == 0 && n > 0
    ensures (n - 1) as real / 2.0 == (n / 2 - 1) as real + 0.5
  {
    assert n == 2 * (n / 2);
  }
}
