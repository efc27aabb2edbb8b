/** What the adaptive controller promises the rotation. */
module AdaptiveLaws {
  import opened AdaptiveThresholds
  import opened Percentiles
  import Rings
  import RotationLaws

  predicate InRange(heat: real, cool: real) {
    0.35 <= heat <= 0.85 && 0.10 <= cool <= heat - 0.15
  }

  datatype Op = Sample(p95: real) | Cycle(now: real)

  function Apply(s: Settings, c: Controller, op: Op): Controller
    requires s.windowSize > 0
  {
    match op
    case Sample(p95) => RecordP95(s, c, p95)
    case Cycle(now) => Adapt(s, c, now)
  }

  function Run(s: Settings, c: Controller, ops: seq<Op>): Controller
    requires s.windowSize > 0
  {
    if ops == [] then c else Apply(s, Run(s, c, ops[..|ops| - 1]), ops[|ops| - 1])
  }

  /** Whatever the samples and the settings, the thresholds are the configured ones until the first
      adaptation and in range from then on. */
  lemma {:induction false} ThresholdsStayInRange(s: Settings, start: real, ops: seq<Op>)
    requires s.windowSize > 0
    ensures
      var c := Run(s, NewController(s, start), ops);
      |c.window| <= s.windowSize
      && (InRange(c.heat, c.cool) || (c.heat == s.heat && c.cool == s.cool && c.last == start))
  {
    if ops != [] {
      ThresholdsStayInRange(s, start, ops[..|ops| - 1]);
    }
  }

  lemma Stretch(a: real, b: real, k: real)
    requires a <= b && k >= 0.0
    ensures a * k <= b * k
  {
    assert (b - a) * k >= 0.0;
  }

  lemma AdjustmentIsLevel(maxDelta: real, ratio: real)
    ensures Adjustment(maxDelta, ratio) == Level(ratio) * maxDelta
    ensures -1.0 <= Level(ratio) <= 1.0
  {
  }

  lemma LevelGrows(r1: real, r2: real)
    requires r1 <= r2
    ensures Level(r1) <= Level(r2)
  {
  }

  lemma ThresholdsFollow(s: Settings, a1: real, a2: real)
    requires a1 <= a2
    ensures NewHeat(s, a1) <= NewHeat(s, a2) && NewCool(s, a1) <= NewCool(s, a2)
  {
  }

  lemma AdjustmentGrows(maxDelta: real, r1: real, r2: real)
    requires maxDelta >= 0.0 && r1 <= r2
    ensures -maxDelta <= Adjustment(maxDelta, r1) <= Adjustment(maxDelta, r2) <= maxDelta
  {
    AdjustmentIsLevel(maxDelta, r1);
    AdjustmentIsLevel(maxDelta, r2);
    LevelGrows(r1, r2);
    Stretch(-1.0, Level(r1), maxDelta);
    Stretch(Level(r1), Level(r2), maxDelta);
    Stretch(Level(r2), 1.0, maxDelta);
  }

  /** The adjustment is at most max_delta either way, and grows with the trend: both thresholds loosen
      under stress and tighten in health. */
  lemma LoosensWithStress(s: Settings, r1: real, r2: real)
    requires s.maxDelta >= 0.0 && r1 <= r2
    ensures
      var a1, a2 := Adjustment(s.maxDelta, r1), Adjustment(s.maxDelta, r2);
      -s.maxDelta <= a1 <= a2 <= s.maxDelta && NewHeat(s, a1) <= NewHeat(s, a2) && NewCool(s, a1) <= NewCool(s, a2)
  {
    AdjustmentGrows(s.maxDelta, r1, r2);
    ThresholdsFollow(s, Adjustment(s.maxDelta, r1), Adjustment(s.maxDelta, r2));
  }

  /** The adjustment in units of max_delta. */
  function Level(ratio: real): real {
    if ratio > 1.5 then 1.0 else if ratio < 0.7 then -1.0 else (ratio - 0.7) / 0.8 * 2.0 - 1.0
  }

  /** A steady cluster keeps thresholds near the configured ones: the adjustment vanishes exactly at a
      trend of 1.1 (a tenth above level), not at 1. */
  lemma NeutralTrend(s: Settings, ratio: real)
    requires s.maxDelta > 0.0
    ensures Adjustment(s.maxDelta, ratio) == 0.0 <==> ratio == 1.1
  {
    var x := Level(ratio);
    if x > 0.0 {
      assert x * s.maxDelta > 0.0;
    } else if x < 0.0 {
      assert (-x) * s.maxDelta > 0.0;
    }
  }

  /** Thresholds that were adapted never let a server of weight 0.83 or more bounce within a cycle. */
  lemma AdaptedDoNotBounce(c: Rings.Config, heat: real, cool: real, weight: real)
    requires InRange(heat, cool) && weight >= 0.83
    ensures RotationLaws.Separated(c, Rings.Thresholds(heat, cool), weight)
  {
    Stretch(0.83, weight, heat);
  }

  // ----- The trend -----

  /** How many samples are the baseline, and how many are recent. */
  function Oldest(n: nat): nat { if n < 2 then n else n / 2 }

  function Newest(n: nat): nat { if n < 3 then n else if n < 16 then 3 else n / 4 }

  lemma TrendParts(window: seq<real>) returns (old_: real, new_: real)
    requires window != []
    ensures 0 < Oldest(|window|) <= |window| && 0 < Newest(|window|) <= |window|
    ensures old_ == Median(window[..Oldest(|window|)]) && new_ == Median(window[|window| - Newest(|window|)..])
    ensures Trend(window) == new_ / MaxReal(old_, 1.0)
  {
    var n := |window|;
    old_, new_ := Median(window[..Oldest(n)]), Median(window[n - Newest(n)..]);
    assert MaxInt(1, n / 2) == Oldest(n);
    LastIsNewest(window);
  }

  lemma LastIsNewest(window: seq<real>)
    requires window != []
    ensures Newest(|window|) <= |window|
    ensures Last(window, MaxInt(3, Oldest(|window|) / 2)) == window[|window| - Newest(|window|)..]
  {
    if |window| >= 3 {
      Quarter(|window|);
    } else {
      assert window[0..] == window;
    }
  }

  lemma Quarter(n: nat)
    ensures n / 2 / 2 == n / 4
  {
  }

  lemma Quotient(a: real, b: real, x: real, y: real)
    requires 0.0 <= a <= b && x >= y >= 1.0
    ensures a / x <= b / y
  {
    var p, q := a / x, b / y;
    assert p * x == a && q * y == b;
    if p > q {
      assert q >= 0.0;
      Stretch(y, x, q);
      assert (p - q) * x > 0.0;
    }
  }

  /** The trend rises with the newest quarter of the window and falls with the oldest half; nothing else
      counts. */
  lemma {:induction false} TrendFollows(v: seq<real>, w: seq<real>)
    requires |v| == |w| > 0 && forall i :: 0 <= i < |v| ==> v[i] >= 0.0
    requires forall i :: 0 <= i < Oldest(|v|) ==> v[i] >= w[i]
    requires forall i :: |v| - Newest(|v|) <= i < |v| ==> v[i] <= w[i]
    ensures Trend(v) <= Trend(w)
  {
    var old1, new1 := TrendParts(v);
    var old2, new2 := TrendParts(w);
    PartsFollow(v, w);
    Quotient(new1, new2, MaxReal(old1, 1.0), MaxReal(old2, 1.0));
  }

  lemma PartsFollow(v: seq<real>, w: seq<real>)
    requires |v| == |w| > 0 && forall i :: 0 <= i < |v| ==> v[i] >= 0.0
    requires forall i :: 0 <= i < Oldest(|v|) ==> v[i] >= w[i]
    requires forall i :: |v| - Newest(|v|) <= i < |v| ==> v[i] <= w[i]
    ensures Median(w[..Oldest(|w|)]) <= Median(v[..Oldest(|v|)])
    ensures 0.0 <= Median(v[|v| - Newest(|v|)..]) <= Median(w[|w| - Newest(|w|)..])
  {
    var n := |v|;
    var from := n - Newest(n);
    MedianRises(w[..Oldest(n)], v[..Oldest(n)]);
    assert Below(v[from..], w[from..]) by {
      assert forall i :: 0 <= i < n - from ==> v[from..][i] == v[from + i] && w[from..][i] == w[from + i];
    }
    MedianRises(v[from..], w[from..]);
    NotBelowZero(v[from..]);
  }

  lemma NotBelowZero(s: seq<real>)
    requires s != [] && forall i :: 0 <= i < |s| ==> s[i] >= 0.0
    ensures Median(s) >= 0.0
  {
    var zeros := seq(|s|, _ => 0.0);
    MedianRises(zeros, s);
    MedianOfEqual(zeros, 0.0);
  }

  /** Where old and new samples are level, it is the new level over the old one, which counts as 1 at
      least. */
  lemma {:induction false} TrendOfLevels(w: seq<real>, old_: real, new_: real)
    requires w != []
    requires forall i :: 0 <= i < Oldest(|w|) ==> w[i] == old_
    requires forall i :: |w| - Newest(|w|) <= i < |w| ==> w[i] == new_
    ensures Trend(w) == new_ / (if old_ > 1.0 then old_ else 1.0)
  {
    var baseline, recent := TrendParts(w);
    MedianOfEqual(w[..Oldest(|w|)], old_);
    MedianOfEqual(w[|w| - Newest(|w|)..], new_);
    SameRatio(Trend(w), recent, baseline, new_, old_);
  }

  lemma SameRatio(trend: real, a: real, b: real, new_: real, old_: real)
    requires a == new_ && b == old_ && trend == a / MaxReal(b, 1.0)
    ensures trend == new_ / (if old_ > 1.0 then old_ else 1.0)
  {
    assert MaxReal(b, 1.0) == if old_ > 1.0 then old_ else 1.0;
  }

  // ----- When the thresholds move, and where to -----

  function Samples(ops: seq<Op>): seq<real> {
    if ops == [] then []
    else
      var before := Samples(ops[..|ops| - 1]);
      match ops[|ops| - 1]
      case Sample(p95) => before + [p95]
      case Cycle(_) => before
  }

  /** The window is the newest samples, as many as it has room for. */
  lemma {:induction false} WindowIsNewest(s: Settings, start: real, ops: seq<Op>)
    requires s.windowSize > 0
    ensures Run(s, NewController(s, start), ops).window == Last(Samples(ops), s.windowSize)
  {
    if ops != [] {
      WindowIsNewest(s, start, ops[..|ops| - 1]);
    }
  }

  /** `x` is the number between `low` and `high` that is nearest to `wanted`. */
  ghost predicate Nearest(x: real, wanted: real, low: real, high: real) {
    low <= x <= high && (x < wanted ==> x == high) && (x > wanted ==> x == low)
  }

  /** The adjustment in units of max_delta: a straight line from -1 at a trend of 0.7 to 1 at 1.5. */
  function Share(trend: real): real {
    var x := (trend - 1.1) / 0.4;
    if x < -1.0 then -1.0 else if x > 1.0 then 1.0 else x
  }

  lemma AdjustmentIsLine(maxDelta: real, trend: real)
    ensures Adjustment(maxDelta, trend) == Share(trend) * maxDelta
  {
    AdjustmentIsLevel(maxDelta, trend);
    assert Level(trend) == Share(trend);
  }

  /** The thresholds are as near as their ranges allow to the configured ones plus the adjustment, half of
      it for the cool one. */
  ghost predicate Follows(s: Settings, t: Controller, trend: real) {
    var a := Share(trend) * s.maxDelta;
    Nearest(t.heat, s.heat + a, 0.35, 0.85) && Nearest(t.cool, s.cool + a / 2.0, 0.10, t.heat - 0.15)
  }

  lemma CycleFollows(s: Settings, c: Controller, now: real)
    requires s.windowSize > 0 && |c.window| >= s.windowSize && now - c.last >= s.interval
    ensures
      var t := Adapt(s, c, now);
      Follows(s, t, Trend(c.window)) && t.last == now && t.window == c.window
  {
    var trend := Trend(c.window);
    ClampedFollow(s, Adapt(s, c, now), trend);
  }

  lemma ClampedFollow(s: Settings, t: Controller, trend: real)
    requires t.heat == NewHeat(s, Adjustment(s.maxDelta, trend))
    requires t.cool == NewCool(s, Adjustment(s.maxDelta, trend))
    ensures Follows(s, t, trend)
  {
    AdjustmentIsLine(s.maxDelta, trend);
    Clamped(s, Adjustment(s.maxDelta, trend));
  }

  lemma Clamped(s: Settings, a: real)
    ensures Nearest(NewHeat(s, a), s.heat + a, 0.35, 0.85)
    ensures Nearest(NewCool(s, a), s.cool + a / 2.0, 0.10, NewHeat(s, a) - 0.15)
  {
  }

  lemma LastCycle(s: Settings, c: Controller, ops: seq<Op>, now: real)
    requires s.windowSize > 0
    ensures Run(s, c, ops + [Cycle(now)]) == Adapt(s, Run(s, c, ops), now)
  {
    assert (ops + [Cycle(now)])[..|ops|] == ops;
  }

  /** In every run, a cycle moves the thresholds exactly when the interval has passed since they last moved
      and a whole window of samples was ever recorded, and they follow the trend of the newest of them. */
  lemma {:induction false} AdaptsExactly(s: Settings, start: real, ops: seq<Op>, now: real)
    requires s.windowSize > 0
    ensures
      var c := Run(s, NewController(s, start), ops);
      var t := Run(s, NewController(s, start), ops + [Cycle(now)]);
      if now - c.last >= s.interval && |Samples(ops)| >= s.windowSize
      then Follows(s, t, Trend(Last(Samples(ops), s.windowSize))) && t.last == now
      else t == c
  {
    LastCycle(s, NewController(s, start), ops, now);
    WindowIsNewest(s, start, ops);
    var c := Run(s, NewController(s, start), ops);
    if now - c.last >= s.interval && |Samples(ops)| >= s.windowSize {
      CycleFollows(s, c, now);
    }
  }
}
