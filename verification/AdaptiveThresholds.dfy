/** The adaptive threshold controller (`AdaptiveThresholdController`, huddle_cluster.py): heat and cool
    thresholds that follow the trend of the cluster's 95th percentile. */
module AdaptiveThresholds {
  import opened Percentiles

  /** base_heat, base_cool, max_delta, window_size and adaptation_interval */
  datatype Settings = Settings(heat: real, cool: real, maxDelta: real, windowSize: nat, interval: real)

  datatype Controller = Controller(window: seq<real>, heat: real, cool: real, last: real)

  function NewController(s: Settings, now: real): Controller { Controller([], s.heat, s.cool, now) }

  /** Append to a deque with maxlen=window_size. */
  function RecordP95(s: Settings, c: Controller, p95: real): Controller {
    var w := c.window + [p95];
    c.(window := if |w| > s.windowSize then w[|w| - s.windowSize..] else w)
  }

  function MaxReal(a: real, b: real): real { if b > a then b else a }
  function MinReal(a: real, b: real): real { if b < a then b else a }
  function MaxInt(a: int, b: int): int { if b > a then b else a }

  /** The last n of a list, or all of it. */
  function Last(s: seq<real>, n: nat): seq<real> { if n >= |s| then s else s[|s| - n..] }

  /** Recent median over baseline median. */
  function Trend(window: seq<real>): real
    requires window != []
  {
    var half := MaxInt(1, |window| / 2);
    var baseline := Median(window[..half]);
    var recent := Median(Last(window, MaxInt(3, half / 2)));
    recent / MaxReal(baseline, 1.0)
  }

  function Adjustment(maxDelta: real, ratio: real): real {
    if ratio > 1.5 then maxDelta
    else if ratio < 0.7 then -maxDelta
    else ((ratio - 0.7) / 0.8 * 2.0 - 1.0) * maxDelta
  }

  function NewHeat(s: Settings, adjustment: real): real { MaxReal(0.35, MinReal(0.85, s.heat + adjustment)) }

  function NewCool(s: Settings, adjustment: real): real {
    MaxReal(0.10, MinReal(NewHeat(s, adjustment) - 0.15, s.cool + adjustment * 0.5))
  }

  predicate Due(s: Settings, c: Controller, now: real) {
    now - c.last >= s.interval && |c.window| >= s.windowSize
  }

  function Adapt(s: Settings, c: Controller, now: real): Controller
    requires s.windowSize > 0
  {
    if !Due(s, c, now) then c
    else
      var a := Adjustment(s.maxDelta, Trend(c.window));
      c.(heat := NewHeat(s, a), cool := NewCool(s, a), last := now)
  }
}

module AdaptiveThresholdObject {
  import opened AdaptiveThresholds

  class AdaptiveThresholdController {
    const s: Settings
    var p95Window: seq<real>
    var currentHeat: real
    var currentCool: real
    var lastAdapted: real

    ghost function Value(): Controller
      reads this
    {
      Controller(p95Window, currentHeat, currentCool, lastAdapted)
    }

    /** With a window of zero samples the source raises on the first adaptation. */
    constructor (s: Settings, now: real)
      requires s.windowSize > 0
      ensures this.s == s && Value() == NewController(s, now)
    {
      this.s := s;
      p95Window, currentHeat, currentCool, lastAdapted := [], s.heat, s.cool, now;
    }

    method Record(p95: real)
      modifies this
      ensures Value() == RecordP95(s, old(Value()), p95)
    {
      p95Window := p95Window + [p95];
      if |p95Window| > s.windowSize {
        p95Window := p95Window[|p95Window| - s.windowSize..];
      }
    }

    method AdjustmentFor(ratio: real) returns (adjustment: real)
      ensures adjustment == Adjustment(s.maxDelta, ratio)
    {
      if ratio > 1.5 {
        adjustment := s.maxDelta;
      } else if ratio < 0.7 {
        adjustment := -s.maxDelta;
      } else {
        var t := (ratio - 0.7) / 0.8;
        adjustment := (t * 2.0 - 1.0) * s.maxDelta;
      }
    }

    method MaybeAdapt(now: real) returns (heat: real, cool: real)
      requires s.windowSize > 0
      modifies this
      ensures Value() == Adapt(s, old(Value()), now)
      ensures heat == currentHeat && cool == currentCool
    {
      if now - lastAdapted < s.interval || |p95Window| < s.windowSize {
        return currentHeat, currentCool;
      }
      var adjustment := AdjustmentFor(Trend(p95Window));
      currentHeat := MaxReal(0.35, MinReal(0.85, s.heat + adjustment));
      currentCool := MaxReal(0.10, MinReal(currentHeat - 0.15, s.cool + adjustment * 0.5));
      lastAdapted := now;
      return currentHeat, currentCool;
    }
  }
}
