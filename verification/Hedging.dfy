/** The budget of speculative backup requests (`hedged_request`, huddle_cluster.py): three counters, each
    touched under the lock at a different moment of a request. */
module Hedging {
  datatype Counters = Counters(total: nat, hedged: nat, throttled: nat)

  /** ratio = hedged / max(1, total); budget_ok = total < 10 or ratio < budget_ratio */
  predicate BudgetOk(c: Counters, budget: real) {
    c.total < 10 || c.hedged as real / c.total as real < budget
  }

  function Arrive(c: Counters): Counters { c.(total := c.total + 1) }

  function Check(c: Counters, budget: real): (Counters, bool) {
    if BudgetOk(c, budget) then (c, true) else (c.(throttled := c.throttled + 1), false)
  }

  function Launch(c: Counters): Counters { c.(hedged := c.hedged + 1) }
}

module HedgingObject {
  import opened Hedging

  class HedgingBudget {
    const budgetRatio: real
    var totalRequests: nat
    var hedgedRequests: nat
    var throttled: nat

    ghost function Value(): Counters
      reads this
    {
      Counters(totalRequests, hedgedRequests, throttled)
    }

    /** max(0.01, min(1.0, hedging_budget_ratio)) */
    constructor (ratio: real)
      ensures Value() == Counters(0, 0, 0) && 0.01 <= budgetRatio <= 1.0
      ensures 0.01 <= ratio <= 1.0 ==> budgetRatio == ratio
    {
      budgetRatio := if ratio > 1.0 then 1.0 else if ratio < 0.01 then 0.01 else ratio;
      totalRequests, hedgedRequests, throttled := 0, 0, 0;
    }

    method CountRequest()
      modifies this
      ensures Value() == Arrive(old(Value()))
    {
      totalRequests := totalRequests + 1;
    }

    method CheckBudget() returns (ok: bool)
      modifies this
      ensures (Value(), ok) == Check(old(Value()), budgetRatio)
    {
      var divisor := if totalRequests > 1 then totalRequests else 1;
      var ratio := hedgedRequests as real / divisor as real;
      ok := totalRequests < 10 || ratio < budgetRatio;
      if !ok {
        throttled := throttled + 1;
      }
    }

    method CountBackup()
      modifies this
      ensures Value() == Launch(old(Value()))
    {
      hedgedRequests := hedgedRequests + 1;
    }
  }
}

/** The budget under concurrency. */
module HedgingLaws {
  import opened Hedging

  /** The counters, the requests that have not reached the budget check, and those the check let
      through that have neither launched a backup nor ended without one. */
  datatype Sys = Sys(c: Counters, waiting: nat, cleared: nat)

  datatype Op =
    | Arriving    // a request starts
    | Leaving     // no server, or hedging not allowed: it never reaches the check
    | Checking    // it reads the budget
    | Launching   // a cleared request starts its backup
    | Sparing     // a cleared request needs none, or no second server exists

  const START := Sys(Counters(0, 0, 0), 0, 0)

  ghost predicate Enabled(s: Sys, op: Op) {
    match op
    case Arriving => true
    case Leaving => s.waiting > 0
    case Checking => s.waiting > 0
    case Launching => s.cleared > 0
    case Sparing => s.cleared > 0
  }

  function Apply(s: Sys, budget: real, op: Op): Sys
    requires Enabled(s, op)
  {
    match op
    case Arriving => s.(c := Arrive(s.c), waiting := s.waiting + 1)
    case Leaving => s.(waiting := s.waiting - 1)
    case Checking =>
      var (c, ok) := Check(s.c, budget);
      Sys(c, s.waiting - 1, if ok then s.cleared + 1 else s.cleared)
    case Launching => s.(c := Launch(s.c), cleared := s.cleared - 1)
    case Sparing => s.(cleared := s.cleared - 1)
  }

  ghost predicate IsRun(budget: real, ops: seq<Op>, states: seq<Sys>) {
    && |states| == |ops| + 1
    && (forall k :: 0 <= k < |ops| ==> Enabled(states[k], ops[k]) && states[k + 1] == Apply(states[k], budget, ops[k]))
  }

  /** At most this many requests are between the check and the counter at once. */
  ghost predicate AtMostCleared(states: seq<Sys>, most: nat) {
    forall k :: 0 <= k < |states| ==> states[k].cleared <= most
  }

  /** budget * total, the documented ceiling. */
  function Allowance(c: Counters, budget: real): real { budget * c.total as real }

  /** Counting a cleared request as hedged already. */
  ghost predicate WithinBudget(s: Sys, budget: real, most: nat) {
    && s.c.hedged + s.cleared + s.waiting <= s.c.total
    && (s.c.hedged + s.cleared <= 9 || (s.c.hedged + s.cleared) as real < Allowance(s.c, budget) + most as real)
  }

  lemma CheckMeans(c: Counters, budget: real)
    requires c.total >= 10
    ensures BudgetOk(c, budget) <==> c.hedged as real < Allowance(c, budget)
  {
    var n := c.total as real;
    var q := c.hedged as real / n;
    assert q * n == c.hedged as real;
    if q < budget {
      assert (budget - q) * n > 0.0;
    } else {
      assert (q - budget) * n >= 0.0;
    }
  }

  lemma AllowanceGrows(c: Counters, budget: real)
    requires budget >= 0.0
    ensures Allowance(Arrive(c), budget) >= Allowance(c, budget)
  {
    assert Allowance(Arrive(c), budget) == budget * (c.total as real + 1.0) == Allowance(c, budget) + budget;
  }

  lemma StepStaysWithin(s: Sys, budget: real, most: nat, op: Op)
    requires budget >= 0.0 && WithinBudget(s, budget, most) && Enabled(s, op)
    requires Apply(s, budget, op).cleared <= most
    ensures WithinBudget(Apply(s, budget, op), budget, most)
  {
    match op {
      case Arriving => AllowanceGrows(s.c, budget);
      case Checking => if s.c.total >= 10 { CheckMeans(s.c, budget); }
      case _ =>
    }
  }

  /** The exact form of the budget claim: with at most `most` requests between check and counter, the
      backups launched are nine or fewer, or less than `most` above the documented share. */
  lemma {:induction false} BudgetHolds(budget: real, ops: seq<Op>, states: seq<Sys>, most: nat, k: nat)
    requires budget >= 0.0 && IsRun(budget, ops, states) && states[0] == START && AtMostCleared(states, most)
    requires k < |states|
    ensures WithinBudget(states[k], budget, most)
    ensures states[k].c.hedged <= 9 || states[k].c.hedged as real < Allowance(states[k].c, budget) + most as real
  {
    if k > 0 {
      BudgetHolds(budget, ops, states, most, k - 1);
      assert states[k] == Apply(states[k - 1], budget, ops[k - 1]);
      StepStaysWithin(states[k - 1], budget, most, ops[k - 1]);
    }
  }

  // ----- ... and cannot be improved -----

  /** A burst: `most` checks, then as many launches. */
  function BurstOp(most: nat, k: nat): Op { if k < most then Checking else Launching }

  function BurstState(s: Sys, most: nat, k: nat): Sys
    requires most <= s.waiting && k <= 2 * most
  {
    if k <= most then Sys(s.c, s.waiting - k, s.cleared + k)
    else Sys(s.c.(hedged := s.c.hedged + (k - most)), s.waiting - most, s.cleared + most - (k - most))
  }

  lemma BurstStep(budget: real, s: Sys, most: nat, k: nat)
    requires BudgetOk(s.c, budget) && most <= s.waiting && k < 2 * most
    ensures Enabled(BurstState(s, most, k), BurstOp(most, k))
    ensures BurstState(s, most, k + 1) == Apply(BurstState(s, most, k), budget, BurstOp(most, k))
  {
  }

  /** `most` requests check while the budget still allows one, then all launch. */
  lemma BurstReaches(budget: real, s: Sys, most: nat) returns (ops: seq<Op>, states: seq<Sys>)
    requires BudgetOk(s.c, budget) && s.cleared == 0 && most <= s.waiting
    ensures IsRun(budget, ops, states) && states[0] == s && AtMostCleared(states, most)
    ensures states[|ops|] == Sys(s.c.(hedged := s.c.hedged + most), s.waiting - most, 0)
  {
    ops := seq(2 * most, (k: nat) => BurstOp(most, k));
    states := seq(2 * most + 1, (k: nat) requires k <= 2 * most => BurstState(s, most, k));
    forall k | 0 <= k < |ops|
      ensures Enabled(states[k], ops[k]) && states[k + 1] == Apply(states[k], budget, ops[k])
    {
      BurstStep(budget, s, most, k);
    }
  }

  lemma Concat(budget: real, a: seq<Op>, xs: seq<Sys>, b: seq<Op>, ys: seq<Sys>, most: nat)
    returns (ops: seq<Op>, states: seq<Sys>)
    requires IsRun(budget, a, xs) && IsRun(budget, b, ys) && xs[|a|] == ys[0]
    requires AtMostCleared(xs, most) && AtMostCleared(ys, most)
    ensures ops == a + b && IsRun(budget, ops, states) && AtMostCleared(states, most)
    ensures states[0] == xs[0] && states[|ops|] == ys[|b|]
  {
    ops, states := a + b, xs + ys[1..];
    forall k | 0 <= k < |ops|
      ensures Enabled(states[k], ops[k]) && states[k + 1] == Apply(states[k], budget, ops[k])
    {
      if k < |a| {
        assert states[k] == xs[k] && states[k + 1] == xs[k + 1];
      } else {
        assert states[k] == ys[k - |a|] && states[k + 1] == ys[k - |a| + 1];
      }
    }
  }

  /** `n` requests arrive. */
  lemma {:induction false} Arrivals(budget: real, n: nat, most: nat) returns (ops: seq<Op>, states: seq<Sys>)
    ensures IsRun(budget, ops, states) && states[0] == START && AtMostCleared(states, most)
    ensures states[|ops|] == Sys(Counters(n, 0, 0), n, 0)
  {
    ops, states := [], [START];
    if n > 0 {
      var a, xs := Arrivals(budget, n - 1, most);
      var s, t := Sys(Counters(n - 1, 0, 0), n - 1, 0), Sys(Counters(n, 0, 0), n, 0);
      ops, states := Concat(budget, a, xs, [Arriving], [s, t], most);
    }
  }

  /** Of `n` waiting requests, `h` are hedged one at a time, each while the budget allows it. */
  lemma {:induction false} OneByOne(budget: real, n: nat, h: nat, most: nat) returns (ops: seq<Op>, states: seq<Sys>)
    requires h <= n && most >= 1
    requires forall k: nat :: k < h ==> BudgetOk(Counters(n, k, 0), budget)
    ensures IsRun(budget, ops, states) && states[0] == START && AtMostCleared(states, most)
    ensures states[|ops|] == Sys(Counters(n, h, 0), n - h, 0)
  {
    if h == 0 {
      ops, states := Arrivals(budget, n, most);
    } else {
      var a, xs := OneByOne(budget, n, h - 1, most);
      var s := Sys(Counters(n, h - 1, 0), n - h + 1, 0);
      var b, ys := BurstReaches(budget, s, 1);
      assert ys[|b|].waiting == n - h;
      ops, states := Concat(budget, a, xs, b, ys, most);
    }
  }

  /** The largest number below `x`. */
  function Below(x: real): (n: nat)
    requires x > 0.0
    ensures x - 1.0 <= n as real < x
  {
    if x.Floor as real == x then x.Floor - 1 else x.Floor
  }

  lemma Scale(d: real, x: real, y: real)
    requires d >= 0.0 && x <= y
    ensures d * x <= d * y
  {
  }

  lemma Enough(d: real, x: real) returns (n: nat)
    requires d > 0.0 && x >= 0.0
    ensures d * n as real >= x
  {
    var q := x / d;
    assert d * q == x;
    n := q.Floor + 1;
    Scale(d, q, n as real);
  }

  /** So many requests that the share is at least ten and leaves `most` of them. */
  lemma Crowd(budget: real, most: nat) returns (n: nat)
    requires 0.0 < budget < 1.0
    ensures n >= 10 && budget * n as real >= 10.0 && budget * n as real + most as real <= n as real
  {
    var a := Enough(budget, 10.0);
    var b := Enough(1.0 - budget, most as real);
    n := 10 + a + b;
    Leaves(budget, a as real, b as real, n as real, most as real);
  }

  lemma Leaves(d: real, a: real, b: real, n: real, most: real)
    requires 0.0 < d < 1.0 && a <= n && b <= n && d * a >= 10.0 && (1.0 - d) * b >= most
    ensures d * n >= 10.0 && d * n + most <= n
  {
    Scale(d, a, n);
    Scale(1.0 - d, b, n);
    assert (1.0 - d) * n == n - d * n;
  }

  /** The bound cannot be lowered by one: for every budget below one, and any `most`, a run from the start
      reaches the share plus `most - 1`, with more than nine backups. */
  lemma {:induction false} BoundIsReached(budget: real, most: nat) returns (ops: seq<Op>, states: seq<Sys>)
    requires 0.0 < budget < 1.0 && most >= 1
    ensures IsRun(budget, ops, states) && states[0] == START && AtMostCleared(states, most)
    ensures states[|ops|].c.hedged > 9
    ensures states[|ops|].c.hedged as real >= Allowance(states[|ops|].c, budget) + (most - 1) as real
  {
    var n := Crowd(budget, most);
    var h := Below(budget * n as real);
    forall k: nat | k <= h
      ensures BudgetOk(Counters(n, k, 0), budget)
    {
      CheckMeans(Counters(n, k, 0), budget);
    }
    var a, xs := OneByOne(budget, n, h, most);
    var b, ys := BurstReaches(budget, Sys(Counters(n, h, 0), n - h, 0), most);
    ops, states := Concat(budget, a, xs, b, ys, most);
  }

  /** With a budget of one there is nothing to exceed: no request is hedged twice. */
  lemma {:induction false} WholeBudgetHolds(ops: seq<Op>, states: seq<Sys>, most: nat, k: nat)
    requires IsRun(1.0, ops, states) && states[0] == START && AtMostCleared(states, most) && k < |states|
    ensures states[k].c.hedged as real <= Allowance(states[k].c, 1.0)
  {
    BudgetHolds(1.0, ops, states, most, k);
  }

  /** A reachable state shows the documented ceiling (5 % of the requests) broken: one request, hedged. */
  lemma {:induction false} FirstBackupExceedsTheShare() returns (states: seq<Sys>)
    ensures IsRun(0.05, [Arriving, Checking, Launching], states) && states[0] == START
    ensures states[3].c.hedged as real > Allowance(states[3].c, 0.05)
  {
    var s1 := Apply(START, 0.05, Arriving);
    var s2 := Apply(s1, 0.05, Checking);
    states := [START, s1, s2, Apply(s2, 0.05, Launching)];
  }

  // ----- What the counters count -----

  /** The check refuses this request: ten requests or more have arrived, and the backups have used up the
      share. */
  ghost predicate Refused(s: Sys, budget: real, op: Op) {
    op == Checking && s.c.total >= 10 && s.c.hedged as real >= Allowance(s.c, budget)
  }

  ghost predicate Cleared(s: Sys, budget: real, op: Op) { op == Checking && !Refused(s, budget, op) }

  ghost function Count(ops: seq<Op>, op: Op): nat {
    if ops == [] then 0 else Count(ops[..|ops| - 1], op) + (if ops[|ops| - 1] == op then 1 else 0)
  }

  ghost function Refusals(budget: real, ops: seq<Op>, states: seq<Sys>): nat
    requires |states| > |ops|
  {
    if ops == [] then 0
    else
      var last := |ops| - 1;
      Refusals(budget, ops[..last], states[..last + 1]) + (if Refused(states[last], budget, ops[last]) then 1 else 0)
  }

  lemma CountOneMore(ops: seq<Op>, k: nat, op: Op)
    requires k < |ops|
    ensures Count(ops[..k + 1], op) == Count(ops[..k], op) + (if ops[k] == op then 1 else 0)
  {
    assert ops[..k + 1][..k] == ops[..k];
  }

  lemma CountersStep(s: Sys, budget: real, op: Op)
    requires Enabled(s, op)
    ensures var t := Apply(s, budget, op);
      && t.c.total == s.c.total + (if op == Arriving then 1 else 0)
      && t.c.hedged == s.c.hedged + (if op == Launching then 1 else 0)
      && t.c.throttled == s.c.throttled + (if Refused(s, budget, op) then 1 else 0)
      && t.cleared == s.cleared + (if Cleared(s, budget, op) then 1 else 0)
                      - (if op == Launching || op == Sparing then 1 else 0)
  {
    if op == Checking && s.c.total >= 10 {
      CheckMeans(s.c, budget);
    }
  }

  /** In every run the counters say how many requests arrived, how many backups were launched, and how many
      requests met a budget that was really used up; every other checked request was cleared. */
  lemma {:induction false} CountersTell(budget: real, ops: seq<Op>, states: seq<Sys>, k: nat)
    requires IsRun(budget, ops, states) && states[0] == START && k < |states|
    ensures var s, done := states[k], ops[..k];
      && s.c.total == Count(done, Arriving) && s.c.hedged == Count(done, Launching)
      && s.c.throttled == Refusals(budget, done, states[..k + 1])
      && s.cleared + Count(done, Launching) + Count(done, Sparing) == Count(done, Checking) - s.c.throttled
  {
    if k > 0 {
      var last := k - 1;
      CountersTell(budget, ops, states, last);
      CountersStep(states[last], budget, ops[last]);
      CountOneMore(ops, last, Arriving);
      CountOneMore(ops, last, Launching);
      CountOneMore(ops, last, Sparing);
      CountOneMore(ops, last, Checking);
      assert ops[..k][..last] == ops[..last] && states[..k + 1][..last + 1] == states[..last + 1];
    }
  }
}
