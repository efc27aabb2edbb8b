/** Overlapping picks. The rate-limit filter runs before `pick` takes its lock, one node at a time, and
    the charge ignores whether a token was left: picks that pass the filter together may place more work
    than the bucket pays for. When, and how much more? */
module PickRaces {
  import opened Options
  import opened RateLimiter
  import opened RateLimiterLaws
  import opened Scheduler
  import opened SchedulerLaws
  import Lifecycle

  /** A pick that has not come to its charge: the nodes still to be asked about, and those let through. */
  datatype Flight = Flight(todo: seq<Node>, passed: seq<Node>)

  datatype Sys = Sys(sched: Sched, picks: map<nat, Flight>)

  datatype Step =
    | Start(p: nat, nodes: seq<Node>, ctx: Context)
    | AskNext(p: nat, at: real)
    | Charge(p: nat, key: Option<Key>, ctx: Context, now: real, at: real)
    | Limiter(op: RateLimiterLaws.Op, at: real)

  ghost predicate Enabled(s: Sys, e: Step) {
    match e
    case Start(p, _, _) => p !in s.picks
    case AskNext(p, _) => p in s.picks && s.picks[p].todo != []
    case Charge(p, _, _, _, _) => p in s.picks && s.picks[p].todo == []
    case Limiter(op, at) => !op.Spend? && op.at == at
  }

  function Asked(s: Sys, p: nat, at: real): Sys
    requires p in s.picks && s.picks[p].todo != []
  {
    var f := s.picks[p];
    var n := f.todo[0];
    var (l, limited) := Query(s.sched.limiter, n.id, at);
    var f1 := Flight(f.todo[1..], if limited then f.passed else f.passed + [n]);
    Sys(s.sched.(limiter := l), s.picks[p := f1])
  }

  /** The pool of a pick at its charge. */
  function PoolOf(s: Sys, p: nat, ctx: Context): seq<Node>
    requires p in s.picks
  {
    Narrow(s.picks[p].passed, ctx)
  }

  function Charged(s: Sys, p: nat, key: Option<Key>, ctx: Context, now: real, at: real): Sys
    requires p in s.picks
  {
    Sys(Choose(s.sched, PoolOf(s, p, ctx), key, ctx, now, at).0, s.picks - {p})
  }

  function Apply(s: Sys, e: Step): Sys
    requires Enabled(s, e)
  {
    match e
    case Start(p, nodes, ctx) => s.(picks := s.picks[p := Flight(Keep(nodes, Serving(ctx)), [])])
    case AskNext(p, at) => Asked(s, p, at)
    case Charge(p, key, ctx, now, at) => Charged(s, p, key, ctx, now, at)
    case Limiter(op, _) => s.(sched := s.sched.(limiter := RateLimiterLaws.Apply(s.sched.limiter, op)))
  }

  /** The limiter's clock after a step. */
  function Time(e: Step, last: real): real { if e.Start? then last else e.at }

  function Resets(e: Step, id: Id): nat { if e.Limiter? then Refunds(e.op, id) else 0 }

  // ----- What one step does to a node -----

  /** The picks under way that were let through to node `id`. */
  predicate LetThrough(f: Flight, id: Id) { exists n :: n in f.passed && n.id == id }

  ghost function Armed(picks: map<nat, Flight>, id: Id): set<nat> {
    set p | p in picks && LetThrough(picks[p], id)
  }

  lemma SubsetSize<T>(a: set<T>, b: set<T>)
    requires a <= b
    ensures |a| <= |b|
  {
    assert b == a + (b - a);
  }

  lemma ArmedAreUnderWay(picks: map<nat, Flight>, id: Id)
    ensures |Armed(picks, id)| <= |picks|
  {
    SubsetSize(Armed(picks, id), picks.Keys);
    assert |picks| == |picks.Keys|;
  }

  lemma NarrowMembers(pool: seq<Node>, ctx: Context)
    ensures forall n :: n in Narrow(pool, ctx) ==> n in pool
  {
    var pool1 := if ctx.canary.Some? then Keep(pool, Among(ctx.canary.value)) else pool;
    if ctx.canary.Some? { KeepMembers(pool, Among(ctx.canary.value)); }
    if ctx.region.Some? { KeepMembers(pool1, Among(ctx.region.value)); }
  }

  /** The node that a charge places work on, if any: one that this pick was let through to. */
  ghost function Target(s: Sys, p: nat, key: Option<Key>, ctx: Context, now: real): Option<Node>
    requires p in s.picks
  {
    PlacedFrom(s.sched, PoolOf(s, p, ctx), key, ctx, now)
  }

  lemma TargetPassed(s: Sys, p: nat, key: Option<Key>, ctx: Context, now: real)
    requires p in s.picks
    ensures Target(s, p, key, ctx, now).Some? ==>
      Target(s, p, key, ctx, now).value in s.picks[p].passed
      && LetThrough(s.picks[p], Target(s, p, key, ctx, now).value.id)
  {
    SelectIsMember(PoolOf(s, p, ctx), Scoring(s.sched.heat, now, ctx.decay), ctx.preferAlive);
    NarrowMembers(s.picks[p].passed, ctx);
  }

  /** Levels and counts after a charge: it counts once, and takes a token if there is one. */
  lemma ChargeEffect(s: Sys, p: nat, key: Option<Key>, ctx: Context, now: real, at: real)
    requires Sane(s.sched.limiter, at) && p in s.picks
    ensures
      var l, m := s.sched.limiter, Charged(s, p, key, ctx, now, at).sched.limiter;
      var placed := Target(s, p, key, ctx, now);
      && Sane(m, at) && m.capacity == l.capacity && m.rate == l.rate
      && (forall id :: Level(m, id, at) == Level(l, id, at)
            - (if placed.Some? && placed.value.id == id && Level(l, id, at) >= 1.0 then 1.0 else 0.0))
      && (forall id :: Work(Charged(s, p, key, ctx, now, at).sched, id)
                    == Work(s.sched, id) + (if placed.Some? && placed.value.id == id then 1 else 0))
  {
    var placed := Target(s, p, key, ctx, now);
    var l := s.sched.limiter;
    if placed.Some? {
      var op := Spend(placed.value.id, 1.0, at);
      SpendByLevel(l, op);
      StepSane(l, op, at);
      forall id
        ensures Level(RateLimiterLaws.Apply(l, op), id, at)
             == Level(l, id, at) - (if Level(l, op.id, at) >= 1.0 && id == op.id then 1.0 else 0.0)
      {
        StepLevel(l, op, id, at);
      }
    }
  }

  lemma AskEffect(s: Sys, p: nat, at: real)
    requires Sane(s.sched.limiter, at) && Enabled(s, AskNext(p, at))
    ensures
      var l, m, n := s.sched.limiter, Asked(s, p, at).sched.limiter, s.picks[p].todo[0];
      && Sane(m, at) && m.capacity == l.capacity && m.rate == l.rate
      && (forall id :: Level(m, id, at) == Level(l, id, at))
      && Asked(s, p, at).sched.work == s.sched.work
      && (Asked(s, p, at).picks[p].passed
          == if Level(l, n.id, at) < 1.0 then s.picks[p].passed else s.picks[p].passed + [n])
  {
    var l, n := s.sched.limiter, s.picks[p].todo[0];
    var op := Ask(n.id, at);
    StepSane(l, op, at);
    AskLevel(l, n.id, at);
    forall id
      ensures Level(RateLimiterLaws.Apply(l, op), id, at) == Level(l, id, at)
    {
      StepLevel(l, op, id, at);
    }
  }

  /** One node's view of the system: its level, its work, and the picks let through to it. */
  datatype View = View(level: real, work: nat, armed: nat)

  ghost function ViewOf(s: Sys, id: Id, t: real): View {
    View(Level(s.sched.limiter, id, t), Work(s.sched, id), |Armed(s.picks, id)|)
  }

  /** All that can happen to a node at one moment, with at most `c` picks under way. */
  ghost predicate Moves(v: View, w: View, c: nat) {
    || (w.level == v.level && w.work == v.work && w.armed <= v.armed)                        // nothing, or a pick ends
    || (w.level == v.level >= 1.0 && w.work == v.work)                                       // a pick is let through
    || (w.level == v.level - 1.0 >= 0.0 && w.work == v.work + 1 && w.armed < c)              // a placement is paid
    || (w.level == v.level < 1.0 && w.work == v.work + 1 && w.armed == v.armed - 1)          // ... or is not
  }

  lemma AskMoves(s: Sys, p: nat, at: real, id: Id, c: nat)
    requires Sane(s.sched.limiter, at) && Enabled(s, AskNext(p, at))
    ensures Moves(ViewOf(s, id, at), ViewOf(Asked(s, p, at), id, at), c)
  {
    AskEffect(s, p, at);
    var n, t := s.picks[p].todo[0], Asked(s, p, at);
    if Level(s.sched.limiter, id, at) < 1.0 {
      forall q | q in Armed(t.picks, id)
        ensures q in Armed(s.picks, id)
      {
        if q == p {
          var m :| m in t.picks[p].passed && m.id == id;
          assert m in s.picks[p].passed;
        }
      }
      SubsetSize(Armed(t.picks, id), Armed(s.picks, id));
    }
  }

  lemma ChargeMoves(s: Sys, p: nat, key: Option<Key>, ctx: Context, now: real, at: real, id: Id, c: nat)
    requires Sane(s.sched.limiter, at) && p in s.picks && |s.picks| <= c
    ensures Moves(ViewOf(s, id, at), ViewOf(Charged(s, p, key, ctx, now, at), id, at), c)
  {
    ChargeEffect(s, p, key, ctx, now, at);
    TargetPassed(s, p, key, ctx, now);
    var t := Charged(s, p, key, ctx, now, at);
    assert Armed(t.picks, id) == Armed(s.picks, id) - {p};
    ArmedAreUnderWay(s.picks, id);
  }

  lemma StartMoves(s: Sys, e: Step, id: Id, t: real, c: nat)
    requires Enabled(s, e) && e.Start?
    ensures Moves(ViewOf(s, id, t), ViewOf(Apply(s, e), id, t), c)
  {
    assert Armed(Apply(s, e).picks, id) == Armed(s.picks, id);
  }

  /** A step at one moment, other than a reset of this node's bucket. */
  lemma StepMoves(s: Sys, e: Step, last: real, id: Id, c: nat)
    requires Enabled(s, e) && last <= Time(e, last) && Sane(s.sched.limiter, last) && |s.picks| <= c
    ensures Sane(s.sched.limiter, Time(e, last)) && Sane(Apply(s, e).sched.limiter, Time(e, last))
    ensures Apply(s, e).sched.limiter.capacity == s.sched.limiter.capacity
    ensures Apply(s, e).sched.limiter.rate == s.sched.limiter.rate
    ensures Resets(e, id) == 0 ==>
      Moves(ViewOf(s, id, Time(e, last)), ViewOf(Apply(s, e), id, Time(e, last)), c)
    ensures Resets(e, id) == 1 ==>
      ViewOf(Apply(s, e), id, Time(e, last))
      == View(s.sched.limiter.capacity, Work(s.sched, id), |Armed(s.picks, id)|)
  {
    LaterSane(s.sched.limiter, last, Time(e, last));
    match e {
      case Start(_, _, _) => StartMoves(s, e, id, last, c);
      case AskNext(p, at) => AskMoves(s, p, at, id, c); AskEffect(s, p, at);
      case Charge(p, key, ctx, now, at) =>
        ChargeMoves(s, p, key, ctx, now, at, id, c);
        ChargeEffect(s, p, key, ctx, now, at);
      case Limiter(op, at) => StepLevel(s.sched.limiter, op, id, at);
    }
  }

  // ----- What a node owes -----

  /** What overlapping adds: up to `c - 1` placements for nothing when a node falls below one token, and
      twice as many if it is at two or above. */
  function Extra(level: real, c: nat): real { (c as real - 1.0) * MinReal(level, 2.0) }

  /** The placements that a node at this level may still get without any inflow: what it can pay, what
      overlapping adds, and the picks let through already, if it is below one token now. */
  function Owed(level: real, armed: nat, c: nat): real {
    level + Extra(level, c) + (if level < 1.0 then armed as real else 0.0)
  }

  function Times(c: nat, inflow: real): real { c as real * inflow }

  /** Work and what is owed grow by no more than `c` times the inflow. */
  ghost predicate Kept(v: View, w: View, c: nat, inflow: real) {
    w.work as real + Owed(w.level, w.armed, c) <= v.work as real + Owed(v.level, v.armed, c) + Times(c, inflow)
  }

  lemma Scaled(d: real, x: real, y: real)
    requires d >= 0.0 && x <= y
    ensures d * x <= d * y
  {
  }

  lemma ExtraRises(c: nat, x: real, y: real, inflow: real)
    requires c >= 1 && x <= y <= x + inflow
    ensures y + Extra(y, c) <= x + Extra(x, c) + Times(c, inflow)
  {
    var d, low, high := c as real - 1.0, MinReal(x, 2.0), MinReal(y, 2.0);
    Scaled(d, high, low + inflow);
    assert d * (low + inflow) == d * low + d * inflow;
    assert (d + 1.0) * inflow == d * inflow + inflow;
    assert c as real == d + 1.0;
  }

  /** Paying leaves room for `c - 1` more below one token, and for the payment itself above. */
  lemma ExtraFalls(c: nat, x: real)
    requires c >= 1 && x >= 1.0
    ensures Extra(x - 1.0, c) + (if x - 1.0 < 1.0 then c as real - 1.0 else 0.0) <= Extra(x, c)
  {
    var d, low, high := c as real - 1.0, MinReal(x - 1.0, 2.0), MinReal(x, 2.0);
    if x - 1.0 < 1.0 {
      assert high == low + 1.0;
      assert d * (low + 1.0) == d * low + d;
    } else {
      Scaled(d, low, high);
    }
  }

  lemma ScaledBetween(d: real, x: real)
    requires d >= 0.0 && 0.0 <= x <= 2.0
    ensures 0.0 <= d * x <= 2.0 * d
  {
    Scaled(d, 0.0, x);
    Scaled(d, x, 2.0);
    assert d * 0.0 == 0.0 && d * 2.0 == 2.0 * d;
  }

  lemma ExtraBounds(level: real, c: nat)
    requires c >= 1 && 0.0 <= level
    ensures 0.0 <= Extra(level, c) <= 2.0 * (c as real - 1.0)
  {
    var d, m := c as real - 1.0, MinReal(level, 2.0);
    ScaledBetween(d, m);
    assert Extra(level, c) == d * m;
  }

  /** Time passes, or the bucket is reset. */
  lemma RiseIsKept(v: View, w: View, c: nat, inflow: real)
    requires c >= 1 && v.level <= w.level <= v.level + inflow && w.work == v.work && w.armed == v.armed
    ensures Kept(v, w, c, inflow)
  {
    ExtraRises(c, v.level, w.level, inflow);
  }

  lemma MoveIsKept(v: View, w: View, c: nat)
    requires c >= 1 && Moves(v, w, c)
    ensures Kept(v, w, c, 0.0)
  {
    assert Times(c, 0.0) == 0.0;
    if w.level == v.level - 1.0 {
      ExtraFalls(c, v.level);
      assert w.armed as real <= c as real - 1.0;
    }
  }

  lemma KeptOn(u: View, v: View, w: View, c: nat, x: real, y: real, z: real)
    requires Kept(u, v, c, x) && Kept(v, w, c, y) && z == x + y
    ensures Kept(u, w, c, z)
  {
    assert Times(c, z) == Times(c, x) + Times(c, y);
  }

  lemma StepIsKept(s: Sys, e: Step, last: real, id: Id, c: nat)
    requires c >= 1 && Enabled(s, e) && last <= Time(e, last) && Sane(s.sched.limiter, last) && |s.picks| <= c
    ensures Kept(ViewOf(s, id, last), ViewOf(Apply(s, e), id, Time(e, last)), c,
                 Inflow(s.sched.limiter.capacity, s.sched.limiter.rate, Time(e, last) - last, Resets(e, id)))
  {
    var l, at := s.sched.limiter, Time(e, last);
    LevelGrows(l, id, last, at);
    StepMoves(s, e, last, id, c);
    DripAndMove(ViewOf(s, id, last), ViewOf(s, id, at), ViewOf(Apply(s, e), id, at), c,
                l.capacity, l.rate, at - last, Resets(e, id));
  }

  /** From `v`, time passes until `u`; then something happens that leads to `w`. */
  lemma DripAndMove(v: View, u: View, w: View, c: nat, capacity: real, rate: real, dt: real, resets: nat)
    requires c >= 1 && resets <= 1 && 0.0 <= v.level && Grows(v.level, u.level, rate, dt)
    requires u.work == v.work && u.armed == v.armed && u.level <= capacity
    requires if resets == 0 then Moves(u, w, c) else w == View(capacity, u.work, u.armed)
    ensures Kept(v, w, c, Inflow(capacity, rate, dt, resets))
  {
    RiseIsKept(v, u, c, dt * rate);
    if resets == 0 {
      MoveIsKept(u, w, c);
      KeptOn(v, u, w, c, dt * rate, 0.0, Inflow(capacity, rate, dt, 0));
    } else {
      RiseIsKept(u, w, c, capacity);
      KeptOn(v, u, w, c, dt * rate, capacity, Inflow(capacity, rate, dt, 1));
    }
  }

  // ----- Runs -----

  /** What a limiter and a scheduler start with. */
  function Fresh(capacity: real, rate: real): Sys {
    Sys(Sched(RateLimiter.Limiter(capacity, rate, map[]), map[], map[], map[]), map[])
  }

  /** Steps in the order of the limiter's clock, with at most `c` picks under way at once. */
  ghost predicate IsRun(capacity: real, rate: real, steps: seq<Step>, states: seq<Sys>, clocks: seq<real>, c: nat) {
    && |states| == |clocks| == |steps| + 1 && states[0] == Fresh(capacity, rate) && capacity > 0.0 && rate > 0.0
    && (forall k :: 0 <= k < |steps| ==> Follows(steps, states, clocks, k))
    && (forall k :: 0 <= k < |states| ==> |states[k].picks| <= c)
  }

  ghost predicate Follows(steps: seq<Step>, states: seq<Sys>, clocks: seq<real>, k: nat)
    requires k < |steps| && |states| == |clocks| == |steps| + 1
  {
    && Enabled(states[k], steps[k]) && states[k + 1] == Apply(states[k], steps[k])
    && clocks[k] <= clocks[k + 1] == Time(steps[k], clocks[k])
  }

  function ResetsIn(steps: seq<Step>, id: Id, a: nat, b: nat): nat
    requires b <= |steps|
  {
    if b <= a then 0 else ResetsIn(steps, id, a, b - 1) + Resets(steps[b - 1], id)
  }

  /** Everything up to moment `k` was in order. */
  ghost predicate SaneAt(capacity: real, rate: real, s: Sys, t: real) {
    Sane(s.sched.limiter, t) && s.sched.limiter.capacity == capacity && s.sched.limiter.rate == rate
  }

  lemma {:induction false} RunsAreSane(capacity: real, rate: real, steps: seq<Step>, states: seq<Sys>,
                                       clocks: seq<real>, c: nat, k: nat)
    requires IsRun(capacity, rate, steps, states, clocks, c) && k < |states|
    ensures SaneAt(capacity, rate, states[k], clocks[k])
  {
    if k > 0 {
      RunsAreSane(capacity, rate, steps, states, clocks, c, k - 1);
      NextIsSane(capacity, rate, steps, states, clocks, c, k - 1);
    }
  }

  lemma NextIsSane(capacity: real, rate: real, steps: seq<Step>, states: seq<Sys>, clocks: seq<real>, c: nat, k: nat)
    requires |states| == |clocks| == |steps| + 1 && k < |steps| && Follows(steps, states, clocks, k)
    requires SaneAt(capacity, rate, states[k], clocks[k]) && |states[k].picks| <= c
    ensures SaneAt(capacity, rate, states[k + 1], clocks[k + 1])
  {
    StepMoves(states[k], steps[k], clocks[k], 0, c);
  }

  /** What flows into node `id` between two moments of a run. */
  function InflowIn(capacity: real, rate: real, steps: seq<Step>, clocks: seq<real>, id: Id, a: nat, b: nat): real
    requires a < |clocks| && b < |clocks| && b <= |steps|
  {
    Inflow(capacity, rate, clocks[b] - clocks[a], ResetsIn(steps, id, a, b))
  }

  lemma InflowSplits(capacity: real, rate: real, steps: seq<Step>, clocks: seq<real>, id: Id, a: nat, b: nat)
    requires |clocks| == |steps| + 1 && a < b < |clocks|
    ensures InflowIn(capacity, rate, steps, clocks, id, a, b)
         == InflowIn(capacity, rate, steps, clocks, id, a, b - 1)
            + Inflow(capacity, rate, clocks[b] - clocks[b - 1], Resets(steps[b - 1], id))
  {
    InflowAdds(capacity, rate, clocks[b - 1] - clocks[a], ResetsIn(steps, id, a, b - 1),
               clocks[b] - clocks[b - 1], Resets(steps[b - 1], id));
  }

  lemma {:induction false} StretchIsKept(capacity: real, rate: real, steps: seq<Step>, states: seq<Sys>,
                                         clocks: seq<real>, c: nat, id: Id, a: nat, b: nat)
    requires IsRun(capacity, rate, steps, states, clocks, c) && c >= 1 && a <= b < |states|
    ensures Kept(ViewOf(states[a], id, clocks[a]), ViewOf(states[b], id, clocks[b]), c,
                 InflowIn(capacity, rate, steps, clocks, id, a, b))
    decreases b
  {
    if a == b {
      assert Inflow(capacity, rate, 0.0, 0) == 0.0 && Times(c, 0.0) == 0.0;
    } else {
      StretchIsKept(capacity, rate, steps, states, clocks, c, id, a, b - 1);
      RunsAreSane(capacity, rate, steps, states, clocks, c, b - 1);
      assert Follows(steps, states, clocks, b - 1);
      NextIsKept(capacity, rate, steps, states, clocks, c, id, a, b);
    }
  }

  lemma NextIsKept(capacity: real, rate: real, steps: seq<Step>, states: seq<Sys>, clocks: seq<real>, c: nat,
                   id: Id, a: nat, b: nat)
    requires |states| == |clocks| == |steps| + 1 && a < b < |states| && Follows(steps, states, clocks, b - 1)
    requires c >= 1 && SaneAt(capacity, rate, states[b - 1], clocks[b - 1]) && |states[b - 1].picks| <= c
    requires Kept(ViewOf(states[a], id, clocks[a]), ViewOf(states[b - 1], id, clocks[b - 1]), c,
                  InflowIn(capacity, rate, steps, clocks, id, a, b - 1))
    ensures Kept(ViewOf(states[a], id, clocks[a]), ViewOf(states[b], id, clocks[b]), c,
                 InflowIn(capacity, rate, steps, clocks, id, a, b))
  {
    StepIsKept(states[b - 1], steps[b - 1], clocks[b - 1], id, c);
    InflowSplits(capacity, rate, steps, clocks, id, a, b);
    KeptOn(ViewOf(states[a], id, clocks[a]), ViewOf(states[b - 1], id, clocks[b - 1]),
           ViewOf(states[b], id, clocks[b]), c, InflowIn(capacity, rate, steps, clocks, id, a, b - 1),
           Inflow(capacity, rate, clocks[b] - clocks[b - 1], Resets(steps[b - 1], id)),
           InflowIn(capacity, rate, steps, clocks, id, a, b));
  }

  /** The placements on node `id` between two moments of a run. */
  function PlacedIn(states: seq<Sys>, id: Id, a: nat, b: nat): real
    requires a < |states| && b < |states|
  {
    Work(states[b].sched, id) as real - Work(states[a].sched, id) as real
  }

  /** A full bucket, `2 (c - 1)` placements for nothing, `c` times the inflow, and the picks that were
      under way at the start. */
  ghost predicate WithinShare(placed: real, underWay: nat, c: nat, capacity: real, inflow: real) {
    placed <= capacity + 2.0 * (c as real - 1.0) + Times(c, inflow) + underWay as real
  }

  lemma KeptIsShare(v: View, w: View, underWay: nat, c: nat, capacity: real, inflow: real)
    requires c >= 1 && Kept(v, w, c, inflow) && 0.0 <= v.level <= capacity && 0.0 <= w.level && v.armed <= underWay
    ensures w.work as real - v.work as real <= Owed(v.level, v.armed, c) + Times(c, inflow)
    ensures WithinShare(w.work as real - v.work as real, underWay, c, capacity, inflow)
  {
    ExtraBounds(v.level, c);
    ExtraBounds(w.level, c);
  }

  /** With at most `c` picks under way at once: over any stretch of any run, a node is placed on at most
      what it owes at the start and `c` times what flows in, so at most a full bucket, `2 (c - 1)` more,
      `c` times the inflow, and once for each pick under way at the start. */
  lemma {:induction false} OverlappingPicks(capacity: real, rate: real, steps: seq<Step>, states: seq<Sys>,
                                            clocks: seq<real>, c: nat, id: Id, a: nat, b: nat)
    requires IsRun(capacity, rate, steps, states, clocks, c) && c >= 1 && a <= b < |states|
    ensures
      var inflow := InflowIn(capacity, rate, steps, clocks, id, a, b);
      && PlacedIn(states, id, a, b)
         <= Owed(Level(states[a].sched.limiter, id, clocks[a]), |Armed(states[a].picks, id)|, c) + Times(c, inflow)
      && WithinShare(PlacedIn(states, id, a, b), |states[a].picks|, c, capacity, inflow)
  {
    var v, w := ViewOf(states[a], id, clocks[a]), ViewOf(states[b], id, clocks[b]);
    StretchIsKept(capacity, rate, steps, states, clocks, c, id, a, b);
    RunsAreSane(capacity, rate, steps, states, clocks, c, a);
    RunsAreSane(capacity, rate, steps, states, clocks, c, b);
    LevelGrows(states[a].sched.limiter, id, clocks[a], clocks[a]);
    LevelGrows(states[b].sched.limiter, id, clocks[b], clocks[b]);
    ArmedAreUnderWay(states[a].picks, id);
    KeptIsShare(v, w, |states[a].picks|, c, capacity, InflowIn(capacity, rate, steps, clocks, id, a, b));
  }

  // ----- At one instant -----

  /** `Owed`, when nothing flows in: whole tokens, and `c - 1` for nothing after the last of them. */
  function OwedNow(level: real, armed: nat, c: nat): int {
    if level < 1.0 then armed else level.Floor + c - 1
  }

  lemma MoveOwesNow(v: View, w: View, c: nat)
    requires Moves(v, w, c) && 0.0 <= v.level
    ensures w.work + OwedNow(w.level, w.armed, c) <= v.work + OwedNow(v.level, v.armed, c)
  {
    if w.level == v.level - 1.0 {
      assert w.level.Floor == v.level.Floor - 1;
    }
  }

  /** Between two moments of one clock reading, with no reset and no pick under way at the first, a node
      gets at most the whole tokens in its bucket and `c - 1` placements more; none below one token. */
  lemma {:induction false} AtOneInstant(capacity: real, rate: real, steps: seq<Step>, states: seq<Sys>,
                                        clocks: seq<real>, c: nat, id: Id, a: nat, b: nat)
    requires IsRun(capacity, rate, steps, states, clocks, c) && a <= b < |states|
    requires clocks[a] == clocks[b] && ResetsIn(steps, id, a, b) == 0
    ensures
      var v, w := ViewOf(states[a], id, clocks[a]), ViewOf(states[b], id, clocks[b]);
      w.work + OwedNow(w.level, w.armed, c) <= v.work + OwedNow(v.level, v.armed, c)
    decreases b
  {
    if a < b {
      ClocksRise(capacity, rate, steps, states, clocks, c, a, b - 1);
      RunsAreSane(capacity, rate, steps, states, clocks, c, b - 1);
      assert Follows(steps, states, clocks, b - 1);
      AtOneInstant(capacity, rate, steps, states, clocks, c, id, a, b - 1);
      StepMoves(states[b - 1], steps[b - 1], clocks[b - 1], id, c);
      LevelGrows(states[b - 1].sched.limiter, id, clocks[b - 1], clocks[b - 1]);
      MoveOwesNow(ViewOf(states[b - 1], id, clocks[b - 1]), ViewOf(states[b], id, clocks[b]), c);
    }
  }

  lemma {:induction false} ClocksRise(capacity: real, rate: real, steps: seq<Step>, states: seq<Sys>,
                                      clocks: seq<real>, c: nat, a: nat, b: nat)
    requires IsRun(capacity, rate, steps, states, clocks, c) && a <= b < |states|
    ensures clocks[a] <= clocks[b]
  {
    if a < b {
      ClocksRise(capacity, rate, steps, states, clocks, c, a, b - 1);
      assert Follows(steps, states, clocks, b - 1);
    }
  }

  // ----- When the bucket's own bound holds -----

  /** Nobody has been let through to anything. */
  ghost predicate NobodyPassed(s: Sys) { forall p :: p in s.picks ==> s.picks[p].passed == [] }

  lemma {:induction false} NothingPassesBelowOne(capacity: real, rate: real, steps: seq<Step>, states: seq<Sys>,
                                                 clocks: seq<real>, c: nat, k: nat)
    requires IsRun(capacity, rate, steps, states, clocks, c) && k < |states| && capacity < 1.0
    ensures NobodyPassed(states[k]) && states[k].sched.work == map[]
  {
    if k > 0 {
      NothingPassesBelowOne(capacity, rate, steps, states, clocks, c, k - 1);
      RunsAreSane(capacity, rate, steps, states, clocks, c, k - 1);
      assert Follows(steps, states, clocks, k - 1);
      StillNobody(states[k - 1], steps[k - 1], clocks[k - 1]);
    }
  }

  lemma StillNobody(s: Sys, e: Step, last: real)
    requires Enabled(s, e) && last <= Time(e, last) && Sane(s.sched.limiter, last) && s.sched.limiter.capacity < 1.0
    requires NobodyPassed(s) && s.sched.work == map[]
    ensures NobodyPassed(Apply(s, e)) && Apply(s, e).sched.work == map[]
  {
    var l := s.sched.limiter;
    LaterSane(l, last, Time(e, last));
    if e.AskNext? {
      AskEffect(s, e.p, e.at);
      LevelGrows(l, s.picks[e.p].todo[0].id, e.at, e.at);
    } else if e.Charge? {
      ChargeEffect(s, e.p, e.key, e.ctx, e.now, e.at);
      TargetPassed(s, e.p, e.key, e.ctx, e.now);
      assert Target(s, e.p, e.key, e.ctx, e.now).None?;
    }
  }

  /** Placements since a moment without picks under way are paid for by the bucket. */
  ghost predicate ObeysBucket(capacity: real, rate: real, steps: seq<Step>, states: seq<Sys>, clocks: seq<real>,
                              id: Id, a: nat, b: nat)
    requires a <= b < |states| && |states| == |clocks| == |steps| + 1
  {
    states[a].picks == map[] ==>
      Within(PlacedIn(states, id, a, b), capacity, rate, clocks[b] - clocks[a], ResetsIn(steps, id, a, b))
  }

  /** One pick at a time obeys the bucket, and so does everybody if no pick is ever let through. */
  lemma FewObeyBucket(capacity: real, rate: real, steps: seq<Step>, states: seq<Sys>, clocks: seq<real>, c: nat,
                      id: Id, a: nat, b: nat)
    requires IsRun(capacity, rate, steps, states, clocks, c) && a <= b < |states| && (c <= 1 || capacity < 1.0)
    ensures ObeysBucket(capacity, rate, steps, states, clocks, id, a, b)
  {
    if capacity < 1.0 {
      NothingPassesBelowOne(capacity, rate, steps, states, clocks, c, a);
      NothingPassesBelowOne(capacity, rate, steps, states, clocks, c, b);
      ClocksRise(capacity, rate, steps, states, clocks, c, a, b);
      NothingIsWithin(capacity, rate, clocks[b] - clocks[a], ResetsIn(steps, id, a, b));
    } else if states[a].picks == map[] {
      OverlappingPicks(capacity, rate, steps, states, clocks, 1, id, a, b);
      AloneIsWithin(PlacedIn(states, id, a, b), capacity, rate, clocks[b] - clocks[a], ResetsIn(steps, id, a, b));
    }
  }

  lemma AloneIsWithin(placed: real, capacity: real, rate: real, dt: real, resets: nat)
    requires WithinShare(placed, 0, 1, capacity, Inflow(capacity, rate, dt, resets))
    ensures Within(placed, capacity, rate, dt, resets)
  {
    var inflow := Inflow(capacity, rate, dt, resets);
    assert Times(1, inflow) == inflow;
  }

  lemma NothingIsWithin(capacity: real, rate: real, dt: real, resets: nat)
    requires capacity > 0.0 && rate > 0.0 && dt >= 0.0
    ensures Within(0.0, capacity, rate, dt, resets)
  {
    assert rate * dt >= 0.0 && capacity * resets as real >= 0.0;
  }

  /** For every capacity and rate: the placements of all runs with at most `c` picks under way obey the
      token bucket, from every moment at which none is, if and only if `c` is at most one or the bucket
      never holds a token. */
  lemma {:induction false} BucketBoundExactly(capacity: real, rate: real, c: nat)
    requires capacity > 0.0 && rate > 0.0
    ensures c <= 1 || capacity < 1.0 <==>
      (forall steps, states, clocks, id, a: nat, b: nat ::
         IsRun(capacity, rate, steps, states, clocks, c) && a <= b < |states|
         ==> ObeysBucket(capacity, rate, steps, states, clocks, id, a, b))
  {
    if c <= 1 || capacity < 1.0 {
      forall steps, states, clocks, id, a: nat, b: nat |
        IsRun(capacity, rate, steps, states, clocks, c) && a <= b < |states|
        ensures ObeysBucket(capacity, rate, steps, states, clocks, id, a, b)
      {
        FewObeyBucket(capacity, rate, steps, states, clocks, c, id, a, b);
      }
    } else {
      var steps, states, clocks := MostAtOnce(capacity, rate, c);
      assert rate * 0.0 == 0.0 && capacity * 0 as real == 0.0;
      assert !ObeysBucket(capacity, rate, steps, states, clocks, 0, 0, |steps|);
    }
  }

  // ----- The worst run -----

  function Steady(): real -> real { (elapsed: real) => 1.0 }

  const PLAIN: Context := Context({}, None, None, Steady(), true)
  const ONLY: Node := Node(0, Lifecycle.Alive, 1.0)
  const NEW_FLIGHT: Flight := Flight([ONLY], [])
  const PASSED: Flight := Flight([], [ONLY])

  /** A pick that may choose only one node, which is fit and alive, chooses it, however hot it is. */
  lemma OnlyIsChosen(s: Sched)
    requires 0 in s.heat ==> s.heat[0].value >= 0.0
    ensures Narrow([ONLY], PLAIN) == [ONLY] && PlacedFrom(s, [ONLY], None, PLAIN, 0.0) == Some(ONLY)
  {
    var score := Scoring(s.heat, 0.0, Steady());
    assert CurrentHeat(s.heat, 0, 0.0, Steady()) >= 0.0;
    assert Score(s.heat, ONLY, 0.0, Steady()) >= 0.0;
    assert Keep([ONLY], Having(Lifecycle.Alive)) == [ONLY];
    assert BestFit([ONLY], score) == Some(ONLY);
  }

  /** The clock of a run that takes no time. */
  function Still(n: nat): seq<real> { seq(n, _ => 0.0) }

  datatype Setup = Setup(capacity: real, rate: real, c: nat)

  /** A run at one instant, seen at its last state. */
  ghost predicate Reaches(u: Setup, steps: seq<Step>, states: seq<Sys>, s: Sys) {
    && IsRun(u.capacity, u.rate, steps, states, Still(|states|), u.c) && s == states[|steps|]
    && Sane(s.sched.limiter, 0.0) && (0 in s.sched.heat ==> s.sched.heat[0].value >= 0.0)
    && (forall k :: 0 <= k < |steps| ==> !steps[k].Limiter?)
  }

  lemma Extend(u: Setup, steps: seq<Step>, states: seq<Sys>, s: Sys, e: Step, t: Sys)
    requires Reaches(u, steps, states, s) && Enabled(s, e) && t == Apply(s, e)
    requires !e.Limiter? && Time(e, 0.0) == 0.0 && |t.picks| <= u.c
    requires Sane(t.sched.limiter, 0.0) && (0 in t.sched.heat ==> t.sched.heat[0].value >= 0.0)
    ensures Reaches(u, steps + [e], states + [t], t)
  {
    var longer, on, clocks := steps + [e], states + [t], Still(|states| + 1);
    forall k | 0 <= k < |longer|
      ensures Follows(longer, on, clocks, k)
    {
      StillFollows(steps, states, e, t, k);
    }
  }

  lemma StillFollows(steps: seq<Step>, states: seq<Sys>, e: Step, t: Sys, k: nat)
    requires |states| == |steps| + 1 && k <= |steps| && Time(e, 0.0) == 0.0
    requires k < |steps| ==> Follows(steps, states, Still(|states|), k)
    requires Enabled(states[|steps|], e) && t == Apply(states[|steps|], e)
    ensures Follows(steps + [e], states + [t], Still(|states| + 1), k)
  {
    var steps', states' := steps + [e], states + [t];
    assert steps'[k] == (if k < |steps| then steps[k] else e) && states'[k] == states[k];
    assert states'[k + 1] == if k < |steps| then states[k + 1] else t;
  }

  /** Picks `0` to `n - 1`, all let through. */
  function Waiting(n: nat): (w: map<nat, Flight>)
    ensures forall p: nat :: p in w <==> p < n
    ensures forall p: nat :: p in w ==> w[p] == PASSED
  {
    if n == 0 then map[] else Waiting(n - 1)[n - 1 := PASSED]
  }

  lemma {:induction false} WaitingSize(n: nat)
    ensures |Waiting(n)| == n
  {
    if n > 0 {
      WaitingSize(n - 1);
    }
  }

  /** Pick `n` starts, is let through, ... */
  lemma OnePasses(u: Setup, steps: seq<Step>, states: seq<Sys>, s: Sys, n: nat)
    returns (steps': seq<Step>, states': seq<Sys>, t: Sys)
    requires Reaches(u, steps, states, s) && s.picks == Waiting(n) && n < u.c
    requires Level(s.sched.limiter, 0, 0.0) >= 1.0
    ensures Reaches(u, steps', states', t) && t.picks == Waiting(n + 1)
    ensures Level(t.sched.limiter, 0, 0.0) == Level(s.sched.limiter, 0, 0.0) && t.sched.work == s.sched.work
  {
    assert Keep([ONLY], Serving(PLAIN)) == [ONLY];
    var e1, e2 := Start(n, [ONLY], PLAIN), AskNext(n, 0.0);
    var s1 := Apply(s, e1);
    WaitingSize(n);
    assert s1.picks == s.picks[n := NEW_FLIGHT];
    Extend(u, steps, states, s, e1, s1);
    steps', states' := steps + [e1], states + [s1];
    AskEffect(s1, n, 0.0);
    t := Apply(s1, e2);
    assert NEW_FLIGHT.passed + [ONLY] == [ONLY] && NEW_FLIGHT.todo[1..] == [];
    assert t.picks == s.picks[n := PASSED] == Waiting(n + 1);
    WaitingSize(n + 1);
    Extend(u, steps', states', s1, e2, t);
    steps', states' := steps' + [e2], states' + [t];
  }

  /** What the charge of a pick for the only node does. */
  lemma OnlyCharge(s: Sys, n: nat)
    requires n in s.picks && s.picks[n] == PASSED && Sane(s.sched.limiter, 0.0)
    requires 0 in s.sched.heat ==> s.sched.heat[0].value >= 0.0
    ensures
      var t := Charged(s, n, None, PLAIN, 0.0, 0.0);
      && t.picks == s.picks - {n} && Work(t.sched, 0) == Work(s.sched, 0) + 1 && Sane(t.sched.limiter, 0.0)
      && (0 in t.sched.heat ==> t.sched.heat[0].value >= 0.0)
      && (Level(s.sched.limiter, 0, 0.0) >= 1.0 ==>
            Level(t.sched.limiter, 0, 0.0) == Level(s.sched.limiter, 0, 0.0) - 1.0)
  {
    OnlyIsChosen(s.sched);
    ChargeEffect(s, n, None, PLAIN, 0.0, 0.0);
    assert CurrentHeat(s.sched.heat, 0, 0.0, Steady()) >= 0.0;
  }

  /** ... and charges. */
  lemma OneCharges(u: Setup, steps: seq<Step>, states: seq<Sys>, s: Sys, n: nat)
    returns (steps': seq<Step>, states': seq<Sys>, t: Sys)
    requires Reaches(u, steps, states, s) && s.picks == Waiting(n + 1) && n < u.c
    ensures Reaches(u, steps', states', t) && t.picks == Waiting(n) && Work(t.sched, 0) == Work(s.sched, 0) + 1
    ensures Level(s.sched.limiter, 0, 0.0) >= 1.0 ==>
      Level(t.sched.limiter, 0, 0.0) == Level(s.sched.limiter, 0, 0.0) - 1.0
  {
    var e := Charge(n, None, PLAIN, 0.0, 0.0);
    OnlyCharge(s, n);
    t := Charged(s, n, None, PLAIN, 0.0, 0.0);
    assert t.picks == Waiting(n);
    WaitingSize(n);
    Extend(u, steps, states, s, e, t);
    steps', states' := steps + [e], states + [t];
  }

  /** `n` placements one after the other, each paid for. */
  lemma {:induction false} InTurn(u: Setup, n: nat) returns (steps: seq<Step>, states: seq<Sys>, s: Sys)
    requires u.capacity >= n as real && u.capacity > 0.0 && u.rate > 0.0 && u.c >= 1
    ensures Reaches(u, steps, states, s) && s.picks == Waiting(0) && Work(s.sched, 0) == n
    ensures Level(s.sched.limiter, 0, 0.0) == u.capacity - n as real
  {
    if n == 0 {
      s := Fresh(u.capacity, u.rate);
      steps, states := [], [s];
    } else {
      steps, states, s := InTurn(u, n - 1);
      steps, states, s := OnePasses(u, steps, states, s, 0);
      steps, states, s := OneCharges(u, steps, states, s, 0);
    }
  }

  lemma {:induction false} AllPass(u: Setup, steps: seq<Step>, states: seq<Sys>, s: Sys, n: nat)
    returns (steps': seq<Step>, states': seq<Sys>, t: Sys)
    requires Reaches(u, steps, states, s) && s.picks == Waiting(0) && n <= u.c
    requires Level(s.sched.limiter, 0, 0.0) >= 1.0
    ensures Reaches(u, steps', states', t) && t.picks == Waiting(n) && t.sched.work == s.sched.work
    ensures Level(t.sched.limiter, 0, 0.0) == Level(s.sched.limiter, 0, 0.0)
  {
    steps', states', t := steps, states, s;
    if n > 0 {
      steps', states', t := AllPass(u, steps, states, s, n - 1);
      steps', states', t := OnePasses(u, steps', states', t, n - 1);
    }
  }

  lemma {:induction false} AllCharge(u: Setup, steps: seq<Step>, states: seq<Sys>, s: Sys, n: nat)
    returns (steps': seq<Step>, states': seq<Sys>, t: Sys)
    requires Reaches(u, steps, states, s) && s.picks == Waiting(n) && n <= u.c
    ensures Reaches(u, steps', states', t) && Work(t.sched, 0) == Work(s.sched, 0) + n
    decreases n
  {
    steps', states', t := steps, states, s;
    if n > 0 {
      steps', states', t := OneCharges(u, steps, states, s, n - 1);
      steps', states', t := AllCharge(u, steps', states', t, n - 1);
    }
  }

  /** All but one of the whole tokens are spent in turn; then `c` picks pass together, and all place.
      By `AtOneInstant` no run does worse in no time. */
  lemma {:induction false} MostAtOnce(capacity: real, rate: real, c: nat)
    returns (steps: seq<Step>, states: seq<Sys>, clocks: seq<real>)
    requires capacity >= 1.0 && rate > 0.0 && c >= 1
    ensures IsRun(capacity, rate, steps, states, clocks, c) && states[0].picks == map[]
    ensures clocks[|steps|] == clocks[0] && ResetsIn(steps, 0, 0, |steps|) == 0
    ensures PlacedIn(states, 0, 0, |steps|) == (capacity.Floor + c - 1) as real
  {
    var u := Setup(capacity, rate, c);
    var s;
    steps, states, s := InTurn(u, capacity.Floor - 1);
    steps, states, s := AllPass(u, steps, states, s, c);
    steps, states, s := AllCharge(u, steps, states, s, c);
    clocks := Still(|states|);
    NoResets(steps, |steps|);
  }

  lemma {:induction false} NoResets(steps: seq<Step>, b: nat)
    requires b <= |steps| && forall k :: 0 <= k < b ==> !steps[k].Limiter?
    ensures ResetsIn(steps, 0, 0, b) == 0
  {
    if b > 0 {
      NoResets(steps, b - 1);
    }
  }
}
