/** Placements and tokens: what `pick` promises, alone and over runs in which the scheduler is the
    limiter's only consumer. */
module SchedulerLaws {
  import opened Options
  import Lifecycle
  import opened RateLimiter
  import opened RateLimiterLaws
  import opened Scheduler

  // ----- Selection -----

  lemma KeepMembers(nodes: seq<Node>, p: Node -> bool)
    ensures forall n :: n in Keep(nodes, p) <==> n in nodes && p(n)
  {}

  lemma BestIsMax(nodes: seq<Node>, score: Node -> real)
    requires nodes != []
    ensures Best(nodes, score) in nodes && forall n :: n in nodes ==> score(n) <= score(Best(nodes, score))
    decreases |nodes|
  {
    if |nodes| > 1 {
      BestIsMax(nodes[..|nodes| - 1], score);
      assert nodes == nodes[..|nodes| - 1] + [nodes[|nodes| - 1]];
    }
  }

  /** `b` is in the pool of this status, and nobody there scores higher. */
  ghost predicate Tops(nodes: seq<Node>, score: Node -> real, status: Status, b: Node) {
    && b in nodes && b.status == status && score(b) >= 0.0
    && forall n :: n in nodes && n.status == status ==> score(n) <= score(b)
  }

  lemma BestFitTops(nodes: seq<Node>, score: Node -> real, status: Status)
    ensures match BestFit(Keep(nodes, Having(status)), score)
            case Some(b) => Tops(nodes, score, status, b)
            case None => forall n :: n in nodes && n.status == status ==> score(n) < 0.0
  {
    var kept := Keep(nodes, Having(status));
    KeepMembers(nodes, Having(status));
    if kept != [] { BestIsMax(kept, score); }
  }

  /** With `prefer_alive`, the best alive node; a quarantined one only if no alive node fits, and then
      the best of those; nothing only if none of either fits. */
  lemma SelectPrefersAlive(nodes: seq<Node>, score: Node -> real)
    ensures match Select(nodes, score, true)
            case Some(b) =>
              || Tops(nodes, score, Lifecycle.Alive, b)
              || (Tops(nodes, score, Lifecycle.Quarantined, b)
                  && forall n :: n in nodes && n.status == Lifecycle.Alive ==> score(n) < 0.0)
            case None =>
              forall n :: n in nodes && (n.status == Lifecycle.Alive || n.status == Lifecycle.Quarantined)
                ==> score(n) < 0.0
  {
    BestFitTops(nodes, score, Lifecycle.Alive);
    BestFitTops(nodes, score, Lifecycle.Quarantined);
  }

  lemma SelectIsMember(nodes: seq<Node>, score: Node -> real, preferAlive: bool)
    ensures Select(nodes, score, preferAlive).Some? ==> Select(nodes, score, preferAlive).value in nodes
  {
    if preferAlive {
      SelectPrefersAlive(nodes, score);
    } else if nodes != [] {
      BestIsMax(nodes, score);
    }
  }

  // ----- The rate-limit filter -----

  /** Asking changes no level, and lets through only nodes that can pay. */
  lemma UnlimitedCanPay(l: Limiter, nodes: seq<Node>, at: real)
    requires Sane(l, at)
    ensures var (m, pool) := Unlimited(l, nodes, at);
      && Sane(m, at) && m.capacity == l.capacity && m.rate == l.rate
      && (forall id :: Level(m, id, at) == Level(l, id, at))
      && (forall n :: n in pool ==> n in nodes && Level(l, n.id, at) >= 1.0)
    decreases |nodes|
  {
    if nodes != [] {
      var op := Ask(nodes[0].id, at);
      var l1 := Query(l, nodes[0].id, at).0;
      StepSane(l, op, at);
      forall id ensures Level(l1, id, at) == Level(l, id, at) { StepLevel(l, op, id, at); }
      AskLevel(l, nodes[0].id, at);
      UnlimitedCanPay(l1, nodes[1..], at);
    }
  }

  lemma AskLevel(l: Limiter, id: Id, at: real)
    requires Sane(l, at)
    ensures Query(l, id, at).1 <==> Level(l, id, at) < 1.0
  {
    RefillNow(NewBucket(l.capacity, l.rate, at), at);
  }

  lemma EligibleCanPay(l: Limiter, nodes: seq<Node>, ctx: Context, asked: real)
    requires Sane(l, asked)
    ensures var (m, pool) := Eligible(l, nodes, ctx, asked);
      && Sane(m, asked) && m.capacity == l.capacity && m.rate == l.rate
      && (forall id :: Level(m, id, asked) == Level(l, id, asked))
      && (forall n :: n in pool ==> n in nodes && Serving(ctx)(n) && Level(l, n.id, asked) >= 1.0)
  {
    var serving := Keep(nodes, Serving(ctx));
    KeepMembers(nodes, Serving(ctx));
    UnlimitedCanPay(l, serving, asked);
    var pool := Unlimited(l, serving, asked).1;
    if ctx.canary.Some? { KeepMembers(pool, Among(ctx.canary.value)); }
    var pool1 := if ctx.canary.Some? then Keep(pool, Among(ctx.canary.value)) else pool;
    if ctx.region.Some? { KeepMembers(pool1, Among(ctx.region.value)); }
  }

  // ----- One pick -----

  /** Did this pick place a workload, rather than follow a binding or find nobody? */
  function Placed(s: Sched, nodes: seq<Node>, key: Option<Key>, ctx: Context, now: real, asked: real): Option<Node> {
    PlacedFrom(s, Eligible(s.limiter, nodes, ctx, asked).1, key, ctx, now)
  }

  /** Whoever is returned is serving and has no open circuit; a placement returns its node. */
  lemma PickServes(s: Sched, nodes: seq<Node>, key: Option<Key>, ctx: Context, now: real, asked: real, spent: real)
    requires Sane(s.limiter, asked)
    ensures var n := Pick(s, nodes, key, ctx, now, asked, spent).1;
      var placed := Placed(s, nodes, key, ctx, now, asked);
      && (n.Some? ==> n.value in nodes && Serving(ctx)(n.value))
      && (placed.Some? ==> n == placed && Level(s.limiter, placed.value.id, asked) >= 1.0)
  {
    var pool := Eligible(s.limiter, nodes, ctx, asked).1;
    EligibleCanPay(s.limiter, nodes, ctx, asked);
    if key.Some? && key.value in s.affinity { KeepMembers(pool, Among({s.affinity[key.value]})); }
    SelectIsMember(pool, Scoring(s.heat, now, ctx.decay), ctx.preferAlive);
  }

  /** In a pick that no other overlaps, every placement pays exactly one token, on the node it chose and
      on no other: over the pick, a node's level and its workload count move against each other. A
      binding or a failed pick pays nothing. */
  lemma PickPaysOneToken(s: Sched, nodes: seq<Node>, key: Option<Key>, ctx: Context,
                         now: real, asked: real, spent: real)
    requires Sane(s.limiter, asked) && asked <= spent
    ensures var t := Pick(s, nodes, key, ctx, now, asked, spent).0;
      var placed := Placed(s, nodes, key, ctx, now, asked);
      && Sane(t.limiter, spent) && t.limiter.capacity == s.limiter.capacity && t.limiter.rate == s.limiter.rate
      && (forall id :: Work(t, id) == Work(s, id) + (if placed.Some? && id == placed.value.id then 1 else 0))
      && (forall id :: Level(t.limiter, id, spent)
                    == Level(s.limiter, id, spent) - (if placed.Some? && id == placed.value.id then 1.0 else 0.0))
  {
    var l := Eligible(s.limiter, nodes, ctx, asked).0;
    EligibleCanPay(s.limiter, nodes, ctx, asked);
    SameLevelsLater(l, s.limiter, asked, spent);
    PickServes(s, nodes, key, ctx, now, asked, spent);
    var placed := Placed(s, nodes, key, ctx, now, asked);
    if placed.Some? {
      LevelGrows(s.limiter, placed.value.id, asked, spent);
      SpendOne(l, placed.value.id, asked, spent);
    }
  }

  /** A node that can pay pays one token, and nobody else does. */
  lemma SpendOne(l: Limiter, id: Id, asked: real, spent: real)
    requires Sane(l, asked) && asked <= spent && Level(l, id, spent) >= 1.0
    ensures var (m, ok) := ConsumeFrom(l, id, 1.0, spent);
      && ok && Sane(m, spent) && m.capacity == l.capacity && m.rate == l.rate
      && forall x :: Level(m, x, spent) == Level(l, x, spent) - (if x == id then 1.0 else 0.0)
  {
    var op := Spend(id, 1.0, spent);
    SpendByLevel(l, op);
    StepSane(l, op, spent);
    forall x
      ensures Level(RateLimiterLaws.Apply(l, op), x, spent) == Level(l, x, spent) - (if x == id then 1.0 else 0.0)
    {
      StepLevel(l, op, x, spent);
    }
  }

  // ----- Runs -----

  datatype Op =
    | PickOne(nodes: seq<Node>, key: Option<Key>, ctx: Context, now: real, asked: real, at: real)
    | OnLimiter(op: RateLimiterLaws.Op)          // queries, displays and resets; no other consumer

  function At(o: Op): real { if o.PickOne? then o.at else o.op.at }

  /** A pick is asked between the previous operation and its own charge. */
  ghost predicate Timely(o: Op, last: real) {
    match o
    case PickOne(_, _, _, _, asked, at) => last <= asked <= at
    case OnLimiter(op) => last <= op.at && !op.Spend?
  }

  function Apply(s: Sched, o: Op): Sched {
    match o
    case PickOne(nodes, key, ctx, now, asked, at) => Pick(s, nodes, key, ctx, now, asked, at).0
    case OnLimiter(op) => s.(limiter := RateLimiterLaws.Apply(s.limiter, op))
  }

  function RunPicks(s: Sched, ops: seq<Op>): Sched
    decreases |ops|
  {
    if ops == [] then s else RunPicks(Apply(s, ops[0]), ops[1..])
  }

  ghost predicate AllTimely(ops: seq<Op>, start: real)
    decreases |ops|
  {
    ops == [] || (Timely(ops[0], start) && AllTimely(ops[1..], At(ops[0])))
  }

  function EndOf(ops: seq<Op>, start: real): real { if ops == [] then start else At(ops[|ops| - 1]) }

  function Resets(ops: seq<Op>, id: Id): nat
    decreases |ops|
  {
    if ops == [] then 0 else (if ops[0].OnLimiter? then Refunds(ops[0].op, id) else 0) + Resets(ops[1..], id)
  }

  /** The workload count only grows, and by a real number of tokens. */
  function Added(s: Sched, t: Sched, id: Id): real { Work(t, id) as real - Work(s, id) as real }

  lemma StepIsCovered(s: Sched, o: Op, id: Id, last: real)
    requires Sane(s.limiter, last) && Timely(o, last)
    ensures var t := Apply(s, o);
      && Sane(t.limiter, At(o)) && t.limiter.capacity == s.limiter.capacity && t.limiter.rate == s.limiter.rate
      && Covered(Added(s, t, id), Level(t.limiter, id, At(o)), Level(s.limiter, id, last),
                 s.limiter.capacity, s.limiter.rate, At(o) - last, if o.OnLimiter? then Refunds(o.op, id) else 0)
  {
    match o
    case PickOne(nodes, key, ctx, now, asked, at) =>
      LaterSane(s.limiter, last, asked);
      PickPaysOneToken(s, nodes, key, ctx, now, asked, at);
      LevelGrows(s.limiter, id, last, at);
      var t := Apply(s, o);
      CoveredStep(Added(s, t, id), Level(t.limiter, id, at), Level(s.limiter, id, at), Level(s.limiter, id, last),
                  s.limiter.capacity, s.limiter.rate, at - last, 0);
    case OnLimiter(op) =>
      StepSane(s.limiter, op, last);
      StepCovered(s.limiter, op, id, last, Refunds(op, id));
      assert Granted(s.limiter, op, id) == 0.0 == Added(s, Apply(s, o), id);
  }

  lemma PlacementsAreCovered(s: Sched, ops: seq<Op>, id: Id, start: real)
    requires Sane(s.limiter, start) && AllTimely(ops, start)
    ensures var t := RunPicks(s, ops);
      && Sane(t.limiter, EndOf(ops, start))
      && t.limiter.capacity == s.limiter.capacity && t.limiter.rate == s.limiter.rate
      && Covered(Added(s, t, id), Level(t.limiter, id, EndOf(ops, start)), Level(s.limiter, id, start),
                 s.limiter.capacity, s.limiter.rate, EndOf(ops, start) - start, Resets(ops, id))
    decreases |ops|
  {
    if ops == [] {
      assert Inflow(s.limiter.capacity, s.limiter.rate, 0.0, 0) == 0.0;
    } else {
      var o, rest := ops[0], ops[1..];
      var s1 := Apply(s, o);
      var t := RunPicks(s1, rest);
      StepIsCovered(s, o, id, start);
      PlacementsAreCovered(s1, rest, id, At(o));
      var n1 := if o.OnLimiter? then Refunds(o.op, id) else 0;
      CoveredChain(Added(s, s1, id), Level(s1.limiter, id, At(o)), Level(s.limiter, id, start), At(o) - start, n1,
                   Added(s1, t, id), Level(t.limiter, id, EndOf(rest, At(o))), EndOf(rest, At(o)) - At(o),
                   Resets(rest, id), s.limiter.capacity, s.limiter.rate,
                   Added(s, t, id), EndOf(rest, At(o)) - start, Resets(ops, id));
    }
  }

  /** Over any stretch of any run of picks one after the other, queries and resets (`PickRaces` has those
      that overlap), a node is placed on at most one
      burst, plus the refill, plus a capacity per reset: its workload count obeys the bucket bound. */
  lemma {:induction false} WorkloadObeysTheBucket(s: Sched, ops: seq<Op>, id: Id, start: real)
    requires Sane(s.limiter, start) && AllTimely(ops, start)
    ensures Within(Added(s, RunPicks(s, ops), id), s.limiter.capacity, s.limiter.rate,
                   EndOf(ops, start) - start, Resets(ops, id))
  {
    PlacementsAreCovered(s, ops, id, start);
    var t := RunPicks(s, ops);
    LevelGrows(s.limiter, id, start, start);
    LevelGrows(t.limiter, id, EndOf(ops, start), EndOf(ops, start));
    Remainder(Added(s, t, id), Level(t.limiter, id, EndOf(ops, start)), Level(s.limiter, id, start),
              s.limiter.capacity, s.limiter.rate, EndOf(ops, start) - start, Resets(ops, id));
  }
}
