/** Who gets the work: the pool a pick chooses from, the trade between fitness and heat, and what heat is,
    in terms of the placements themselves. */
module PlacementLaws {
  import opened Options
  import opened RateLimiter
  import opened RateLimiterLaws
  import opened Scheduler
  import opened SchedulerLaws

  // ----- The pool -----

  /** Serving, its circuit closed, a token in its bucket, and in the canary pool if there is one. */
  predicate Fit(l: Limiter, ctx: Context, n: Node, asked: real) {
    && n.status != Lifecycle.Dead && n.status != Lifecycle.Leaving && n.id !in ctx.open
    && Level(l, n.id, asked) >= 1.0
    && (ctx.canary.Some? ==> n.id in ctx.canary.value)
  }

  predicate Near(ctx: Context, n: Node) { ctx.region.Some? && n.id in ctx.region.value }

  lemma {:induction false} UnlimitedExactly(l: Limiter, nodes: seq<Node>, at: real)
    requires Sane(l, at)
    ensures forall n :: n in Unlimited(l, nodes, at).1 <==> n in nodes && Level(l, n.id, at) >= 1.0
    decreases |nodes|
  {
    if nodes != [] {
      var op := Ask(nodes[0].id, at);
      var l1 := Query(l, nodes[0].id, at).0;
      StepSane(l, op, at);
      forall id
        ensures Level(l1, id, at) == Level(l, id, at)
      {
        StepLevel(l, op, id, at);
      }
      AskLevel(l, nodes[0].id, at);
      UnlimitedExactly(l1, nodes[1..], at);
      assert nodes == [nodes[0]] + nodes[1..];
    }
  }

  lemma NarrowExactly(pool: seq<Node>, ctx: Context)
    ensures
      var stable := (n: Node) => n in pool && (ctx.canary.Some? ==> n.id in ctx.canary.value);
      forall n :: n in Narrow(pool, ctx) <==> stable(n) && (Near(ctx, n) || forall m :: stable(m) ==> !Near(ctx, m))
  {
    var pool1 := if ctx.canary.Some? then Keep(pool, Among(ctx.canary.value)) else pool;
    if ctx.canary.Some? {
      KeepMembers(pool, Among(ctx.canary.value));
    }
    if ctx.region.Some? {
      KeepMembers(pool1, Among(ctx.region.value));
      var near := Keep(pool1, Among(ctx.region.value));
      if near != [] {
        assert near[0] in near;
      }
    }
  }

  /** A node is in the pool exactly if it is fit, and in the preferred region unless no fit node is. */
  lemma PoolExactly(l: Limiter, nodes: seq<Node>, ctx: Context, asked: real)
    requires Sane(l, asked)
    ensures forall n :: n in Eligible(l, nodes, ctx, asked).1 <==>
      && n in nodes && Fit(l, ctx, n, asked)
      && (Near(ctx, n) || forall m :: m in nodes && Fit(l, ctx, m, asked) ==> !Near(ctx, m))
  {
    var serving := Keep(nodes, Serving(ctx));
    var pool := Unlimited(l, serving, asked).1;
    KeepMembers(nodes, Serving(ctx));
    UnlimitedExactly(l, serving, asked);
    NarrowExactly(pool, ctx);
    var stable := (n: Node) => n in pool && (ctx.canary.Some? ==> n.id in ctx.canary.value);
    assert forall n :: stable(n) <==> n in nodes && Fit(l, ctx, n, asked);
  }

  // ----- Fitness against heat -----

  /** The heat of a node now, as the scheduler has noted it. */
  function HeatNow(s: Sched, id: Id, now: real, decay: real -> real): real {
    if id in s.heat then s.heat[id].value * decay(now - s.heat[id].at) else 0.0
  }

  ghost predicate Cools(decay: real -> real) { forall x :: decay(x) > 0.0 }

  ghost predicate HeatsAreSound(s: Sched) { forall id :: id in s.heat ==> s.heat[id].value >= 0.0 }

  lemma HeatIsPositive(s: Sched, id: Id, now: real, decay: real -> real)
    requires HeatsAreSound(s) && Cools(decay)
    ensures HeatNow(s, id, now, decay) >= 0.0
  {
  }

  /** What a score says: nothing but fitness divided by one plus heat, for a fit node. */
  lemma ScoreMeans(s: Sched, n: Node, now: real, decay: real -> real)
    requires HeatsAreSound(s) && Cools(decay)
    ensures Scoring(s.heat, now, decay)(n) >= 0.0 <==> n.fitness >= 0.0
    ensures n.fitness >= 0.0 ==>
      Scoring(s.heat, now, decay)(n) * (1.0 + HeatNow(s, n.id, now, decay)) == n.fitness
  {
    HeatIsPositive(s, n.id, now, decay);
    if n.fitness >= 0.0 {
      QuotientTimes(n.fitness, 1.0 + HeatNow(s, n.id, now, decay));
    }
  }

  lemma QuotientTimes(x: real, h: real)
    requires h >= 1.0 && x >= 0.0
    ensures (x / h) * h == x && x / h >= 0.0
  {
  }

  /** `x1 / h1 >= x2 / h2`, without dividing. */
  lemma CrossMultiplied(q1: real, h1: real, x1: real, q2: real, h2: real, x2: real)
    requires h1 > 0.0 && h2 > 0.0 && q1 >= q2 && q1 * h1 == x1 && q2 * h2 == x2
    ensures x1 * h2 >= x2 * h1
  {
    assert x1 * h2 == q1 * (h1 * h2) && x2 * h1 == q2 * (h1 * h2);
    assert h1 * h2 > 0.0;
    assert (q1 - q2) * (h1 * h2) >= 0.0;
  }

  /** `n` is no worse a choice than `m`: its fitness makes up for its heat. */
  ghost predicate NoWorse(s: Sched, n: Node, m: Node, now: real, decay: real -> real) {
    m.fitness >= 0.0 ==>
      n.fitness * (1.0 + HeatNow(s, m.id, now, decay)) >= m.fitness * (1.0 + HeatNow(s, n.id, now, decay))
  }

  lemma HigherIsNoWorse(s: Sched, n: Node, m: Node, now: real, decay: real -> real)
    requires HeatsAreSound(s) && Cools(decay) && n.fitness >= 0.0
    requires Scoring(s.heat, now, decay)(m) <= Scoring(s.heat, now, decay)(n)
    ensures NoWorse(s, n, m, now, decay)
  {
    ScoreMeans(s, n, now, decay);
    ScoreMeans(s, m, now, decay);
    HeatIsPositive(s, n.id, now, decay);
    HeatIsPositive(s, m.id, now, decay);
    if m.fitness >= 0.0 {
      CrossMultiplied(Scoring(s.heat, now, decay)(n), 1.0 + HeatNow(s, n.id, now, decay), n.fitness,
                      Scoring(s.heat, now, decay)(m), 1.0 + HeatNow(s, m.id, now, decay), m.fitness);
    }
  }

  /** The best fit node of one status. */
  ghost predicate BestOf(s: Sched, pool: seq<Node>, status: Status, n: Node, now: real, decay: real -> real) {
    && n in pool && n.status == status && n.fitness >= 0.0
    && forall m :: m in pool && m.status == status ==> NoWorse(s, n, m, now, decay)
  }

  ghost predicate NobodyFit(pool: seq<Node>, status: Status) {
    forall m :: m in pool && m.status == status ==> m.fitness < 0.0
  }

  lemma ToppingIsBest(s: Sched, pool: seq<Node>, status: Status, n: Node, now: real, decay: real -> real)
    requires HeatsAreSound(s) && Cools(decay) && Tops(pool, Scoring(s.heat, now, decay), status, n)
    ensures BestOf(s, pool, status, n, now, decay)
  {
    ScoreMeans(s, n, now, decay);
    forall m | m in pool && m.status == status
      ensures NoWorse(s, n, m, now, decay)
    {
      HigherIsNoWorse(s, n, m, now, decay);
    }
  }

  lemma NegativeIsUnfit(s: Sched, pool: seq<Node>, status: Status, now: real, decay: real -> real)
    requires HeatsAreSound(s) && Cools(decay)
    requires forall m :: m in pool && m.status == status ==> Scoring(s.heat, now, decay)(m) < 0.0
    ensures NobodyFit(pool, status)
  {
    forall m | m in pool && m.status == status
      ensures m.fitness < 0.0
    {
      ScoreMeans(s, m, now, decay);
    }
  }

  /** Whom a pick from this pool places work on when it prefers alive nodes: a fit alive node whose fitness
      best makes up for its heat; without one, such a quarantined node; nobody if none of either is fit. */
  lemma {:induction false} PlacedIsBest(s: Sched, pool: seq<Node>, key: Option<Key>, ctx: Context, now: real)
    requires HeatsAreSound(s) && Cools(ctx.decay) && ctx.preferAlive && Bound(s, pool, key).None?
    ensures match PlacedFrom(s, pool, key, ctx, now)
            case Some(n) =>
              || BestOf(s, pool, Lifecycle.Alive, n, now, ctx.decay)
              || (NobodyFit(pool, Lifecycle.Alive) && BestOf(s, pool, Lifecycle.Quarantined, n, now, ctx.decay))
            case None => NobodyFit(pool, Lifecycle.Alive) && NobodyFit(pool, Lifecycle.Quarantined)
  {
    var score := Scoring(s.heat, now, ctx.decay);
    SelectPrefersAlive(pool, score);
    if pool != [] {
      match Select(pool, score, true) {
        case Some(n) =>
          if Tops(pool, score, Lifecycle.Alive, n) {
            ToppingIsBest(s, pool, Lifecycle.Alive, n, now, ctx.decay);
          } else {
            ToppingIsBest(s, pool, Lifecycle.Quarantined, n, now, ctx.decay);
            NegativeIsUnfit(s, pool, Lifecycle.Alive, now, ctx.decay);
          }
        case None =>
          NegativeIsUnfit(s, pool, Lifecycle.Alive, now, ctx.decay);
          NegativeIsUnfit(s, pool, Lifecycle.Quarantined, now, ctx.decay);
      }
    }
  }

  /** The same when it does not: the best of all, whatever their status. */
  lemma {:induction false} PlacedIsBestOfAll(s: Sched, pool: seq<Node>, key: Option<Key>, ctx: Context, now: real)
    requires HeatsAreSound(s) && Cools(ctx.decay) && !ctx.preferAlive && Bound(s, pool, key).None?
    ensures match PlacedFrom(s, pool, key, ctx, now)
            case Some(n) => n in pool && n.fitness >= 0.0 && forall m :: m in pool ==> NoWorse(s, n, m, now, ctx.decay)
            case None => forall m :: m in pool ==> m.fitness < 0.0
  {
    var score := Scoring(s.heat, now, ctx.decay);
    if pool != [] {
      BestIsMax(pool, score);
      var n := Best(pool, score);
      ScoreMeans(s, n, now, ctx.decay);
      forall m | m in pool
        ensures n.fitness >= 0.0 ==> NoWorse(s, n, m, now, ctx.decay)
        ensures n.fitness < 0.0 ==> m.fitness < 0.0
      {
        ScoreMeans(s, m, now, ctx.decay);
        if n.fitness >= 0.0 {
          HigherIsNoWorse(s, n, m, now, ctx.decay);
        }
      }
    }
  }

  // ----- Session keys -----

  lemma {:induction false} KeptFirst(nodes: seq<Node>, id: Id)
    ensures Keep(nodes, Among({id})) != [] <==> exists n :: n in nodes && n.id == id
    ensures Keep(nodes, Among({id})) != [] ==>
      Keep(nodes, Among({id}))[0] in nodes && Keep(nodes, Among({id}))[0].id == id
  {
    KeepMembers(nodes, Among({id}));
    var hits := Keep(nodes, Among({id}));
    if hits != [] {
      assert hits[0] in hits;
    }
  }

  /** A key's node is returned, at no cost and with no effect, exactly as long as it is in the pool; otherwise
      the node that gets the work becomes the key's node. No other binding changes. */
  lemma KeysStick(s: Sched, pool: seq<Node>, key: Key, ctx: Context, now: real, at: real)
    ensures
      var (t, n) := Choose(s, pool, Some(key), ctx, now, at);
      var sticks := key in s.affinity && exists m :: m in pool && m.id == s.affinity[key];
      && (sticks ==> t == s && n.Some? && n.value in pool && n.value.id == s.affinity[key])
      && (!sticks && n.Some? ==> t.affinity == s.affinity[key := n.value.id])
      && (!sticks && n.None? ==> t == s)
  {
    if key in s.affinity {
      KeptFirst(pool, s.affinity[key]);
    }
  }

  // ----- What heat is -----

  /** Cooling for a while and then for another is cooling for both. */
  ghost predicate CoolsOn(decay: real -> real, x: real, y: real) { decay(x + y) == decay(x) * decay(y) }

  ghost predicate Exponential(decay: real -> real) {
    Cools(decay) && decay(0.0) == 1.0 && forall x, y :: CoolsOn(decay, x, y)
  }

  /** A run of picks under one law of cooling; other operations leave heat and work alone. */
  ghost predicate IsRun(decay: real -> real, ops: seq<SchedulerLaws.Op>, states: seq<Sched>) {
    && |states| == |ops| + 1 && states[0].heat == map[] && states[0].work == map[]
    && (forall k :: 0 <= k < |ops| ==> Follows(decay, ops, states, k))
  }

  ghost predicate Follows(decay: real -> real, ops: seq<SchedulerLaws.Op>, states: seq<Sched>, k: nat)
    requires k < |ops| == |states| - 1
  {
    states[k + 1] == SchedulerLaws.Apply(states[k], ops[k]) && (ops[k].PickOne? ==> ops[k].ctx.decay == decay)
  }

  /** Operation `k` placed work on `id`, and this is left of its degree at `now`. A placement shows in the
      workload count. */
  ghost function DegreeLeft(decay: real -> real, ops: seq<SchedulerLaws.Op>, states: seq<Sched>, id: Id, k: nat,
                            now: real): real
    requires k < |ops| == |states| - 1
  {
    if ops[k].PickOne? && Work(states[k + 1], id) > Work(states[k], id) then decay(now - ops[k].now) else 0.0
  }

  ghost function PlacementHeat(decay: real -> real, ops: seq<SchedulerLaws.Op>, states: seq<Sched>, id: Id, k: nat,
                               now: real): real
    requires k <= |ops| == |states| - 1
  {
    if k == 0 then 0.0
    else PlacementHeat(decay, ops, states, id, k - 1, now) + DegreeLeft(decay, ops, states, id, k - 1, now)
  }

  /** The node that gets the work is one degree hotter, and one more placement on. */
  lemma ChoiceEffect(s: Sched, pool: seq<Node>, key: Option<Key>, ctx: Context, now: real, at: real)
    ensures
      var t := Choose(s, pool, key, ctx, now, at).0;
      match PlacedFrom(s, pool, key, ctx, now)
      case None => t.heat == s.heat && t.work == s.work
      case Some(n) =>
        && t.heat == s.heat[n.id := Heat(HeatNow(s, n.id, now, ctx.decay) + 1.0, now)]
        && t.work == s.work[n.id := Work(s, n.id) + 1]
  {
    var placed := PlacedFrom(s, pool, key, ctx, now);
    if placed.Some? {
      assert Choose(s, pool, key, ctx, now, at).0 == Place(s, placed.value, key, ctx.decay, now, at);
      assert CurrentHeat(s.heat, placed.value.id, now, ctx.decay) == HeatNow(s, placed.value.id, now, ctx.decay);
    }
  }

  /** One placement on `x` at `at`, as the heat map shows it. */
  lemma OneDegree(s: Sched, t: Sched, x: Id, at: real, id: Id, now: real, decay: real -> real)
    requires Exponential(decay)
    requires t.heat == s.heat[x := Heat(HeatNow(s, x, at, decay) + 1.0, at)]
    ensures HeatNow(t, id, now, decay) == HeatNow(s, id, now, decay) + (if id == x then decay(now - at) else 0.0)
  {
    if id == x && id in s.heat {
      var v, then_ := s.heat[id].value, s.heat[id].at;
      assert CoolsOn(decay, at - then_, now - at) && now - then_ == (at - then_) + (now - at);
      Spread(v, decay(at - then_), decay(now - at));
    }
  }

  lemma ChoiceHeats(s: Sched, pool: seq<Node>, key: Option<Key>, ctx: Context, then_: real, at: real, id: Id, now: real)
    requires Exponential(ctx.decay)
    ensures
      var t := Choose(s, pool, key, ctx, then_, at).0;
      HeatNow(t, id, now, ctx.decay)
      == HeatNow(s, id, now, ctx.decay) + (if Work(t, id) > Work(s, id) then ctx.decay(now - then_) else 0.0)
  {
    var t := Choose(s, pool, key, ctx, then_, at).0;
    ChoiceEffect(s, pool, key, ctx, then_, at);
    var placed := PlacedFrom(s, pool, key, ctx, then_);
    if placed.Some? {
      OneDegree(s, t, placed.value.id, then_, id, now, ctx.decay);
    }
  }

  lemma PickHeats(s: Sched, o: SchedulerLaws.Op, id: Id, now: real, decay: real -> real)
    requires Exponential(decay) && (o.PickOne? ==> o.ctx.decay == decay)
    ensures
      var t := SchedulerLaws.Apply(s, o);
      && (Work(t, id) > Work(s, id) ==> o.PickOne?)
      && HeatNow(t, id, now, decay)
         == HeatNow(s, id, now, decay) + (if Work(t, id) > Work(s, id) then decay(now - o.now) else 0.0)
  {
    if o.PickOne? {
      var l, pool := Eligible(s.limiter, o.nodes, o.ctx, o.asked).0, Eligible(s.limiter, o.nodes, o.ctx, o.asked).1;
      PickChooses(s, o, l, pool);
      ChoiceHeats(s.(limiter := l), pool, o.key, o.ctx, o.now, o.at, id, now);
      SameBooks(s, s.(limiter := l), id, now, decay);
    }
  }

  lemma PickChooses(s: Sched, o: SchedulerLaws.Op, l: Limiter, pool: seq<Node>)
    requires o.PickOne? && (l, pool) == Eligible(s.limiter, o.nodes, o.ctx, o.asked)
    ensures SchedulerLaws.Apply(s, o) == Choose(s.(limiter := l), pool, o.key, o.ctx, o.now, o.at).0
  {
  }

  lemma SameBooks(s: Sched, u: Sched, id: Id, now: real, decay: real -> real)
    requires u.heat == s.heat && u.work == s.work
    ensures HeatNow(u, id, now, decay) == HeatNow(s, id, now, decay) && Work(u, id) == Work(s, id)
  {
  }

  lemma Spread(v: real, a: real, b: real)
    ensures (v * a + 1.0) * b == v * (a * b) + b
  {
  }

  lemma NextHeat(decay: real -> real, ops: seq<SchedulerLaws.Op>, states: seq<Sched>, id: Id, k: nat, now: real)
    requires k < |ops| == |states| - 1 && Exponential(decay) && Follows(decay, ops, states, k)
    ensures HeatNow(states[k + 1], id, now, decay)
         == HeatNow(states[k], id, now, decay) + DegreeLeft(decay, ops, states, id, k, now)
  {
    PickHeats(states[k], ops[k], id, now, decay);
  }

  /** A node's heat is one degree for each placement it has had, each cooled from its own moment on. */
  lemma {:induction false} HeatIsPlacements(decay: real -> real, ops: seq<SchedulerLaws.Op>, states: seq<Sched>,
                                            id: Id, k: nat, now: real)
    requires Exponential(decay) && IsRun(decay, ops, states) && k < |states|
    ensures HeatNow(states[k], id, now, decay) == PlacementHeat(decay, ops, states, id, k, now)
  {
    if k > 0 {
      var last := k - 1;
      HeatIsPlacements(decay, ops, states, id, last, now);
      assert Follows(decay, ops, states, last);
      NextHeat(decay, ops, states, id, last, now);
    }
  }

  lemma NextIsSound(decay: real -> real, ops: seq<SchedulerLaws.Op>, states: seq<Sched>, k: nat)
    requires k < |ops| == |states| - 1 && Cools(decay) && Follows(decay, ops, states, k) && HeatsAreSound(states[k])
    ensures HeatsAreSound(states[k + 1])
  {
    var s, o := states[k], ops[k];
    if o.PickOne? {
      var l, pool := Eligible(s.limiter, o.nodes, o.ctx, o.asked).0, Eligible(s.limiter, o.nodes, o.ctx, o.asked).1;
      PickChooses(s, o, l, pool);
      ChoiceEffect(s.(limiter := l), pool, o.key, o.ctx, o.now, o.at);
    }
  }

  /** So the choice between fitness and heat is as stated in every state of every run. */
  lemma {:induction false} RunHeatsAreSound(decay: real -> real, ops: seq<SchedulerLaws.Op>, states: seq<Sched>, k: nat)
    requires Cools(decay) && IsRun(decay, ops, states) && k < |states|
    ensures HeatsAreSound(states[k])
  {
    if k > 0 {
      var last := k - 1;
      RunHeatsAreSound(decay, ops, states, last);
      assert Follows(decay, ops, states, last);
      NextIsSound(decay, ops, states, last);
    }
  }

  // ----- Fair shares -----

  /** Nodes that differ only in their ids, all of them fit. */
  ghost predicate Twins(pool: seq<Node>) {
    && pool != [] && pool[0].fitness > 0.0
    && (forall i :: 0 <= i < |pool| ==> pool[i].status == Lifecycle.Alive && pool[i].fitness == pool[0].fitness)
    && (forall i, j :: 0 <= i < j < |pool| ==> pool[i].id != pool[j].id)
  }

  function NoCooling(): real -> real { (elapsed: real) => 1.0 }

  /** `k` picks from the same pool, one after the other. */
  function Shared(s: Sched, pool: seq<Node>, ctx: Context, k: nat): Sched {
    if k == 0 then s else Choose(Shared(s, pool, ctx, k - 1), pool, None, ctx, 0.0, 0.0).0
  }

  ghost predicate HeatIsWork(s: Sched, pool: seq<Node>) {
    HeatsAreSound(s) && forall n :: n in pool ==> HeatNow(s, n.id, 0.0, NoCooling()) == Work(s, n.id) as real
  }

  function TotalWork(s: Sched, pool: seq<Node>): nat {
    if pool == [] then 0 else TotalWork(s, pool[..|pool| - 1]) + Work(s, pool[|pool| - 1].id)
  }

  /** Nobody is more than one placement ahead. */
  ghost predicate Even(s: Sched, pool: seq<Node>) {
    forall n, m :: n in pool && m in pool ==> Work(s, n.id) <= Work(s, m.id) + 1
  }

  /** One of the least loaded gets the work, ... */
  lemma {:induction false} LeastLoadedIsNext(s: Sched, pool: seq<Node>, ctx: Context) returns (n: Node)
    requires Twins(pool) && HeatIsWork(s, pool) && ctx.decay == NoCooling()
    ensures n in pool && PlacedFrom(s, pool, None, ctx, 0.0) == Some(n)
    ensures forall m :: m in pool ==> Work(s, n.id) <= Work(s, m.id)
  {
    if ctx.preferAlive {
      PlacedIsBest(s, pool, None, ctx, 0.0);
    } else {
      PlacedIsBestOfAll(s, pool, None, ctx, 0.0);
    }
    assert pool[0] in pool;
    n := PlacedFrom(s, pool, None, ctx, 0.0).value;
    forall m | m in pool
      ensures Work(s, n.id) <= Work(s, m.id)
    {
      assert m.fitness == n.fitness == pool[0].fitness && m.status == Lifecycle.Alive;
      assert NoWorse(s, n, m, 0.0, ctx.decay);
      NoWorseIsLess(s, pool, n, m, ctx.decay);
    }
  }

  lemma NoWorseIsLess(s: Sched, pool: seq<Node>, n: Node, m: Node, decay: real -> real)
    requires HeatIsWork(s, pool) && decay == NoCooling() && n in pool && m in pool
    requires n.fitness == m.fitness > 0.0 && NoWorse(s, n, m, 0.0, decay)
    ensures Work(s, n.id) <= Work(s, m.id)
  {
    Divided(n.fitness, Work(s, m.id) as real, Work(s, n.id) as real);
  }

  /** ... and its heat goes on counting its placements. */
  lemma NextIsHot(s: Sched, t: Sched, pool: seq<Node>, ctx: Context, n: Node)
    requires HeatIsWork(s, pool) && ctx.decay == NoCooling() && n in pool
    requires PlacedFrom(s, pool, None, ctx, 0.0) == Some(n) && t == Choose(s, pool, None, ctx, 0.0, 0.0).0
    ensures HeatIsWork(t, pool) && forall id :: Work(t, id) == Work(s, id) + (if id == n.id then 1 else 0)
  {
    ChoiceEffect(s, pool, None, ctx, 0.0, 0.0);
  }

  lemma Divided(f: real, x: real, y: real)
    requires f > 0.0 && f * (1.0 + x) >= f * (1.0 + y)
    ensures x >= y
  {
    if x < y {
      Bigger(f, 1.0 + x, 1.0 + y);
      assert false;
    }
  }

  lemma Bigger(f: real, x: real, y: real)
    requires f > 0.0 && x < y
    ensures f * x < f * y
  {
  }

  lemma {:induction false} TotalStays(s: Sched, t: Sched, pool: seq<Node>)
    requires forall n :: n in pool ==> Work(t, n.id) == Work(s, n.id)
    ensures TotalWork(t, pool) == TotalWork(s, pool)
  {
    if pool != [] {
      var init, last := pool[..|pool| - 1], pool[|pool| - 1];
      assert pool == init + [last] && last in pool;
      TotalStays(s, t, init);
    }
  }

  lemma {:induction false} TotalGrows(s: Sched, t: Sched, pool: seq<Node>, i: nat)
    requires i < |pool| && forall j, k :: 0 <= j < k < |pool| ==> pool[j].id != pool[k].id
    requires forall x :: Work(t, x) == Work(s, x) + (if x == pool[i].id then 1 else 0)
    ensures TotalWork(t, pool) == TotalWork(s, pool) + 1
  {
    var init, last := pool[..|pool| - 1], pool[|pool| - 1];
    if i == |pool| - 1 {
      TotalStays(s, t, init);
    } else {
      assert init[i] == pool[i];
      TotalGrows(s, t, init, i);
    }
  }

  lemma EvenOn(s: Sched, t: Sched, pool: seq<Node>, n: Node)
    requires Even(s, pool) && n in pool && forall m :: m in pool ==> Work(s, n.id) <= Work(s, m.id)
    requires forall id :: Work(t, id) == Work(s, id) + (if id == n.id then 1 else 0)
    ensures Even(t, pool)
  {
  }

  ghost predicate Shares(s: Sched, pool: seq<Node>, k: nat) {
    HeatIsWork(s, pool) && Even(s, pool) && TotalWork(s, pool) == k
  }

  lemma NextShares(u: Sched, t: Sched, pool: seq<Node>, ctx: Context, k: nat)
    requires Twins(pool) && ctx.decay == NoCooling() && Shares(u, pool, k)
    requires t == Choose(u, pool, None, ctx, 0.0, 0.0).0
    ensures Shares(t, pool, k + 1)
  {
    var n := LeastLoadedIsNext(u, pool, ctx);
    NextIsHot(u, t, pool, ctx, n);
    EvenOn(u, t, pool, n);
    var i :| 0 <= i < |pool| && pool[i] == n;
    TotalGrows(u, t, pool, i);
  }

  lemma {:induction false} SharesStayEven(s: Sched, pool: seq<Node>, ctx: Context, k: nat)
    requires Twins(pool) && ctx.decay == NoCooling() && s.heat == map[] && s.work == map[]
    ensures Shares(Shared(s, pool, ctx, k), pool, k)
  {
    if k == 0 {
      NoTotal(s, pool);
    } else {
      SharesStayEven(s, pool, ctx, k - 1);
      NextShares(Shared(s, pool, ctx, k - 1), Shared(s, pool, ctx, k), pool, ctx, k - 1);
    }
  }

  lemma {:induction false} NoTotal(s: Sched, pool: seq<Node>)
    requires s.work == map[]
    ensures TotalWork(s, pool) == 0
  {
    if pool != [] {
      NoTotal(s, pool[..|pool| - 1]);
    }
  }

  lemma OneMoreTime(w: int, n: nat)
    ensures w * (n + 1) == w * n + w
  {
  }

  /** Where everybody is within one of `w`, the total is within `n` of `n` times that. */
  lemma {:induction false} TotalNear(s: Sched, pool: seq<Node>, w: nat)
    requires forall n :: n in pool ==> w - 1 <= Work(s, n.id) <= w + 1
    ensures w * |pool| - |pool| <= TotalWork(s, pool) <= w * |pool| + |pool|
  {
    if pool != [] {
      var init, last := pool[..|pool| - 1], pool[|pool| - 1];
      assert pool == init + [last] && last in pool;
      TotalNear(s, init, w);
      OneMoreTime(w, |init|);
    }
  }

  /** And closer, if somebody is at `w` itself. */
  lemma {:induction false} TotalNearer(s: Sched, pool: seq<Node>, w: nat, i: nat)
    requires forall n :: n in pool ==> w - 1 <= Work(s, n.id) <= w + 1
    requires i < |pool| && Work(s, pool[i].id) == w
    ensures w * |pool| - |pool| < TotalWork(s, pool) < w * |pool| + |pool|
  {
    var init, last := pool[..|pool| - 1], pool[|pool| - 1];
    assert pool == init + [last] && last in pool;
    OneMoreTime(w, |init|);
    if i < |init| {
      assert init[i] == pool[i];
      TotalNearer(s, init, w, i);
    } else {
      TotalNear(s, init, w);
    }
  }

  lemma TimesGrow(a: int, b: int, n: nat)
    requires a <= b
    ensures a * n <= b * n
  {
  }

  /** Within less than `n` of `w * n`, rounding either way meets `w`. */
  lemma RoundsTo(k: nat, n: nat, w: nat)
    requires n > 0 && w * n - n < k < w * n + n
    ensures k / n <= w <= (k + n - 1) / n
  {
    var down, up := k / n, (k + n - 1) / n;
    assert k == n * down + k % n && k + n - 1 == n * up + (k + n - 1) % n;
    if down > w {
      TimesGrow(w + 1, down, n);
      OneTime(w, n);
    }
    if up < w {
      TimesGrow(up, w - 1, n);
      OneTime(w - 1, n);
    }
  }

  lemma OneTime(w: int, n: nat)
    ensures (w + 1) * n == w * n + n
  {
  }

  /** `k` placements on `n` equally fit nodes that do not cool: everybody gets `k / n`, rounded down or up. */
  lemma {:induction false} SharesAreFair(s: Sched, pool: seq<Node>, ctx: Context, k: nat, i: nat)
    requires Twins(pool) && ctx.decay == NoCooling() && s.heat == map[] && s.work == map[]
    requires i < |pool|
    ensures k / |pool| <= Work(Shared(s, pool, ctx, k), pool[i].id) <= (k + |pool| - 1) / |pool|
  {
    var t := Shared(s, pool, ctx, k);
    SharesStayEven(s, pool, ctx, k);
    NearAll(t, pool, i);
    TotalNearer(t, pool, Work(t, pool[i].id), i);
    RoundsTo(k, |pool|, Work(t, pool[i].id));
  }

  lemma NearAll(t: Sched, pool: seq<Node>, i: nat)
    requires Even(t, pool) && i < |pool|
    ensures forall n :: n in pool ==> Work(t, pool[i].id) - 1 <= Work(t, n.id) <= Work(t, pool[i].id) + 1
  {
    assert pool[i] in pool;
  }
}
