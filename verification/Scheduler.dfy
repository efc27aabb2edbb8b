/** `pick` of huddle_cluster_pkg/cluster_scheduler.py with a rate limiter attached. A node's fitness,
    the open circuits, the canary pool, the region's nodes and the heat decay are arguments. */
module Scheduler {
  import opened Options
  import Lifecycle
  import opened RateLimiter

  type Key = nat
  type Status = Lifecycle.Status

  datatype Node = Node(id: Id, status: Status, fitness: real)

  datatype Heat = Heat(value: real, at: real)

  /** What the other components say at the time of one pick; `decay(elapsed)` is the factor by which
      heat has cooled. */
  datatype Context = Context(open: set<Id>, canary: Option<set<Id>>, region: Option<set<Id>>, decay: real -> real,
                             preferAlive: bool)

  datatype Sched = Sched(limiter: Limiter, heat: map<Id, Heat>, affinity: map<Key, Id>, work: map<Id, nat>)

  function Keep(nodes: seq<Node>, p: Node -> bool): seq<Node> {
    if nodes == [] then [] else if p(nodes[0]) then [nodes[0]] + Keep(nodes[1..], p) else Keep(nodes[1..], p)
  }

  /** The rate-limit filter asks every node, and so creates every bucket. */
  function Unlimited(l: Limiter, nodes: seq<Node>, at: real): (Limiter, seq<Node>)
    decreases |nodes|
  {
    if nodes == [] then (l, [])
    else
      var (l1, limited) := Query(l, nodes[0].id, at);
      var (l2, rest) := Unlimited(l1, nodes[1..], at);
      (l2, if limited then rest else [nodes[0]] + rest)
  }

  function CurrentHeat(heat: map<Id, Heat>, id: Id, now: real, decay: real -> real): real {
    if id in heat then heat[id].value * decay(now - heat[id].at) else 0.0
  }

  /** fitness / (1 + heat), or -1 for an unfit node */
  function Score(heat: map<Id, Heat>, n: Node, now: real, decay: real -> real): real {
    var h := 1.0 + CurrentHeat(heat, n.id, now, decay);
    if n.fitness < 0.0 || h == 0.0 then -1.0 else n.fitness / h
  }

  // The filters and the score, as values that the functions below and the object share.
  function Serving(ctx: Context): Node -> bool {
    (n: Node) => n.status != Lifecycle.Dead && n.status != Lifecycle.Leaving && n.id !in ctx.open
  }

  function Among(ids: set<Id>): Node -> bool { (n: Node) => n.id in ids }

  function Having(status: Status): Node -> bool { (n: Node) => n.status == status }

  function Scoring(heat: map<Id, Heat>, now: real, decay: real -> real): Node -> real {
    (n: Node) => Score(heat, n, now, decay)
  }

  /** `max(nodes, key=score)`: the first of the best. */
  function Best(nodes: seq<Node>, score: Node -> real): Node
    requires nodes != []
  {
    if |nodes| == 1 then nodes[0]
    else
      var before := Best(nodes[..|nodes| - 1], score);
      if score(nodes[|nodes| - 1]) > score(before) then nodes[|nodes| - 1] else before
  }

  function BestFit(nodes: seq<Node>, score: Node -> real): Option<Node> {
    if nodes != [] && score(Best(nodes, score)) >= 0.0 then Some(Best(nodes, score)) else None
  }

  /** `_select` */
  function Select(nodes: seq<Node>, score: Node -> real, preferAlive: bool): Option<Node> {
    if !preferAlive then BestFit(nodes, score)
    else
      var alive := BestFit(Keep(nodes, Having(Lifecycle.Alive)), score);
      if alive.Some? then alive
      else BestFit(Keep(nodes, Having(Lifecycle.Quarantined)), score)
  }

  /** The canary pool, then the region unless nobody there is left. */
  function Narrow(pool: seq<Node>, ctx: Context): seq<Node> {
    var pool1 := if ctx.canary.Some? then Keep(pool, Among(ctx.canary.value)) else pool;
    var near := if ctx.region.Some? then Keep(pool1, Among(ctx.region.value)) else [];
    if near != [] then near else pool1
  }

  /** The eligible pool after every filter, and the limiter after the rate-limit filter. */
  function Eligible(l: Limiter, nodes: seq<Node>, ctx: Context, asked: real): (Limiter, seq<Node>) {
    var (l1, pool) := Unlimited(l, Keep(nodes, Serving(ctx)), asked);
    (l1, Narrow(pool, ctx))
  }

  /** The sticky node of `key`, if it is eligible. */
  function Bound(s: Sched, pool: seq<Node>, key: Option<Key>): Option<Node> {
    if key.Some? && key.value in s.affinity then
      var hits := Keep(pool, Among({s.affinity[key.value]}));
      if hits != [] then Some(hits[0]) else None
    else None
  }

  function Work(s: Sched, id: Id): nat { if id in s.work then s.work[id] else 0 }

  /** Heat, workload count, one token and the binding of a node chosen by `_select`. */
  function Place(s: Sched, n: Node, key: Option<Key>, decay: real -> real, now: real, spent: real): Sched {
    Sched(ConsumeFrom(s.limiter, n.id, 1.0, spent).0,
          s.heat[n.id := Heat(CurrentHeat(s.heat, n.id, now, decay) + 1.0, now)],
          if key.Some? then s.affinity[key.value := n.id] else s.affinity,
          s.work[n.id := Work(s, n.id) + 1])
  }

  /** Did a pick from this pool place a workload, rather than follow a binding or find nobody? */
  function PlacedFrom(s: Sched, pool: seq<Node>, key: Option<Key>, ctx: Context, now: real): Option<Node> {
    if pool == [] || Bound(s, pool, key).Some? then None
    else Select(pool, Scoring(s.heat, now, ctx.decay), ctx.preferAlive)
  }

  /** The section of `pick` that holds the scheduler's lock: the pool was filtered before. */
  function Choose(s: Sched, pool: seq<Node>, key: Option<Key>, ctx: Context, now: real, spent: real)
    : (Sched, Option<Node>)
  {
    if pool == [] then (s, None)
    else if Bound(s, pool, key).Some? then (s, Bound(s, pool, key))
    else
      match PlacedFrom(s, pool, key, ctx, now)
      case None => (s, None)
      case Some(n) => (Place(s, n, key, ctx.decay, now, spent), Some(n))
  }

  /** `pick`: the limiter is asked at `asked` and charged at `spent`; `now` is the heat clock. */
  function Pick(s: Sched, nodes: seq<Node>, key: Option<Key>, ctx: Context, now: real, asked: real, spent: real)
    : (Sched, Option<Node>)
  {
    var (l, pool) := Eligible(s.limiter, nodes, ctx, asked);
    Choose(s.(limiter := l), pool, key, ctx, now, spent)
  }
}

module SchedulerObject {
  import opened Options
  import opened RateLimiter
  import opened RateLimiterObject
  import Lifecycle
  import opened Scheduler

  class ClusterScheduler {
    const limiter: ClusterRateLimiter
    var heat: map<Id, Heat>
    var affinity: map<Key, Id>
    var work: map<Id, nat>

    constructor (limiter: ClusterRateLimiter)
      ensures this.limiter == limiter && heat == map[] && affinity == map[] && work == map[]
    {
      this.limiter := limiter;
      heat, affinity, work := map[], map[], map[];
    }

    ghost function State(): Sched
      reads this, limiter, limiter.buckets.Values
    {
      Sched(limiter.State(), heat, affinity, work)
    }

    /** The rate-limit filter. */
    method AskNodes(serving: seq<Node>, asked: real) returns (pool: seq<Node>)
      requires limiter.Valid()
      modifies limiter, limiter.buckets.Values
      ensures limiter.Valid() && (limiter.State(), pool) == Unlimited(old(limiter.State()), serving, asked)
      ensures forall x :: x in limiter.buckets ==>
                (x in old(limiter.buckets) && limiter.buckets[x] == old(limiter.buckets)[x])
                || fresh(limiter.buckets[x])
    {
      pool := [];
      ghost var want := Unlimited(limiter.State(), serving, asked);
      assert serving[0..] == serving;
      for i := 0 to |serving|
        invariant limiter.Valid()
        invariant forall x :: x in limiter.buckets ==>
          (x in old(limiter.buckets) && limiter.buckets[x] == old(limiter.buckets)[x])
                || fresh(limiter.buckets[x])
        invariant want.0 == Unlimited(limiter.State(), serving[i..], asked).0
        invariant want.1 == pool + Unlimited(limiter.State(), serving[i..], asked).1
      {
        assert serving[i..][1..] == serving[i + 1..];
        var limited := limiter.IsRateLimited(serving[i].id, asked);
        if !limited {
          pool := pool + [serving[i]];
        }
      }
      assert serving[|serving|..] == [] && pool + [] == pool;
    }

    /** The filter stages of `pick`, in the order of the source. */
    method FilterNodes(nodes: seq<Node>, ctx: Context, asked: real) returns (pool: seq<Node>)
      requires limiter.Valid()
      modifies limiter, limiter.buckets.Values
      ensures limiter.Valid() && (limiter.State(), pool) == Eligible(old(limiter.State()), nodes, ctx, asked)
      ensures forall x :: x in limiter.buckets ==>
                (x in old(limiter.buckets) && limiter.buckets[x] == old(limiter.buckets)[x])
                || fresh(limiter.buckets[x])
    {
      pool := AskNodes(Keep(nodes, Serving(ctx)), asked);
      ghost var unlimited := pool;
      if ctx.canary.Some? {
        pool := Keep(pool, Among(ctx.canary.value));
      }
      if ctx.region.Some? {
        var near := Keep(pool, Among(ctx.region.value));
        if near != [] {
          pool := near;
        }
      }
      assert pool == Narrow(unlimited, ctx);
    }

    /** A pick that no other overlaps: the filters, which run without the lock, then the section that
        holds it. */
    method PickNode(nodes: seq<Node>, key: Option<Key>, ctx: Context, now: real, asked: real, spent: real)
      returns (chosen: Option<Node>)
      requires limiter.Valid()
      modifies this, limiter, limiter.buckets.Values
      ensures limiter.Valid() && (State(), chosen) == Pick(old(State()), nodes, key, ctx, now, asked, spent)
    {
      var pool := FilterNodes(nodes, ctx, asked);
      chosen := ChooseNode(pool, key, ctx, now, spent);
    }

    method ChooseNode(pool: seq<Node>, key: Option<Key>, ctx: Context, now: real, spent: real)
      returns (chosen: Option<Node>)
      requires limiter.Valid()
      modifies this, limiter, limiter.buckets.Values
      ensures limiter.Valid() && (State(), chosen) == Choose(old(State()), pool, key, ctx, now, spent)
    {
      if pool == [] {
        return None;
      }
      if key.Some? && key.value in affinity {
        var hits := Keep(pool, Among({affinity[key.value]}));
        if hits != [] {
          return Some(hits[0]);
        }
      }
      chosen := Select(pool, Scoring(heat, now, ctx.decay), ctx.preferAlive);
      if chosen.Some? {
        PlaceOn(chosen.value, key, ctx.decay, now, spent);
      }
    }

    method PlaceOn(n: Node, key: Option<Key>, decay: real -> real, now: real, spent: real)
      requires limiter.Valid()
      modifies this, limiter, limiter.buckets.Values
      ensures limiter.Valid() && State() == Place(old(State()), n, key, decay, now, spent)
    {
      CountPlacement(n.id, decay, now);
      var ok := limiter.ConsumeTokens(n.id, 1.0, spent);
      BindKey(key, n.id);
    }

    method CountPlacement(id: Id, decay: real -> real, now: real)
      modifies `heat, `work
      ensures heat == old(heat)[id := Heat(CurrentHeat(old(heat), id, now, decay) + 1.0, now)]
      ensures work == old(work)[id := (if id in old(work) then old(work)[id] else 0) + 1]
      ensures limiter.State() == old(limiter.State())
    {
      heat := heat[id := Heat(CurrentHeat(heat, id, now, decay) + 1.0, now)];
      work := work[id := (if id in work then work[id] else 0) + 1];
    }

    method BindKey(key: Option<Key>, id: Id)
      modifies `affinity
      ensures affinity == if key.Some? then old(affinity)[key.value := id] else old(affinity)
      ensures limiter.State() == old(limiter.State())
    {
      if key.Some? {
        affinity := affinity[key.value := id];
      }
    }
  }
}
