/** What the limiter promises over runs of any length, with an exact clock that does not go back. */
module RateLimiterLaws {
  import opened RateLimiter

  datatype Op =
    | Spend(id: Id, amount: real, at: real)   // consume
    | Ask(id: Id, at: real)                   // is_rate_limited
    | Watch(id: Id, at: real)                 // bucket_for / to_dict
    | Refund(id: Id, at: real)                // reset

  function Apply(l: Limiter, op: Op): Limiter {
    match op
    case Spend(id, amount, at) => ConsumeFrom(l, id, amount, at).0
    case Ask(id, at) => Query(l, id, at).0
    case Watch(id, at) => Show(l, id, at)
    case Refund(id, at) => Reset(l, id, at)
  }

  function Run(l: Limiter, ops: seq<Op>): Limiter
    decreases |ops|
  {
    if ops == [] then l else Run(Apply(l, ops[0]), ops[1..])
  }

  /** The clock readings of a run that starts at `start`. */
  ghost predicate InOrder(ops: seq<Op>, start: real)
    decreases |ops|
  {
    ops == [] || (start <= ops[0].at && InOrder(ops[1..], ops[0].at))
  }

  /** The tokens a node could spend at time `t`, whether or not its bucket exists yet. */
  function Level(l: Limiter, id: Id, t: real): real {
    if id in l.buckets then Refill(l.buckets[id], t).tokens else l.capacity
  }

  ghost predicate BucketOk(l: Limiter, b: Bucket, now: real) {
    b.capacity == l.capacity && b.rate == l.rate && 0.0 <= b.tokens <= b.capacity && b.last <= now
  }

  ghost predicate Sane(l: Limiter, now: real) {
    l.capacity > 0.0 && l.rate > 0.0 && forall id :: id in l.buckets ==> BucketOk(l, l.buckets[id], now)
  }

  // ----- Refilling -----

  lemma Drip(dt: real, rate: real)
    requires dt >= 0.0 && rate > 0.0
    ensures dt * rate >= 0.0
  {}

  /** Refilling in two steps is refilling once: reading a bucket early changes nothing later. */
  lemma RefillTwice(b: Bucket, t1: real, t2: real)
    requires b.rate > 0.0 && b.last <= t1 <= t2
    ensures Refill(Refill(b, t1), t2) == Refill(b, t2)
  {
    assert (t1 - b.last) * b.rate + (t2 - t1) * b.rate == (t2 - b.last) * b.rate;
    Drip(t2 - t1, b.rate);
  }

  /** A level grows by at most the refill rate. */
  ghost predicate Grows(before: real, after: real, rate: real, dt: real) { before <= after <= before + dt * rate }

  /** ... and is determined by what it was. */
  ghost predicate Later(before: real, after: real, capacity: real, rate: real, dt: real) {
    after == MinReal(capacity, before + dt * rate)
  }

  lemma RefillGrows(b: Bucket, now: real, t: real)
    requires b.rate > 0.0 && b.last <= now <= t && 0.0 <= b.tokens <= b.capacity
    ensures 0.0 <= Refill(b, now).tokens <= b.capacity && 0.0 <= Refill(b, t).tokens <= b.capacity
    ensures Grows(Refill(b, now).tokens, Refill(b, t).tokens, b.rate, t - now)
    ensures Later(Refill(b, now).tokens, Refill(b, t).tokens, b.capacity, b.rate, t - now)
  {
    var x, y := (now - b.last) * b.rate, (t - now) * b.rate;
    Drip(now - b.last, b.rate);
    Drip(t - now, b.rate);
    assert (t - b.last) * b.rate == x + y;
  }

  lemma LevelGrows(l: Limiter, id: Id, now: real, t: real)
    requires Sane(l, now) && now <= t
    ensures 0.0 <= Level(l, id, now) <= l.capacity && 0.0 <= Level(l, id, t) <= l.capacity
    ensures Grows(Level(l, id, now), Level(l, id, t), l.rate, t - now)
    ensures Later(Level(l, id, now), Level(l, id, t), l.capacity, l.rate, t - now)
  {
    if id in l.buckets {
      assert BucketOk(l, l.buckets[id], now);
      RefillGrows(l.buckets[id], now, t);
    } else {
      Drip(t - now, l.rate);
    }
  }

  /** `0 <= tokens <= capacity` survives a consume exactly when the amount does not overfill. */
  lemma ConsumeBoundsExact(b: Bucket, amount: real, now: real)
    requires 0.0 <= b.tokens <= b.capacity && b.last <= now && b.rate > 0.0
    ensures 0.0 <= Consume(b, amount, now).0.tokens <= b.capacity
            <==> amount >= Refill(b, now).tokens - b.capacity
  {
    Drip(now - b.last, b.rate);
  }

  // ----- One operation -----

  function Granted(l: Limiter, op: Op, id: Id): real {
    if op.Spend? && op.id == id && ConsumeFrom(l, id, op.amount, op.at).1 then op.amount else 0.0
  }

  function Refunds(op: Op, id: Id): nat { if op == Refund(id, op.at) then 1 else 0 }

  predicate Sensible(op: Op) { op.Spend? ==> op.amount >= 0.0 }

  lemma RefillNow(b: Bucket, now: real)
    requires b.last == now && b.tokens <= b.capacity
    ensures Refill(b, now) == b
  {
    var gained := (now - b.last) * b.rate;
    assert gained == 0.0;
    assert Refill(b, now).tokens == MinReal(b.capacity, b.tokens + gained);
  }

  /** What an operation does to the bucket it names. */
  lemma StepBucket(l: Limiter, op: Op, now: real)
    requires Sane(l, now) && now <= op.at && Sensible(op)
    ensures var t := Apply(l, op);
      && t.capacity == l.capacity && t.rate == l.rate
      && (t == l || t.buckets == l.buckets[op.id := t.buckets[op.id]])
      && (op.id in t.buckets ==> BucketOk(l, t.buckets[op.id], op.at))
      && Level(t, op.id, op.at)
         == if op.Refund? then l.capacity else Level(l, op.id, op.at) - Granted(l, op, op.id)
  {
    var t := Apply(l, op);
    var b := Get(l, op.id, op.at);
    if op.id in l.buckets {
      assert BucketOk(l, l.buckets[op.id], now);
    }
    RefillGrows(b, op.at, op.at);
    RefillNow(NewBucket(l.capacity, l.rate, op.at), op.at);
    if op.id in t.buckets && t.buckets[op.id].last == op.at && t.buckets[op.id].tokens <= l.capacity {
      RefillNow(t.buckets[op.id], op.at);
    }
  }

  lemma StepSane(l: Limiter, op: Op, now: real)
    requires Sane(l, now) && now <= op.at && Sensible(op)
    ensures Sane(Apply(l, op), op.at) && Apply(l, op).capacity == l.capacity && Apply(l, op).rate == l.rate
  {
    StepBucket(l, op, now);
    var t := Apply(l, op);
    forall x | x in t.buckets ensures BucketOk(t, t.buckets[x], op.at) {
      if x != op.id { assert BucketOk(l, l.buckets[x], now); }
    }
  }

  /** What an operation does to every node's level at its own time. */
  lemma StepLevel(l: Limiter, op: Op, id: Id, now: real)
    requires Sane(l, now) && now <= op.at && Sensible(op)
    ensures Sane(Apply(l, op), op.at) && Apply(l, op).capacity == l.capacity && Apply(l, op).rate == l.rate
    ensures Level(Apply(l, op), id, op.at)
         == if op == Refund(id, op.at) then l.capacity else Level(l, id, op.at) - Granted(l, op, id)
  {
    StepSane(l, op, now);
    StepBucket(l, op, now);
  }

  // ----- The long run -----

  function Spent(l: Limiter, ops: seq<Op>, id: Id): real
    decreases |ops|
  {
    if ops == [] then 0.0 else Granted(l, ops[0], id) + Spent(Apply(l, ops[0]), ops[1..], id)
  }

  function RefundCount(ops: seq<Op>, id: Id): nat
    decreases |ops|
  {
    if ops == [] then 0 else Refunds(ops[0], id) + RefundCount(ops[1..], id)
  }

  function End(ops: seq<Op>, start: real): real { if ops == [] then start else ops[|ops| - 1].at }

  /** What may flow into a bucket between two times: the refill, and a capacity for each reset. */
  function Inflow(capacity: real, rate: real, dt: real, refunds: nat): real {
    dt * rate + capacity * refunds as real
  }

  lemma InflowAdds(capacity: real, rate: real, dt1: real, n1: nat, dt2: real, n2: nat)
    ensures Inflow(capacity, rate, dt1, n1) + Inflow(capacity, rate, dt2, n2)
         == Inflow(capacity, rate, dt1 + dt2, n1 + n2)
  {
    var x, y := n1 as real, n2 as real;
    assert (n1 + n2) as real == x + y;
    assert capacity * (x + y) == capacity * x + capacity * y;
    assert (dt1 + dt2) * rate == dt1 * rate + dt2 * rate;
  }

  /** What was granted and what is left came from what was there and from the inflow since. */
  ghost predicate Covered(granted: real, after: real, before: real, capacity: real, rate: real, dt: real, n: nat) {
    granted + after <= before + Inflow(capacity, rate, dt, n)
  }

  lemma CoveredChain(g1: real, mid: real, before: real, dt1: real, n1: nat, g2: real, after: real, dt2: real, n2: nat,
                     capacity: real, rate: real, g: real, dt: real, n: nat)
    requires Covered(g1, mid, before, capacity, rate, dt1, n1) && Covered(g2, after, mid, capacity, rate, dt2, n2)
    requires g == g1 + g2 && dt == dt1 + dt2 && n == n1 + n2
    ensures Covered(g, after, before, capacity, rate, dt, n)
  {
    InflowAdds(capacity, rate, dt1, n1, dt2, n2);
  }

  lemma CoveredStep(granted: real, after: real, at: real, before: real, capacity: real, rate: real, dt: real, n: nat)
    requires 0.0 <= before && Grows(before, at, rate, dt)
    requires (n == 0 && after == at - granted) || (n == 1 && after == capacity && granted == 0.0)
    ensures Covered(granted, after, before, capacity, rate, dt, n)
  {
    assert capacity * 1.0 == capacity && capacity * 0.0 == 0.0;
  }

  lemma StepCovered(l: Limiter, op: Op, id: Id, start: real, n: nat)
    requires Sane(l, start) && start <= op.at && Sensible(op) && n == Refunds(op, id)
    ensures Covered(Granted(l, op, id), Level(Apply(l, op), id, op.at), Level(l, id, start),
                    l.capacity, l.rate, op.at - start, n)
  {
    StepLevel(l, op, id, start);
    LevelGrows(l, id, start, op.at);
    CoveredStep(Granted(l, op, id), Level(Apply(l, op), id, op.at), Level(l, id, op.at), Level(l, id, start),
                l.capacity, l.rate, op.at - start, n);
  }

  /** Every token spent was in the bucket at the start, dripped in since, or came with a reset. */
  lemma SpentIsCovered(l: Limiter, ops: seq<Op>, id: Id, start: real)
    requires Sane(l, start) && InOrder(ops, start) && forall op :: op in ops ==> Sensible(op)
    ensures Sane(Run(l, ops), End(ops, start)) && Run(l, ops).capacity == l.capacity && Run(l, ops).rate == l.rate
    ensures Covered(Spent(l, ops, id), Level(Run(l, ops), id, End(ops, start)), Level(l, id, start),
                    l.capacity, l.rate, End(ops, start) - start, RefundCount(ops, id))
    decreases |ops|
  {
    if ops == [] {
      assert Inflow(l.capacity, l.rate, 0.0, 0) == 0.0;
    } else {
      var op, rest := ops[0], ops[1..];
      StepLevel(l, op, id, start);
      SpentIsCovered(Apply(l, op), rest, id, op.at);
      StepCovered(l, op, id, start, Refunds(op, id));
      CoveredChain(Granted(l, op, id), Level(Apply(l, op), id, op.at), Level(l, id, start), op.at - start,
                   Refunds(op, id),
                   Spent(Apply(l, op), rest, id), Level(Run(Apply(l, op), rest), id, End(rest, op.at)),
                   End(rest, op.at) - op.at, RefundCount(rest, id), l.capacity, l.rate,
                   Spent(l, ops, id), End(rest, op.at) - start, RefundCount(ops, id));
    }
  }

  lemma LaterSane(l: Limiter, now: real, t: real)
    requires Sane(l, now) && now <= t
    ensures Sane(l, t)
  {
    forall x | x in l.buckets ensures BucketOk(l, l.buckets[x], t) { assert BucketOk(l, l.buckets[x], now); }
  }

  /** At most one burst, the refill, and a capacity for each reset. */
  ghost predicate Within(spent: real, capacity: real, rate: real, dt: real, resets: nat) {
    spent <= capacity + rate * dt + capacity * resets as real
  }

  /** In any stretch of any run, however the queries fall, the tokens a node successfully consumes
      are at most one capacity, plus the refill rate times the length of the stretch, plus one
      capacity for each reset in it. */
  lemma LongRunBound(capacity: real, rate: real, before: seq<Op>, ops: seq<Op>, id: Id, start: real, from: real)
    requires capacity > 0.0 && rate > 0.0
    requires InOrder(before, start) && End(before, start) <= from && InOrder(ops, from)
    requires forall op :: op in before + ops ==> Sensible(op)
    ensures var l := Run(Limiter(capacity, rate, map[]), before);
      Within(Spent(l, ops, id), capacity, rate, End(ops, from) - from, RefundCount(ops, id))
  {
    var l0 := Limiter(capacity, rate, map[]);
    assert forall op :: op in before ==> op in before + ops;
    assert forall op :: op in ops ==> op in before + ops;
    SpentIsCovered(l0, before, id, start);
    var l := Run(l0, before);
    LaterSane(l, End(before, start), from);
    StretchBound(l, ops, id, from);
  }

  lemma Remainder(granted: real, after: real, before: real, capacity: real, rate: real, dt: real, n: nat)
    requires Covered(granted, after, before, capacity, rate, dt, n) && 0.0 <= after && before <= capacity
    ensures Within(granted, capacity, rate, dt, n)
  {}

  lemma {:induction false} StretchBound(l: Limiter, ops: seq<Op>, id: Id, from: real)
    requires Sane(l, from) && InOrder(ops, from) && forall op :: op in ops ==> Sensible(op)
    ensures Within(Spent(l, ops, id), l.capacity, l.rate, End(ops, from) - from, RefundCount(ops, id))
  {
    SpentIsCovered(l, ops, id, from);
    LevelGrows(l, id, from, from);
    LevelGrows(Run(l, ops), id, End(ops, from), End(ops, from));
    Remainder(Spent(l, ops, id), Level(Run(l, ops), id, End(ops, from)), Level(l, id, from),
              l.capacity, l.rate, End(ops, from) - from, RefundCount(ops, id));
  }

  // ----- Nothing is lost either -----

  /** What is left, and what was granted, is no less than an untouched bucket would hold. */
  ghost predicate Kept(granted: real, after: real, before: real, capacity: real, rate: real, dt: real) {
    after + granted >= Refilled(before, capacity, rate, dt)
  }

  function Refilled(before: real, capacity: real, rate: real, dt: real): real {
    MinReal(capacity, before + dt * rate)
  }

  lemma KeptStep(granted: real, after: real, at: real, before: real, capacity: real, rate: real, dt: real)
    requires Later(before, at, capacity, rate, dt)
    requires after == at - granted || (after == capacity && granted == 0.0)
    ensures Kept(granted, after, before, capacity, rate, dt)
  {
  }

  lemma KeptChain(g1: real, mid: real, before: real, dt1: real, g2: real, after: real, dt2: real,
                  capacity: real, rate: real)
    requires Kept(g1, mid, before, capacity, rate, dt1) && Kept(g2, after, mid, capacity, rate, dt2)
    requires g1 >= 0.0 && dt2 >= 0.0 && rate > 0.0
    ensures Kept(g1 + g2, after, before, capacity, rate, dt1 + dt2)
  {
    assert (dt1 + dt2) * rate == dt1 * rate + dt2 * rate;
    Drip(dt2, rate);
  }

  lemma StepKept(l: Limiter, op: Op, id: Id, start: real)
    requires Sane(l, start) && start <= op.at && Sensible(op)
    ensures Kept(Granted(l, op, id), Level(Apply(l, op), id, op.at), Level(l, id, start), l.capacity, l.rate,
                 op.at - start)
  {
    StepLevel(l, op, id, start);
    LevelGrows(l, id, start, op.at);
    KeptStep(Granted(l, op, id), Level(Apply(l, op), id, op.at), Level(l, id, op.at), Level(l, id, start),
             l.capacity, l.rate, op.at - start);
  }

  /** In any stretch, whatever else is asked, a bucket loses only what was granted from it. */
  lemma {:induction false} NothingIsLost(l: Limiter, ops: seq<Op>, id: Id, start: real, end: real)
    requires Sane(l, start) && InOrder(ops, start) && forall op :: op in ops ==> Sensible(op)
    requires End(ops, start) <= end
    ensures Kept(Spent(l, ops, id), Level(Run(l, ops), id, end), Level(l, id, start), l.capacity, l.rate, end - start)
    decreases |ops|
  {
    if ops == [] {
      LevelGrows(l, id, start, end);
    } else {
      var op, rest := ops[0], ops[1..];
      var l1 := Apply(l, op);
      assert Sensible(op);
      StepLevel(l, op, id, start);
      StepKept(l, op, id, start);
      EndFollows(ops, start);
      EndFollows(rest, op.at);
      NothingIsLost(l1, rest, id, op.at, end);
      OneMoreKept(l, ops, id, start, Level(l1, id, op.at), Level(Run(l1, rest), id, end), end);
    }
  }

  lemma OneMoreKept(l: Limiter, ops: seq<Op>, id: Id, start: real, mid: real, after: real, end: real)
    requires ops != [] && Sensible(ops[0]) && l.rate > 0.0 && ops[0].at <= end
    requires Kept(Granted(l, ops[0], id), mid, Level(l, id, start), l.capacity, l.rate, ops[0].at - start)
    requires Kept(Spent(Apply(l, ops[0]), ops[1..], id), after, mid, l.capacity, l.rate, end - ops[0].at)
    ensures Kept(Spent(l, ops, id), after, Level(l, id, start), l.capacity, l.rate, end - start)
  {
    KeptChain(Granted(l, ops[0], id), mid, Level(l, id, start), ops[0].at - start,
              Spent(Apply(l, ops[0]), ops[1..], id), after, end - ops[0].at, l.capacity, l.rate);
  }

  lemma {:induction false} EndFollows(ops: seq<Op>, start: real)
    requires InOrder(ops, start)
    ensures start <= End(ops, start)
    ensures ops != [] ==> End(ops[1..], ops[0].at) == End(ops, start)
    decreases |ops|
  {
    if ops != [] {
      EndFollows(ops[1..], ops[0].at);
    }
  }

  /** What a node is owed: all that dripped in since `from`, up to the capacity, less what it was granted. */
  function Owed(l: Limiter, ops: seq<Op>, id: Id, from: real, at: real): real {
    Refilled(Level(l, id, from), l.capacity, l.rate, at - from) - Spent(l, ops, id)
  }

  /** After any stretch of any run, a node gets what it is owed: a consume is refused only for more. */
  lemma {:induction false} RefusedOnlyWhenShort(capacity: real, rate: real, before: seq<Op>, ops: seq<Op>, id: Id,
                                                start: real, from: real, amount: real, at: real)
    requires capacity > 0.0 && rate > 0.0
    requires InOrder(before, start) && End(before, start) <= from && InOrder(ops, from) && End(ops, from) <= at
    requires forall op :: op in before + ops ==> Sensible(op)
    requires amount <= Owed(Run(Limiter(capacity, rate, map[]), before), ops, id, from, at)
    ensures ConsumeFrom(Run(Run(Limiter(capacity, rate, map[]), before), ops), id, amount, at).1
  {
    var l0 := Limiter(capacity, rate, map[]);
    assert forall op :: op in before ==> op in before + ops;
    assert forall op :: op in ops ==> op in before + ops;
    SpentIsCovered(l0, before, id, start);
    var l := Run(l0, before);
    LaterSane(l, End(before, start), from);
    StretchOwes(l, ops, id, from, amount, at);
  }

  lemma StretchOwes(l: Limiter, ops: seq<Op>, id: Id, from: real, amount: real, at: real)
    requires Sane(l, from) && InOrder(ops, from) && End(ops, from) <= at
    requires (forall op :: op in ops ==> Sensible(op)) && amount <= Owed(l, ops, id, from, at)
    ensures ConsumeFrom(Run(l, ops), id, amount, at).1
  {
    var after := Level(Run(l, ops), id, at);
    NothingIsLost(l, ops, id, from, at);
    KeptIsOwed(l, ops, id, from, at, after);
    GetsEnough(l, ops, id, from, amount, at, after);
  }

  lemma KeptIsOwed(l: Limiter, ops: seq<Op>, id: Id, from: real, at: real, after: real)
    requires Kept(Spent(l, ops, id), after, Level(l, id, from), l.capacity, l.rate, at - from)
    ensures after >= Owed(l, ops, id, from, at)
  {
  }

  lemma GetsEnough(l: Limiter, ops: seq<Op>, id: Id, from: real, amount: real, at: real, after: real)
    requires Sane(l, from) && InOrder(ops, from) && End(ops, from) <= at
    requires forall op :: op in ops ==> Sensible(op)
    requires amount <= after && after == Level(Run(l, ops), id, at)
    ensures ConsumeFrom(Run(l, ops), id, amount, at).1
  {
    SpentIsCovered(l, ops, id, from);
    LaterSane(Run(l, ops), End(ops, from), at);
    GetsByLevel(Run(l, ops), id, amount, at);
  }

  lemma GetsByLevel(l: Limiter, id: Id, amount: real, at: real)
    requires Sane(l, at)
    ensures ConsumeFrom(l, id, amount, at).1 <==> Level(l, id, at) >= amount
  {
    SpendByLevel(l, Spend(id, amount, at));
  }

  lemma {:induction false} SpentIsNotNegative(l: Limiter, ops: seq<Op>, id: Id)
    requires forall op :: op in ops ==> Sensible(op)
    ensures Spent(l, ops, id) >= 0.0
    decreases |ops|
  {
    if ops != [] {
      assert Sensible(ops[0]);
      SpentIsNotNegative(Apply(l, ops[0]), ops[1..], id);
    }
  }

  // ----- Reads do not matter -----

  /** The outcomes of the consumes of a run, in order. */
  function Outcomes(l: Limiter, ops: seq<Op>): seq<bool>
    decreases |ops|
  {
    if ops == [] then []
    else
      var rest := Outcomes(Apply(l, ops[0]), ops[1..]);
      if ops[0].Spend? then [ConsumeFrom(l, ops[0].id, ops[0].amount, ops[0].at).1] + rest else rest
  }

  /** The same run without its `is_rate_limited` and `to_dict` calls. */
  function Erase(ops: seq<Op>): seq<Op> {
    if ops == [] then []
    else if ops[0].Ask? || ops[0].Watch? then Erase(ops[1..])
    else [ops[0]] + Erase(ops[1..])
  }

  /** Two limiters that no later operation can tell apart. */
  ghost predicate SameLevels(l: Limiter, m: Limiter, now: real) {
    l.capacity == m.capacity && l.rate == m.rate && forall id :: Level(l, id, now) == Level(m, id, now)
  }

  lemma SameLevelsLater(l: Limiter, m: Limiter, now: real, t: real)
    requires Sane(l, now) && Sane(m, now) && SameLevels(l, m, now) && now <= t
    ensures Sane(l, t) && Sane(m, t) && SameLevels(l, m, t)
  {
    forall id ensures Level(l, id, t) == Level(m, id, t) {
      LevelGrows(l, id, now, t);
      LevelGrows(m, id, now, t);
    }
    LaterSane(l, now, t);
    LaterSane(m, now, t);
  }

  lemma SameStep(l: Limiter, m: Limiter, op: Op)
    requires Sane(l, op.at) && Sane(m, op.at) && SameLevels(l, m, op.at) && Sensible(op)
    ensures SameLevels(Apply(l, op), Apply(m, op), op.at)
    ensures op.Spend? ==> ConsumeFrom(l, op.id, op.amount, op.at).1 == ConsumeFrom(m, op.id, op.amount, op.at).1
    ensures op.Ask? || op.Watch? ==> SameLevels(Apply(l, op), m, op.at)
  {
    SpendByLevel(l, op);
    SpendByLevel(m, op);
    forall id
      ensures Level(Apply(l, op), id, op.at) == Level(Apply(m, op), id, op.at)
      ensures op.Ask? || op.Watch? ==> Level(Apply(l, op), id, op.at) == Level(m, id, op.at)
    {
      StepLevel(l, op, id, op.at);
      StepLevel(m, op, id, op.at);
      assert Granted(l, op, id) == Granted(m, op, id);
    }
    StepLevel(l, op, 0, op.at);
    StepLevel(m, op, 0, op.at);
  }

  lemma SpendByLevel(l: Limiter, op: Op)
    requires Sane(l, op.at)
    ensures op.Spend? ==> (ConsumeFrom(l, op.id, op.amount, op.at).1 <==> Level(l, op.id, op.at) >= op.amount)
  {}

  lemma SameOutcomes(l: Limiter, m: Limiter, ops: seq<Op>, now: real)
    requires Sane(l, now) && Sane(m, now) && SameLevels(l, m, now)
    requires InOrder(ops, now) && forall op :: op in ops ==> Sensible(op)
    ensures Outcomes(l, ops) == Outcomes(m, Erase(ops))
    decreases |ops|
  {
    if ops != [] {
      var op := ops[0];
      SameLevelsLater(l, m, now, op.at);
      SameStep(l, m, op);
      StepLevel(l, op, 0, op.at);
      StepLevel(m, op, 0, op.at);
      if op.Ask? || op.Watch? {
        SameOutcomes(Apply(l, op), m, ops[1..], op.at);
      } else {
        assert ([op] + Erase(ops[1..]))[1..] == Erase(ops[1..]);
        SameOutcomes(Apply(l, op), Apply(m, op), ops[1..], op.at);
      }
    }
  }

  /** Erasing every read from a run, or inserting reads anywhere, changes no consume outcome. */
  lemma ReadsDoNotMatter(capacity: real, rate: real, ops: seq<Op>, start: real)
    requires capacity > 0.0 && rate > 0.0
    requires InOrder(ops, start) && forall op :: op in ops ==> Sensible(op)
    ensures var l := Limiter(capacity, rate, map[]); Outcomes(l, ops) == Outcomes(l, Erase(ops))
  {
    var l := Limiter(capacity, rate, map[]);
    SameOutcomes(l, l, ops, start);
  }
}
