/** Who comes and goes in a rotation, in terms of the servers' own numbers: step 1 evicts exactly those that
    are due, as far as its cap goes; step 2 brings in exactly those that pass its four tests; and a server
    in its cold start stays out, over whole runs, except for a refill. */
module RotationGates {
  import opened Options
  import opened Rings
  import opened RingLaws
  import opened RotationLaws

  // ----- Step 1 -----

  /** Slower than the absolute floor. */
  predicate TooSlow(c: Config, s: Server) {
    c.floor.Some? && s.metrics.avgMs > 0.0 && s.metrics.avgMs > c.floor.value
  }

  /** Above its own heat threshold, which grows with its weight but not beyond one. */
  predicate TooHot(th: Thresholds, s: Server) { s.temperature >= th.heat * s.weight || s.temperature >= 1.0 }

  /** Unhealthy, or long enough where it is. */
  predicate MayLeave(c: Config, s: Server, now: real) { !s.metrics.healthy || now - s.lastRotated >= c.cooldown }

  predicate MustLeave(c: Config, th: Thresholds, s: Server, now: real) {
    MayLeave(c, s, now) && (TooSlow(c, s) || TooHot(th, s))
  }

  lemma VerdictMeans(c: Config, th: Thresholds, s: Server, now: real)
    ensures Verdict(c, th, s, now).Some? <==> MustLeave(c, th, s, now)
    ensures MustLeave(c, th, s, now) ==>
      Verdict(c, th, s, now).value == if TooSlow(c, s) then AbsoluteLatency else Overheated
  {
  }

  /** The candidates are the due servers in ring order. */
  lemma {:induction false} CandidatesInOrder(c: Config, th: Thresholds, servers: map<Id, Server>, ids: seq<Id>,
                                             now: real)
    ensures var due := Candidates(c, th, servers, ids, now);
      && |DueIds(due)| == |due|
      && (forall id :: id in DueIds(due) <==> id in ids && MustLeave(c, th, At(servers, id), now))
  {
    if ids != [] {
      VerdictMeans(c, th, At(servers, ids[0]), now);
      CandidatesInOrder(c, th, servers, ids[1..], now);
      assert ids == [ids[0]] + ids[1..];
    }
  }

  lemma {:induction false} CandidatesConcat(c: Config, th: Thresholds, servers: map<Id, Server>, a: seq<Id>,
                                            b: seq<Id>, now: real)
    ensures Candidates(c, th, servers, a + b, now)
         == Candidates(c, th, servers, a, now) + Candidates(c, th, servers, b, now)
  {
    if a == [] {
      assert a + b == b;
    } else {
      assert (a + b)[0] == a[0] && (a + b)[1..] == a[1..] + b;
      CandidatesConcat(c, th, servers, a[1..], b, now);
    }
  }

  /** Everybody due that the first `n` candidates leave out comes after them in the ring. */
  lemma {:induction false} PrefixInOrder(c: Config, th: Thresholds, servers: map<Id, Server>, ids: seq<Id>,
                                         now: real, n: nat, i: nat)
    requires Distinct(ids) && i < |ids| && MustLeave(c, th, At(servers, ids[i]), now)
    requires n <= |Candidates(c, th, servers, ids, now)|
    requires ids[i] !in DueIds(Candidates(c, th, servers, ids, now)[..n])
    ensures n < |Candidates(c, th, servers, ids, now)|
    ensures forall j :: 0 <= j < |ids| && ids[j] in DueIds(Candidates(c, th, servers, ids, now)[..n]) ==> j < i
  {
    var all, before := Candidates(c, th, servers, ids, now), Candidates(c, th, servers, ids[..i], now);
    var after := Candidates(c, th, servers, ids[i..], now);
    assert ids == ids[..i] + ids[i..] && ids[i..][0] == ids[i];
    CandidatesConcat(c, th, servers, ids[..i], ids[i..], now);
    VerdictMeans(c, th, At(servers, ids[i]), now);
    assert after != [] && after[0].id == ids[i];
    DueIdsPrefix(all, n);
    DueIdsAt(all, |before|);
    assert all[|before|] == after[0];
    InPrefix(DueIds(all), n, |before|);
    assert all[..n] == before[..n];
    DueIdsPrefix(before, n);
    CandidatesInOrder(c, th, servers, ids[..i], now);
    forall j | 0 <= j < |ids| && ids[j] in DueIds(all[..n])
      ensures j < i
    {
      assert ids[j] in DueIds(before) && ids[j] in ids[..i];
      var m :| 0 <= m < i && ids[..i][m] == ids[j];
    }
  }

  lemma InPrefix(s: seq<Id>, n: nat, b: nat)
    requires b < |s| && n <= |s|
    ensures b < n ==> s[b] in s[..n]
  {
    if b < n {
      assert s[..n][b] == s[b];
    }
  }

  lemma {:induction false} DueIdsAt(due: seq<Due>, n: nat)
    requires n < |due|
    ensures |DueIds(due)| == |due| && DueIds(due)[n] == due[n].id
  {
    if n == 0 {
      DueIdsPrefix(due, 0);
    } else {
      DueIdsAt(due[1..], n - 1);
    }
  }

  /** One more eviction would break the minimum size, or be more than a third (and not the first). */
  predicate CapReached(c: Config, size: nat, evicted: nat) {
    size - (evicted + 1) < c.minInner || (evicted >= 1 && 3 * (evicted + 1) > size)
  }

  /** This eviction is called for, for this reason. */
  predicate CalledFor(c: Config, th: Thresholds, r: Ring, d: Due, now: real) {
    && d.id in r.inner && MustLeave(c, th, At(r.servers, d.id), now)
    && d.reason == if TooSlow(c, At(r.servers, d.id)) then AbsoluteLatency else Overheated
  }

  /** Step 1 evicts only servers that must leave, says why, and leaves one of them inside only if its cap is
      reached, by others before it in the ring. */
  lemma {:induction false} StepOneExactly(c: Config, th: Thresholds, r: Ring, now: real)
    requires Conserved(r)
    ensures
      var due := ToEvict(c, th, r, now);
      && (forall d :: d in due ==> CalledFor(c, th, r, d, now))
      && (forall i :: 0 <= i < |r.inner| && MustLeave(c, th, At(r.servers, r.inner[i]), now) ==>
            || r.inner[i] in DueIds(due)
            || (CapReached(c, |r.inner|, |due|)
                && forall j :: 0 <= j < |r.inner| && r.inner[j] in DueIds(due) ==> j < i))
  {
    var all, due := Candidates(c, th, r.servers, r.inner, now), ToEvict(c, th, r, now);
    ToEvictIsDue(c, th, r, now);
    InnerDistinct(r);
    forall d | d in due
      ensures CalledFor(c, th, r, d, now)
    {
      VerdictMeans(c, th, At(r.servers, d.id), now);
    }
    forall i | 0 <= i < |r.inner| && r.inner[i] !in DueIds(due) && MustLeave(c, th, At(r.servers, r.inner[i]), now)
      ensures CapReached(c, |r.inner|, |due|)
      ensures forall j :: 0 <= j < |r.inner| && r.inner[j] in DueIds(due) ==> j < i
    {
      PrefixInOrder(c, th, r.servers, r.inner, now, |due|, i);
    }
  }

  // ----- One eviction -----

  /** Its connections are open, and the cluster waits for them. */
  predicate Drains(c: Config, s: Server) { c.drainTimeout > 0.0 && s.metrics.connections > 0 }

  lemma NotElsewhere(r: Ring, id: Id)
    requires Conserved(r) && id in r.inner
    ensures id !in r.outer && id !in DrainIds(r.draining) && id in r.servers
  {
    assert id in multiset(r.inner);
    assert Tally(r, id) == (if id in r.servers then 1 else 0);
    assert id !in multiset(r.outer) && id !in multiset(DrainIds(r.draining));
  }

  /** What an eviction does to its server: only position, time stamp and, for a slow one, the temperature. */
  lemma EvictedServer(c: Config, r: Ring, id: Id, reason: Reason, now: real, done: real)
    requires Conserved(r) && id in r.inner
    ensures
      var t, s := MoveToOuter(c, r, id, reason, now, done), At(r.servers, id);
      var drains := Drains(c, s);
      && (forall x :: x != id ==> At(t.servers, x) == At(r.servers, x)) && t.servers.Keys == r.servers.Keys
      && At(t.servers, id) == Server(s.weight,
                                     if reason == AbsoluteLatency && s.temperature < 0.8 then 0.8 else s.temperature,
                                     if drains then Draining else Outer, if drains then now else done,
                                     s.coldUntil, s.metrics)
  {
    NotElsewhere(r, id);
    assert Parks(c, r, id) <==> Drains(c, At(r.servers, id));
    var t := MoveToOuter(c, r, id, reason, now, done);
    assert id in t.servers && t.servers.Keys == r.servers.Keys + {id};
  }

  /** Where it goes: to the end of the draining list, or into the outer ring; the others keep their order,
      and exactly its own session bindings go. */
  lemma EvictedPlace(c: Config, r: Ring, id: Id, reason: Reason, now: real, done: real, a: seq<Id>, b: seq<Id>)
    requires Conserved(r) && r.inner == a + [id] + b && id !in a
    ensures
      var t, drains := MoveToOuter(c, r, id, reason, now, done), Drains(c, At(r.servers, id));
      && t.inner == a + b
      && t.draining == (if drains then r.draining + [Drain(id, now, reason)] else r.draining)
      && multiset(t.outer) == (if drains then multiset(r.outer) else multiset(r.outer) + multiset{id})
      && (forall k :: k in t.affinity <==> k in r.affinity && r.affinity[k] != id)
      && (forall k :: k in t.affinity ==> t.affinity[k] == r.affinity[k])
  {
    assert r.inner[|a|] == id;
    NotElsewhere(r, id);
    WithoutSplit(a, id, b);
  }

  lemma {:induction false} WithoutSplit(a: seq<Id>, id: Id, b: seq<Id>)
    requires id !in a
    ensures Without(a + [id] + b, id) == a + b
  {
    if a == [] {
      assert [] + [id] + b == [id] + b && ([id] + b)[1..] == b;
      assert a + b == b;
    } else {
      assert (a + [id] + b)[1..] == a[1..] + [id] + b;
      WithoutSplit(a[1..], id, b);
      assert [a[0]] + (a[1..] + b) == a + b;
    }
  }

  // ----- Drains -----

  /** All its connections are closed, or its time is up. */
  predicate DrainOver(c: Config, r: Ring, d: Drain, now: real) {
    At(r.servers, d.id).metrics.connections <= 0 || now - d.since >= c.drainTimeout
  }

  /** The drains that complete are exactly those that are over, in the order of the list. */
  lemma {:induction false} CompletedExactly(c: Config, r: Ring, ds: seq<Drain>, now: real)
    ensures forall d :: d in ds && DrainOver(c, r, d, now) ==> d.id in Completed(c, r.servers, ds, now)
    ensures forall id :: id in Completed(c, r.servers, ds, now) ==>
      exists d :: d in ds && d.id == id && DrainOver(c, r, d, now)
  {
    if ds != [] {
      CompletedExactly(c, r, ds[1..], now);
      assert ds == [ds[0]] + ds[1..];
    }
  }

  // ----- Step 2 -----

  /** The four tests of the gate, passed at reading `m`. */
  ghost predicate Passes(c: Config, th: Thresholds, s: Server, id: Id, clk: Clock, m: nat, blocked: set<Id>) {
    && Tick(clk, m + 1) >= s.coldUntil
    && Tick(clk, m) - s.lastRotated >= c.minDwell
    && id !in blocked
    && s.temperature <= th.cool
  }

  /** One of the four fails. */
  ghost predicate HeldBack(c: Config, th: Thresholds, s: Server, id: Id, clk: Clock, m: nat, blocked: set<Id>) {
    || Tick(clk, m + 1) < s.coldUntil
    || Tick(clk, m) - s.lastRotated < c.minDwell
    || id in blocked
    || s.temperature > th.cool
  }

  lemma PullEffect(r: Ring, now: real)
    requires Conserved(r) && r.outer != []
    ensures
      var t, root := PullCoolest(r, now), r.outer[0];
      && t.inner == r.inner + [root] && root !in r.inner && root !in t.outer && root in r.servers
      && (forall x :: x in t.outer <==> x in r.outer && x != root)
      && At(t.servers, root) == At(r.servers, root).(position := Inner, lastRotated := now)
      && (forall x :: x != root ==> At(t.servers, x) == At(r.servers, x))
      && t.servers.Keys == r.servers.Keys
  {
    var t, root := PullCoolest(r, now), r.outer[0];
    PullCoolestBags(r, now);
    assert root in multiset(r.outer) && Tally(r, root) == (if root in r.servers then 1 else 0);
    assert root !in multiset(r.inner) && root !in multiset(t.outer);
    forall x
      ensures x in t.outer <==> x in r.outer && x != root
    {
      assert x in multiset(t.outer) <==> x in multiset(r.outer) && x != root;
    }
  }

  /** Whoever step 2 brings in passed the gate, at a reading of its own. */
  lemma {:induction false} PromotedPassed(c: Config, th: Thresholds, r: Ring, clk: Clock, k: nat, blocked: set<Id>,
                                          id: Id)
    requires Conserved(r) && id !in r.inner && id in Promote(c, th, r, clk, k, blocked).inner
    ensures id in r.outer && exists m: nat :: m >= k && Passes(c, th, At(r.servers, id), id, clk, m, blocked)
    decreases |r.outer|
  {
    PromoteStep(c, th, r, clk, k, blocked);
    var root, now := r.outer[0], Tick(clk, k + 2);
    if id == root {
      assert Passes(c, th, At(r.servers, id), id, clk, k, blocked);
    } else {
      PullEffect(r, now);
      PullCoolestKeeps(r, now);
      PromotedPassed(c, th, PullCoolest(r, now), clk, k + 3, blocked, id);
    }
  }

  /** Nobody is outside, the inner ring is full, or the root of the outer ring fails a test. */
  ghost predicate Stopped(c: Config, th: Thresholds, t: Ring, clk: Clock, m: nat, blocked: set<Id>) {
    t.outer == [] || |t.inner| >= c.maxInner || HeldBack(c, th, At(t.servers, t.outer[0]), t.outer[0], clk, m, blocked)
  }

  /** The reading that step 2 takes after `n` promotions. */
  function ReadingAfter(k: nat, n: nat): nat { k + 3 * n }

  /** Step 2 only adds, and it stops only for one of these reasons, at the reading taken then. */
  lemma {:induction false} StepTwoStops(c: Config, th: Thresholds, r: Ring, clk: Clock, k: nat, blocked: set<Id>)
    returns (n: nat)
    ensures
      var t := Promote(c, th, r, clk, k, blocked);
      |t.inner| == |r.inner| + n && Stopped(c, th, t, clk, ReadingAfter(k, n), blocked)
    decreases |r.outer|
  {
    PromoteStep(c, th, r, clk, k, blocked);
    if MayPromote(c, th, r, clk, k, blocked) {
      var r1 := PullCoolest(r, Tick(clk, k + 2));
      PullSize(r, Tick(clk, k + 2));
      n := StepTwoStops(c, th, r1, clk, k + 3, blocked);
      assert ReadingAfter(k + 3, n) == ReadingAfter(k, n + 1);
      n := n + 1;
    } else {
      GateShut(c, th, r, clk, k, blocked);
      n := 0;
    }
  }

  lemma PullSize(r: Ring, now: real)
    requires r.outer != []
    ensures |PullCoolest(r, now).inner| == |r.inner| + 1 && |PullCoolest(r, now).outer| < |r.outer|
  {
  }

  lemma GateShut(c: Config, th: Thresholds, r: Ring, clk: Clock, k: nat, blocked: set<Id>)
    requires !MayPromote(c, th, r, clk, k, blocked)
    ensures Stopped(c, th, r, clk, ReadingAfter(k, 0), blocked)
  {
  }

  // ----- Step 3 -----

  /** Unhealthy, or its error rate has reached the threshold of the circuit breaker, if there is one. */
  predicate Failing(c: Config, s: Server) {
    !s.metrics.healthy || (c.breaker < 1.0 && s.metrics.errorRate >= c.breaker)
  }

  /** Of these servers only failing ones have left, and one of them stays only at the minimum size, when those
      that left came before it. */
  ghost predicate FailingLeft(c: Config, r: Ring, ids: seq<Id>, t: Ring) {
    && (forall x :: x in t.inner ==> x in r.inner)
    && (forall x :: x in r.inner && x !in t.inner ==> x in ids && Failing(c, At(r.servers, x)))
    && (forall i :: 0 <= i < |ids| && ids[i] in t.inner && Failing(c, At(r.servers, ids[i])) ==>
          |t.inner| <= c.minInner && forall j :: 0 <= j < |ids| && ids[j] !in t.inner ==> j < i)
  }

  lemma FirstLeft(c: Config, r: Ring, r1: Ring, ids: seq<Id>, t: Ring)
    requires ids != [] && Distinct(ids) && (forall x :: x in ids ==> x in r.inner) && FailingLeft(c, r1, ids[1..], t)
    requires Failing(c, At(r.servers, ids[0])) && forall x :: x in r1.inner <==> x in r.inner && x != ids[0]
    requires forall x :: x != ids[0] ==> At(r1.servers, x) == At(r.servers, x)
    ensures FailingLeft(c, r, ids, t)
  {
    assert ids == [ids[0]] + ids[1..];
    TailDistinct(ids[0], ids[1..]);
    assert forall i :: 0 < i < |ids| ==> ids[i] == ids[1..][i - 1];
  }

  lemma FirstStayed(c: Config, r: Ring, ids: seq<Id>, t: Ring)
    requires ids != [] && Distinct(ids) && (forall x :: x in ids ==> x in r.inner) && FailingLeft(c, r, ids[1..], t)
    requires !Failing(c, At(r.servers, ids[0]))
    ensures FailingLeft(c, r, ids, t)
  {
    assert ids == [ids[0]] + ids[1..];
    assert forall i :: 0 < i < |ids| ==> ids[i] == ids[1..][i - 1];
  }

  lemma OneLeft(c: Config, r: Ring, id: Id, now: real, done: real) returns (t: Ring)
    requires Conserved(r) && id in r.inner
    ensures t == MoveToOuter(c, r, id, HealthFail, now, done) && Conserved(t) && |t.inner| == |r.inner| - 1
    ensures forall x :: x in t.inner <==> x in r.inner && x != id
    ensures forall x :: x != id ==> At(t.servers, x) == At(r.servers, x)
  {
    t := MoveToOuter(c, r, id, HealthFail, now, done);
    MoveToOuterKeeps(c, r, id, HealthFail, now, done);
    MoveToOuterEffect(c, r, id, HealthFail, now, done);
    EvictedServer(c, r, id, HealthFail, now, done);
  }

  /** Step 3 evicts the failing servers of the inner ring in its order, all of them unless that would leave
      fewer than the minimum. */
  lemma {:induction false} StepThreeExactly(c: Config, r: Ring, ids: seq<Id>, clk: Clock, k: nat)
    requires Conserved(r) && Distinct(ids) && forall x :: x in ids ==> x in r.inner
    ensures FailingLeft(c, r, ids, EvictSick(c, r, ids, clk, k))
    ensures |EvictSick(c, r, ids, clk, k).inner| >= Min(|r.inner|, c.minInner)
    decreases |ids|
  {
    if ids != [] && |r.inner| > c.minInner {
      assert ids == [ids[0]] + ids[1..];
      TailDistinct(ids[0], ids[1..]);
      if Failing(c, At(r.servers, ids[0])) {
        var r1 := OneLeft(c, r, ids[0], Tick(clk, k), Tick(clk, k + 1));
        StepThreeExactly(c, r1, ids[1..], clk, k + 2);
        FirstLeft(c, r, r1, ids, EvictSick(c, r1, ids[1..], clk, k + 2));
      } else {
        StepThreeExactly(c, r, ids[1..], clk, k);
        FirstStayed(c, r, ids, EvictSick(c, r, ids[1..], clk, k));
      }
    }
  }

  // ----- A whole rotation -----

  lemma {:induction false} SickOnlyLeave(c: Config, r: Ring, ids: seq<Id>, clk: Clock, k: nat)
    ensures forall x :: x in EvictSick(c, r, ids, clk, k).inner ==> x in r.inner
    decreases |ids|
  {
    if ids != [] && |r.inner| > c.minInner {
      if Sick(c, At(r.servers, ids[0])) {
        WithoutMembers(r.inner, ids[0]);
        SickOnlyLeave(c, MoveToOuter(c, r, ids[0], HealthFail, Tick(clk, k), Tick(clk, k + 1)), ids[1..], clk, k + 2);
      } else {
        SickOnlyLeave(c, r, ids[1..], clk, k);
      }
    }
  }

  /** A server that was not in the inner ring before a rotation and is afterwards was in the outer ring, and
      passed the gate as it was then. */
  lemma {:induction false} RotationAdmits(c: Config, th: Thresholds, r: Ring, clk: Clock, blocked: set<Id>,
                                          removed: set<Id>, id: Id)
    requires ValidConfig(c) && Good(c, r, removed)
    requires id in r.servers && id !in r.inner && id in Rotate(c, th, r, clk, blocked).inner
    ensures exists m: nat :: m >= 1 && Passes(c, th, At(r.servers, id), id, clk, m, blocked)
  {
    var due := ToEvict(c, th, r, Tick(clk, 0));
    ToEvictIsDue(c, th, r, Tick(clk, 0));
    EvictAllKeeps(c, r, due, clk, 1, removed);
    UntouchedByEvictions(c, r, due, clk, 1, removed, id);
    var r1 := EvictAll(c, r, due, clk, 1);
    var r2 := Promote(c, th, r1, clk, GateReading(r), blocked);
    SickOnlyLeave(c, r2, r2.inner, clk, SickReading(r, r1));
    PromotedPassed(c, th, r1, clk, GateReading(r), blocked, id);
  }

  // ----- Cold start, over runs -----

  /** The same servers, with the same cold starts. */
  ghost predicate SameCold(r: Ring, t: Ring) {
    t.servers.Keys == r.servers.Keys && forall x :: At(t.servers, x).coldUntil == At(r.servers, x).coldUntil
  }

  lemma {:induction false} EvictAllSameCold(c: Config, r: Ring, due: seq<Due>, clk: Clock, k: nat)
    requires forall id :: id in DueIds(due) ==> id in r.servers
    ensures SameCold(r, EvictAll(c, r, due, clk, k))
    decreases |due|
  {
    if due != [] {
      var r1 := MoveToOuter(c, r, due[0].id, due[0].reason, Tick(clk, k), Tick(clk, k + 1));
      assert SameCold(r, r1);
      EvictAllSameCold(c, r1, due[1..], clk, k + 2);
    }
  }

  lemma {:induction false} PromoteSameCold(c: Config, th: Thresholds, r: Ring, clk: Clock, k: nat, blocked: set<Id>)
    requires Conserved(r)
    ensures SameCold(r, Promote(c, th, r, clk, k, blocked))
    decreases |r.outer|
  {
    PromoteStep(c, th, r, clk, k, blocked);
    if MayPromote(c, th, r, clk, k, blocked) {
      PullEffect(r, Tick(clk, k + 2));
      PullCoolestKeeps(r, Tick(clk, k + 2));
      PromoteSameCold(c, th, PullCoolest(r, Tick(clk, k + 2)), clk, k + 3, blocked);
    }
  }

  lemma {:induction false} EvictSickSameCold(c: Config, r: Ring, ids: seq<Id>, clk: Clock, k: nat)
    requires forall id :: id in ids ==> id in r.servers
    ensures SameCold(r, EvictSick(c, r, ids, clk, k))
    decreases |ids|
  {
    if ids != [] && |r.inner| > c.minInner {
      if Sick(c, At(r.servers, ids[0])) {
        var r1 := MoveToOuter(c, r, ids[0], HealthFail, Tick(clk, k), Tick(clk, k + 1));
        assert SameCold(r, r1);
        EvictSickSameCold(c, r1, ids[1..], clk, k + 2);
      } else {
        EvictSickSameCold(c, r, ids[1..], clk, k);
      }
    }
  }

  lemma {:induction false} RefillSameCold(c: Config, r: Ring, clk: Clock, k: nat)
    requires Conserved(r)
    ensures SameCold(r, MaybePull(c, r, clk, k))
    decreases |r.outer|
  {
    MaybePullStep(c, r, clk, k);
    if r.outer != [] && |r.inner| < c.minInner {
      PullEffect(r, Tick(clk, k));
      PullCoolestKeeps(r, Tick(clk, k));
      RefillSameCold(c, PullCoolest(r, Tick(clk, k)), clk, k + 1);
    }
  }

  lemma {:induction false} DrainsSameCold(r: Ring, ids: seq<Id>, clk: Clock, k: nat)
    requires forall id :: id in ids ==> id in r.servers
    ensures SameCold(r, FinishDrains(r, ids, clk, k)) && FinishDrains(r, ids, clk, k).inner == r.inner
    decreases |ids|
  {
    if ids != [] {
      var r1 := CompleteEviction(r.(draining := WithoutDrain(r.draining, ids[0])), ids[0], Tick(clk, k));
      assert SameCold(r, r1);
      DrainsSameCold(r1, ids[1..], clk, k + 1);
    }
  }

  lemma InnerIsServed(r: Ring)
    requires Conserved(r)
    ensures forall id :: id in r.inner ==> id in r.servers
    ensures forall id :: id in DrainIds(r.draining) ==> id in r.servers
  {
    forall id | id in r.inner || id in DrainIds(r.draining)
      ensures id in r.servers
    {
      assert id in multiset(r.inner) || id in multiset(DrainIds(r.draining));
      assert Tally(r, id) == (if id in r.servers then 1 else 0);
    }
  }

  lemma RotateSameCold(c: Config, th: Thresholds, r: Ring, clk: Clock, blocked: set<Id>, removed: set<Id>)
    requires ValidConfig(c) && Good(c, r, removed)
    ensures SameCold(r, Rotate(c, th, r, clk, blocked))
  {
    var due := ToEvict(c, th, r, Tick(clk, 0));
    ToEvictIsDue(c, th, r, Tick(clk, 0));
    InnerIsServed(r);
    EvictAllSameCold(c, r, due, clk, 1);
    EvictAllKeeps(c, r, due, clk, 1, removed);
    var r1 := EvictAll(c, r, due, clk, 1);
    PromoteSameCold(c, th, r1, clk, GateReading(r), blocked);
    PromoteKeeps(c, th, r1, clk, GateReading(r), blocked, removed);
    var r2 := Promote(c, th, r1, clk, GateReading(r), blocked);
    InnerIsServed(r2);
    EvictSickSameCold(c, r2, r2.inner, clk, SickReading(r, r1));
  }

  /** No operation moves the end of a cold start, as long as the server stays registered. */
  lemma ColdKept(c: Config, r: Ring, op: Op, removed: set<Id>, id: Id)
    requires ValidConfig(c) && Good(c, r, removed) && Admissible(r, op)
    requires id in r.servers && id in Step(c, r, op).servers
    ensures At(Step(c, r, op).servers, id).coldUntil == At(r.servers, id).coldUntil
  {
    match op {
      case RemoveServer(x, clk) =>
        if x in r.inner {
          ForgetInner(c, r, x, removed);
          RefillSameCold(c, r.(inner := Without(r.inner, x), servers := r.servers - {x}), clk, 0);
        }
      case RotateOnce(th, clk, blocked) => RotateSameCold(c, th, r, clk, blocked, removed);
      case CheckDrains(clk) =>
        InnerIsServed(r);
        CompletedExactly(c, r, r.draining, Tick(clk, 0));
        DrainIdsMember(r.draining);
        DrainsSameCold(r, Completed(c, r.servers, r.draining, Tick(clk, 0)), clk, 1);
      case _ =>
    }
  }

  lemma {:induction false} DrainIdsMember(ds: seq<Drain>)
    ensures forall d :: d in ds ==> d.id in DrainIds(ds)
  {
    if ds != [] {
      DrainIdsMember(ds[1..]);
      assert ds == [ds[0]] + ds[1..];
    }
  }

  lemma {:induction false} DrainsLeaveInner(r: Ring, ids: seq<Id>, clk: Clock, k: nat)
    ensures FinishDrains(r, ids, clk, k).inner == r.inner
    decreases |ids|
  {
    if ids != [] {
      DrainsLeaveInner(FinishDrain(r, ids[0], Tick(clk, k)), ids[1..], clk, k + 1);
    }
  }

  /** A registered server enters the inner ring only in a rotation, past the gate, or in the refill after a
      removal. */
  lemma EntersOnly(c: Config, r: Ring, op: Op, removed: set<Id>, id: Id)
    requires ValidConfig(c) && Good(c, r, removed) && Admissible(r, op)
    requires id in r.servers && id !in r.inner && id in Step(c, r, op).inner
    ensures
      || (op.RemoveServer? && op.id in r.inner && op.id != id)
      || (op.RotateOnce?
          && exists m: nat :: m >= 1 && Passes(c, op.th, At(r.servers, id), id, op.clk, m, op.blocked))
  {
    if op.RotateOnce? {
      RotationAdmits(c, op.th, r, op.clk, op.blocked, removed, id);
    } else if op.RemoveServer? {
      RemovedIsGone(c, r, op.id, op.clk, removed);
    } else {
      NobodyEnters(c, r, op, id);
    }
  }

  /** A removal that finds nobody inside leaves the inner ring; one that does forgets the server. */
  lemma RemovedIsGone(c: Config, r: Ring, id: Id, clk: Clock, removed: set<Id>)
    requires ValidConfig(c) && Good(c, r, removed)
    ensures id !in r.inner ==> Remove(c, r, id, clk).inner == r.inner
    ensures id in r.inner ==> id !in Remove(c, r, id, clk).inner
  {
    if id in r.inner {
      RemoveKeeps(c, r, id, clk, removed);
      InnerIsServed(Remove(c, r, id, clk));
    }
  }

  lemma NobodyEnters(c: Config, r: Ring, op: Op, id: Id)
    requires Admissible(r, op) && !op.RotateOnce? && !op.RemoveServer? && id in r.servers && id !in r.inner
    ensures id !in Step(c, r, op).inner
  {
    match op {
      case ForceEvictServer(x, _) => WithoutMembers(r.inner, x);
      case CheckDrains(clk) => DrainsLeaveInner(r, Completed(c, r.servers, r.draining, Tick(clk, 0)), clk, 1);
      case Route(_) => TurnBag(r.inner);
      case RouteExcluding(excluded) => if r.inner != [] { ScanBag(r.inner, excluded, |r.inner|); }
      case _ =>
    }
  }

  /** `id` is registered at every moment from `a` to `b`. */
  ghost predicate Registered(rings: seq<Ring>, a: nat, b: nat, id: Id)
    requires b < |rings|
  {
    forall k :: a <= k <= b ==> id in rings[k].servers
  }

  /** `id` is registered, and cold until then. */
  ghost predicate ColdUntil(r: Ring, id: Id, until: real) { id in r.servers && r.servers[id].coldUntil == until }

  lemma NextKeepsCold(c: Config, ops: seq<Op>, rings: seq<Ring>, removed: seq<set<Id>>, k: nat, id: Id,
                      until: real)
    requires ValidConfig(c) && k < |ops| && |rings| == |removed| == |ops| + 1
    requires RingLaws.Follows(c, ops, rings, removed, k) && Good(c, rings[k], removed[k])
    requires ColdUntil(rings[k], id, until) && id in rings[k + 1].servers
    ensures ColdUntil(rings[k + 1], id, until)
  {
    ColdKept(c, rings[k], ops[k], removed[k], id);
  }

  /** Operation `a` registers `id` with a cold start. */
  ghost predicate Joins(c: Config, ops: seq<Op>, a: nat, id: Id) {
    a < |ops| && ops[a].AddServer? && ops[a].id == id && c.coldStart > 0.0
  }

  lemma {:induction false} ColdSinceJoining(c: Config, ops: seq<Op>, rings: seq<Ring>, removed: seq<set<Id>>,
                                            a: nat, b: nat, id: Id)
    requires ValidConfig(c) && IsRun(c, ops, rings, removed) && Joins(c, ops, a, id)
    requires a < b < |rings| && Registered(rings, a + 1, b, id)
    ensures ColdUntil(rings[b], id, ops[a].now + c.coldStart)
    decreases b
  {
    if b == a + 1 {
      RunJoins(c, ops, rings, removed, a, id);
    } else {
      var last := b - 1;
      ColdSinceJoining(c, ops, rings, removed, a, last, id);
      RunKeepsCold(c, ops, rings, removed, last, id, ops[a].now + c.coldStart);
    }
  }

  lemma RunJoins(c: Config, ops: seq<Op>, rings: seq<Ring>, removed: seq<set<Id>>, a: nat, id: Id)
    requires IsRun(c, ops, rings, removed) && Joins(c, ops, a, id)
    ensures ColdUntil(rings[a + 1], id, ops[a].now + c.coldStart)
  {
    assert RingLaws.Follows(c, ops, rings, removed, a);
    NextJoins(c, ops, rings, removed, a, id);
  }

  lemma RunKeepsCold(c: Config, ops: seq<Op>, rings: seq<Ring>, removed: seq<set<Id>>, k: nat, id: Id, until: real)
    requires ValidConfig(c) && IsRun(c, ops, rings, removed) && k < |ops|
    requires ColdUntil(rings[k], id, until) && id in rings[k + 1].servers
    ensures ColdUntil(rings[k + 1], id, until)
  {
    assert RingLaws.Follows(c, ops, rings, removed, k);
    RunsAreGood(c, ops, rings, removed, k);
    NextKeepsCold(c, ops, rings, removed, k, id, until);
  }

  lemma NextJoins(c: Config, ops: seq<Op>, rings: seq<Ring>, removed: seq<set<Id>>, a: nat, id: Id)
    requires |rings| == |removed| == |ops| + 1 && Joins(c, ops, a, id) && RingLaws.Follows(c, ops, rings, removed, a)
    ensures ColdUntil(rings[a + 1], id, ops[a].now + c.coldStart)
  {
    JoinsCold(c, rings[a], ops[a], id);
  }

  /** A server registered with a cold start is outside, whatever was asked for. */
  lemma JoinsCold(c: Config, r: Ring, op: Op, id: Id)
    requires op.AddServer? && op.id == id && c.coldStart > 0.0 && Admissible(r, op)
    ensures
      var t := Step(c, r, op);
      && At(t.servers, id).coldUntil == op.now + c.coldStart && t.inner == r.inner && id in t.outer
      && At(t.servers, id).position == Outer && At(t.servers, id).temperature == op.server.temperature
  {
    var t := Step(c, r, op);
    assert id in multiset(t.outer);
  }

  /** Without a cold start a new server is at the end of the inner ring if that was asked for and there is
      room, and otherwise outside; either way it keeps its numbers, and nobody else moves. */
  lemma JoinsWarm(c: Config, r: Ring, op: Op, id: Id)
    requires op.AddServer? && op.id == id && c.coldStart <= 0.0 && Admissible(r, op)
    ensures
      var t, inside := Step(c, r, op), op.forceInner && |r.inner| < c.maxInner;
      && t.inner == (if inside then r.inner + [id] else r.inner)
      && multiset(t.outer) == (if inside then multiset(r.outer) else multiset(r.outer) + multiset{id})
      && At(t.servers, id) == op.server.(position := if inside then Inner else Outer)
      && (forall x :: x != id ==> At(t.servers, x) == At(r.servers, x))
      && t.draining == r.draining && t.affinity == r.affinity
  {
  }

  /** Over runs: as long as a server stays registered, it enters the inner ring within its cold start only
      by a refill: no rotation all of whose readings lie before its end brings it in. */
  lemma {:induction false} ColdStartHolds(c: Config, ops: seq<Op>, rings: seq<Ring>, removed: seq<set<Id>>,
                                          a: nat, k: nat, id: Id)
    requires ValidConfig(c) && IsRun(c, ops, rings, removed) && Joins(c, ops, a, id)
    requires a < k < |ops| && Registered(rings, a + 1, k, id)
    requires id !in rings[k].inner && id in rings[k + 1].inner
    ensures
      || (ops[k].RemoveServer? && ops[k].id in rings[k].inner)
      || (ops[k].RotateOnce? && exists m: nat :: Tick(ops[k].clk, m) >= ops[a].now + c.coldStart)
  {
    ColdSinceJoining(c, ops, rings, removed, a, k, id);
    RunsAreGood(c, ops, rings, removed, k);
    assert RingLaws.Follows(c, ops, rings, removed, k);
    PastTheGate(c, rings[k], ops[k], removed[k], id, ops[a].now + c.coldStart);
  }

  lemma PastTheGate(c: Config, r: Ring, op: Op, removed: set<Id>, id: Id, until: real)
    requires ValidConfig(c) && Good(c, r, removed) && Admissible(r, op)
    requires id !in r.inner && id in Step(c, r, op).inner && ColdUntil(r, id, until)
    ensures (op.RemoveServer? && op.id in r.inner) || (op.RotateOnce? && exists m: nat :: Tick(op.clk, m) >= until)
  {
    EntersOnly(c, r, op, removed, id);
    if op.RotateOnce? {
      var m: nat :| m >= 1 && Passes(c, op.th, At(r.servers, id), id, op.clk, m, op.blocked);
      assert Tick(op.clk, m + 1) >= until;
    }
  }

  const COLD_CONFIG := Config(1, 2, 5.0, 10.0, None, 60.0, 1.0, 0.0)
  const IDLE := Server(1.0, 0.0, Outer, 0.0, 0.0, Metrics(true, 0.0, 0.0, 0))

  /** The refill does not ask: when the only inner server is removed, one in its cold start takes its place. */
  lemma RefillIgnoresColdStart() returns (r: Ring, t: Ring)
    ensures Good(COLD_CONFIG, r, {}) && r.inner == [0] && r.outer == [1] && At(r.servers, 1).coldUntil == 60.0
    ensures t == Remove(COLD_CONFIG, r, 0, [1.0]) && t.inner == [1]
  {
    r := Ring(map[0 := IDLE.(position := Inner), 1 := IDLE.(coldUntil := 60.0)], [0], [], [1], map[]);
    forall id ensures Tally(r, id) == (if id in r.servers then 1 else 0) && Placed(r, id) {}
    t := Remove(COLD_CONFIG, r, 0, [1.0]);
    var r1 := r.(inner := Without(r.inner, 0), servers := r.servers - {0});
    assert r1.inner == [];
    MaybePullStep(COLD_CONFIG, r1, [1.0], 0);
    MaybePullStep(COLD_CONFIG, PullCoolest(r1, 1.0), [1.0], 1);
  }
}
