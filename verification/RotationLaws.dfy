/** What one `rotate()` promises about the order of promotions and about flapping. */
module RotationLaws {
  import opened Options
  import opened HeapQueue
  import opened Rings
  import opened RingLaws

  /** The outer list is a binary heap by temperature. `update_temperature` changes keys in place
      without restoring it, so this is asked of the ring on entry and not of every state. */
  ghost predicate HeapOk(r: Ring) { Heap(Temp(r.servers), r.outer) }

  lemma RekeyHeap(key: Key<Id>, key': Key<Id>, h: seq<Id>)
    requires Heap(key, h) && forall x :: x in h ==> key(x) == key'(x)
    ensures Heap(key', h)
  {
    forall i | 0 < i < |h| && Parent(i) >= 0 ensures InOrder(key', h, i) {
      assert InOrder(key, h, i);
    }
  }

  lemma MoveToOuterHeap(c: Config, r: Ring, id: Id, reason: Reason, now: real, done: real)
    requires Conserved(r) && id in r.inner && HeapOk(r)
    ensures HeapOk(MoveToOuter(c, r, id, reason, now, done))
  {
    var t := MoveToOuter(c, r, id, reason, now, done);
    assert id in multiset(r.inner) && Tally(r, id) <= 1;
    assert id !in multiset(r.outer);
    RekeyHeap(Temp(r.servers), Temp(t.servers), r.outer);
    if t.outer != r.outer {
      PushHeap(Temp(t.servers), r.outer, id);
    }
  }

  lemma {:induction false} EvictAllHeap(c: Config, r: Ring, due: seq<Due>, clk: Clock, k: nat, removed: set<Id>)
    requires Good(c, r, removed) && HeapOk(r) && Distinct(DueIds(due))
    requires forall id :: id in DueIds(due) ==> id in r.inner
    ensures HeapOk(EvictAll(c, r, due, clk, k))
    decreases |due|
  {
    if due != [] {
      var id := due[0].id;
      MoveToOuterKeeps(c, r, id, due[0].reason, Tick(clk, k), Tick(clk, k + 1));
      MoveToOuterEffect(c, r, id, due[0].reason, Tick(clk, k), Tick(clk, k + 1));
      MoveToOuterHeap(c, r, id, due[0].reason, Tick(clk, k), Tick(clk, k + 1));
      TailDistinct(id, DueIds(due[1..]));
      EvictAllHeap(c, MoveToOuter(c, r, id, due[0].reason, Tick(clk, k), Tick(clk, k + 1)), due[1..],
                   clk, k + 2, removed);
    }
  }

  lemma {:induction false} EvictSickHeap(c: Config, r: Ring, ids: seq<Id>, clk: Clock, k: nat, removed: set<Id>)
    requires Good(c, r, removed) && HeapOk(r) && Distinct(ids)
    requires forall id :: id in ids ==> id in r.inner
    ensures HeapOk(EvictSick(c, r, ids, clk, k))
    decreases |ids|
  {
    if ids != [] && |r.inner| > c.minInner {
      assert ids == [ids[0]] + ids[1..];
      TailDistinct(ids[0], ids[1..]);
      if Sick(c, At(r.servers, ids[0])) {
        MoveToOuterKeeps(c, r, ids[0], HealthFail, Tick(clk, k), Tick(clk, k + 1));
        MoveToOuterEffect(c, r, ids[0], HealthFail, Tick(clk, k), Tick(clk, k + 1));
        MoveToOuterHeap(c, r, ids[0], HealthFail, Tick(clk, k), Tick(clk, k + 1));
        EvictSickHeap(c, MoveToOuter(c, r, ids[0], HealthFail, Tick(clk, k), Tick(clk, k + 1)), ids[1..],
                      clk, k + 2, removed);
      } else {
        EvictSickHeap(c, r, ids[1..], clk, k, removed);
      }
    }
  }

  ghost function Heat(r: Ring, id: Id): real { At(r.servers, id).temperature }

  /** `p` lists servers coolest first, and none of `rest` is cooler than any of them. */
  ghost predicate CoolestFirst(r: Ring, p: seq<Id>, rest: seq<Id>) {
    && (forall i, j :: 0 <= i < j < |p| ==> Heat(r, p[i]) <= Heat(r, p[j]))
    && (forall i, x :: 0 <= i < |p| && x in rest ==> Heat(r, p[i]) <= Heat(r, x))
  }

  lemma CoolestFirstCons(r: Ring, t: Ring, id: Id, p: seq<Id>, rest: seq<Id>)
    requires CoolestFirst(t, p, rest) && SameHeats(r, t)
    requires forall x :: x in p || x in rest ==> Heat(r, id) <= Heat(r, x)
    ensures CoolestFirst(r, [id] + p, rest)
  {}

  ghost predicate SameHeats(r: Ring, t: Ring) { forall x :: Heat(t, x) == Heat(r, x) }

  /** What the promotions of a cycle leave behind. */
  ghost predicate PromotionOk(th: Thresholds, r: Ring, t: Ring) {
    && SameHeats(r, t) && r.inner <= t.inner
    && (forall x :: x in t.outer ==> x in r.outer)
    && (forall x :: x in t.inner[|r.inner|..] ==> x in r.outer && Heat(r, x) <= th.cool)
    && CoolestFirst(r, t.inner[|r.inner|..], t.outer)
  }

  lemma PullCoolestHeap(r: Ring, now: real)
    requires HeapOk(r) && r.outer != []
    ensures HeapOk(PullCoolest(r, now))
    ensures SameHeats(r, PullCoolest(r, now))
    ensures forall x :: x in r.outer ==> Heat(r, r.outer[0]) <= Heat(r, x)
    ensures forall x :: x in PullCoolest(r, now).outer ==> x in r.outer
  {
    var t := PullCoolest(r, now);
    PopHeap(Temp(r.servers), r.outer);
    RekeyHeap(Temp(r.servers), Temp(t.servers), t.outer);
    forall x | x in r.outer ensures Heat(r, r.outer[0]) <= Heat(r, x) {
      var i :| 0 <= i < |r.outer| && r.outer[i] == x;
      RootIsMin(Temp(r.servers), r.outer, i);
    }
    forall x | x in t.outer ensures x in r.outer {
      assert x in multiset(t.outer);
    }
  }

  /** From a heap, step 2 promotes coolest first: each promoted server is no hotter than those
      promoted after it and than everything still resting when the step ends. */
  lemma {:induction false} PromotesCoolestFirst(c: Config, th: Thresholds, r: Ring, clk: Clock, k: nat,
                                                blocked: set<Id>, removed: set<Id>)
    requires Good(c, r, removed) && HeapOk(r)
    ensures HeapOk(Promote(c, th, r, clk, k, blocked)) && PromotionOk(th, r, Promote(c, th, r, clk, k, blocked))
    decreases |r.outer|
  {
    if MayPromote(c, th, r, clk, k, blocked) {
      var r1 := PullCoolest(r, Tick(clk, k + 2));
      PullCoolestKeeps(r, Tick(clk, k + 2));
      PullCoolestHeap(r, Tick(clk, k + 2));
      PromotesCoolestFirst(c, th, r1, clk, k + 3, blocked, removed);
      PromotionCons(th, r, r1, Promote(c, th, r1, clk, k + 3, blocked));
    } else {
      assert r.inner[|r.inner|..] == [];
    }
  }

  lemma PromotionCons(th: Thresholds, r: Ring, r1: Ring, t: Ring)
    requires PromotionOk(th, r1, t) && SameHeats(r, r1) && r.outer != []
    requires r1.inner == r.inner + [r.outer[0]] && Heat(r, r.outer[0]) <= th.cool
    requires forall x :: x in r1.outer ==> x in r.outer
    requires forall x :: x in r.outer ==> Heat(r, r.outer[0]) <= Heat(r, x)
    ensures PromotionOk(th, r, t)
  {
    var q := t.inner[|r1.inner|..];
    assert t.inner[|r.inner|..] == [r.outer[0]] + q;
    CoolestFirstCons(r, r1, r.outer[0], q, t.outer);
  }

  /** A whole cycle keeps the heap, through every push and pop of its three steps. */
  lemma {:induction false} RotateKeepsHeap(c: Config, th: Thresholds, r: Ring, clk: Clock, blocked: set<Id>,
                                           removed: set<Id>)
    requires ValidConfig(c) && Good(c, r, removed) && HeapOk(r)
    ensures var r1 := EvictAll(c, r, ToEvict(c, th, r, Tick(clk, 0)), clk, 1);
      HeapOk(r1) && HeapOk(Promote(c, th, r1, clk, GateReading(r), blocked)) && HeapOk(Rotate(c, th, r, clk, blocked))
  {
    ToEvictIsDue(c, th, r, Tick(clk, 0));
    EvictAllKeeps(c, r, ToEvict(c, th, r, Tick(clk, 0)), clk, 1, removed);
    EvictAllHeap(c, r, ToEvict(c, th, r, Tick(clk, 0)), clk, 1, removed);
    var r1 := EvictAll(c, r, ToEvict(c, th, r, Tick(clk, 0)), clk, 1);
    PromoteKeeps(c, th, r1, clk, GateReading(r), blocked, removed);
    PromotesCoolestFirst(c, th, r1, clk, GateReading(r), blocked, removed);
    var r2 := Promote(c, th, r1, clk, GateReading(r), blocked);
    InnerDistinct(r2);
    EvictSickHeap(c, r2, r2.inner, clk, SickReading(r, r1), removed);
  }

  // ----- No bounce within a cycle -----

  /** Some server evicted in step 1 is back in the inner ring after step 2 of the same cycle. */
  ghost predicate Bounces(c: Config, th: Thresholds, r: Ring, clk: Clock, blocked: set<Id>) {
    var due := ToEvict(c, th, r, Tick(clk, 0));
    var r2 := Promote(c, th, EvictAll(c, r, due, clk, 1), clk, GateReading(r), blocked);
    exists d :: d in due && d.id in r2.inner
  }

  /** An evicted server of this weight is too hot to come straight back. */
  predicate Separated(c: Config, th: Thresholds, weight: real) {
    EffectiveHeat(th.heat, weight) > th.cool && (c.floor.Some? ==> th.cool < 0.8)
  }

  /** The cycle takes at most `delay` from the first eviction on. Callbacks run in between, so the
      source sets no limit. */
  ghost predicate Takes(clk: Clock, delay: real) { forall k: nat :: Tick(clk, k) - Tick(clk, 1) <= delay }

  /** The settings under which no cycle of at most that length bounces a server of this weight: it
      ends within the dwell time, the two ring sizes leave no room, nobody is ever cool enough to come
      back, or the thresholds are separated. Temperatures stand still during the cycle: in the source
      another thread may cool a server in between (`update_temperature` takes the server's lock only),
      and then the thresholds prevent nothing. */
  predicate BounceFree(c: Config, th: Thresholds, weight: real, delay: real) {
    delay < c.minDwell || NeverBounces(c, th, weight)
  }

  /** However long the cycle takes. */
  predicate NeverBounces(c: Config, th: Thresholds, weight: real) {
    c.minInner == c.maxInner || th.cool < 0.0 || Separated(c, th, weight)
  }

  /** Temperatures and weights that servers can have. */
  ghost predicate Physical(r: Ring) {
    forall id :: id in r.servers ==> 0.0 <= r.servers[id].temperature <= 1.0 && r.servers[id].weight > 0.0
  }

  /** Weights of at least one, a heat threshold within [0, 1] and a cool threshold below both it and
      the 0.8 given to slow servers are separated. */
  lemma DefaultsAreSeparated(c: Config, th: Thresholds, weight: real)
    requires weight >= 1.0 && 0.0 <= th.heat <= 1.0 && th.cool < th.heat && th.cool < 0.8
    ensures Separated(c, th, weight)
  {
    var extra := weight - 1.0;
    HeavierIsHigher(th.heat, extra);
    assert th.heat * weight == th.heat + th.heat * extra;
  }

  lemma HeavierIsHigher(heat: real, extra: real)
    requires heat >= 0.0 && extra >= 0.0
    ensures heat * extra >= 0.0
  {
  }

  /** A server too hot, or too recently moved, to pass the gate of step 2 from reading `k` on. */
  ghost predicate Barred(c: Config, th: Thresholds, s: Server, clk: Clock, k: nat) {
    s.temperature > th.cool || forall j :: k <= j ==> Tick(clk, j) - s.lastRotated < c.minDwell
  }

  lemma {:induction false} BarredStayOut(c: Config, th: Thresholds, r: Ring, clk: Clock, k: nat,
                                         blocked: set<Id>, id: Id)
    requires Conserved(r) && id !in r.inner && Barred(c, th, At(r.servers, id), clk, k)
    ensures id !in Promote(c, th, r, clk, k, blocked).inner
    decreases |r.outer|
  {
    if MayPromote(c, th, r, clk, k, blocked) {
      assert r.outer[0] != id;
      PullCoolestKeeps(r, Tick(clk, k + 2));
      BarredStayOut(c, th, PullCoolest(r, Tick(clk, k + 2)), clk, k + 3, blocked, id);
    }
  }

  lemma JustEvicted(c: Config, r: Ring, id: Id, reason: Reason, now: real, done: real)
    requires now <= done
    ensures
      var s := At(MoveToOuter(c, r, id, reason, now, done).servers, id);
      && s.lastRotated >= now && s.temperature >= At(r.servers, id).temperature
      && (reason == AbsoluteLatency ==> s.temperature >= 0.8)
  {
  }

  /** After step 1 its victims are out of the inner ring, just moved, and as hot as their verdict. */
  lemma VictimsAreOut(c: Config, th: Thresholds, r: Ring, due: seq<Due>, clk: Clock, k: nat, removed: set<Id>, d: Due)
    requires Good(c, r, removed) && Distinct(DueIds(due)) && d in due && NeverRunsBack(clk)
    requires forall id :: id in DueIds(due) ==> id in r.inner
    ensures var t := EvictAll(c, r, due, clk, k);
      && d.id !in t.inner && d.id in r.servers
      && At(t.servers, d.id).lastRotated >= Tick(clk, k)
      && At(t.servers, d.id).temperature >= At(r.servers, d.id).temperature
      && (d.reason == AbsoluteLatency ==> At(t.servers, d.id).temperature >= 0.8)
    decreases |due|
  {
    var e := due[0];
    var r1 := MoveToOuter(c, r, e.id, e.reason, Tick(clk, k), Tick(clk, k + 1));
    MoveToOuterKeeps(c, r, e.id, e.reason, Tick(clk, k), Tick(clk, k + 1));
    MoveToOuterEffect(c, r, e.id, e.reason, Tick(clk, k), Tick(clk, k + 1));
    TailDistinct(e.id, DueIds(due[1..]));
    DueIdsMember(due, d);
    InnerIsKnown(r, d.id);
    if d == e {
      JustEvicted(c, r, e.id, e.reason, Tick(clk, k), Tick(clk, k + 1));
      UntouchedByEvictions(c, r1, due[1..], clk, k + 2, removed, e.id);
    } else {
      assert d in due[1..];
      VictimsAreOut(c, th, r1, due[1..], clk, k + 2, removed, d);
      DueIdsMember(due[1..], d);
    }
  }

  lemma InnerIsKnown(r: Ring, id: Id)
    requires Conserved(r) && id in r.inner
    ensures id in r.servers
  {
    assert Tally(r, id) == (if id in r.servers then 1 else 0);
    assert id in multiset(r.inner);
  }

  lemma DueIdsMember(due: seq<Due>, d: Due)
    requires d in due
    ensures d.id in DueIds(due)
  {}

  lemma UntouchedByEvictions(c: Config, r: Ring, due: seq<Due>, clk: Clock, k: nat, removed: set<Id>, id: Id)
    requires Good(c, r, removed) && Distinct(DueIds(due)) && id in r.servers && id !in r.inner
    requires forall x :: x in DueIds(due) ==> x in r.inner
    ensures id !in EvictAll(c, r, due, clk, k).inner
    ensures At(EvictAll(c, r, due, clk, k).servers, id) == At(r.servers, id)
    decreases |due|
  {
    if due != [] {
      var e := due[0];
      MoveToOuterKeeps(c, r, e.id, e.reason, Tick(clk, k), Tick(clk, k + 1));
      MoveToOuterEffect(c, r, e.id, e.reason, Tick(clk, k), Tick(clk, k + 1));
      TailDistinct(e.id, DueIds(due[1..]));
      UntouchedByEvictions(c, MoveToOuter(c, r, e.id, e.reason, Tick(clk, k), Tick(clk, k + 1)), due[1..],
                           clk, k + 2, removed, id);
    }
  }

  /** The cycle is over before any dwell time is. */
  ghost predicate Prompt(c: Config, clk: Clock) { forall k: nat :: Tick(clk, k) - Tick(clk, 1) < c.minDwell }

  /** No server evicted in step 1 is back after step 2, whatever the clock does, under any of these
      conditions, as long as no other thread changes temperatures meanwhile. */
  lemma {:induction false} NoBounce(c: Config, th: Thresholds, r: Ring, clk: Clock, blocked: set<Id>, removed: set<Id>)
    requires ValidConfig(c) && Good(c, r, removed) && Physical(r) && NeverRunsBack(clk)
    requires Prompt(c, clk) || forall id :: id in r.inner ==> NeverBounces(c, th, At(r.servers, id).weight)
    ensures !Bounces(c, th, r, clk, blocked)
  {
    var due := ToEvict(c, th, r, Tick(clk, 0));
    ToEvictIsDue(c, th, r, Tick(clk, 0));
    EvictAllKeeps(c, r, due, clk, 1, removed);
    var r1 := EvictAll(c, r, due, clk, 1);
    if c.minInner == c.maxInner {
      assert due == [];
    } else {
      forall d | d in due ensures d.id !in Promote(c, th, r1, clk, GateReading(r), blocked).inner {
        VictimsAreOut(c, th, r, due, clk, 1, removed, d);
        BarredStayOut(c, th, r1, clk, GateReading(r), blocked, d.id);
      }
    }
  }

  // ----- ... and this is exact -----

  function Iota(n: nat): (s: seq<Id>)
    ensures |s| == n && forall i :: 0 <= i < n ==> s[i] == i
  {
    if n == 0 then [] else Iota(n - 1) + [n - 1]
  }

  lemma BagAppend(s: seq<Id>, x: Id, y: Id)
    ensures multiset(s + [x])[y] == multiset(s)[y] + (if x == y then 1 else 0)
  {
  }

  lemma {:induction false} IotaBag(n: nat, x: Id)
    ensures multiset(Iota(n))[x] == if x < n then 1 else 0
  {
    if n > 0 {
      IotaBag(n - 1, x);
      BagAppend(Iota(n - 1), n - 1, x);
    }
  }

  function Fleet(n: nat, zero: Server, idle: Server): (m: map<Id, Server>)
    ensures forall i: Id :: i in m <==> i < n
    ensures forall i: Id :: i in m ==> m[i] == if i == 0 then zero else idle
  {
    if n == 0 then map[] else Fleet(n - 1, zero, idle)[n - 1 := if n == 1 then zero else idle]
  }

  /** A full-but-one ring of idle servers in which only server 0 is due. */
  ghost function Showcase(c: Config, zero: Server, idle: Server): Ring {
    Ring(Fleet(c.minInner + 1, zero, idle), Iota(c.minInner + 1), [], [], map[])
  }

  /** A cycle in which `delay` passes between its only eviction and its gates. */
  function Late(delay: real): Clock { [0.0, 0.0, 0.0, delay] }

  lemma LateIsClock(delay: real)
    requires 0.0 <= delay
    ensures NeverRunsBack(Late(delay)) && Takes(Late(delay), delay)
  {
  }

  /** One eviction, and step 2 brings the server back. */
  lemma OneBounces(c: Config, th: Thresholds, r: Ring, clk: Clock, d: Due)
    requires ToEvict(c, th, r, Tick(clk, 0)) == [d]
    requires
      var r1 := MoveToOuter(c, r, d.id, d.reason, Tick(clk, 1), Tick(clk, 2));
      d.id in Promote(c, th, r1, clk, GateReading(r), {}).inner
    ensures Bounces(c, th, r, clk, {})
  {
    var r1 := MoveToOuter(c, r, d.id, d.reason, Tick(clk, 1), Tick(clk, 2));
    assert EvictAll(c, r, [d], clk, 1) == r1 by { assert [d][1..] == []; }
    assert d in ToEvict(c, th, r, Tick(clk, 0));
  }

  lemma {:induction false} ShowcaseBounces(c: Config, th: Thresholds, zero: Server, idle: Server, delay: real)
    requires 1 <= c.minInner < c.maxInner && zero.metrics.connections <= 0 && 0.0 <= delay && c.minDwell <= delay
    requires zero.position == Inner && idle.position == Inner && zero.coldUntil <= 0.0
    requires Verdict(c, th, zero, 0.0).Some? && zero.temperature <= th.cool
    requires Verdict(c, th, zero, 0.0) == Some(AbsoluteLatency) ==> 0.8 <= th.cool
    ensures Good(c, Showcase(c, zero, idle), {}) && Bounces(c, th, Showcase(c, zero, idle), Late(delay), {})
  {
    var r, clk, reason := Showcase(c, zero, idle), Late(delay), Verdict(c, th, zero, 0.0).value;
    ShowcaseIsGood(c, zero, idle);
    ShowcaseIsDue(c, th, zero, idle, Due(0, reason));
    ShowcaseEvicted(c, th, zero, idle, reason);
    ComesBack(c, th, MoveToOuter(c, r, 0, reason, 0.0, 0.0), clk, GateReading(r));
    OneBounces(c, th, r, clk, Due(0, reason));
  }

  lemma {:induction false} ShowcaseIsDue(c: Config, th: Thresholds, zero: Server, idle: Server, d: Due)
    requires 1 <= c.minInner < c.maxInner && d.id == 0 && Verdict(c, th, zero, 0.0) == Some(d.reason)
    ensures ToEvict(c, th, Showcase(c, zero, idle), 0.0) == [d]
  {
    var r := Showcase(c, zero, idle);
    assert Candidates(c, th, r.servers, r.inner, 0.0)[0] == d;
  }

  lemma {:induction false} ShowcaseEvicted(c: Config, th: Thresholds, zero: Server, idle: Server, reason: Reason)
    requires 1 <= c.minInner < c.maxInner && zero.metrics.connections <= 0 && zero.position == Inner
    requires idle.position == Inner && zero.coldUntil <= 0.0 && zero.temperature <= th.cool
    requires reason == AbsoluteLatency ==> 0.8 <= th.cool
    ensures
      var r1 := MoveToOuter(c, Showcase(c, zero, idle), 0, reason, 0.0, 0.0);
      var s := At(r1.servers, 0);
      && r1.outer == [0] && |r1.inner| == c.minInner
      && s.coldUntil <= 0.0 && s.lastRotated == 0.0 && s.temperature <= th.cool
  {
    var r := Showcase(c, zero, idle);
    ShowcaseIsGood(c, zero, idle);
    assert r.inner[0] == 0;
    MoveToOuterEffect(c, r, 0, reason, 0.0, 0.0);
  }

  lemma ComesBack(c: Config, th: Thresholds, r: Ring, clk: Clock, k: nat)
    requires r.outer == [0] && |r.inner| < c.maxInner && c.minDwell <= Tick(clk, k) && 0.0 <= Tick(clk, k + 1)
    requires var s := At(r.servers, 0); s.coldUntil <= 0.0 && s.lastRotated == 0.0 && s.temperature <= th.cool
    ensures 0 in Promote(c, th, r, clk, k, {}).inner
  {
    assert MayPromote(c, th, r, clk, k, {});
    var r2 := PullCoolest(r, Tick(clk, k + 2));
    assert r2.outer == [] && Promote(c, th, r2, clk, k + 3, {}) == r2;
  }

  lemma ShowcaseIsGood(c: Config, zero: Server, idle: Server)
    requires c.minInner < c.maxInner && zero.position == Inner && idle.position == Inner
    ensures Good(c, Showcase(c, zero, idle), {})
  {
    var r := Showcase(c, zero, idle);
    forall id ensures Tally(r, id) == (if id in r.servers then 1 else 0) && Placed(r, id) {
      IotaBag(c.minInner + 1, id);
    }
  }

  ghost predicate AllWeigh(r: Ring, weight: real) {
    forall id :: id in r.inner ==> At(r.servers, id).weight == weight
  }

  lemma HotIsPositive(heat: real, weight: real)
    requires heat > 0.0 && weight > 0.0
    ensures 0.0 < EffectiveHeat(heat, weight) <= 1.0
  {
  }

  lemma ShowcaseWeighs(c: Config, zero: Server, idle: Server, weight: real)
    requires 0.0 <= zero.temperature <= 1.0 && 0.0 <= idle.temperature <= 1.0
    requires zero.weight == idle.weight == weight > 0.0
    ensures Physical(Showcase(c, zero, idle)) && AllWeigh(Showcase(c, zero, idle), weight)
  {
  }

  /** What server 0 of a ring that bounces looks like: as hot as allowed, or cool enough and slow. */
  function Bouncer(c: Config, th: Thresholds, idle: Server): Server {
    var hot := EffectiveHeat(th.heat, idle.weight);
    if hot <= th.cool || c.floor.None? then idle.(temperature := hot)
    else idle.(temperature := th.cool, metrics := Metrics(true, 0.0, Above(c.floor.value), 0))
  }

  lemma BouncerIsDue(c: Config, th: Thresholds, idle: Server)
    requires 0.0 <= th.cool < th.heat && idle.weight > 0.0 && idle.lastRotated == -c.cooldown
    requires idle.temperature == 0.0 && idle.metrics == Metrics(true, 0.0, 0.0, 0)
    requires !Separated(c, th, idle.weight)
    ensures
      var zero := Bouncer(c, th, idle);
      && Verdict(c, th, zero, 0.0).Some? && 0.0 <= zero.temperature <= 1.0 && zero.temperature <= th.cool
      && (Verdict(c, th, zero, 0.0) == Some(AbsoluteLatency) ==> 0.8 <= th.cool)
  {
    HotIsPositive(th.heat, idle.weight);
  }

  /** A ring of servers of this weight that a cycle of that length bounces, if the settings allow one. */
  lemma BouncingRing(c: Config, th: Thresholds, weight: real, delay: real) returns (r: Ring)
    requires ValidConfig(c) && th.cool < th.heat && weight > 0.0
    requires 0.0 <= delay && !BounceFree(c, th, weight, delay)
    ensures Good(c, r, {}) && Physical(r) && AllWeigh(r, weight)
    ensures NeverRunsBack(Late(delay)) && Takes(Late(delay), delay) && Bounces(c, th, r, Late(delay), {})
  {
    var idle := Server(weight, 0.0, Inner, -c.cooldown, 0.0, Metrics(true, 0.0, 0.0, 0));
    var zero := Bouncer(c, th, idle);
    BouncerIsDue(c, th, idle);
    ShowcaseBounces(c, th, zero, idle, delay);
    ShowcaseWeighs(c, zero, idle, weight);
    LateIsClock(delay);
    r := Showcase(c, zero, idle);
  }

  /** For rings whose servers all have this weight: no cycle of at most that length ever bounces a
      server if and only if the settings are bounce-free. The constructor checks `cool < heat` only,
      which for a weight below one does not separate the thresholds. */
  lemma {:induction false} NoBounceExact(c: Config, th: Thresholds, weight: real, delay: real)
    requires ValidConfig(c) && th.cool < th.heat && weight > 0.0 && 0.0 <= delay
    ensures BounceFree(c, th, weight, delay) <==>
      (forall r, clk, blocked, removed ::
         Good(c, r, removed) && Physical(r) && AllWeigh(r, weight) && NeverRunsBack(clk) && Takes(clk, delay)
         ==> !Bounces(c, th, r, clk, blocked))
  {
    if BounceFree(c, th, weight, delay) {
      forall r, clk, blocked, removed |
        Good(c, r, removed) && Physical(r) && AllWeigh(r, weight) && NeverRunsBack(clk) && Takes(clk, delay)
        ensures !Bounces(c, th, r, clk, blocked)
      {
        NoBounce(c, th, r, clk, blocked, removed);
      }
    } else {
      var r := BouncingRing(c, th, weight, delay);
    }
  }

  /** However long the callbacks between eviction and gate take, as long as temperatures stand still
      meanwhile: a dwell time alone prevents nothing. */
  lemma {:induction false} NoBounceWhateverItTakes(c: Config, th: Thresholds, weight: real)
    requires ValidConfig(c) && th.cool < th.heat && weight > 0.0
    ensures NeverBounces(c, th, weight) <==>
      (forall r, clk, blocked, removed ::
         Good(c, r, removed) && Physical(r) && AllWeigh(r, weight) && NeverRunsBack(clk)
         ==> !Bounces(c, th, r, clk, blocked))
  {
    if NeverBounces(c, th, weight) {
      forall r, clk, blocked, removed |
        Good(c, r, removed) && Physical(r) && AllWeigh(r, weight) && NeverRunsBack(clk)
        ensures !Bounces(c, th, r, clk, blocked)
      {
        NoBounce(c, th, r, clk, blocked, removed);
      }
    } else {
      var r := BouncingRing(c, th, weight, if c.minDwell > 0.0 then c.minDwell else 0.0);
    }
  }

  function Above(x: real): real { if x > 0.0 then x + 1.0 else 1.0 }

  /** With the default thresholds a server of weight 0.5 overheats at 0.275, which is still cool: only
      the dwell time keeps it out, for as long as the cycle is shorter. */
  lemma HalfWeightNeedsDwell(delay: real)
    requires 0.0 <= delay
    ensures BounceFree(Config(1, 2, 5.0, 10.0, None, 0.0, 0.5, 0.0), Thresholds(0.55, 0.30), 0.5, delay)
       <==> delay < 10.0
  {}

  /** Two such servers under a dwell time of ten seconds, and callbacks that take fifteen: one bounces. */
  lemma LateGateBounces() returns (r: Ring)
    ensures
      var c, th := Config(1, 2, 5.0, 10.0, None, 0.0, 0.5, 0.0), Thresholds(0.55, 0.30);
      Good(c, r, {}) && Physical(r) && |r.inner| == 2 && AllWeigh(r, 0.5) && Bounces(c, th, r, Late(15.0), {})
  {
    var c, th := Config(1, 2, 5.0, 10.0, None, 0.0, 0.5, 0.0), Thresholds(0.55, 0.30);
    var idle := Server(0.5, 0.1, Inner, -5.0, 0.0, Metrics(true, 0.0, 0.0, 0));
    ShowcaseBounces(c, th, idle.(temperature := 0.28), idle, 15.0);
    r := Showcase(c, idle.(temperature := 0.28), idle);
  }
}
