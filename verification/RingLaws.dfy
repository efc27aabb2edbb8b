/** Conservation of servers, ring bounds and session bindings, over every run of operations. */
module RingLaws {
  import opened Options
  import opened Rings

  /** In how many places is `id`? */
  ghost function Tally(r: Ring, id: Id): nat {
    multiset(r.inner)[id] + multiset(DrainIds(r.draining))[id] + multiset(r.outer)[id]
  }

  /** Its position, if it is registered, is the place it is in. */
  ghost predicate Placed(r: Ring, id: Id) {
    id in r.servers ==>
      && (id in multiset(r.inner) ==> r.servers[id].position == Inner)
      && (id in multiset(DrainIds(r.draining)) ==> r.servers[id].position == Draining)
      && (id in multiset(r.outer) ==> r.servers[id].position == Outer)
  }

  /** Each registered server is in exactly one place, once, its `position` says which, and nothing
      else is anywhere. */
  ghost predicate Conserved(r: Ring) {
    forall id :: Tally(r, id) == (if id in r.servers then 1 else 0) && Placed(r, id)
  }

  // ----- Lists -----

  lemma WithoutBag(s: seq<Id>, x: Id)
    ensures multiset(Without(s, x)) == multiset(s) - multiset{x}
  {
    if s != [] {
      assert s == [s[0]] + s[1..];
      if s[0] != x { WithoutBag(s[1..], x); }
    }
  }

  lemma WithoutMembers(s: seq<Id>, x: Id)
    ensures |Without(s, x)| == if x in s then |s| - 1 else |s|
    ensures forall y :: y in Without(s, x) ==> y in s
    ensures forall y :: y in s && y != x ==> y in Without(s, x)
  {}

  lemma DrainIdsAppend(d: seq<Drain>, x: Drain)
    ensures DrainIds(d + [x]) == DrainIds(d) + [x.id]
  {
    if d != [] {
      assert (d + [x])[1..] == d[1..] + [x];
      DrainIdsAppend(d[1..], x);
    }
  }

  lemma WithoutDrainIds(d: seq<Drain>, x: Id)
    ensures DrainIds(WithoutDrain(d, x)) == Without(DrainIds(d), x)
  {
    if d != [] && d[0].id != x {
      WithoutDrainIds(d[1..], x);
      assert ([d[0]] + WithoutDrain(d[1..], x))[1..] == WithoutDrain(d[1..], x);
    }
  }

  // ----- One operation at a time -----

  /** Between `r` and `t` nothing but `id` moves. */
  ghost predicate OthersStay(r: Ring, t: Ring, id: Id) {
    forall x :: x != id ==>
      && multiset(t.inner)[x] == multiset(r.inner)[x]
      && multiset(DrainIds(t.draining))[x] == multiset(DrainIds(r.draining))[x]
      && multiset(t.outer)[x] == multiset(r.outer)[x]
      && (x in t.servers <==> x in r.servers)
      && (x in t.servers ==> t.servers[x].position == r.servers[x].position)
  }

  lemma Relocate(r: Ring, t: Ring, id: Id)
    requires Conserved(r) && OthersStay(r, t, id)
    requires Tally(t, id) == (if id in t.servers then 1 else 0) && Placed(t, id)
    ensures Conserved(t)
  {
    forall x ensures Tally(t, x) == (if x in t.servers then 1 else 0) && Placed(t, x) {
      if x != id { assert Tally(r, x) == (if x in r.servers then 1 else 0) && Placed(r, x); }
    }
  }

  /** One copy of `x` leaves a bag that has it. */
  ghost predicate Leaves(before: multiset<Id>, after: multiset<Id>, x: Id) {
    before[x] == after[x] + 1 && forall y :: y != x ==> after[y] == before[y]
  }

  lemma LeavesBag(before: multiset<Id>, after: multiset<Id>, x: Id)
    requires x in before && after == before - multiset{x}
    ensures Leaves(before, after, x)
  {
  }

  lemma EntersBag(before: multiset<Id>, after: multiset<Id>, x: Id)
    requires after == before + multiset{x}
    ensures Leaves(after, before, x)
  {
  }

  /** A registered server moves from one of the three places to another. */
  lemma MovesKeep(r: Ring, t: Ring, id: Id)
    requires Conserved(r) && id in r.servers && id in t.servers
    requires forall x :: x != id ==> (x in t.servers <==> x in r.servers)
    requires forall x :: x in r.servers && x != id ==> t.servers[x].position == r.servers[x].position
    requires
      var (i, d, o) := (multiset(r.inner), multiset(DrainIds(r.draining)), multiset(r.outer));
      var (i', d', o') := (multiset(t.inner), multiset(DrainIds(t.draining)), multiset(t.outer));
      || (Leaves(i, i', id) && Leaves(o', o, id) && d' == d && t.servers[id].position == Outer)
      || (Leaves(i, i', id) && Leaves(d', d, id) && o' == o && t.servers[id].position == Draining)
      || (Leaves(d, d', id) && Leaves(o', o, id) && i' == i && t.servers[id].position == Outer)
      || (Leaves(o, o', id) && Leaves(i', i, id) && d' == d && t.servers[id].position == Inner)
    ensures Conserved(t)
  {
    assert Tally(r, id) == 1;
    Relocate(r, t, id);
  }

  lemma MoveToOuterShape(c: Config, r: Ring, id: Id, reason: Reason, now: real, done: real)
    ensures
      var t := MoveToOuter(c, r, id, reason, now, done);
      && t.inner == Without(r.inner, id)
      && t.servers.Keys == r.servers.Keys + {id}
      && (forall x :: x in r.servers && x != id ==> t.servers[x] == r.servers[x])
      && (if t.servers[id].position == Draining
          then t.outer == r.outer && t.draining == r.draining + [Drain(id, now, reason)]
          else t.servers[id].position == Outer && t.draining == r.draining
               && multiset(t.outer) == multiset(r.outer) + multiset{id})
  {
  }

  /** The bags of an eviction. */
  lemma EvictedKeep(r: Ring, t: Ring, id: Id, e: Drain)
    requires Conserved(r) && id in r.inner && e.id == id && t.inner == Without(r.inner, id)
    requires t.servers.Keys == r.servers.Keys + {id}
    requires forall x :: x in r.servers && x != id ==> t.servers[x] == r.servers[x]
    requires (t.servers[id].position == Draining && t.outer == r.outer && t.draining == r.draining + [e])
          || (t.servers[id].position == Outer && t.draining == r.draining
              && multiset(t.outer) == multiset(r.outer) + multiset{id})
    ensures Conserved(t)
  {
    assert Tally(r, id) == (if id in r.servers then 1 else 0) && id in multiset(r.inner);
    WithoutBag(r.inner, id);
    LeavesBag(multiset(r.inner), multiset(t.inner), id);
    if t.servers[id].position == Draining {
      DrainIdsAppend(r.draining, e);
      EntersBag(multiset(DrainIds(r.draining)), multiset(DrainIds(t.draining)), id);
    } else {
      EntersBag(multiset(r.outer), multiset(t.outer), id);
    }
    MovesKeep(r, t, id);
  }

  lemma MoveToOuterKeeps(c: Config, r: Ring, id: Id, reason: Reason, now: real, done: real)
    requires Conserved(r) && id in r.inner
    ensures Conserved(MoveToOuter(c, r, id, reason, now, done))
  {
    MoveToOuterShape(c, r, id, reason, now, done);
    EvictedKeep(r, MoveToOuter(c, r, id, reason, now, done), id, Drain(id, now, reason));
  }

  /** One completed drain. */
  function FinishDrain(r: Ring, id: Id, now: real): Ring {
    CompleteEviction(r.(draining := WithoutDrain(r.draining, id)), id, now)
  }

  lemma {:induction false} FinishDrainKeeps(r: Ring, id: Id, now: real)
    requires Conserved(r) && id in DrainIds(r.draining)
    ensures Conserved(FinishDrain(r, id, now))
  {
    var t := FinishDrain(r, id, now);
    assert Tally(r, id) == (if id in r.servers then 1 else 0) && id in multiset(DrainIds(r.draining));
    FinishDrainBags(r, id, now);
    LeavesBag(multiset(DrainIds(r.draining)), multiset(DrainIds(t.draining)), id);
    EntersBag(multiset(r.outer), multiset(t.outer), id);
    MovesKeep(r, t, id);
  }

  lemma FinishDrainBags(r: Ring, id: Id, now: real)
    ensures var t := FinishDrain(r, id, now);
      && t.inner == r.inner && DrainIds(t.draining) == Without(DrainIds(r.draining), id)
      && multiset(DrainIds(t.draining)) == multiset(DrainIds(r.draining)) - multiset{id}
      && multiset(t.outer) == multiset(r.outer) + multiset{id}
      && t.servers == r.servers[id := At(r.servers, id).(position := Outer, lastRotated := now)]
  {
    WithoutDrainIds(r.draining, id);
    WithoutBag(DrainIds(r.draining), id);
  }

  lemma PullCoolestKeeps(r: Ring, now: real)
    requires Conserved(r) && r.outer != []
    ensures Conserved(PullCoolest(r, now))
  {
    var id := r.outer[0];
    var t := PullCoolest(r, now);
    assert Tally(r, id) == (if id in r.servers then 1 else 0) && id in multiset(r.outer);
    PullCoolestBags(r, now);
    LeavesBag(multiset(r.outer), multiset(t.outer), id);
    EntersBag(multiset(r.inner), multiset(t.inner), id);
    MovesKeep(r, t, id);
  }

  lemma PullCoolestBags(r: Ring, now: real)
    requires r.outer != []
    ensures multiset(PullCoolest(r, now).outer) == multiset(r.outer) - multiset{r.outer[0]}
    ensures multiset(PullCoolest(r, now).inner) == multiset(r.inner) + multiset{r.outer[0]}
  {
  }

  // ----- What one move does to the inner ring and to session bindings -----

  lemma MoveToOuterEffect(c: Config, r: Ring, id: Id, reason: Reason, now: real, done: real)
    requires Conserved(r) && id in r.inner
    ensures var t := MoveToOuter(c, r, id, reason, now, done);
      && |t.inner| == |r.inner| - 1
      && (forall x :: x in t.inner <==> x in r.inner && x != id)
      && (forall x :: x in r.servers && x != id ==> x in t.servers && t.servers[x] == r.servers[x])
      && t.affinity == Unbind(r.affinity, id)
  {
    WithoutMembers(r.inner, id);
    WithoutBag(r.inner, id);
    assert Tally(r, id) <= 1 && multiset(r.inner)[id] <= 1;
    assert id !in multiset(Without(r.inner, id));
  }

  /** Every binding names a server that is inner now, or one that was removed at some time. */
  ghost predicate BindingsOk(r: Ring, removed: set<Id>) {
    forall k :: k in r.affinity ==> r.affinity[k] in r.inner || r.affinity[k] in removed
  }

  // ----- The composite operations -----

  /** The ids a fold of moves still has to visit are all inner, once each. */
  ghost predicate Distinct(ids: seq<Id>) {
    forall i, j :: 0 <= i < j < |ids| ==> ids[i] != ids[j]
  }

  function DueIds(due: seq<Due>): seq<Id> { if due == [] then [] else [due[0].id] + DueIds(due[1..]) }

  lemma InnerDistinct(r: Ring)
    requires Conserved(r)
    ensures Distinct(r.inner)
  {
    forall i, j | 0 <= i < j < |r.inner| ensures r.inner[i] != r.inner[j] {
      var a, b := r.inner[..j], r.inner[j..];
      assert r.inner == a + b && a[i] == r.inner[i] && b[0] == r.inner[j];
      assert a[i] in multiset(a) && b[0] in multiset(b);
      assert Tally(r, r.inner[j]) <= 1;
    }
  }

  /** Everything a step of `rotate` keeps: conservation, the bindings, and the inner bound. */
  ghost predicate Good(c: Config, r: Ring, removed: set<Id>) {
    Conserved(r) && BindingsOk(r, removed) && |r.inner| <= c.maxInner
  }

  lemma {:induction false} EvictAllKeeps(c: Config, r: Ring, due: seq<Due>, clk: Clock, k: nat, removed: set<Id>)
    requires Good(c, r, removed) && Distinct(DueIds(due))
    requires forall id :: id in DueIds(due) ==> id in r.inner
    ensures var t := EvictAll(c, r, due, clk, k);
      Good(c, t, removed) && |t.inner| == |r.inner| - |due| && forall x :: x in t.inner ==> x in r.inner
    decreases |due|
  {
    if due != [] {
      var id := due[0].id;
      var r1 := MoveToOuter(c, r, id, due[0].reason, Tick(clk, k), Tick(clk, k + 1));
      MoveToOuterKeeps(c, r, id, due[0].reason, Tick(clk, k), Tick(clk, k + 1));
      MoveToOuterEffect(c, r, id, due[0].reason, Tick(clk, k), Tick(clk, k + 1));
      assert DueIds(due) == [id] + DueIds(due[1..]);
      TailDistinct(id, DueIds(due[1..]));
      EvictAllKeeps(c, r1, due[1..], clk, k + 2, removed);
    }
  }

  lemma TailDistinct(id: Id, ids: seq<Id>)
    requires Distinct([id] + ids)
    ensures Distinct(ids) && id !in ids
  {
    var s := [id] + ids;
    forall i | 0 <= i < |ids| ensures ids[i] != id {
      assert s[0] != s[i + 1];
    }
    forall i, j | 0 <= i < j < |ids| ensures ids[i] != ids[j] {
      assert s[i + 1] != s[j + 1];
    }
  }

  lemma CandidatesAreInner(c: Config, th: Thresholds, servers: map<Id, Server>, ids: seq<Id>, now: real)
    requires Distinct(ids)
    ensures var due := Candidates(c, th, servers, ids, now);
      && |due| <= |ids| && Distinct(DueIds(due))
      && (forall id :: id in DueIds(due) ==> id in ids)
      && (forall d :: d in due ==> d.id in ids && Verdict(c, th, At(servers, d.id), now) == Some(d.reason))
  {
    if ids != [] {
      assert ids == [ids[0]] + ids[1..];
      TailDistinct(ids[0], ids[1..]);
      CandidatesAreInner(c, th, servers, ids[1..], now);
    }
  }

  lemma DueIdsPrefix(due: seq<Due>, n: nat)
    requires n <= |due|
    ensures |DueIds(due)| == |due| && DueIds(due[..n]) == DueIds(due)[..n]
  {
    if n > 0 {
      assert due[..n][1..] == due[1..][..n - 1];
      DueIdsPrefix(due[1..], n - 1);
    } else if due != [] {
      DueIdsPrefix(due[1..], 0);
    }
  }

  /** Step 1 evicts distinct inner servers that are due, at most max(1, |inner| / 3) of them, and
      never below `min_inner_size`. */
  lemma ToEvictIsDue(c: Config, th: Thresholds, r: Ring, now: real)
    requires Conserved(r)
    ensures var due := ToEvict(c, th, r, now);
      && |due| <= Max(1, |r.inner| / 3) && (due != [] ==> |r.inner| - |due| >= c.minInner)
      && Distinct(DueIds(due)) && (forall id :: id in DueIds(due) ==> id in r.inner)
      && (forall d :: d in due ==> d.id in r.inner && Verdict(c, th, At(r.servers, d.id), now) == Some(d.reason))
  {
    InnerDistinct(r);
    CandidatesAreInner(c, th, r.servers, r.inner, now);
    var all := Candidates(c, th, r.servers, r.inner, now);
    DueIdsPrefix(all, Min(|all|, EvictionCap(c, |r.inner|)));
  }

  lemma {:induction false} PromoteKeeps(c: Config, th: Thresholds, r: Ring, clk: Clock, k: nat,
                                        blocked: set<Id>, removed: set<Id>)
    requires Good(c, r, removed)
    ensures var t := Promote(c, th, r, clk, k, blocked);
      Good(c, t, removed) && |t.inner| >= |r.inner| && r.inner <= t.inner
    decreases |r.outer|
  {
    if MayPromote(c, th, r, clk, k, blocked) {
      PullCoolestKeeps(r, Tick(clk, k + 2));
      PromoteKeeps(c, th, PullCoolest(r, Tick(clk, k + 2)), clk, k + 3, blocked, removed);
    }
  }

  lemma EvictSickKeeps(c: Config, r: Ring, ids: seq<Id>, clk: Clock, k: nat, removed: set<Id>)
    requires Good(c, r, removed) && Distinct(ids)
    requires forall id :: id in ids ==> id in r.inner
    requires forall id :: id in r.inner && id !in ids ==> !Sick(c, At(r.servers, id))
    ensures var t := EvictSick(c, r, ids, clk, k);
      && Good(c, t, removed)
      && |t.inner| >= Min(|r.inner|, c.minInner)
      && (|t.inner| <= c.minInner || forall id :: id in t.inner ==> !Sick(c, At(t.servers, id)))
    decreases |ids|
  {
    if ids != [] && |r.inner| > c.minInner {
      assert ids == [ids[0]] + ids[1..];
      TailDistinct(ids[0], ids[1..]);
      if Sick(c, At(r.servers, ids[0])) {
        MoveToOuterKeeps(c, r, ids[0], HealthFail, Tick(clk, k), Tick(clk, k + 1));
        MoveToOuterEffect(c, r, ids[0], HealthFail, Tick(clk, k), Tick(clk, k + 1));
        var r1 := MoveToOuter(c, r, ids[0], HealthFail, Tick(clk, k), Tick(clk, k + 1));
        forall id | id in r1.inner && id !in ids[1..] ensures !Sick(c, At(r1.servers, id)) {
          assert id in multiset(r.inner) && Tally(r, id) == (if id in r.servers then 1 else 0);
        }
        EvictSickKeeps(c, r1, ids[1..], clk, k + 2, removed);
      } else {
        EvictSickKeeps(c, r, ids[1..], clk, k, removed);
      }
    }
  }

  /** One cycle: every server stays in exactly one place, the inner ring stays within its bounds,
      and on exit it is at its minimum size or holds no server that is unhealthy or tripped. */
  lemma {:induction false} RotateKeeps(c: Config, th: Thresholds, r: Ring, clk: Clock, blocked: set<Id>,
                                       removed: set<Id>)
    requires ValidConfig(c) && Good(c, r, removed)
    ensures var t := Rotate(c, th, r, clk, blocked);
      && Good(c, t, removed)
      && |t.inner| >= Min(|r.inner|, c.minInner)
      && (|t.inner| <= c.minInner || forall id :: id in t.inner ==> !Sick(c, At(t.servers, id)))
  {
    ToEvictIsDue(c, th, r, Tick(clk, 0));
    EvictAllKeeps(c, r, ToEvict(c, th, r, Tick(clk, 0)), clk, 1, removed);
    var r1 := EvictAll(c, r, ToEvict(c, th, r, Tick(clk, 0)), clk, 1);
    PromoteKeeps(c, th, r1, clk, GateReading(r), blocked, removed);
    var r2 := Promote(c, th, r1, clk, GateReading(r), blocked);
    InnerDistinct(r2);
    EvictSickKeeps(c, r2, r2.inner, clk, SickReading(r, r1), removed);
  }

  lemma AddKeeps(c: Config, r: Ring, id: Id, s: Server, forceInner: bool, now: real, removed: set<Id>)
    requires Good(c, r, removed) && id !in r.servers
    ensures Good(c, Add(c, r, id, s, forceInner, now), removed)
  {
    var t := Add(c, r, id, s, forceInner, now);
    if c.coldStart <= 0.0 && forceInner && |r.inner| < c.maxInner {
      Appear(r, t, id);
    } else {
      assert t.inner == r.inner && multiset(t.outer) == multiset(r.outer) + multiset{id};
      Appear(r, t, id);
    }
  }

  lemma Appear(r: Ring, t: Ring, id: Id)
    requires Conserved(r) && id !in r.servers && t.servers.Keys == r.servers.Keys + {id}
    requires forall x :: x in r.servers ==> t.servers[x] == r.servers[x]
    requires t.draining == r.draining
    requires (t.servers[id].position == Inner && t.inner == r.inner + [id] && t.outer == r.outer)
          || (t.servers[id].position == Outer && t.inner == r.inner
             && multiset(t.outer) == multiset(r.outer) + multiset{id})
    ensures Conserved(t)
  {
    assert Tally(r, id) == (if id in r.servers then 1 else 0);
    Relocate(r, t, id);
  }

  lemma {:induction false} MaybePullKeeps(c: Config, r: Ring, clk: Clock, k: nat, removed: set<Id>)
    requires ValidConfig(c) && Good(c, r, removed)
    ensures var t := MaybePull(c, r, clk, k);
      Good(c, t, removed) && t.servers.Keys == r.servers.Keys && (|t.inner| >= c.minInner || t.outer == [])
    decreases |r.outer|
  {
    if r.outer != [] && |r.inner| < c.minInner {
      assert Tally(r, r.outer[0]) == (if r.outer[0] in r.servers then 1 else 0) && r.outer[0] in multiset(r.outer);
      PullCoolestKeeps(r, Tick(clk, k));
      MaybePullKeeps(c, PullCoolest(r, Tick(clk, k)), clk, k + 1, removed);
    }
  }

  /** Removing a server forgets it entirely; from the inner ring, coolest servers replace it up to
      `min_inner_size`. A draining server is not found, and stays. */
  lemma {:induction false} RemoveKeeps(c: Config, r: Ring, id: Id, clk: Clock, removed: set<Id>)
    requires ValidConfig(c) && Good(c, r, removed)
    ensures var t := Remove(c, r, id, clk);
      && Good(c, t, if id in r.inner || id in r.outer then removed + {id} else removed)
      && t.servers.Keys == (if id in r.inner || id in r.outer then r.servers.Keys - {id} else r.servers.Keys)
      && (id in r.inner ==> |t.inner| >= c.minInner || t.outer == [])
  {
    if id in r.inner {
      ForgetInner(c, r, id, removed);
      MaybePullKeeps(c, r.(inner := Without(r.inner, id), servers := r.servers - {id}), clk, 0, removed + {id});
    } else if id in r.outer {
      ForgetOuter(c, r, Remove(c, r, id, clk), id, removed);
    }
  }

  lemma ForgetInner(c: Config, r: Ring, id: Id, removed: set<Id>)
    requires Good(c, r, removed) && id in r.inner
    ensures Good(c, r.(inner := Without(r.inner, id), servers := r.servers - {id}), removed + {id})
  {
    assert Tally(r, id) == (if id in r.servers then 1 else 0) && id in multiset(r.inner);
    WithoutBag(r.inner, id);
    WithoutMembers(r.inner, id);
    Relocate(r, r.(inner := Without(r.inner, id), servers := r.servers - {id}), id);
  }

  lemma ForgetOuter(c: Config, r: Ring, t: Ring, id: Id, removed: set<Id>)
    requires Good(c, r, removed) && id in r.outer && t.inner == r.inner && t.draining == r.draining
    requires t.affinity == r.affinity && t.servers == r.servers - {id}
    requires multiset(t.outer) == multiset(Without(r.outer, id))
    ensures Good(c, t, removed + {id})
  {
    assert Tally(r, id) == (if id in r.servers then 1 else 0) && id in multiset(r.outer);
    WithoutBag(r.outer, id);
    Relocate(r, t, id);
  }

  lemma ForceEvictKeeps(c: Config, r: Ring, id: Id, clk: Clock, removed: set<Id>)
    requires Good(c, r, removed)
    ensures Good(c, ForceEvict(c, r, id, clk), removed)
  {
    if id in r.inner {
      MoveToOuterKeeps(c, r, id, Manual, Tick(clk, 0), Tick(clk, 1));
      MoveToOuterEffect(c, r, id, Manual, Tick(clk, 0), Tick(clk, 1));
    }
  }

  lemma CompletedBag(c: Config, servers: map<Id, Server>, ds: seq<Drain>, now: real)
    ensures multiset(Completed(c, servers, ds, now)) <= multiset(DrainIds(ds))
  {
    if ds != [] {
      CompletedBag(c, servers, ds[1..], now);
    }
  }

  lemma {:induction false} FinishDrainsKeeps(c: Config, r: Ring, ids: seq<Id>, clk: Clock, k: nat, removed: set<Id>)
    requires Good(c, r, removed) && multiset(ids) <= multiset(DrainIds(r.draining))
    ensures Good(c, FinishDrains(r, ids, clk, k), removed)
    decreases |ids|
  {
    if ids != [] {
      assert ids == [ids[0]] + ids[1..];
      assert ids[0] in multiset(ids) && ids[0] in multiset(DrainIds(r.draining));
      FinishDrainKeeps(r, ids[0], Tick(clk, k));
      FinishDrainBags(r, ids[0], Tick(clk, k));
      FinishDrainsKeeps(c, FinishDrain(r, ids[0], Tick(clk, k)), ids[1..], clk, k + 1, removed);
    }
  }

  lemma TurnBag(s: seq<Id>)
    ensures multiset(Turn(s)) == multiset(s) && |Turn(s)| == |s|
    ensures forall x :: x in Turn(s) <==> x in s
  {
    if s != [] {
      assert s == [s[0]] + s[1..];
    }
  }

  lemma ScanBag(s: seq<Id>, excluded: set<Id>, n: nat)
    requires s != []
    ensures var t := Scan(s, excluded, n).0;
      multiset(t) == multiset(s) && |t| == |s| && forall x :: x in t <==> x in s
    decreases n
  {
    TurnBag(s);
    if n > 0 && s[0] in excluded { ScanBag(Turn(s), excluded, n - 1); }
  }

  /** Reordering the inner ring moves no server. */
  lemma ReorderKeeps(c: Config, r: Ring, t: Ring, removed: set<Id>)
    requires Good(c, r, removed)
    requires t == r.(inner := t.inner, affinity := t.affinity)
    requires multiset(t.inner) == multiset(r.inner) && |t.inner| == |r.inner| && BindingsOk(t, removed)
    ensures Good(c, t, removed)
  {
    forall x ensures Tally(t, x) == (if x in t.servers then 1 else 0) && Placed(t, x) {
      assert Tally(r, x) == (if x in r.servers then 1 else 0) && Placed(r, x);
    }
  }

  lemma CheckDrainingKeeps(c: Config, r: Ring, clk: Clock, removed: set<Id>)
    requires Good(c, r, removed)
    ensures Good(c, CheckDraining(c, r, clk), removed)
  {
    CompletedBag(c, r.servers, r.draining, Tick(clk, 0));
    FinishDrainsKeeps(c, r, Completed(c, r.servers, r.draining, Tick(clk, 0)), clk, 1, removed);
  }

  lemma RoutingKeeps(c: Config, r: Ring, key: Option<SessionKey>, removed: set<Id>)
    requires Good(c, r, removed)
    ensures Good(c, GetServer(r, key).0, removed)
  {
    TurnBag(r.inner);
    ReorderKeeps(c, r, GetServer(r, key).0, removed);
  }

  lemma ExcludingKeeps(c: Config, r: Ring, excluded: set<Id>, removed: set<Id>)
    requires Good(c, r, removed)
    ensures Good(c, GetExcluding(r, excluded).0, removed)
  {
    if r.inner != [] {
      ScanBag(r.inner, excluded, |r.inner|);
    }
    ReorderKeeps(c, r, GetExcluding(r, excluded).0, removed);
  }

  lemma ObserveKeeps(c: Config, r: Ring, id: Id, weight: real, temperature: real, m: Metrics, removed: set<Id>)
    requires Good(c, r, removed)
    ensures Good(c, Observe(r, id, weight, temperature, m), removed)
  {
    assert Tally(r, id) == (if id in r.servers then 1 else 0) && Placed(r, id);
    Relocate(r, Observe(r, id, weight, temperature, m), id);
  }

  // ----- Runs -----

  datatype Op =
    | AddServer(id: Id, server: Server, forceInner: bool, now: real)
    | RemoveServer(id: Id, clk: Clock)
    | ForceEvictServer(id: Id, clk: Clock)
    | RotateOnce(th: Thresholds, clk: Clock, blocked: set<Id>)
    | CheckDrains(clk: Clock)
    | Route(key: Option<SessionKey>)
    | RouteExcluding(excluded: set<Id>)
    | ObserveServer(id: Id, weight: real, temperature: real, metrics: Metrics)
    | Forget(key: Option<SessionKey>)

  /** A server may be added unless it is registered. */
  predicate Admissible(r: Ring, op: Op) { op.AddServer? ==> op.id !in r.servers }

  function Step(c: Config, r: Ring, op: Op): Ring
    requires Admissible(r, op)
  {
    match op
    case AddServer(id, s, forceInner, now) => Add(c, r, id, s, forceInner, now)
    case RemoveServer(id, clk) => Remove(c, r, id, clk)
    case ForceEvictServer(id, clk) => ForceEvict(c, r, id, clk)
    case RotateOnce(th, clk, blocked) => Rotate(c, th, r, clk, blocked)
    case CheckDrains(clk) => CheckDraining(c, r, clk)
    case Route(key) => GetServer(r, key).0
    case RouteExcluding(excluded) => GetExcluding(r, excluded).0
    case ObserveServer(id, w, t, m) => Observe(r, id, w, t, m)
    case Forget(key) => ClearAffinity(r, key)
  }

  /** The ids `remove_server` has removed so far. */
  function RemovedBy(r: Ring, op: Op, removed: set<Id>): set<Id> {
    if op.RemoveServer? && (op.id in r.inner || op.id in r.outer) then removed + {op.id} else removed
  }

  lemma StepKeeps(c: Config, r: Ring, op: Op, removed: set<Id>)
    requires ValidConfig(c) && Good(c, r, removed) && Admissible(r, op)
    ensures Good(c, Step(c, r, op), RemovedBy(r, op, removed))
  {
    match op
    case AddServer(id, s, forceInner, now) => AddKeeps(c, r, id, s, forceInner, now, removed);
    case RemoveServer(id, clk) => RemoveKeeps(c, r, id, clk, removed);
    case ForceEvictServer(id, clk) => ForceEvictKeeps(c, r, id, clk, removed);
    case RotateOnce(th, clk, blocked) => RotateKeeps(c, th, r, clk, blocked, removed);
    case CheckDrains(clk) => CheckDrainingKeeps(c, r, clk, removed);
    case Route(key) => RoutingKeeps(c, r, key, removed);
    case RouteExcluding(excluded) => ExcludingKeeps(c, r, excluded, removed);
    case ObserveServer(id, w, t, m) => ObserveKeeps(c, r, id, w, t, m, removed);
    case Forget(key) => ReorderKeeps(c, r, ClearAffinity(r, key), removed);
  }

  const EMPTY_RING := Ring(map[], [], [], [], map[])

  /** `rings[k]` and `removed[k]` are the cluster and the removed ids after the first `k` operations. */
  ghost predicate IsRun(c: Config, ops: seq<Op>, rings: seq<Ring>, removed: seq<set<Id>>) {
    && |rings| == |removed| == |ops| + 1
    && rings[0] == EMPTY_RING && removed[0] == {}
    && (forall k :: 0 <= k < |ops| ==> Follows(c, ops, rings, removed, k))
  }

  ghost predicate Follows(c: Config, ops: seq<Op>, rings: seq<Ring>, removed: seq<set<Id>>, k: nat)
    requires k < |ops| && |rings| == |removed| == |ops| + 1
  {
    && Admissible(rings[k], ops[k]) && rings[k + 1] == Step(c, rings[k], ops[k])
    && removed[k + 1] == RemovedBy(rings[k], ops[k], removed[k])
  }

  lemma NextIsGood(c: Config, ops: seq<Op>, rings: seq<Ring>, removed: seq<set<Id>>, k: nat)
    requires ValidConfig(c) && k < |ops| && |rings| == |removed| == |ops| + 1 && Follows(c, ops, rings, removed, k)
    requires Good(c, rings[k], removed[k])
    ensures Good(c, rings[k + 1], removed[k + 1])
  {
    StepKeeps(c, rings[k], ops[k], removed[k]);
  }

  lemma {:induction false} RunsAreGood(c: Config, ops: seq<Op>, rings: seq<Ring>, removed: seq<set<Id>>, k: nat)
    requires ValidConfig(c) && IsRun(c, ops, rings, removed) && k < |rings|
    ensures Good(c, rings[k], removed[k])
  {
    if k > 0 {
      RunsAreGood(c, ops, rings, removed, k - 1);
      NextIsGood(c, ops, rings, removed, k - 1);
    }
  }

  /** In every state of every run: each registered server is in exactly one of the inner ring, the
      draining list and the outer ring, with the matching position; every sticky binding names an
      inner server or an id removed earlier; and the inner ring is within `max_inner_size`. */
  lemma {:induction false} RunsConserve(c: Config, ops: seq<Op>, rings: seq<Ring>, removed: seq<set<Id>>, k: nat)
    requires ValidConfig(c) && IsRun(c, ops, rings, removed) && k < |rings|
    ensures Conserved(rings[k]) && BindingsOk(rings[k], removed[k]) && |rings[k].inner| <= c.maxInner
  {
    RunsAreGood(c, ops, rings, removed, k);
  }
}
