/** The outer ring as a heap, over whole runs: which operations keep it, and which restore it. */
module RingOrder {
  import opened Options
  import opened HeapQueue
  import opened Rings
  import opened RingLaws
  import opened RotationLaws

  // ----- Removals -----

  lemma OuterIsApart(r: Ring, id: Id)
    requires Conserved(r)
    ensures id in r.inner ==> id !in r.outer
    ensures forall x :: x in Without(r.outer, id) <==> x in r.outer && x != id
  {
    assert Tally(r, id) == (if id in r.servers then 1 else 0);
    WithoutMembers(r.outer, id);
    WithoutBag(r.outer, id);
    assert id in r.inner <==> id in multiset(r.inner);
    assert id in r.outer <==> id in multiset(r.outer);
    assert multiset(Without(r.outer, id))[id] == 0;
    assert id !in multiset(Without(r.outer, id));
  }

  /** Removing a server of the outer ring leaves a heap of the others, whatever the order was before. */
  lemma {:induction false} OuterRemovalRestoresHeap(c: Config, r: Ring, id: Id, clk: Clock)
    requires Conserved(r) && id in r.outer
    ensures HeapOk(Remove(c, r, id, clk))
    ensures forall x :: x in Remove(c, r, id, clk).outer <==> x in r.outer && x != id
  {
    var t := Remove(c, r, id, clk);
    var rest := Without(r.outer, id);
    OuterIsApart(r, id);
    assert t.outer == Heapify(Temp(r.servers), rest);
    HeapifyIsHeap(Temp(r.servers), rest);
    forall x
      ensures x in t.outer <==> x in rest
    {
      assert x in multiset(t.outer) <==> x in multiset(rest);
    }
    RekeyHeap(Temp(r.servers), Temp(t.servers), t.outer);
  }

  lemma {:induction false} RefillKeepsHeap(c: Config, r: Ring, clk: Clock, k: nat)
    requires HeapOk(r)
    ensures HeapOk(MaybePull(c, r, clk, k))
    decreases |r.outer|
  {
    MaybePullStep(c, r, clk, k);
    if r.outer != [] && |r.inner| < c.minInner {
      PullCoolestHeap(r, Tick(clk, k));
      RefillKeepsHeap(c, PullCoolest(r, Tick(clk, k)), clk, k + 1);
    }
  }

  /** A refill adds to the inner ring until that has its minimum size or nobody is left outside, and never
      more. */
  lemma {:induction false} RefillSize(c: Config, r: Ring, clk: Clock, k: nat)
    ensures
      var t := MaybePull(c, r, clk, k);
      && r.inner <= t.inner
      && |t.inner| == Max(|r.inner|, Min(c.minInner, |r.inner| + |r.outer|))
      && |t.inner| + |t.outer| == |r.inner| + |r.outer|
    decreases |r.outer|
  {
    MaybePullStep(c, r, clk, k);
    if r.outer != [] && |r.inner| < c.minInner {
      assert |PullCoolest(r, Tick(clk, k)).inner| == |r.inner| + 1;
      RefillSize(c, PullCoolest(r, Tick(clk, k)), clk, k + 1);
    }
  }

  lemma InnerRemovalKeepsHeap(c: Config, r: Ring, id: Id, clk: Clock)
    requires Conserved(r) && HeapOk(r) && id in r.inner
    ensures HeapOk(Remove(c, r, id, clk))
  {
    var r1 := r.(inner := Without(r.inner, id), servers := r.servers - {id});
    OuterIsApart(r, id);
    RekeyHeap(Temp(r.servers), Temp(r1.servers), r.outer);
    RefillKeepsHeap(c, r1, clk, 0);
  }

  // ----- The other operations -----

  lemma AddKeepsHeap(c: Config, r: Ring, id: Id, s: Server, forceInner: bool, now: real)
    requires Conserved(r) && HeapOk(r) && id !in r.servers
    ensures HeapOk(Add(c, r, id, s, forceInner, now))
  {
    var t := Add(c, r, id, s, forceInner, now);
    assert Tally(r, id) == 0 && id !in multiset(r.outer);
    RekeyHeap(Temp(r.servers), Temp(t.servers), r.outer);
    if t.outer != r.outer {
      PushHeap(Temp(t.servers), r.outer, id);
    }
  }

  lemma DrainKeepsHeap(r: Ring, id: Id, now: real)
    requires Conserved(r) && HeapOk(r) && id in DrainIds(r.draining)
    ensures HeapOk(FinishDrain(r, id, now))
  {
    var t := FinishDrain(r, id, now);
    assert id in multiset(DrainIds(r.draining)) && Tally(r, id) <= 1 && id !in multiset(r.outer);
    RekeyHeap(Temp(r.servers), Temp(t.servers), r.outer);
    PushHeap(Temp(t.servers), r.outer, id);
  }

  lemma {:induction false} DrainsKeepHeap(c: Config, r: Ring, ids: seq<Id>, clk: Clock, k: nat)
    requires Conserved(r) && HeapOk(r) && multiset(ids) <= multiset(DrainIds(r.draining))
    ensures HeapOk(FinishDrains(r, ids, clk, k))
    decreases |ids|
  {
    if ids != [] {
      assert ids == [ids[0]] + ids[1..];
      assert ids[0] in multiset(ids) && ids[0] in multiset(DrainIds(r.draining));
      DrainKeepsHeap(r, ids[0], Tick(clk, k));
      FinishDrainKeeps(r, ids[0], Tick(clk, k));
      FinishDrainBags(r, ids[0], Tick(clk, k));
      DrainsKeepHeap(c, FinishDrain(r, ids[0], Tick(clk, k)), ids[1..], clk, k + 1);
    }
  }

  /** The operation writes no new temperature into a server of the outer ring. */
  ghost predicate LeavesHeats(r: Ring, op: Op) {
    op.ObserveServer? && op.id in r.outer ==> op.temperature == At(r.servers, op.id).temperature
  }

  lemma StepKeepsHeap(c: Config, r: Ring, op: Op, removed: set<Id>)
    requires ValidConfig(c) && Good(c, r, removed) && Admissible(r, op) && HeapOk(r) && LeavesHeats(r, op)
    ensures HeapOk(Step(c, r, op))
  {
    match op {
      case AddServer(id, s, forceInner, now) => AddKeepsHeap(c, r, id, s, forceInner, now);
      case RemoveServer(id, clk) =>
        if id in r.inner {
          InnerRemovalKeepsHeap(c, r, id, clk);
        } else if id in r.outer {
          OuterRemovalRestoresHeap(c, r, id, clk);
        }
      case ForceEvictServer(id, clk) =>
        if id in r.inner {
          MoveToOuterHeap(c, r, id, Rings.Manual, Tick(clk, 0), Tick(clk, 1));
        }
      case RotateOnce(th, clk, blocked) => RotateKeepsHeap(c, th, r, clk, blocked, removed);
      case CheckDrains(clk) =>
        CompletedBag(c, r.servers, r.draining, Tick(clk, 0));
        DrainsKeepHeap(c, r, Completed(c, r.servers, r.draining, Tick(clk, 0)), clk, 1);
      case Route(_) =>
      case RouteExcluding(_) =>
      case ObserveServer(id, _, _, _) => RekeyHeap(Temp(r.servers), Temp(Step(c, r, op).servers), r.outer);
      case Forget(_) =>
    }
  }

  // ----- Runs -----

  /** A moment after which the order is right: the start, or the removal of a server of the outer ring. */
  ghost predicate Restores(ops: seq<Op>, rings: seq<Ring>, k: nat)
    requires |rings| == |ops| + 1 && k < |rings|
  {
    k == 0 || (ops[k - 1].RemoveServer? && ops[k - 1].id in rings[k - 1].outer)
  }

  lemma {:induction false} RestoredIsHeap(c: Config, ops: seq<Op>, rings: seq<Ring>, removed: seq<set<Id>>, k: nat)
    requires ValidConfig(c) && IsRun(c, ops, rings, removed) && k < |rings| && Restores(ops, rings, k)
    ensures HeapOk(rings[k])
  {
    if k == 0 {
      EmptyIsHeap();
    } else {
      RestoredByRemoval(c, ops, rings, removed, k - 1);
    }
  }

  lemma RestoredByRemoval(c: Config, ops: seq<Op>, rings: seq<Ring>, removed: seq<set<Id>>, k: nat)
    requires ValidConfig(c) && IsRun(c, ops, rings, removed) && k < |ops|
    requires ops[k].RemoveServer? && ops[k].id in rings[k].outer
    ensures HeapOk(rings[k + 1])
  {
    assert RingLaws.Follows(c, ops, rings, removed, k);
    RunsConserve(c, ops, rings, removed, k);
    NextIsRestored(c, ops, rings, removed, k);
  }

  lemma EmptyIsHeap()
    ensures HeapOk(EMPTY_RING)
  {
  }

  lemma NextIsRestored(c: Config, ops: seq<Op>, rings: seq<Ring>, removed: seq<set<Id>>, k: nat)
    requires k < |ops| && |rings| == |removed| == |ops| + 1 && RingLaws.Follows(c, ops, rings, removed, k)
    requires Conserved(rings[k]) && ops[k].RemoveServer? && ops[k].id in rings[k].outer
    ensures HeapOk(rings[k + 1])
  {
    OuterRemovalRestoresHeap(c, rings[k], ops[k].id, ops[k].clk);
  }

  lemma NextKeepsHeap(c: Config, ops: seq<Op>, rings: seq<Ring>, removed: seq<set<Id>>, k: nat)
    requires ValidConfig(c) && k < |ops| && |rings| == |removed| == |ops| + 1
    requires RingLaws.Follows(c, ops, rings, removed, k)
    requires Good(c, rings[k], removed[k]) && HeapOk(rings[k]) && LeavesHeats(rings[k], ops[k])
    ensures HeapOk(rings[k + 1])
  {
    StepKeepsHeap(c, rings[k], ops[k], removed[k]);
  }

  /** In every run: from the start, and from every removal of a server of the outer ring, the outer ring is
      a heap until somebody writes a new temperature into one of its servers. */
  lemma {:induction false} HeapSince(c: Config, ops: seq<Op>, rings: seq<Ring>, removed: seq<set<Id>>, a: nat, b: nat)
    requires ValidConfig(c) && IsRun(c, ops, rings, removed) && a <= b < |rings| && Restores(ops, rings, a)
    requires forall k :: a <= k < b ==> LeavesHeats(rings[k], ops[k])
    ensures HeapOk(rings[b])
    decreases b
  {
    if a == b {
      RestoredIsHeap(c, ops, rings, removed, a);
    } else {
      HeapSince(c, ops, rings, removed, a, b - 1);
      RunsAreGood(c, ops, rings, removed, b - 1);
      NextKeepsHeap(c, ops, rings, removed, b - 1);
    }
  }

  /** So what a refill or a promotion takes then, and what the emergency choice of an empty inner ring
      answers, is a coolest server of the outer ring. */
  lemma {:induction false} CoolestIsNext(c: Config, ops: seq<Op>, rings: seq<Ring>, removed: seq<set<Id>>,
                                         a: nat, b: nat)
    requires ValidConfig(c) && IsRun(c, ops, rings, removed) && a <= b < |rings| && Restores(ops, rings, a)
    requires forall k :: a <= k < b ==> LeavesHeats(rings[k], ops[k])
    requires rings[b].outer != []
    ensures forall x :: x in rings[b].outer ==> Heat(rings[b], rings[b].outer[0]) <= Heat(rings[b], x)
    ensures rings[b].inner == [] ==> forall key :: GetServer(rings[b], key).1 == Some(rings[b].outer[0])
  {
    HeapSince(c, ops, rings, removed, a, b);
    PullCoolestHeap(rings[b], 0.0);
  }
}
