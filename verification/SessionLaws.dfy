/** Sticky sessions: a session keeps its server while the server stays inside and healthy, whatever else the
    cluster does meanwhile. */
module SessionLaws {
  import opened Options
  import opened Rings
  import opened RingLaws

  ghost predicate Bound(r: Ring, key: SessionKey, id: Id) { key in r.affinity && r.affinity[key] == id }

  predicate Healthy(r: Ring, id: Id) { At(r.servers, id).metrics.healthy }

  // ----- Who loses a binding in a cycle -----

  /** Of the bindings of `r`, those of the servers in `gone` are lost, and no other changes. */
  ghost predicate Unbinds(r: Ring, t: Ring, gone: iset<Id>) {
    forall key ::
      && (key in t.affinity <==> key in r.affinity && r.affinity[key] !in gone)
      && (key in t.affinity ==> t.affinity[key] == r.affinity[key])
  }

  lemma MoveUnbinds(c: Config, r: Ring, id: Id, reason: Reason, now: real, done: real)
    ensures Unbinds(r, MoveToOuter(c, r, id, reason, now, done), iset{id})
  {
  }

  lemma UnbindsTwice(r: Ring, t: Ring, u: Ring, a: iset<Id>, b: iset<Id>)
    requires Unbinds(r, t, a) && Unbinds(t, u, b)
    ensures Unbinds(r, u, a + b)
  {
  }

  function Gone(before: seq<Id>, after: seq<Id>): iset<Id> { iset id | id in before && id !in after }

  lemma {:induction false} StepOneUnbinds(c: Config, r: Ring, due: seq<Due>, clk: Clock, k: nat)
    ensures Unbinds(r, EvictAll(c, r, due, clk, k), iset id | id in DueIds(due))
    decreases |due|
  {
    if due != [] {
      var r1 := MoveToOuter(c, r, due[0].id, due[0].reason, Tick(clk, k), Tick(clk, k + 1));
      MoveUnbinds(c, r, due[0].id, due[0].reason, Tick(clk, k), Tick(clk, k + 1));
      StepOneUnbinds(c, r1, due[1..], clk, k + 2);
      OneMoreDue(r, r1, EvictAll(c, r1, due[1..], clk, k + 2), due);
    }
  }

  lemma OneMoreDue(r: Ring, r1: Ring, t: Ring, due: seq<Due>)
    requires due != [] && Unbinds(r, r1, iset{due[0].id}) && Unbinds(r1, t, iset id | id in DueIds(due[1..]))
    ensures Unbinds(r, t, iset id | id in DueIds(due))
  {
    var rest := iset id | id in DueIds(due[1..]);
    UnbindsTwice(r, r1, t, iset{due[0].id}, rest);
    assert iset{due[0].id} + rest == iset id | id in DueIds(due);
  }

  lemma {:induction false} StepTwoUnbinds(c: Config, th: Thresholds, r: Ring, clk: Clock, k: nat, blocked: set<Id>)
    ensures Promote(c, th, r, clk, k, blocked).affinity == r.affinity
    decreases |r.outer|
  {
    PromoteStep(c, th, r, clk, k, blocked);
    if MayPromote(c, th, r, clk, k, blocked) {
      StepTwoUnbinds(c, th, PullCoolest(r, Tick(clk, k + 2)), clk, k + 3, blocked);
    }
  }

  lemma SickLeaves(c: Config, r: Ring, id: Id, now: real, done: real) returns (t: Ring)
    requires Conserved(r) && id in r.inner
    ensures t == MoveToOuter(c, r, id, HealthFail, now, done) && Conserved(t) && Unbinds(r, t, iset{id})
    ensures forall x :: x in t.inner <==> x in r.inner && x != id
  {
    t := MoveToOuter(c, r, id, HealthFail, now, done);
    MoveUnbinds(c, r, id, HealthFail, now, done);
    MoveToOuterKeeps(c, r, id, HealthFail, now, done);
    MoveToOuterEffect(c, r, id, HealthFail, now, done);
  }

  lemma OneMoreGone(r: Ring, r1: Ring, t: Ring, id: Id)
    requires Unbinds(r, r1, iset{id}) && Unbinds(r1, t, Gone(r1.inner, t.inner)) && id in r.inner
    requires (forall x :: x in r1.inner <==> x in r.inner && x != id) && forall x :: x in t.inner ==> x in r1.inner
    ensures Unbinds(r, t, Gone(r.inner, t.inner))
  {
    UnbindsTwice(r, r1, t, iset{id}, Gone(r1.inner, t.inner));
    assert iset{id} + Gone(r1.inner, t.inner) == Gone(r.inner, t.inner);
  }

  lemma {:induction false} StepThreeUnbinds(c: Config, r: Ring, ids: seq<Id>, clk: Clock, k: nat)
    requires Conserved(r) && Distinct(ids) && forall id :: id in ids ==> id in r.inner
    ensures var t := EvictSick(c, r, ids, clk, k);
      Unbinds(r, t, Gone(r.inner, t.inner)) && forall id :: id in t.inner ==> id in r.inner
    decreases |ids|
  {
    if ids != [] && |r.inner| > c.minInner {
      assert ids == [ids[0]] + ids[1..];
      TailDistinct(ids[0], ids[1..]);
      if Sick(c, At(r.servers, ids[0])) {
        var r1 := SickLeaves(c, r, ids[0], Tick(clk, k), Tick(clk, k + 1));
        StepThreeUnbinds(c, r1, ids[1..], clk, k + 2);
        var t := EvictSick(c, r1, ids[1..], clk, k + 2);
        OneMoreGone(r, r1, t, ids[0]);
      } else {
        StepThreeUnbinds(c, r, ids[1..], clk, k);
      }
    }
  }

  /** The servers a cycle takes out of the inner ring, for good or for a moment. */
  ghost function Evicted(c: Config, th: Thresholds, r: Ring, clk: Clock, blocked: set<Id>): iset<Id> {
    var r1 := EvictAll(c, r, ToEvict(c, th, r, Tick(clk, 0)), clk, 1);
    var r2 := Promote(c, th, r1, clk, GateReading(r), blocked);
    (iset id | id in DueIds(ToEvict(c, th, r, Tick(clk, 0)))) + Gone(r2.inner, Rotate(c, th, r, clk, blocked).inner)
  }

  /** A cycle ends exactly the sessions of the servers it evicts. */
  lemma {:induction false} RotationUnbinds(c: Config, th: Thresholds, r: Ring, clk: Clock, blocked: set<Id>,
                                           removed: set<Id>)
    requires ValidConfig(c) && Good(c, r, removed)
    ensures Unbinds(r, Rotate(c, th, r, clk, blocked), Evicted(c, th, r, clk, blocked))
  {
    var due := ToEvict(c, th, r, Tick(clk, 0));
    ToEvictIsDue(c, th, r, Tick(clk, 0));
    EvictAllKeeps(c, r, due, clk, 1, removed);
    StepOneUnbinds(c, r, due, clk, 1);
    var r1 := EvictAll(c, r, due, clk, 1);
    PromoteKeeps(c, th, r1, clk, GateReading(r), blocked, removed);
    StepTwoUnbinds(c, th, r1, clk, GateReading(r), blocked);
    var r2 := Promote(c, th, r1, clk, GateReading(r), blocked);
    InnerDistinct(r2);
    StepThreeUnbinds(c, r2, r2.inner, clk, SickReading(r, r1));
    UnbindsTwice(r, r2, Rotate(c, th, r, clk, blocked), (iset id | id in DueIds(due)),
                 Gone(r2.inner, Rotate(c, th, r, clk, blocked).inner));
  }

  lemma {:induction false} RotationStays(c: Config, th: Thresholds, r: Ring, clk: Clock, blocked: set<Id>,
                                         removed: set<Id>, id: Id)
    requires ValidConfig(c) && Good(c, r, removed)
    requires id in r.inner && id !in Evicted(c, th, r, clk, blocked)
    ensures id in Rotate(c, th, r, clk, blocked).inner
  {
    var due := ToEvict(c, th, r, Tick(clk, 0));
    ToEvictIsDue(c, th, r, Tick(clk, 0));
    EvictAllKeeps(c, r, due, clk, 1, removed);
    OthersRemain(c, r, due, clk, 1, removed, id);
    var r1 := EvictAll(c, r, due, clk, 1);
    PromoteKeeps(c, th, r1, clk, GateReading(r), blocked, removed);
  }

  lemma {:induction false} OthersRemain(c: Config, r: Ring, due: seq<Due>, clk: Clock, k: nat, removed: set<Id>,
                                        id: Id)
    requires Good(c, r, removed) && Distinct(DueIds(due))
    requires forall x :: x in DueIds(due) ==> x in r.inner
    requires id in r.inner && id !in DueIds(due)
    ensures id in EvictAll(c, r, due, clk, k).inner
    decreases |due|
  {
    if due != [] {
      var r1 := MoveToOuter(c, r, due[0].id, due[0].reason, Tick(clk, k), Tick(clk, k + 1));
      MoveToOuterKeeps(c, r, due[0].id, due[0].reason, Tick(clk, k), Tick(clk, k + 1));
      MoveToOuterEffect(c, r, due[0].id, due[0].reason, Tick(clk, k), Tick(clk, k + 1));
      assert DueIds(due) == [due[0].id] + DueIds(due[1..]);
      TailDistinct(due[0].id, DueIds(due[1..]));
      OthersRemain(c, r1, due[1..], clk, k + 2, removed, id);
    }
  }

  // ----- One operation -----

  /** The operation neither takes the server out of the inner ring, nor forgets the session, nor asks for
      the session's server while that is unhealthy. */
  ghost predicate Respects(c: Config, r: Ring, op: Op, key: SessionKey, id: Id) {
    match op
    case RemoveServer(x, _) => x != id
    case ForceEvictServer(x, _) => x != id
    case RotateOnce(th, clk, blocked) => id !in Evicted(c, th, r, clk, blocked)
    case Route(k) => k == Some(key) ==> Healthy(r, id)
    case Forget(k) => k.Some? && k.value != key
    case _ => true
  }

  lemma {:induction false} RefillKeepsInside(c: Config, r: Ring, clk: Clock, k: nat)
    ensures r.inner <= MaybePull(c, r, clk, k).inner && MaybePull(c, r, clk, k).affinity == r.affinity
    decreases |r.outer|
  {
    MaybePullStep(c, r, clk, k);
    if r.outer != [] && |r.inner| < c.minInner {
      RefillKeepsInside(c, PullCoolest(r, Tick(clk, k)), clk, k + 1);
    }
  }

  lemma {:induction false} DrainsKeepInside(r: Ring, ids: seq<Id>, clk: Clock, k: nat)
    ensures FinishDrains(r, ids, clk, k).inner == r.inner && FinishDrains(r, ids, clk, k).affinity == r.affinity
    decreases |ids|
  {
    if ids != [] {
      DrainsKeepInside(FinishDrain(r, ids[0], Tick(clk, k)), ids[1..], clk, k + 1);
    }
  }

  lemma RemovalKeepsSession(c: Config, r: Ring, x: Id, clk: Clock, key: SessionKey, id: Id)
    requires Bound(r, key, id) && id in r.inner && x != id
    ensures Bound(Remove(c, r, x, clk), key, id) && id in Remove(c, r, x, clk).inner
  {
    WithoutMembers(r.inner, x);
    if x in r.inner {
      RefillKeepsInside(c, r.(inner := Without(r.inner, x), servers := r.servers - {x}), clk, 0);
    }
  }

  lemma RouteKeepsSession(r: Ring, asked: Option<SessionKey>, key: SessionKey, id: Id)
    requires Bound(r, key, id) && id in r.inner && (asked == Some(key) ==> Healthy(r, id))
    ensures Bound(GetServer(r, asked).0, key, id) && id in GetServer(r, asked).0.inner
  {
    TurnBag(r.inner);
  }

  lemma StepKeepsSession(c: Config, r: Ring, op: Op, key: SessionKey, id: Id, removed: set<Id>)
    requires ValidConfig(c) && Good(c, r, removed) && Admissible(r, op)
    requires Bound(r, key, id) && id in r.inner && Respects(c, r, op, key, id)
    ensures Bound(Step(c, r, op), key, id) && id in Step(c, r, op).inner
  {
    match op {
      case AddServer(x, s, forceInner, now) =>
      case RemoveServer(x, clk) => RemovalKeepsSession(c, r, x, clk, key, id);
      case ForceEvictServer(x, clk) =>
        if x in r.inner {
          MoveUnbinds(c, r, x, Rings.Manual, Tick(clk, 0), Tick(clk, 1));
          MoveToOuterEffect(c, r, x, Rings.Manual, Tick(clk, 0), Tick(clk, 1));
        }
      case RotateOnce(th, clk, blocked) =>
        RotationUnbinds(c, th, r, clk, blocked, removed);
        RotationStays(c, th, r, clk, blocked, removed, id);
      case CheckDrains(clk) => DrainsKeepInside(r, Completed(c, r.servers, r.draining, Tick(clk, 0)), clk, 1);
      case Route(asked) => RouteKeepsSession(r, asked, key, id);
      case RouteExcluding(excluded) => ScanBag(r.inner, excluded, |r.inner|);
      case ObserveServer(_, _, _, _) =>
      case Forget(_) =>
    }
  }

  // ----- Runs -----

  /** Asking for a session's server binds the session to the answer. */
  lemma RouteBinds(r: Ring, key: SessionKey)
    requires r.inner != []
    ensures var (t, id) := GetServer(r, Some(key));
      id.Some? && Bound(t, key, id.value) && id.value in t.inner
  {
    TurnBag(r.inner);
  }

  lemma BoundIsAnswered(r: Ring, key: SessionKey, id: Id)
    requires Bound(r, key, id) && id in r.inner && Healthy(r, id)
    ensures GetServer(r, Some(key)) == (r, Some(id))
  {
  }

  lemma NextKeepsSession(c: Config, ops: seq<Op>, rings: seq<Ring>, removed: seq<set<Id>>, k: nat,
                         key: SessionKey, id: Id)
    requires ValidConfig(c) && k < |ops| && |rings| == |removed| == |ops| + 1
    requires RingLaws.Follows(c, ops, rings, removed, k) && Good(c, rings[k], removed[k])
    requires Bound(rings[k], key, id) && id in rings[k].inner && Respects(c, rings[k], ops[k], key, id)
    ensures Bound(rings[k + 1], key, id) && id in rings[k + 1].inner
  {
    StepKeepsSession(c, rings[k], ops[k], key, id, removed[k]);
  }

  lemma {:induction false} SessionHolds(c: Config, ops: seq<Op>, rings: seq<Ring>, removed: seq<set<Id>>,
                                        a: nat, b: nat, key: SessionKey, id: Id)
    requires ValidConfig(c) && IsRun(c, ops, rings, removed) && a <= b < |rings|
    requires Bound(rings[a], key, id) && id in rings[a].inner
    requires forall k :: a <= k < b ==> Respects(c, rings[k], ops[k], key, id)
    ensures Bound(rings[b], key, id) && id in rings[b].inner
    decreases b
  {
    if a < b {
      SessionHolds(c, ops, rings, removed, a, b - 1, key, id);
      RunsAreGood(c, ops, rings, removed, b - 1);
      NextKeepsSession(c, ops, rings, removed, b - 1, key, id);
    }
  }

  lemma FirstRoute(c: Config, ops: seq<Op>, rings: seq<Ring>, removed: seq<set<Id>>, k: nat, key: SessionKey)
    requires k < |ops| && |rings| == |removed| == |ops| + 1 && RingLaws.Follows(c, ops, rings, removed, k)
    requires ops[k] == Route(Some(key)) && rings[k].inner != []
    ensures var id := GetServer(rings[k], Some(key)).1;
      id.Some? && Bound(rings[k + 1], key, id.value) && id.value in rings[k + 1].inner
  {
    RouteBinds(rings[k], key);
  }

  /** In every run: once a request of a session has been answered from the inner ring, every later request
      of the session gets the same server and turns nothing, for as long as that server is not taken out, the
      session is not forgotten, and the server is healthy whenever the session asks. */
  lemma {:induction false} SessionSticks(c: Config, ops: seq<Op>, rings: seq<Ring>, removed: seq<set<Id>>,
                                         a: nat, b: nat, key: SessionKey, id: Id)
    requires ValidConfig(c) && IsRun(c, ops, rings, removed) && a < b < |rings|
    requires ops[a] == Route(Some(key)) && rings[a].inner != [] && GetServer(rings[a], Some(key)).1 == Some(id)
    requires forall k :: a < k < b ==> Respects(c, rings[k], ops[k], key, id)
    requires Healthy(rings[b], id)
    ensures GetServer(rings[b], Some(key)) == (rings[b], Some(id))
  {
    assert RingLaws.Follows(c, ops, rings, removed, a);
    FirstRoute(c, ops, rings, removed, a, key);
    SessionHolds(c, ops, rings, removed, a + 1, b, key, id);
    BoundIsAnswered(rings[b], key, id);
  }

  /** The other way round: a session whose server is outside, or unhealthy, gets the front of the ring, is
      bound to it from then on, and the ring turns by one; no other session notices. */
  lemma SessionMoves(r: Ring, key: SessionKey)
    requires r.inner != []
    requires key in r.affinity ==> r.affinity[key] !in r.inner || !Healthy(r, r.affinity[key])
    ensures var (t, id) := GetServer(r, Some(key));
      && id == Some(r.inner[0]) && Bound(t, key, r.inner[0])
      && |t.inner| == |r.inner| && t.inner[|r.inner| - 1] == r.inner[0]
      && (forall i :: 0 < i < |r.inner| ==> t.inner[i - 1] == r.inner[i])
      && (forall other, x :: other != key ==> (Bound(t, other, x) <==> Bound(r, other, x)))
  {
  }
}
