/** What the remediator hears of a whole rotation: every eviction that is complete, every promotion, and each
    remediation that is called for. */
module HealingReports {
  import opened Rings
  import opened RingLaws
  import opened Quarantine
  import opened Healing
  import opened HealingLaws
  import M = Remediation
  import RemediatorHistory
  import RotationGates

  ghost predicate Listed(j: Joint, id: Id) { id in M.WaitIds(j.rem.since) }

  // ----- Remediations begun -----

  /** The remediations that were begun or refused so far. */
  function Begun(rem: M.Remediator): nat { rem.total + rem.throttled }

  lemma TriggerBegins(u: M.Setup, rem: M.Remediator, p: M.Policy, id: Id, a: M.Act)
    requires u.enabled && p.enabled
    ensures var t := M.Trigger(u, rem, p, id, a);
      && Begun(t) == Begun(rem) + 1 && t.since == rem.since
      && id in t.states && (t.states[id] == M.Healing || t.states[id] == M.DeadLetter)
  {
  }

  /** Some policy against overheating is due once this server has been evicted so often. */
  ghost predicate HeatDue(u: M.Setup, count: int) {
    exists i :: 0 <= i < |u.policies| && RemediatorHistory.Qualifies(u.policies[i], M.ConsecutiveOverheat, count)
  }

  /** Some policy watches circuit breakers. */
  ghost predicate CircuitDue(u: M.Setup) {
    exists i :: 0 <= i < |u.policies| && RemediatorHistory.Qualifies(u.policies[i], M.CircuitBreakerOpen, 0)
  }

  lemma AnswerIsDue(u: M.Setup, cause: M.Cause, count: int)
    ensures var p := M.FirstMatch(u.policies, cause, count);
      && (p.Some? <==> exists i :: 0 <= i < |u.policies| && RemediatorHistory.Qualifies(u.policies[i], cause, count))
      && (p.Some? ==> p.value.enabled)
  {
    RemediatorHistory.MatchIsFirst(u.policies, cause, count);
  }

  /** A report lists the server, counts its eviction, and begins one remediation if a policy is due. */
  lemma ReportExactly(u: M.Setup, rem: M.Remediator, id: Id, m: Moment)
    requires u.enabled
    ensures var t := Report(u, rem, id, m);
      var due := HeatDue(u, M.Evictions(rem, id) + 1);
      && t.since == (if id in M.WaitIds(rem.since) then rem.since else rem.since + [M.Wait(id, m.seen)])
      && Begun(t) == Begun(rem) + (if due then 1 else 0)
      && (!due ==> t == rem.(since := t.since, evictions := rem.evictions[id := M.Evictions(rem, id) + 1]))
      && (due ==> id in t.states && (t.states[id] == M.Healing || t.states[id] == M.DeadLetter))
  {
    var (rem1, p) := M.RecordEviction(u, rem, id, m.seen);
    AnswerIsDue(u, M.ConsecutiveOverheat, M.Evictions(rem, id) + 1);
    if p.Some? {
      TriggerBegins(u, rem1, p.value, id, m.heat);
    }
  }

  lemma ReportedAreListed(u: M.Setup, rem: M.Remediator, id: Id, m: Moment)
    requires u.enabled
    ensures forall x :: x in M.WaitIds(Report(u, rem, id, m).since) <==> x in M.WaitIds(rem.since) || x == id
  {
    ReportExactly(u, rem, id, m);
    WaitIdsAppend(rem.since, M.Wait(id, m.seen));
  }

  // ----- One eviction -----

  /** Its eviction is complete at once. */
  predicate LeavesAtOnce(c: Config, j: Joint, id: Id) { !RotationGates.Drains(c, At(j.ring.servers, id)) }

  lemma ParksIfDrains(c: Config, j: Joint, id: Id)
    requires Conserved(j.ring) && id in j.ring.inner
    ensures Parks(c, j.ring, id) <==> !LeavesAtOnce(c, j, id)
  {
    RotationGates.NotElsewhere(j.ring, id);
  }

  /** An eviction that is complete is reported; one that waits for connections leaves the remediator alone. */
  lemma {:induction false} EvictionIsReported(c: Config, u: M.Setup, j: Joint, id: Id, reason: Reason, now: real,
                                              done: real, m: Moment)
    requires u.enabled && Conserved(j.ring) && id in j.ring.inner
    ensures var t := EvictReporting(c, u, j, id, reason, now, done, m);
      && (forall x :: Listed(t, x) <==> Listed(j, x) || (x == id && LeavesAtOnce(c, j, id)))
      && Begun(t.rem) == Begun(j.rem)
           + (if LeavesAtOnce(c, j, id) && HeatDue(u, M.Evictions(j.rem, id) + 1) then 1 else 0)
      && (!LeavesAtOnce(c, j, id) ==> t.rem == j.rem)
  {
    ParksIfDrains(c, j, id);
    ReportExactly(u, j.rem, id, m);
    ReportedAreListed(u, j.rem, id, m);
  }

  /** In step 3 an open circuit begins one remediation more, whether or not the server drains first. */
  lemma {:induction false} TripIsReported(c: Config, u: M.Setup, j: Joint, id: Id, now: real, done: real, m: Moment)
    requires u.enabled && Conserved(j.ring) && id in j.ring.inner
    ensures var t := EvictTripped(c, u, j, id, now, done, m);
      && (forall x :: Listed(t, x) <==> Listed(j, x) || (x == id && LeavesAtOnce(c, j, id)))
      && Begun(t.rem) == Begun(j.rem)
           + (if LeavesAtOnce(c, j, id) && HeatDue(u, M.Evictions(j.rem, id) + 1) then 1 else 0)
           + (if CircuitOpen(c, At(j.ring.servers, id)) && CircuitDue(u) then 1 else 0)
  {
    var j1 := EvictReporting(c, u, j, id, HealthFail, now, done, m);
    EvictionIsReported(c, u, j, id, HealthFail, now, done, m);
    CircuitAdds(c, u, j, j1, EvictTripped(c, u, j, id, now, done, m), id, m);
  }

  lemma CircuitAdds(c: Config, u: M.Setup, j: Joint, j1: Joint, t: Joint, id: Id, m: Moment)
    requires u.enabled
    requires t.rem == if CircuitOpen(c, At(j.ring.servers, id))
                      then TriggerIf(u, j1.rem, M.CircuitPolicy(u), id, m.circuit) else j1.rem
    ensures forall x :: Listed(t, x) <==> Listed(j1, x)
    ensures Begun(t.rem) == Begun(j1.rem) + (if CircuitOpen(c, At(j.ring.servers, id)) && CircuitDue(u) then 1 else 0)
  {
    AnswerIsDue(u, M.CircuitBreakerOpen, 0);
    CircuitBegins(u, j1, id, m);
  }

  lemma CircuitBegins(u: M.Setup, j1: Joint, id: Id, m: Moment)
    requires u.enabled
    requires var p := M.FirstMatch(u.policies, M.CircuitBreakerOpen, 0);
      (p.Some? <==> CircuitDue(u)) && (p.Some? ==> p.value.enabled)
    ensures var rem := TriggerIf(u, j1.rem, M.CircuitPolicy(u), id, m.circuit);
      rem.since == j1.rem.since && Begun(rem) == Begun(j1.rem) + (if CircuitDue(u) then 1 else 0)
  {
    var p := M.FirstMatch(u.policies, M.CircuitBreakerOpen, 0);
    if p.Some? {
      TriggerBegins(u, j1.rem, p.value, id, m.circuit);
    }
  }

  // ----- The steps of a cycle -----

  /** Between `j` and `t` exactly these servers have come onto the list. */
  ghost predicate Lists(j: Joint, t: Joint, who: iset<Id>) {
    forall x :: Listed(t, x) <==> Listed(j, x) || x in who
  }

  /** The servers evicted between `before` and `after` that left at once. */
  ghost function LeftAtOnce(c: Config, j: Joint, ids: seq<Id>): iset<Id> {
    iset id | id in ids && LeavesAtOnce(c, j, id)
  }

  lemma ListsTwice(c: Config, j: Joint, j1: Joint, t: Joint, id: Id, ids: seq<Id>)
    requires forall x :: Listed(j1, x) <==> Listed(j, x) || (x == id && LeavesAtOnce(c, j, id))
    requires Lists(j1, t, LeftAtOnce(c, j1, ids))
    requires forall x :: x in ids ==> At(j1.ring.servers, x) == At(j.ring.servers, x)
    ensures Lists(j, t, LeftAtOnce(c, j, [id] + ids))
  {
  }

  lemma OthersAsBefore(c: Config, r: Ring, id: Id, reason: Reason, now: real, done: real, ids: seq<Id>)
    requires Conserved(r) && id in r.inner && id !in ids && forall x :: x in ids ==> x in r.inner
    ensures var t := MoveToOuter(c, r, id, reason, now, done);
      && Conserved(t) && (forall x :: x in ids ==> x in t.inner)
      && (forall x :: x in ids ==> At(t.servers, x) == At(r.servers, x))
  {
    MoveToOuterKeeps(c, r, id, reason, now, done);
    MoveToOuterEffect(c, r, id, reason, now, done);
    RotationGates.EvictedServer(c, r, id, reason, now, done);
  }

  lemma {:induction false} StepOneReports(c: Config, u: M.Setup, j: Joint, due: seq<Due>, rd: Readings, k: nat, i: nat)
    requires u.enabled && Conserved(j.ring) && Distinct(DueIds(due))
    requires forall id :: id in DueIds(due) ==> id in j.ring.inner
    ensures Lists(j, EvictAllReporting(c, u, j, due, rd, k, i), LeftAtOnce(c, j, DueIds(due)))
    decreases |due|
  {
    if due != [] {
      var id, reason, now, done := due[0].id, due[0].reason, Tick(rd.clk, k), Tick(rd.clk, k + 1);
      var rest := DueIds(due[1..]);
      assert DueIds(due) == [id] + rest;
      TailDistinct(id, rest);
      OthersAsBefore(c, j.ring, id, reason, now, done, rest);
      EvictionIsReported(c, u, j, id, reason, now, done, rd.evictions(i));
      var j1 := EvictReporting(c, u, j, id, reason, now, done, rd.evictions(i));
      StepOneReports(c, u, j1, due[1..], rd, k + 2, i + 1);
      ListsTwice(c, j, j1, EvictAllReporting(c, u, j1, due[1..], rd, k + 2, i + 1), id, rest);
    }
  }

  /** The servers that came into the inner ring. */
  ghost predicate Came(j: Joint, t: Joint, id: Id) { id in t.ring.inner && id !in j.ring.inner }

  ghost predicate Unlists(j: Joint, t: Joint) {
    && (forall x :: Listed(t, x) <==> Listed(j, x) && !Came(j, t, x))
    && (forall x :: Came(j, t, x) ==> M.Evictions(t.rem, x) == 0)
    && (forall x :: x in j.ring.inner ==> x in t.ring.inner)
    && (forall x :: !Came(j, t, x) ==> M.Evictions(t.rem, x) == M.Evictions(j.rem, x))
  }

  lemma ReturnUnlists(c: Config, th: Thresholds, j: Joint, clk: Clock, k: nat)
    requires Conserved(j.ring) && MayPromote(c, th, j.ring, clk, k, j.rem.quarantined)
    ensures var t := Pull(j, th.cool, Tick(clk, k + 2));
      Unlists(j, t) && Conserved(t.ring) && |t.ring.outer| < |j.ring.outer|
  {
    var t, now, id := Pull(j, th.cool, Tick(clk, k + 2)), Tick(clk, k + 2), j.ring.outer[0];
    PullCoolestKeeps(j.ring, now);
    RotationGates.PullEffect(j.ring, now);
    RecoverUnlists(j, t, id);
  }

  lemma RecoverUnlists(j: Joint, t: Joint, id: Id)
    requires t.rem == M.Recover(j.rem, id)
    requires t.ring.inner == j.ring.inner + [id] && id !in j.ring.inner
    ensures Unlists(j, t)
  {
    UnlistedExactly(j.rem.since, id);
    assert forall x :: Came(j, t, x) <==> x == id;
    assert t.rem.evictions == j.rem.evictions[id := 0];
  }

  lemma {:induction false} UnlistedExactly(ws: seq<M.Wait>, id: Id)
    ensures forall x :: x in M.WaitIds(M.Unlisted(ws, id)) <==> x in M.WaitIds(ws) && x != id
  {
    if ws != [] {
      UnlistedExactly(ws[1..], id);
    }
  }

  lemma UnlistsTwice(j: Joint, j1: Joint, t: Joint)
    requires Unlists(j, j1) && Unlists(j1, t)
    ensures Unlists(j, t)
  {
    forall x
      ensures Came(j, t, x) <==> Came(j, j1, x) || Came(j1, t, x)
    {
    }
  }

  lemma {:induction false} StepTwoUnlists(c: Config, th: Thresholds, j: Joint, clk: Clock, k: nat)
    requires Conserved(j.ring)
    ensures Unlists(j, PromoteReporting(c, th, j, clk, k))
    decreases |j.ring.outer|
  {
    if MayPromote(c, th, j.ring, clk, k, j.rem.quarantined) {
      var j1 := Pull(j, th.cool, Tick(clk, k + 2));
      ReturnUnlists(c, th, j, clk, k);
      StepTwoUnlists(c, th, j1, clk, k + 3);
      UnlistsTwice(j, j1, PromoteReporting(c, th, j1, clk, k + 3));
    }
  }

  /** The servers that left the inner ring, and left at once. */
  ghost function GoneAtOnce(c: Config, j: Joint, t: Joint): iset<Id> {
    iset id | id in j.ring.inner && id !in t.ring.inner && LeavesAtOnce(c, j, id)
  }

  lemma GoneTwice(c: Config, j: Joint, j1: Joint, t: Joint, id: Id)
    requires forall x :: Listed(j1, x) <==> Listed(j, x) || (x == id && LeavesAtOnce(c, j, id))
    requires Lists(j1, t, GoneAtOnce(c, j1, t)) && id in j.ring.inner
    requires forall x :: x in j1.ring.inner <==> x in j.ring.inner && x != id
    requires forall x :: x in t.ring.inner ==> x in j1.ring.inner
    requires forall x :: x != id ==> At(j1.ring.servers, x) == At(j.ring.servers, x)
    ensures Lists(j, t, GoneAtOnce(c, j, t))
  {
  }

  lemma TripEffect(c: Config, u: M.Setup, j: Joint, id: Id, now: real, done: real, m: Moment)
    requires Conserved(j.ring) && id in j.ring.inner
    ensures var t := EvictTripped(c, u, j, id, now, done, m);
      && Conserved(t.ring) && (forall x :: x in t.ring.inner <==> x in j.ring.inner && x != id)
      && (forall x :: x != id ==> At(t.ring.servers, x) == At(j.ring.servers, x))
  {
    TrippedIsReported(c, u, j, id, now, done, m);
    MoveToOuterKeeps(c, j.ring, id, HealthFail, now, done);
    MoveToOuterEffect(c, j.ring, id, HealthFail, now, done);
    RotationGates.EvictedServer(c, j.ring, id, HealthFail, now, done);
  }

  lemma {:induction false} StepThreeReports(c: Config, u: M.Setup, j: Joint, ids: seq<Id>, rd: Readings, k: nat, i: nat)
    requires u.enabled && Conserved(j.ring) && Distinct(ids) && forall id :: id in ids ==> id in j.ring.inner
    ensures var t := EvictSickReporting(c, u, j, ids, rd, k, i);
      Lists(j, t, GoneAtOnce(c, j, t)) && forall x :: x in t.ring.inner ==> x in j.ring.inner
    decreases |ids|
  {
    if ids != [] && |j.ring.inner| > c.minInner {
      assert ids == [ids[0]] + ids[1..];
      TailDistinct(ids[0], ids[1..]);
      if Sick(c, At(j.ring.servers, ids[0])) {
        var now, done, m := Tick(rd.clk, k), Tick(rd.clk, k + 1), rd.evictions(i);
        var j1 := EvictTripped(c, u, j, ids[0], now, done, m);
        TripIsReported(c, u, j, ids[0], now, done, m);
        TripEffect(c, u, j, ids[0], now, done, m);
        StepThreeReports(c, u, j1, ids[1..], rd, k + 2, i + 1);
        GoneTwice(c, j, j1, EvictSickReporting(c, u, j1, ids[1..], rd, k + 2, i + 1), ids[0]);
      } else {
        StepThreeReports(c, u, j, ids[1..], rd, k, i);
      }
    }
  }

  /** The list through one rotation: step 1 and step 3 put onto it exactly the servers they evict that leave
      at once; step 2 takes off exactly those it brings in, whose evictions count from zero again; step 4
      leaves it. */
  lemma {:induction false} ListThroughRotation(c: Config, th: Thresholds, u: M.Setup, j: Joint, rd: Readings,
                                               removed: set<Id>)
    requires u.enabled && ValidConfig(c) && Good(c, j.ring, removed)
    ensures
      var j1, j2, j3 := AfterOne(c, th, u, j, rd), AfterTwo(c, th, u, j, rd), AfterThree(c, th, u, j, rd);
      && Lists(j, j1, LeftAtOnce(c, j, DueIds(ToEvict(c, th, j.ring, Tick(rd.clk, 0)))))
      && Unlists(j1, j2)
      && Lists(j2, j3, GoneAtOnce(c, j2, j3))
      && RotateHealing(c, th, u, j, rd).rem.since == j3.rem.since
  {
    var due := ToEvict(c, th, j.ring, Tick(rd.clk, 0));
    var j1, j2, j3 := AfterOne(c, th, u, j, rd), AfterTwo(c, th, u, j, rd), AfterThree(c, th, u, j, rd);
    ToEvictIsDue(c, th, j.ring, Tick(rd.clk, 0));
    StepOneReports(c, u, j, due, rd, 1, 0);
    var first := StepOneIsSafe(c, u, j, due, rd, 1, 0, removed);
    StepTwoUnlists(c, th, j1, rd.clk, GateReading(j.ring));
    StepTwoKeeps(c, th, j1, rd.clk, GateReading(j.ring), removed);
    StepThreeReports(c, u, j2, j2.ring.inner, rd, SickReading(j.ring, j1.ring), |due|);
    TriggersKeepList(u, j3.rem, M.Scan(u, j3.rem, rd.scan), rd.acts, 0);
  }

  lemma {:induction false} TriggersKeepList(u: M.Setup, rem: M.Remediator, overdue: seq<M.Overdue>, acts: nat -> M.Act,
                                            n: nat)
    requires n <= |overdue|
    ensures TriggerFrom(u, rem, overdue, acts, n).since == rem.since
    decreases |overdue| - n
  {
    if n < |overdue| {
      TriggersKeepList(u, M.Trigger(u, rem, overdue[n].policy, overdue[n].id, acts(n)), overdue, acts, n + 1);
    }
  }
}
