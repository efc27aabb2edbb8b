/** When a whole rotation keeps the servers in quarantine out of the inner ring. */
module HealingLaws {
  import opened Options
  import opened Rings
  import opened RingLaws
  import opened Quarantine
  import opened QuarantineLaws
  import opened Healing
  import M = Remediation
  import RemediatorLaws

  // ----- Steps 1 to 3 are guarded moves -----

  /** A remediation started for a server outside the inner ring. */
  lemma TriggerIsSafe(c: Config, u: M.Setup, j: Joint, p: M.Policy, id: Id, a: M.Act) returns (moves: seq<Move>)
    requires id !in j.ring.inner
    ensures Safely(c, j, moves, j.(rem := M.Trigger(u, j.rem, p, id, a)))
  {
    moves := [];
    if u.enabled && p.enabled {
      var limit := M.Limit(p, u.defaultRetries);
      var m1 := Admitting(id, limit, a.now, a.stamp);
      var j1 := Apply(c, j, m1);
      SafelyOne(c, j, m1);
      moves := [m1];
      if M.Admit(j.rem, limit, id, a.now, a.stamp).1 {
        var m2 := Concluding(id, a.success, a.done);
        SafelyOne(c, j1, m2);
        SafelyThen(c, j, [m1], j1, [m2], Apply(c, j1, m2));
        moves := [m1] + [m2];
      }
    }
  }

  lemma TriggerIfIsSafe(c: Config, u: M.Setup, j: Joint, p: Option<M.Policy>, id: Id, a: M.Act)
    returns (moves: seq<Move>)
    requires id !in j.ring.inner
    ensures Safely(c, j, moves, j.(rem := TriggerIf(u, j.rem, p, id, a)))
  {
    moves := [];
    if p.Some? {
      moves := TriggerIsSafe(c, u, j, p.value, id, a);
    }
  }

  lemma ReportIsSafe(c: Config, u: M.Setup, j: Joint, id: Id, m: Moment) returns (moves: seq<Move>)
    requires id !in j.ring.inner
    ensures Safely(c, j, moves, j.(rem := Report(u, j.rem, id, m)))
  {
    var (rem1, p) := M.RecordEviction(u, j.rem, id, m.seen);
    var j1 := j.(rem := rem1);
    moves := TriggerIfIsSafe(c, u, j1, p, id, m.heat);
    if u.enabled {
      SafelyOne(c, j, Counting(id, m.seen));
      SafelyThen(c, j, [Counting(id, m.seen)], j1, moves, j.(rem := Report(u, j.rem, id, m)));
      moves := [Counting(id, m.seen)] + moves;
    }
  }

  /** An evicted server is out of the inner ring, and everything is in its place. */
  lemma EvictReportingIsSafe(c: Config, u: M.Setup, j: Joint, id: Id, reason: Reason, now: real, done: real,
                             m: Moment, removed: set<Id>)
    returns (moves: seq<Move>)
    requires Good(c, j.ring, removed) && id in j.ring.inner
    ensures
      var t := EvictReporting(c, u, j, id, reason, now, done, m);
      Safely(c, j, moves, t) && Good(c, t.ring, removed) && id !in t.ring.inner
  {
    MoveToOuterKeeps(c, j.ring, id, reason, now, done);
    MoveToOuterEffect(c, j.ring, id, reason, now, done);
    var first := Evict(id, reason, now, done);
    var j1 := Apply(c, j, first);
    SafelyOne(c, j, first);
    moves := [first];
    if !Parks(c, j.ring, id) {
      var rest := ReportIsSafe(c, u, j1, id, m);
      SafelyThen(c, j, [first], j1, rest, EvictReporting(c, u, j, id, reason, now, done, m));
      moves := [first] + rest;
    }
  }

  lemma {:induction false} StepOneIsSafe(c: Config, u: M.Setup, j: Joint, due: seq<Due>, rd: Readings, k: nat, i: nat,
                                         removed: set<Id>)
    returns (moves: seq<Move>)
    requires Good(c, j.ring, removed) && Distinct(DueIds(due))
    requires forall id :: id in DueIds(due) ==> id in j.ring.inner
    ensures
      var t := EvictAllReporting(c, u, j, due, rd, k, i);
      Safely(c, j, moves, t) && t.ring == EvictAll(c, j.ring, due, rd.clk, k) && Good(c, t.ring, removed)
    decreases |due|
  {
    moves := [];
    if due != [] {
      var id, reason, now, done := due[0].id, due[0].reason, Tick(rd.clk, k), Tick(rd.clk, k + 1);
      MoveToOuterEffect(c, j.ring, id, reason, now, done);
      TailDistinct(id, DueIds(due[1..]));
      var first := EvictReportingIsSafe(c, u, j, id, reason, now, done, rd.evictions(i), removed);
      var j1 := EvictReporting(c, u, j, id, reason, now, done, rd.evictions(i));
      var rest := StepOneIsSafe(c, u, j1, due[1..], rd, k + 2, i + 1, removed);
      SafelyThen(c, j, first, j1, rest, EvictAllReporting(c, u, j, due, rd, k, i));
      moves := first + rest;
    }
  }

  lemma {:induction false} StepTwoIsSafe(c: Config, th: Thresholds, j: Joint, clk: Clock, k: nat, blocked: set<Id>)
    returns (moves: seq<Move>)
    requires blocked == j.rem.quarantined
    ensures
      var t := PromoteReporting(c, th, j, clk, k);
      && Safely(c, j, moves, t) && t.ring == Promote(c, th, j.ring, clk, k, blocked) && t.rem.quarantined == blocked
    decreases |j.ring.outer|
  {
    moves := [];
    PromoteStep(c, th, j.ring, clk, k, blocked);
    if MayPromote(c, th, j.ring, clk, k, blocked) {
      var m := Return(th, clk, k);
      ReturnIsSafe(c, th, j, clk, k);
      var j1 := Apply(c, j, m);
      var rest := StepTwoIsSafe(c, th, j1, clk, k + 3, blocked);
      SafelyOne(c, j, m);
      SafelyThen(c, j, [m], j1, rest, PromoteReporting(c, th, j, clk, k));
      moves := [m] + rest;
    }
  }

  lemma EvictTrippedIsSafe(c: Config, u: M.Setup, j: Joint, id: Id, now: real, done: real, m: Moment,
                           removed: set<Id>)
    returns (moves: seq<Move>)
    requires Good(c, j.ring, removed) && id in j.ring.inner
    ensures
      var t := EvictTripped(c, u, j, id, now, done, m);
      Safely(c, j, moves, t) && Good(c, t.ring, removed) && t.ring == MoveToOuter(c, j.ring, id, HealthFail, now, done)
  {
    moves := EvictReportingIsSafe(c, u, j, id, HealthFail, now, done, m, removed);
    if CircuitOpen(c, At(j.ring.servers, id)) {
      var j1 := EvictReporting(c, u, j, id, HealthFail, now, done, m);
      var rest := TriggerIfIsSafe(c, u, j1, M.CircuitPolicy(u), id, m.circuit);
      SafelyThen(c, j, moves, j1, rest, EvictTripped(c, u, j, id, now, done, m));
      moves := moves + rest;
    }
  }

  lemma {:induction false} StepThreeIsSafe(c: Config, u: M.Setup, j: Joint, ids: seq<Id>, rd: Readings, k: nat,
                                           i: nat, removed: set<Id>)
    returns (moves: seq<Move>)
    requires Good(c, j.ring, removed) && Distinct(ids) && forall id :: id in ids ==> id in j.ring.inner
    ensures
      var t := EvictSickReporting(c, u, j, ids, rd, k, i);
      Safely(c, j, moves, t) && t.ring == EvictSick(c, j.ring, ids, rd.clk, k)
    decreases |ids|
  {
    moves := [];
    if ids != [] && |j.ring.inner| > c.minInner {
      assert ids == [ids[0]] + ids[1..];
      TailDistinct(ids[0], ids[1..]);
      if Sick(c, At(j.ring.servers, ids[0])) {
        var now, done, m := Tick(rd.clk, k), Tick(rd.clk, k + 1), rd.evictions(i);
        MoveToOuterEffect(c, j.ring, ids[0], HealthFail, now, done);
        var first := EvictTrippedIsSafe(c, u, j, ids[0], now, done, m, removed);
        var j1 := EvictTripped(c, u, j, ids[0], now, done, m);
        var rest := StepThreeIsSafe(c, u, j1, ids[1..], rd, k + 2, i + 1, removed);
        SafelyThen(c, j, first, j1, rest, EvictSickReporting(c, u, j, ids, rd, k, i));
        moves := first + rest;
      } else {
        moves := StepThreeIsSafe(c, u, j, ids[1..], rd, k, i, removed);
      }
    }
  }

  /** Steps 1 to 3 are moves that keep quarantined servers out, and on the rings they are `Rotate`, with
      the quarantine as step 1 leaves it. */
  lemma ThreeStepsAreSafe(c: Config, th: Thresholds, u: M.Setup, j: Joint, rd: Readings, removed: set<Id>)
    returns (moves: seq<Move>)
    requires ValidConfig(c) && Good(c, j.ring, removed)
    ensures
      var j1, j3 := AfterOne(c, th, u, j, rd), AfterThree(c, th, u, j, rd);
      Safely(c, j, moves, j3) && j3.ring == Rotate(c, th, j.ring, rd.clk, j1.rem.quarantined)
  {
    var r, due := j.ring, ToEvict(c, th, j.ring, Tick(rd.clk, 0));
    ToEvictIsDue(c, th, r, Tick(rd.clk, 0));
    var first := StepOneIsSafe(c, u, j, due, rd, 1, 0, removed);
    var j1, j2, j3 := AfterOne(c, th, u, j, rd), AfterTwo(c, th, u, j, rd), AfterThree(c, th, u, j, rd);
    PromoteKeeps(c, th, j1.ring, rd.clk, GateReading(r), j1.rem.quarantined, removed);
    var second := StepTwoIsSafe(c, th, j1, rd.clk, GateReading(r), j1.rem.quarantined);
    InnerDistinct(j2.ring);
    var third := StepThreeIsSafe(c, u, j2, j2.ring.inner, rd, SickReading(r, j1.ring), |due|, removed);
    SafelyThen(c, j, first, j1, second, j2);
    SafelyThen(c, j, first + second, j2, third, j3);
    moves := first + second + third;
  }

  lemma {:induction false} SafelyShelters(c: Config, j: Joint, moves: seq<Move>, t: Joint)
    requires Sheltered(j) && Safely(c, j, moves, t)
    ensures Sheltered(t)
    decreases |moves|
  {
    if moves != [] {
      MoveSheltersExactly(c, j, moves[0]);
      SafelyShelters(c, Apply(c, j, moves[0]), moves[1..], t);
    }
  }

  // ----- Step 4 -----

  /** The server has not used up its hourly limit under this policy. */
  predicate UnderLimit(u: M.Setup, rem: M.Remediator, x: M.Overdue, now: real) {
    |M.After(M.Attempts(rem, x.id), now - M.HOUR)| < M.Limit(x.policy, u.defaultRetries)
  }

  ghost predicate InTime(acts: nat -> M.Act) { forall i, j :: 0 <= i <= j ==> acts(i).now <= acts(j).now }

  /** Entry `n` of the scan is a server of the inner ring that may still be remediated. */
  ghost predicate Strikes(u: M.Setup, ring: Ring, rem: M.Remediator, overdue: seq<M.Overdue>, acts: nat -> M.Act,
                          n: nat)
    requires n < |overdue|
  {
    overdue[n].id in ring.inner && UnderLimit(u, rem, overdue[n], acts(n).now)
  }

  ghost predicate AllOn(overdue: seq<M.Overdue>) { forall n :: 0 <= n < |overdue| ==> overdue[n].policy.enabled }

  /** Step 4 lifts no quarantine. */
  lemma {:induction false} TriggerFromAdds(u: M.Setup, rem: M.Remediator, overdue: seq<M.Overdue>,
                                           acts: nat -> M.Act, n: nat)
    requires n <= |overdue|
    ensures rem.quarantined <= TriggerFrom(u, rem, overdue, acts, n).quarantined
    decreases |overdue| - n
  {
    if n < |overdue| {
      TriggerFromAdds(u, M.Trigger(u, rem, overdue[n].policy, overdue[n].id, acts(n)), overdue, acts, n + 1);
    }
  }

  /** What one remediation does to the quarantine, and to who is under the limit later. */
  lemma TriggerEffect(u: M.Setup, rem: M.Remediator, x: M.Overdue, a: M.Act, y: M.Overdue, later: real)
    requires u.enabled && x.policy.enabled && a.now <= later
    ensures
      var t := M.Trigger(u, rem, x.policy, x.id, a);
      && t.quarantined == rem.quarantined + (if UnderLimit(u, rem, x, a.now) then {x.id} else {})
      && (y.id != x.id || !UnderLimit(u, rem, x, a.now) ==>
            (UnderLimit(u, t, y, later) <==> UnderLimit(u, rem, y, later)))
  {
    RemediatorLaws.AfterTwice(M.Attempts(rem, x.id), a.now - M.HOUR, later - M.HOUR);
  }

  /** The loop of step 4 exposes a server exactly if one it meets is in the inner ring and under its limit. */
  lemma {:induction false} TriggerFromExactly(u: M.Setup, ring: Ring, rem: M.Remediator, overdue: seq<M.Overdue>,
                                              acts: nat -> M.Act, n: nat)
    requires n <= |overdue| && u.enabled && AllOn(overdue) && InTime(acts) && Sheltered(Joint(ring, rem))
    ensures Sheltered(Joint(ring, TriggerFrom(u, rem, overdue, acts, n))) <==>
            !exists m :: n <= m < |overdue| && Strikes(u, ring, rem, overdue, acts, m)
    decreases |overdue| - n
  {
    if n < |overdue| {
      var x := overdue[n];
      var rem1 := M.Trigger(u, rem, x.policy, x.id, acts(n));
      TriggerEffect(u, rem, x, acts(n), x, acts(n).now);
      if Strikes(u, ring, rem, overdue, acts, n) {
        TriggerFromAdds(u, rem1, overdue, acts, n + 1);
        assert x.id in TriggerFrom(u, rem, overdue, acts, n).quarantined;
      } else {
        forall m | n < m < |overdue|
          ensures Strikes(u, ring, rem1, overdue, acts, m) <==> Strikes(u, ring, rem, overdue, acts, m)
        {
          TriggerEffect(u, rem, x, acts(n), overdue[m], acts(m).now);
        }
        TriggerFromExactly(u, ring, rem1, overdue, acts, n + 1);
      }
    }
  }

  /** Who the scan finds: everybody on the list for as long as some policy against staleness says. */
  lemma {:induction false} OverdueForFinds(ws: seq<M.Wait>, p: M.Policy, now: real, x: M.Overdue)
    ensures x in M.OverdueFor(ws, p, now) <==>
            x.policy == p && exists w :: w in ws && w.id == x.id && now - w.from_ >= p.staleDwell
  {
    if ws != [] {
      OverdueForFinds(ws[1..], p, now, x);
      assert ws == [ws[0]] + ws[1..];
    }
  }

  lemma {:induction false} OverdueForAllFinds(ws: seq<M.Wait>, policies: seq<M.Policy>, now: real, x: M.Overdue)
    ensures x in M.OverdueForAll(ws, policies, now) <==>
            && x.policy in policies && x.policy.enabled && x.policy.cause == M.StaleOuterRing
            && exists w :: w in ws && w.id == x.id && now - w.from_ >= x.policy.staleDwell
  {
    if policies != [] {
      OverdueForAllFinds(ws, policies[1..], now, x);
      OverdueForFinds(ws, policies[0], now, x);
      assert policies == [policies[0]] + policies[1..];
    }
  }

  // ----- The whole rotation -----

  /** The scan of this cycle meets a server of the inner ring that may still be remediated. */
  ghost predicate ScanStrikes(c: Config, th: Thresholds, u: M.Setup, j: Joint, rd: Readings) {
    var j3 := AfterThree(c, th, u, j, rd);
    var overdue := M.Scan(u, j3.rem, rd.scan);
    exists n :: 0 <= n < |overdue| && Strikes(u, j3.ring, j3.rem, overdue, rd.acts, n)
  }

  lemma ScanIsOn(u: M.Setup, rem: M.Remediator, now: real)
    ensures AllOn(M.Scan(u, rem, now))
  {
    var overdue := M.Scan(u, rem, now);
    forall n | 0 <= n < |overdue|
      ensures overdue[n].policy.enabled
    {
      OverdueForAllFinds(rem.since, u.policies, now, overdue[n]);
    }
  }

  /** A whole rotation keeps the servers in quarantine out of the inner ring if and only if its scan meets
      no server of the inner ring that is under its hourly limit. */
  lemma {:induction false} RotationSheltersExactly(c: Config, th: Thresholds, u: M.Setup, j: Joint, rd: Readings,
                                                   removed: set<Id>)
    requires ValidConfig(c) && Good(c, j.ring, removed) && Sheltered(j) && InTime(rd.acts)
    ensures Sheltered(RotateHealing(c, th, u, j, rd)) <==> !ScanStrikes(c, th, u, j, rd)
  {
    var j3 := AfterThree(c, th, u, j, rd);
    var moves := ThreeStepsAreSafe(c, th, u, j, rd, removed);
    SafelyShelters(c, j, moves, j3);
    if u.enabled {
      ScanIsOn(u, j3.rem, rd.scan);
      TriggerFromExactly(u, j3.ring, j3.rem, M.Scan(u, j3.rem, rd.scan), rd.acts, 0);
    }
  }

  // ----- ... is a sequence of moves -----

  lemma {:induction false} TriggersAreMoves(c: Config, u: M.Setup, j: Joint, overdue: seq<M.Overdue>,
                                            acts: nat -> M.Act, n: nat)
    returns (moves: seq<Move>)
    requires n <= |overdue|
    ensures Leads(c, j, moves, j.(rem := TriggerFrom(u, j.rem, overdue, acts, n)))
    decreases |overdue| - n
  {
    moves := [];
    if n < |overdue| {
      var j1 := j.(rem := M.Trigger(u, j.rem, overdue[n].policy, overdue[n].id, acts(n)));
      var first := TriggerIsMoves(c, u, j, overdue[n].policy, overdue[n].id, acts(n));
      var rest := TriggersAreMoves(c, u, j1, overdue, acts, n + 1);
      LeadsThen(c, j, first, j1, rest, j.(rem := TriggerFrom(u, j.rem, overdue, acts, n)));
      moves := first + rest;
    }
  }

  lemma TriggerIsMoves(c: Config, u: M.Setup, j: Joint, p: M.Policy, id: Id, a: M.Act) returns (moves: seq<Move>)
    ensures Leads(c, j, moves, j.(rem := M.Trigger(u, j.rem, p, id, a)))
  {
    moves := [];
    if u.enabled && p.enabled {
      var limit := M.Limit(p, u.defaultRetries);
      var m1, m2 := Admitting(id, limit, a.now, a.stamp), Concluding(id, a.success, a.done);
      var j1 := Apply(c, j, m1);
      moves := if M.Admit(j.rem, limit, id, a.now, a.stamp).1 then [m1] + [m2] else [m1];
      assert moves[0] == m1 && [m1][1..] == [] && ([m1] + [m2])[1..] == [m2] && [m2][1..] == [];
    }
  }

  /** So what holds over all runs of moves holds over runs with whole rotations in them. */
  lemma RotationIsMoves(c: Config, th: Thresholds, u: M.Setup, j: Joint, rd: Readings, removed: set<Id>)
    returns (moves: seq<Move>)
    requires ValidConfig(c) && Good(c, j.ring, removed)
    ensures Leads(c, j, moves, RotateHealing(c, th, u, j, rd))
  {
    var j3 := AfterThree(c, th, u, j, rd);
    var steps := ThreeStepsAreSafe(c, th, u, j, rd, removed);
    SafelyLeads(c, j, steps, j3);
    var scan := TriggersAreMoves(c, u, j3, M.Scan(u, j3.rem, rd.scan), rd.acts, 0);
    LeadsThen(c, j, steps, j3, scan, RotateHealing(c, th, u, j, rd));
    moves := steps + scan;
  }

  // ----- Who can be struck -----

  /** The server is in the inner ring and still on the remediator's list. */
  predicate Lingers(j: Joint, id: Id) { id in j.ring.inner && id in M.WaitIds(j.rem.since) }

  ghost predicate NoneJoins(j: Joint, t: Joint) { forall id :: Lingers(t, id) ==> Lingers(j, id) }

  lemma {:induction false} WaitIdsAppend(ws: seq<M.Wait>, w: M.Wait)
    ensures M.WaitIds(ws + [w]) == M.WaitIds(ws) + [w.id]
  {
    if ws == [] {
      assert ws + [w] == [w];
    } else {
      assert (ws + [w])[1..] == ws[1..] + [w];
      WaitIdsAppend(ws[1..], w);
    }
  }

  lemma {:induction false} UnlistedIds(ws: seq<M.Wait>, id: Id)
    ensures forall x :: x in M.WaitIds(M.Unlisted(ws, id)) <==> x in M.WaitIds(ws) && x != id
  {
    if ws != [] {
      UnlistedIds(ws[1..], id);
    }
  }

  lemma ReportLists(u: M.Setup, rem: M.Remediator, id: Id, m: Moment)
    ensures forall x :: x in M.WaitIds(Report(u, rem, id, m).since) ==> x in M.WaitIds(rem.since) || x == id
  {
    WaitIdsAppend(rem.since, M.Wait(id, m.seen));
  }

  lemma EvictReportingJoinsNone(c: Config, u: M.Setup, j: Joint, id: Id, reason: Reason, now: real, done: real,
                                m: Moment, removed: set<Id>)
    requires Good(c, j.ring, removed) && id in j.ring.inner
    ensures NoneJoins(j, EvictReporting(c, u, j, id, reason, now, done, m))
  {
    MoveToOuterKeeps(c, j.ring, id, reason, now, done);
    MoveToOuterEffect(c, j.ring, id, reason, now, done);
    ReportLists(u, j.rem, id, m);
  }

  lemma {:induction false} StepOneJoinsNone(c: Config, u: M.Setup, j: Joint, due: seq<Due>, rd: Readings, k: nat,
                                            i: nat, removed: set<Id>)
    requires Good(c, j.ring, removed) && Distinct(DueIds(due))
    requires forall id :: id in DueIds(due) ==> id in j.ring.inner
    ensures NoneJoins(j, EvictAllReporting(c, u, j, due, rd, k, i))
    decreases |due|
  {
    if due != [] {
      var id, reason, now, done := due[0].id, due[0].reason, Tick(rd.clk, k), Tick(rd.clk, k + 1);
      MoveToOuterKeeps(c, j.ring, id, reason, now, done);
      MoveToOuterEffect(c, j.ring, id, reason, now, done);
      TailDistinct(id, DueIds(due[1..]));
      EvictReportingJoinsNone(c, u, j, id, reason, now, done, rd.evictions(i), removed);
      StepOneJoinsNone(c, u, EvictReporting(c, u, j, id, reason, now, done, rd.evictions(i)), due[1..], rd, k + 2,
                       i + 1, removed);
    }
  }

  /** A server that step 2 promotes is cool, so it is taken off the list. */
  lemma ReturnJoinsNone(c: Config, th: Thresholds, j: Joint, clk: Clock, k: nat)
    requires MayPromote(c, th, j.ring, clk, k, j.rem.quarantined)
    ensures NoneJoins(j, Pull(j, th.cool, Tick(clk, k + 2)))
  {
    UnlistedIds(j.rem.since, j.ring.outer[0]);
  }

  lemma {:induction false} StepTwoJoinsNone(c: Config, th: Thresholds, j: Joint, clk: Clock, k: nat)
    ensures NoneJoins(j, PromoteReporting(c, th, j, clk, k))
    decreases |j.ring.outer|
  {
    if MayPromote(c, th, j.ring, clk, k, j.rem.quarantined) {
      var j1 := Pull(j, th.cool, Tick(clk, k + 2));
      ReturnJoinsNone(c, th, j, clk, k);
      if |j1.ring.outer| < |j.ring.outer| {
        StepTwoJoinsNone(c, th, j1, clk, k + 3);
      }
    }
  }

  /** An open circuit starts a remediation, and changes neither the rings nor the list. */
  lemma TrippedIsReported(c: Config, u: M.Setup, j: Joint, id: Id, now: real, done: real, m: Moment)
    ensures
      var t, t1 := EvictTripped(c, u, j, id, now, done, m), EvictReporting(c, u, j, id, HealthFail, now, done, m);
      t.ring == t1.ring == MoveToOuter(c, j.ring, id, HealthFail, now, done) && t.rem.since == t1.rem.since
  {
  }

  lemma EvictedIsGood(c: Config, r: Ring, id: Id, reason: Reason, now: real, done: real, removed: set<Id>)
    requires Good(c, r, removed) && id in r.inner
    ensures Good(c, MoveToOuter(c, r, id, reason, now, done), removed)
  {
    MoveToOuterKeeps(c, r, id, reason, now, done);
    MoveToOuterEffect(c, r, id, reason, now, done);
  }

  lemma EvictTrippedJoinsNone(c: Config, u: M.Setup, j: Joint, id: Id, now: real, done: real, m: Moment,
                              removed: set<Id>)
    requires Good(c, j.ring, removed) && id in j.ring.inner
    ensures NoneJoins(j, EvictTripped(c, u, j, id, now, done, m))
    ensures EvictTripped(c, u, j, id, now, done, m).ring == MoveToOuter(c, j.ring, id, HealthFail, now, done)
    ensures Good(c, MoveToOuter(c, j.ring, id, HealthFail, now, done), removed)
  {
    EvictedIsGood(c, j.ring, id, HealthFail, now, done, removed);
    EvictReportingJoinsNone(c, u, j, id, HealthFail, now, done, m, removed);
    TrippedIsReported(c, u, j, id, now, done, m);
    SameLingers(j, EvictReporting(c, u, j, id, HealthFail, now, done, m), EvictTripped(c, u, j, id, now, done, m));
  }

  lemma SameLingers(j: Joint, t: Joint, t': Joint)
    requires NoneJoins(j, t) && t'.ring == t.ring && t'.rem.since == t.rem.since
    ensures NoneJoins(j, t')
  {
    forall id | Lingers(t', id)
      ensures Lingers(j, id)
    {
      assert Lingers(t, id);
    }
  }

  lemma {:induction false} StepThreeJoinsNone(c: Config, u: M.Setup, j: Joint, ids: seq<Id>, rd: Readings, k: nat,
                                              i: nat, removed: set<Id>)
    requires Good(c, j.ring, removed) && Distinct(ids) && forall id :: id in ids ==> id in j.ring.inner
    ensures NoneJoins(j, EvictSickReporting(c, u, j, ids, rd, k, i))
    decreases |ids|
  {
    if ids != [] && |j.ring.inner| > c.minInner {
      assert ids == [ids[0]] + ids[1..];
      TailDistinct(ids[0], ids[1..]);
      if Sick(c, At(j.ring.servers, ids[0])) {
        var now, done, m := Tick(rd.clk, k), Tick(rd.clk, k + 1), rd.evictions(i);
        MoveToOuterEffect(c, j.ring, ids[0], HealthFail, now, done);
        EvictTrippedJoinsNone(c, u, j, ids[0], now, done, m, removed);
        StepThreeJoinsNone(c, u, EvictTripped(c, u, j, ids[0], now, done, m), ids[1..], rd, k + 2, i + 1, removed);
      } else {
        StepThreeJoinsNone(c, u, j, ids[1..], rd, k, i, removed);
      }
    }
  }

  lemma ThreeStepsJoinNone(c: Config, th: Thresholds, u: M.Setup, j: Joint, rd: Readings, removed: set<Id>)
    requires ValidConfig(c) && Good(c, j.ring, removed)
    ensures NoneJoins(j, AfterThree(c, th, u, j, rd))
  {
    var due := ToEvict(c, th, j.ring, Tick(rd.clk, 0));
    var j1, j2 := AfterOne(c, th, u, j, rd), AfterTwo(c, th, u, j, rd);
    ToEvictIsDue(c, th, j.ring, Tick(rd.clk, 0));
    var first := StepOneIsSafe(c, u, j, due, rd, 1, 0, removed);
    StepOneJoinsNone(c, u, j, due, rd, 1, 0, removed);
    StepTwoKeeps(c, th, j1, rd.clk, GateReading(j.ring), removed);
    StepTwoJoinsNone(c, th, j1, rd.clk, GateReading(j.ring));
    StepThreeJoinsNone(c, u, j2, j2.ring.inner, rd, SickReading(j.ring, j1.ring), |due|, removed);
  }

  lemma StepTwoKeeps(c: Config, th: Thresholds, j: Joint, clk: Clock, k: nat, removed: set<Id>)
    requires Good(c, j.ring, removed)
    ensures
      var t := PromoteReporting(c, th, j, clk, k);
      Good(c, t.ring, removed) && Distinct(t.ring.inner)
  {
    PromoteKeeps(c, th, j.ring, clk, k, j.rem.quarantined, removed);
    var moves := StepTwoIsSafe(c, th, j, clk, k, j.rem.quarantined);
    InnerDistinct(PromoteReporting(c, th, j, clk, k).ring);
  }

  /** Only a server that was on the list before the cycle, and in the inner ring at the same time, can be
      struck: one pulled in warm by a refill, or registered again. */
  lemma {:induction false} OnlyLingeringAreStruck(c: Config, th: Thresholds, u: M.Setup, j: Joint, rd: Readings,
                                                  removed: set<Id>)
    requires ValidConfig(c) && Good(c, j.ring, removed)
    ensures ScanStrikes(c, th, u, j, rd) ==> exists id :: Lingers(j, id)
  {
    if ScanStrikes(c, th, u, j, rd) {
      var j3 := AfterThree(c, th, u, j, rd);
      ThreeStepsJoinNone(c, th, u, j, rd, removed);
      var overdue := M.Scan(u, j3.rem, rd.scan);
      var n :| 0 <= n < |overdue| && Strikes(u, j3.ring, j3.rem, overdue, rd.acts, n);
      ScanFindsListed(u, j3.rem, rd.scan, overdue[n]);
      assert Lingers(j3, overdue[n].id);
    }
  }

  lemma ScanFindsListed(u: M.Setup, rem: M.Remediator, now: real, x: M.Overdue)
    requires x in M.Scan(u, rem, now)
    ensures x.id in M.WaitIds(rem.since)
  {
    OverdueForAllFinds(rem.since, u.policies, now, x);
    var w :| w in rem.since && w.id == x.id;
    ListedIds(rem.since, w);
  }

  lemma {:induction false} ListedIds(ws: seq<M.Wait>, w: M.Wait)
    requires w in ws
    ensures w.id in M.WaitIds(ws)
  {
    if ws[0] != w {
      ListedIds(ws[1..], w);
    }
  }

  // ----- A run that the scan ends badly -----

  const WATCHFUL := M.Setup(true, [M.Policy(true, 3, M.StaleOuterRing, 3, 60.0)], 3)

  /** One minute later, nothing to evict, and no time passes during the cycle. */
  function AMinuteLater(): Readings {
    var act := M.Act(60.0, 60.0, true, 60.0);
    Readings([60.0], (i: nat) => Moment(60.0, act, act), 60.0, (i: nat) => act)
  }

  lemma TwoInside() returns (moves: seq<Move>, states: seq<Joint>)
    ensures QuarantineLaws.IsRun(SMALL, moves, states) && |moves| == 2
    ensures states[2] == Joint(Ring(map[0 := WARM.(position := Inner), 1 := WARM.(position := Inner)], [0, 1], [], [],
                                    map[]), M.FRESH)
  {
    moves, states := [], [BEGIN];
    moves, states := OneMore(SMALL, moves, states, Enroll(0, WARM, true, 0.0));
    moves, states := OneMore(SMALL, moves, states, Enroll(1, WARM, true, 0.0));
  }

  /** Server 1 is evicted, ... */
  lemma OneEvicted() returns (moves: seq<Move>, states: seq<Joint>)
    ensures QuarantineLaws.IsRun(SMALL, moves, states) && |moves| == 3
    ensures states[3] == Joint(Ring(map[0 := WARM.(position := Inner), 1 := WARM], [0], [], [1], map[]), M.FRESH)
  {
    moves, states := TwoInside();
    moves, states := OneMore(SMALL, moves, states, Evict(1, Rings.Manual, 0.0, 0.0));
    assert Without([0, 1], 1) == [0];
    assert multiset(states[3].ring.outer) == multiset{1};
    OneElement(states[3].ring.outer, 1);
  }

  /** ... and pulled back warm when server 0 is removed: it stays on the list. */
  lemma PulledBackWarm() returns (moves: seq<Move>, states: seq<Joint>)
    ensures QuarantineLaws.IsRun(SMALL, moves, states) && |moves| == 6
    ensures
      var j := states[6];
      && j.ring.inner == [1] && j.ring.outer == [] && j.ring.servers == map[1 := WARM.(position := Inner)]
      && j.rem == M.FRESH.(since := [M.Wait(1, 0.0)], evictions := map[1 := 1])
  {
    moves, states := OneEvicted();
    moves, states := OneMore(SMALL, moves, states, Counting(1, 0.0));
    assert states[4].rem == M.FRESH.(since := [M.Wait(1, 0.0)], evictions := map[1 := 1]);
    moves, states := OneMore(SMALL, moves, states, Withdraw(0));
    assert states[5].ring.inner == [] && states[5].ring.outer == [1];
    moves, states := OneMore(SMALL, moves, states, Refill(0.3, 0.0));
  }

  /** A minute later a rotation moves nobody, but its scan puts the only inner server in quarantine, where
      it goes on being served from. */
  lemma ScanExposes() returns (moves: seq<Move>, states: seq<Joint>)
    ensures QuarantineLaws.IsRun(SMALL, moves, states) && |moves| == 6
    ensures Sheltered(states[6])
    ensures
      var t := RotateHealing(SMALL, Thresholds(0.55, 0.3), WATCHFUL, states[6], AMinuteLater());
      t.ring == states[6].ring && !Sheltered(t) && Exposes(t)
  {
    moves, states := PulledBackWarm();
    NothingToDo(states[6]);
    ScanFindsOne(states[6].rem);
  }

  lemma NothingToDo(j: Joint)
    requires j.ring.inner == [1] && j.ring.outer == [] && j.ring.servers == map[1 := WARM.(position := Inner)]
    ensures AfterThree(SMALL, Thresholds(0.55, 0.3), WATCHFUL, j, AMinuteLater()) == j
  {
    assert ToEvict(SMALL, Thresholds(0.55, 0.3), j.ring, 60.0) == [];
  }

  lemma ScanFindsOne(rem: M.Remediator)
    requires rem == M.FRESH.(since := [M.Wait(1, 0.0)], evictions := map[1 := 1])
    ensures
      var overdue := M.Scan(WATCHFUL, rem, 60.0);
      var t := TriggerFrom(WATCHFUL, rem, overdue, AMinuteLater().acts, 0);
      overdue == [M.Overdue(1, WATCHFUL.policies[0])] && t.quarantined == {1}
  {
    var p := WATCHFUL.policies[0];
    assert [M.Wait(1, 0.0)][1..] == [] && WATCHFUL.policies[1..] == [];
    assert M.OverdueFor(rem.since, p, 60.0) == [M.Overdue(1, p)];
    assert M.After(M.Attempts(rem, 1), 60.0 - M.HOUR) == [];
  }
}
