/** A whole `rotate()` with the remediator attached: the evictions of steps 1 and 3 are reported to it and
    may start remediations, step 2 asks it and reports recoveries, and step 4 starts one for every server
    that has been on its list for too long. */
module Healing {
  import opened Options
  import opened Rings
  import opened Quarantine
  import M = Remediation

  /** What one eviction meets: the wall clock when it is reported, and the remediations it may start, for
      its heat and for its open circuit. */
  datatype Moment = Moment(seen: real, heat: M.Act, circuit: M.Act)

  /** The readings of one cycle: those of the monotonic clock, the moments of its evictions in order, the
      wall clock at the scan, and the remediations the scan starts. */
  datatype Readings = Readings(clk: Clock, evictions: nat -> Moment, scan: real, acts: nat -> M.Act)

  function TriggerIf(u: M.Setup, rem: M.Remediator, p: Option<M.Policy>, id: Id, a: M.Act): M.Remediator {
    match p
    case None => rem
    case Some(policy) => M.Trigger(u, rem, policy, id, a)
  }

  /** The last part of `_complete_eviction`. */
  function Report(u: M.Setup, rem: M.Remediator, id: Id, m: Moment): M.Remediator {
    var (rem1, p) := M.RecordEviction(u, rem, id, m.seen);
    TriggerIf(u, rem1, p, id, m.heat)
  }

  /** `_move_to_outer`; a server that drains first is not reported yet. */
  function EvictReporting(c: Config, u: M.Setup, j: Joint, id: Id, reason: Reason, now: real, done: real, m: Moment)
    : Joint
  {
    Joint(MoveToOuter(c, j.ring, id, reason, now, done),
          if Parks(c, j.ring, id) then j.rem else Report(u, j.rem, id, m))
  }

  function EvictAllReporting(c: Config, u: M.Setup, j: Joint, due: seq<Due>, rd: Readings, k: nat, i: nat): Joint
    decreases |due|
  {
    if due == [] then j
    else
      var j1 := EvictReporting(c, u, j, due[0].id, due[0].reason, Tick(rd.clk, k), Tick(rd.clk, k + 1),
                               rd.evictions(i));
      EvictAllReporting(c, u, j1, due[1..], rd, k + 2, i + 1)
  }

  function PromoteReporting(c: Config, th: Thresholds, j: Joint, clk: Clock, k: nat): Joint
    decreases |j.ring.outer|
  {
    if MayPromote(c, th, j.ring, clk, k, j.rem.quarantined)
    then
      var j1 := Pull(j, th.cool, Tick(clk, k + 2));
      if |j1.ring.outer| < |j.ring.outer| then PromoteReporting(c, th, j1, clk, k + 3) else j1
    else j
  }

  /** One server of step 3. */
  function EvictTripped(c: Config, u: M.Setup, j: Joint, id: Id, now: real, done: real, m: Moment): Joint {
    var j1 := EvictReporting(c, u, j, id, HealthFail, now, done, m);
    if CircuitOpen(c, At(j.ring.servers, id))
    then j1.(rem := TriggerIf(u, j1.rem, M.CircuitPolicy(u), id, m.circuit))
    else j1
  }

  function EvictSickReporting(c: Config, u: M.Setup, j: Joint, ids: seq<Id>, rd: Readings, k: nat, i: nat): Joint
    decreases |ids|
  {
    if ids == [] || |j.ring.inner| <= c.minInner then j
    else if Sick(c, At(j.ring.servers, ids[0])) then
      EvictSickReporting(c, u,
                         EvictTripped(c, u, j, ids[0], Tick(rd.clk, k), Tick(rd.clk, k + 1), rd.evictions(i)),
                         ids[1..], rd, k + 2, i + 1)
    else EvictSickReporting(c, u, j, ids[1..], rd, k, i)
  }

  /** The loop of step 4, from entry `n` of the scan on. */
  function TriggerFrom(u: M.Setup, rem: M.Remediator, overdue: seq<M.Overdue>, acts: nat -> M.Act, n: nat)
    : M.Remediator
    requires n <= |overdue|
    decreases |overdue| - n
  {
    if n == |overdue| then rem
    else TriggerFrom(u, M.Trigger(u, rem, overdue[n].policy, overdue[n].id, acts(n)), overdue, acts, n + 1)
  }

  // ----- The four steps -----

  function AfterOne(c: Config, th: Thresholds, u: M.Setup, j: Joint, rd: Readings): Joint {
    EvictAllReporting(c, u, j, ToEvict(c, th, j.ring, Tick(rd.clk, 0)), rd, 1, 0)
  }

  function AfterTwo(c: Config, th: Thresholds, u: M.Setup, j: Joint, rd: Readings): Joint {
    PromoteReporting(c, th, AfterOne(c, th, u, j, rd), rd.clk, GateReading(j.ring))
  }

  function AfterThree(c: Config, th: Thresholds, u: M.Setup, j: Joint, rd: Readings): Joint {
    var j1, j2 := AfterOne(c, th, u, j, rd), AfterTwo(c, th, u, j, rd);
    EvictSickReporting(c, u, j2, j2.ring.inner, rd, SickReading(j.ring, j1.ring),
                       |ToEvict(c, th, j.ring, Tick(rd.clk, 0))|)
  }

  function RotateHealing(c: Config, th: Thresholds, u: M.Setup, j: Joint, rd: Readings): Joint {
    var j3 := AfterThree(c, th, u, j, rd);
    j3.(rem := TriggerFrom(u, j3.rem, M.Scan(u, j3.rem, rd.scan), rd.acts, 0))
  }
}
