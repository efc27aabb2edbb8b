/** Self-healing actions under an hourly limit (huddle_cluster_pkg/cluster_remediator.py). A remediation
    takes the lock twice, to be admitted and to be concluded; the action runs in between. */
module Remediation {
  import opened Options

  type Id = nat

  const HOUR := 3600.0
  const HISTORY_LIMIT := 100

  datatype Health = Healthy | Quarantined | Healing | Verifying | Recovered | DeadLetter

  datatype Cause = ConsecutiveOverheat | CircuitBreakerOpen | StaleOuterRing | CanaryFailed | Manual

  datatype Policy = Policy(enabled: bool, maxRetries: int, cause: Cause, evictionsNeeded: int, staleDwell: real)

  /** An entry of `_outer_ring_since`, which keeps its insertion order. */
  datatype Wait = Wait(id: Id, from_: real)

  datatype Entry = Entry(at: real, server: Id, success: bool, throttled: bool)

  datatype Remediator = Remediator(
    attempts: map<Id, seq<real>>, states: map<Id, Health>, quarantined: set<Id>, evictions: map<Id, nat>,
    since: seq<Wait>, history: seq<Entry>, total: nat, successful: nat, failed: nat, throttled: nat)

  const FRESH := Remediator(map[], map[], {}, map[], [], [], 0, 0, 0, 0)

  /** What the constructor and `add_policy` leave: the policies in order, and the switch for all of it. */
  datatype Setup = Setup(enabled: bool, policies: seq<Policy>, defaultRetries: int)

  /** policy.max_retries_per_hour or self.default_max_retries */
  function Limit(p: Policy, default: int): int { if p.maxRetries != 0 then p.maxRetries else default }

  function Attempts(r: Remediator, id: Id): seq<real> { if id in r.attempts then r.attempts[id] else [] }

  /** [t for t in times if t > start] */
  function After(times: seq<real>, start: real): seq<real> {
    if times == [] then []
    else if times[0] > start then [times[0]] + After(times[1..], start)
    else After(times[1..], start)
  }

  /** `_record_history` */
  function Note(history: seq<Entry>, e: Entry): seq<Entry> {
    var h := history + [e];
    if |h| > HISTORY_LIMIT then h[1..] else h
  }

  /** The first locked part: `now` is the clock at the check, `then_` when the attempt, or its refusal,
      is stamped. */
  function Admit(r: Remediator, limit: int, id: Id, now: real, then_: real): (Remediator, bool) {
    var recent := After(Attempts(r, id), now - HOUR);
    if |recent| >= limit then
      (r.(attempts := r.attempts[id := recent], states := r.states[id := DeadLetter], throttled := r.throttled + 1,
          history := Note(r.history, Entry(then_, id, false, true))), false)
    else
      (r.(attempts := r.attempts[id := recent + [then_]], states := r.states[id := Quarantined],
          quarantined := r.quarantined + {id}, total := r.total + 1), true)
  }

  /** The second locked part. */
  function Conclude(r: Remediator, id: Id, success: bool, at: real): Remediator {
    var r1 := r.(history := Note(r.history, Entry(at, id, success, false)));
    if success
    then r1.(states := r.states[id := Healing], evictions := r.evictions[id := 0], successful := r.successful + 1)
    else r1.(states := r.states[id := DeadLetter], failed := r.failed + 1)
  }

  function WaitIds(ws: seq<Wait>): seq<Id> { if ws == [] then [] else [ws[0].id] + WaitIds(ws[1..]) }

  /** `dict.pop` */
  function Unlisted(ws: seq<Wait>, id: Id): seq<Wait> {
    if ws == [] then []
    else if ws[0].id == id then Unlisted(ws[1..], id)
    else [ws[0]] + Unlisted(ws[1..], id)
  }

  function Evictions(r: Remediator, id: Id): nat { if id in r.evictions then r.evictions[id] else 0 }

  /** What `record_eviction` writes down. */
  function CountEviction(r: Remediator, id: Id, now: real): Remediator {
    r.(since := if id in WaitIds(r.since) then r.since else r.since + [Wait(id, now)],
       evictions := r.evictions[id := Evictions(r, id) + 1])
  }

  /** The first enabled policy for this cause whose eviction count, if it has one, is reached. */
  function FirstMatch(policies: seq<Policy>, cause: Cause, count: int): Option<Policy> {
    if policies == [] then None
    else if policies[0].enabled && policies[0].cause == cause
            && (cause == ConsecutiveOverheat ==> count >= policies[0].evictionsNeeded)
    then Some(policies[0])
    else FirstMatch(policies[1..], cause, count)
  }

  /** `record_eviction` */
  function RecordEviction(u: Setup, r: Remediator, id: Id, now: real): (Remediator, Option<Policy>) {
    if !u.enabled then (r, None)
    else
      var r1 := CountEviction(r, id, now);
      (r1, FirstMatch(u.policies, ConsecutiveOverheat, Evictions(r1, id)))
  }

  /** `record_circuit_breaker_open` */
  function CircuitPolicy(u: Setup): Option<Policy> {
    if u.enabled then FirstMatch(u.policies, CircuitBreakerOpen, 0) else None
  }

  datatype Overdue = Overdue(id: Id, policy: Policy)

  function OverdueFor(ws: seq<Wait>, p: Policy, now: real): seq<Overdue> {
    if ws == [] then []
    else
      var rest := OverdueFor(ws[1..], p, now);
      if now - ws[0].from_ >= p.staleDwell then [Overdue(ws[0].id, p)] + rest else rest
  }

  function OverdueForAll(ws: seq<Wait>, policies: seq<Policy>, now: real): seq<Overdue> {
    if policies == [] then []
    else
      var rest := OverdueForAll(ws, policies[1..], now);
      if policies[0].enabled && policies[0].cause == StaleOuterRing then OverdueFor(ws, policies[0], now) + rest
      else rest
  }

  /** `check_stale_cooling_ring`: it goes by the list alone, whatever ring the server is in. */
  function Scan(u: Setup, r: Remediator, now: real): seq<Overdue> {
    if u.enabled then OverdueForAll(r.since, u.policies, now) else []
  }

  /** What one `trigger_remediation` meets: the clock at the check, at the stamp and at the end, and what
      the action returns. */
  datatype Act = Act(now: real, stamp: real, success: bool, done: real)

  /** `trigger_remediation`, when nothing interrupts it. */
  function Trigger(u: Setup, r: Remediator, p: Policy, id: Id, a: Act): Remediator {
    if !u.enabled || !p.enabled then r
    else
      var (r1, admitted) := Admit(r, Limit(p, u.defaultRetries), id, a.now, a.stamp);
      if admitted then Conclude(r1, id, a.success, a.done) else r1
  }

  /** `record_recovery` */
  function Recover(r: Remediator, id: Id): Remediator {
    var r1 := r.(evictions := r.evictions[id := 0], since := Unlisted(r.since, id));
    if id in r.states && (r.states[id] == Verifying || r.states[id] == Healing)
    then r1.(states := r.states[id := Recovered], quarantined := r.quarantined - {id})
    else r1
  }

  /** `clear_quarantine` */
  function Clear(r: Remediator, id: Id): Remediator {
    r.(quarantined := r.quarantined - {id}, states := r.states[id := Healthy], evictions := r.evictions[id := 0],
       since := Unlisted(r.since, id))
  }
}

module RemediatorObject {
  import opened Options
  import opened Remediation

  class ClusterRemediator {
    const enabled: bool
    const defaultMaxRetries: int
    var policies: seq<Policy>
    var attempts: map<Id, seq<real>>
    var states: map<Id, Health>
    var quarantined: set<Id>
    var evictions: map<Id, nat>
    var since: seq<Wait>
    var history: seq<Entry>
    var total: nat
    var successful: nat
    var failed: nat
    var throttled: nat

    ghost function Value(): Remediator
      reads this
    {
      Remediator(attempts, states, quarantined, evictions, since, history, total, successful, failed, throttled)
    }

    ghost function Config(): Setup
      reads this
    {
      Setup(enabled, policies, defaultMaxRetries)
    }

    constructor (enabled: bool, policies: seq<Policy>, defaultMaxRetries: int)
      ensures Config() == Setup(enabled, policies, defaultMaxRetries) && Value() == FRESH
    {
      this.enabled, this.policies, this.defaultMaxRetries := enabled, policies, defaultMaxRetries;
      attempts, states, quarantined, evictions, since, history := map[], map[], {}, map[], [], [];
      total, successful, failed, throttled := 0, 0, 0, 0;
    }

    method CheckHourlyRateLimit(id: Id, maxRetries: int, now: real) returns (ok: bool)
      modifies `attempts
      ensures attempts == old(attempts)[id := After(Attempts(old(Value()), id), now - HOUR)]
      ensures ok <==> |attempts[id]| < maxRetries
    {
      var windowStart := now - HOUR;
      var all := if id in attempts then attempts[id] else [];
      var timestamps: seq<real> := [];
      assert all[0..] == all;
      for i := 0 to |all|
        invariant After(all, windowStart) == timestamps + After(all[i..], windowStart)
      {
        assert all[i..][1..] == all[i + 1..];
        if all[i] > windowStart {
          timestamps := timestamps + [all[i]];
        }
      }
      assert all[|all|..] == [] && timestamps + [] == timestamps;
      attempts := attempts[id := timestamps];
      ok := |timestamps| < maxRetries;
    }

    method RecordHistory(e: Entry)
      modifies `history
      ensures history == Note(old(history), e)
    {
      history := history + [e];
      if |history| > HISTORY_LIMIT {
        history := history[1..];
      }
    }

    method AdmitRemediation(p: Policy, id: Id, now: real, then_: real) returns (admitted: bool)
      modifies this
      ensures Config() == old(Config())
      ensures (Value(), admitted) == Admit(old(Value()), Limit(p, defaultMaxRetries), id, now, then_)
    {
      var maxRetries := if p.maxRetries != 0 then p.maxRetries else defaultMaxRetries;
      admitted := CheckHourlyRateLimit(id, maxRetries, now);
      if !admitted {
        throttled := throttled + 1;
        states := states[id := DeadLetter];
        RecordHistory(Entry(then_, id, false, true));
      } else {
        quarantined := quarantined + {id};
        states := states[id := Quarantined];
        ghost var checked := attempts;
        attempts := attempts[id := attempts[id] + [then_]];
        assert attempts == old(attempts)[id := checked[id] + [then_]];
        total := total + 1;
      }
    }

    method ConcludeRemediation(id: Id, success: bool, at: real)
      modifies this
      ensures Config() == old(Config()) && Value() == Conclude(old(Value()), id, success, at)
    {
      if success {
        successful := successful + 1;
        states := states[id := Healing];
        evictions := evictions[id := 0];
      } else {
        failed := failed + 1;
        states := states[id := DeadLetter];
      }
      RecordHistory(Entry(at, id, success, false));
    }

    /** A whole remediation that nothing interrupts. */
    method TriggerRemediation(p: Policy, id: Id, a: Act) returns (success: bool)
      modifies this
      ensures Config() == old(Config()) && Value() == Trigger(Config(), old(Value()), p, id, a)
      ensures success <==>
        enabled && p.enabled && a.success
        && Admit(old(Value()), Limit(p, defaultMaxRetries), id, a.now, a.stamp).1
    {
      if !enabled || !p.enabled {
        return false;
      }
      var admitted := AdmitRemediation(p, id, a.now, a.stamp);
      if !admitted {
        return false;
      }
      ConcludeRemediation(id, a.success, a.done);
      success := a.success;
    }

    method NoteEviction(id: Id, now: real) returns (policy: Option<Policy>)
      modifies `since, `evictions
      ensures (Value(), policy) == RecordEviction(Config(), old(Value()), id, now)
    {
      if !enabled {
        return None;
      }
      if id !in WaitIds(since) {
        since := since + [Wait(id, now)];
      }
      var count := (if id in evictions then evictions[id] else 0) + 1;
      evictions := evictions[id := count];
      policy := FindPolicy(ConsecutiveOverheat, count);
    }

    method NoteCircuitBreakerOpen() returns (policy: Option<Policy>)
      ensures policy == CircuitPolicy(Config())
    {
      if !enabled {
        return None;
      }
      policy := FindPolicy(CircuitBreakerOpen, 0);
    }

    /** The loop over the policies. */
    method FindPolicy(cause: Cause, count: int) returns (policy: Option<Policy>)
      ensures policy == FirstMatch(policies, cause, count)
    {
      assert policies[0..] == policies;
      for i := 0 to |policies|
        invariant FirstMatch(policies, cause, count) == FirstMatch(policies[i..], cause, count)
      {
        assert policies[i..][1..] == policies[i + 1..];
        var p := policies[i];
        if p.enabled && p.cause == cause && (cause != ConsecutiveOverheat || count >= p.evictionsNeeded) {
          return Some(p);
        }
      }
      policy := None;
    }

    method CheckStaleCoolingRing(now: real) returns (overdue: seq<Overdue>)
      ensures overdue == Scan(Config(), Value(), now)
    {
      overdue := [];
      if !enabled {
        return;
      }
      assert policies[0..] == policies;
      for i := 0 to |policies|
        invariant OverdueForAll(since, policies, now) == overdue + OverdueForAll(since, policies[i..], now)
      {
        assert policies[i..][1..] == policies[i + 1..];
        if policies[i].enabled && policies[i].cause == StaleOuterRing {
          var more := CollectOverdue(policies[i], now);
          overdue := overdue + more;
        }
      }
      assert policies[|policies|..] == [] && overdue + [] == overdue;
    }

    method CollectOverdue(p: Policy, now: real) returns (overdue: seq<Overdue>)
      ensures overdue == OverdueFor(since, p, now)
    {
      overdue := [];
      assert since[0..] == since;
      for i := 0 to |since|
        invariant OverdueFor(since, p, now) == overdue + OverdueFor(since[i..], p, now)
      {
        assert since[i..][1..] == since[i + 1..];
        if now - since[i].from_ >= p.staleDwell {
          overdue := overdue + [Overdue(since[i].id, p)];
        }
      }
      assert since[|since|..] == [] && overdue + [] == overdue;
    }

    method RecordRecovery(id: Id)
      modifies this
      ensures Config() == old(Config()) && Value() == Recover(old(Value()), id)
    {
      evictions := evictions[id := 0];
      since := Unlisted(since, id);
      if id in states && (states[id] == Verifying || states[id] == Healing) {
        states := states[id := Recovered];
        quarantined := quarantined - {id};
      }
    }

    method ClearQuarantine(id: Id)
      modifies this
      ensures Config() == old(Config()) && Value() == Clear(old(Value()), id)
    {
      quarantined := quarantined - {id};
      states := states[id := Healthy];
      evictions := evictions[id := 0];
      since := Unlisted(since, id);
    }
  }
}
