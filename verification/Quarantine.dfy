/** The rings and the remediator together: a server in quarantine is meant to get no live traffic
    (`is_quarantined`, huddle_cluster_pkg/cluster_remediator.py), yet the set is read in one place only,
    the gate of step 2 of `rotate()`. Which moves keep quarantined servers out of the inner ring? */
module Quarantine {
  import opened HeapQueue
  import opened Options
  import opened Rings
  import opened RingLaws
  import M = Remediation

  datatype Joint = Joint(ring: Ring, rem: M.Remediator)

  /** The moves the two objects are made of. A remediation may be triggered at any time: by an eviction, by
      a circuit breaker, by the scan of step 4 for servers long on the remediator's list, or by hand. */
  datatype Move =
    | Enroll(id: Id, server: Server, forceInner: bool, now: real)  // add_server
    | Withdraw(id: Id)                                             // remove_server, before the refill
    | Refill(cool: real, now: real)                                // one turn of _maybe_pull_from_outer
    | Evict(id: Id, reason: Reason, now: real, done: real)         // _move_to_outer
    | Settle(id: Id, now: real)                                    // one completed drain
    | Return(th: Thresholds, clk: Clock, k: nat)                   // one turn of step 2
    | Counting(id: Id, now: real)                                  // record_eviction
    | Admitting(id: Id, limit: int, now: real, then_: real)        // trigger_remediation, first part
    | Concluding(id: Id, success: bool, at: real)                  // its second part
    | Releasing(id: Id)                                            // clear_quarantine
    | Route(key: Option<SessionKey>)
    | RouteExcluding(excluded: set<Id>)
    | Observing(id: Id, weight: real, temperature: real, metrics: Metrics)

  ghost predicate Enabled(c: Config, j: Joint, m: Move) {
    match m
    case Enroll(id, _, _, _) => id !in j.ring.servers
    case Refill(_, _) => j.ring.outer != [] && |j.ring.inner| < c.minInner
    case Evict(id, _, _, _) => id in j.ring.inner
    case Settle(id, _) => id in DrainIds(j.ring.draining)
    case Return(th, clk, k) => MayPromote(c, th, j.ring, clk, k, j.rem.quarantined)
    case _ => true
  }

  /** `_move_to_inner` of the coolest server, which reports a recovery if it is really cool. */
  function Pull(j: Joint, cool: real, now: real): Joint
    requires j.ring.outer != []
  {
    var id := j.ring.outer[0];
    Joint(PullCoolest(j.ring, now), if At(j.ring.servers, id).temperature <= cool then M.Recover(j.rem, id) else j.rem)
  }

  function ForgetServer(r: Ring, id: Id): Ring {
    if id in r.inner then r.(inner := Without(r.inner, id), servers := r.servers - {id})
    else if id in r.outer then
      r.(outer := Heapify(Temp(r.servers), Without(r.outer, id)), servers := r.servers - {id})
    else r
  }

  function Apply(c: Config, j: Joint, m: Move): Joint
    requires Enabled(c, j, m)
  {
    match m
    case Enroll(id, s, forceInner, now) => j.(ring := Add(c, j.ring, id, s, forceInner, now))
    case Withdraw(id) => j.(ring := ForgetServer(j.ring, id))
    case Refill(cool, now) => Pull(j, cool, now)
    case Evict(id, reason, now, done) => j.(ring := MoveToOuter(c, j.ring, id, reason, now, done))
    case Settle(id, now) => j.(ring := FinishDrain(j.ring, id, now))
    case Return(th, clk, k) => Pull(j, th.cool, Tick(clk, k + 2))
    case Counting(id, now) => j.(rem := M.CountEviction(j.rem, id, now))
    case Admitting(id, limit, now, then_) => j.(rem := M.Admit(j.rem, limit, id, now, then_).0)
    case Concluding(id, success, at) => j.(rem := M.Conclude(j.rem, id, success, at))
    case Releasing(id) => j.(rem := M.Clear(j.rem, id))
    case Route(key) => j.(ring := GetServer(j.ring, key).0)
    case RouteExcluding(excluded) => j.(ring := GetExcluding(j.ring, excluded).0)
    case Observing(id, weight, temperature, m) => j.(ring := Observe(j.ring, id, weight, temperature, m))
  }

  /** No server in quarantine is in the inner ring. */
  ghost predicate Sheltered(j: Joint) { forall id :: id in j.rem.quarantined ==> id !in j.ring.inner }

  /** The server goes straight to the inner ring. */
  predicate EntersInner(c: Config, r: Ring, forceInner: bool) {
    c.coldStart <= 0.0 && forceInner && |r.inner| < c.maxInner
  }

  /** Reporting its recovery lifts the server's quarantine. */
  predicate Recovers(j: Joint, id: Id, cool: real) {
    && At(j.ring.servers, id).temperature <= cool
    && id in j.rem.states && (j.rem.states[id] == M.Verifying || j.rem.states[id] == M.Healing)
  }

  /** The check that three of the moves would need and the source does not make. */
  ghost predicate Guarded(c: Config, j: Joint, m: Move)
    requires Enabled(c, j, m)
  {
    match m
    case Enroll(id, _, forceInner, _) => EntersInner(c, j.ring, forceInner) ==> id !in j.rem.quarantined
    case Refill(cool, _) => j.ring.outer[0] in j.rem.quarantined ==> Recovers(j, j.ring.outer[0], cool)
    case Admitting(id, limit, now, then_) => M.Admit(j.rem, limit, id, now, then_).1 ==> id !in j.ring.inner
    case _ => true
  }
}
