/** Flap detection and quarantine against everything that ever happened to a node. */
module LifecycleLaws {
  import opened Options
  import opened Lifecycle

  /** The life of one record: signs of life, recorded deaths, and promotions out of quarantine. */
  datatype Event = Joined(at: real) | Beat(at: real) | Died(at: real) | Trusted

  /** All deaths since the record was created or last promoted out of quarantine. */
  function Deaths(log: seq<Event>): seq<real> {
    if log == [] then []
    else
      var before := Deaths(log[..|log| - 1]);
      match log[|log| - 1]
      case Died(t) => before + [t]
      case Trusted => []
      case _ => before
  }

  /** The pieces of evidence since the last recorded death: the sign of life that ended it, be it a
      join or a heartbeat, and every heartbeat since. */
  function Evidence(log: seq<Event>): nat {
    if log == [] then 0
    else
      var before := Evidence(log[..|log| - 1]);
      match log[|log| - 1]
      case Died(_) => 0
      case Beat(_) => before + 1
      case Joined(_) => if before == 0 then 1 else before
      case Trusted => before
  }

  /** Signs of life needed to leave quarantine. The entering one counts, and it takes a second. */
  function Required(p: Policy): int { if p.recovery < 2 then 2 else p.recovery }

  // ----- One record and its log -----

  datatype Tracked = Tracked(rec: Record, log: seq<Event>)

  function TrackJoin(p: Policy, old_: Option<Tracked>, now: real): Tracked {
    match old_
    case None => Tracked(NewRecord(now), [Joined(now)])
    case Some(t) => Tracked(Rejoin(p, t.rec, now), t.log + [Joined(now)])
  }

  /** A heartbeat that ends a quarantine is a promotion. */
  function TrackBeat(p: Policy, t: Tracked, now: real): Tracked {
    var rec := Heartbeat(p, t.rec, now);
    Tracked(rec, t.log + [Beat(now)] + (if t.rec.status == Quarantined && rec.status == Alive then [Trusted] else []))
  }

  function TrackTick(p: Policy, t: Tracked, now: real): Tracked {
    Tracked(Tick(p, t.rec, now), if TimesOut(p, t.rec, now) then t.log + [Died(now)] else t.log)
  }

  // ----- The invariant -----

  function Max(a: real, b: real): real { if a < b then b else a }

  /** Pruning has dropped nothing that a cutoff from `now` on could still ask for. */
  ghost predicate WindowExact(p: Policy, t: Tracked, now: real) {
    forall c: real :: c >= now - p.flapWindow ==> Since(t.rec.recentDeaths, c) == Since(Deaths(t.log), c)
  }

  /** No prune of this record was later: while it lives, its last sign of life; afterwards any reading
      so far. */
  function Pruned(t: Tracked, now: real): real { if t.rec.status == Dead then now else t.rec.lastHeartbeat }

  ghost predicate Sound(p: Policy, t: Tracked, now: real) {
    && WindowExact(p, t, Pruned(t, now)) && t.rec.lastHeartbeat <= now
    && t.rec.status != Leaving
    && (t.rec.status == Dead ==> Evidence(t.log) == 0)
    && (t.rec.status == Quarantined ==>
          |t.rec.recentDeaths| >= p.flapThreshold && t.rec.streak == Evidence(t.log)
          && 1 <= t.rec.streak < Required(p))
  }

  lemma SinceAppend(a: seq<real>, b: seq<real>, c: real)
    ensures Since(a + b, c) == Since(a, c) + Since(b, c)
  {
    if a == [] {
      assert a + b == b;
    } else {
      assert (a + b)[1..] == a[1..] + b;
      SinceAppend(a[1..], b, c);
    }
  }

  lemma SinceTwice(a: seq<real>, lower: real, c: real)
    requires c >= lower
    ensures Since(Since(a, lower), c) == Since(a, c)
  {
    if a != [] {
      SinceTwice(a[1..], lower, c);
      if a[0] >= lower {
        assert Since(a, lower)[1..] == Since(a[1..], lower);
      }
    }
  }

  lemma LastEvent(log: seq<Event>, e: Event)
    ensures (log + [e])[..|log| + 1 - 1] == log && (log + [e])[|log|] == e
  {}

  lemma NewIsSound(p: Policy, now: real)
    ensures Sound(p, TrackJoin(p, None, now), now)
  {
    assert Deaths([Joined(now)]) == [] by { assert [Joined(now)][..0] == []; }
  }

  /** A sign of life from a dead node: it is trusted at once if and only if the full history holds
      fewer than `flap_threshold` deaths in the last `flap_window` seconds. */
  lemma RecoveryDecision(p: Policy, t: Tracked, last: real, now: real)
    requires Sound(p, t, last) && last <= now && t.rec.status == Dead
    ensures Since(t.rec.recentDeaths, now - p.flapWindow) == Since(Deaths(t.log), now - p.flapWindow)
    ensures var flaps := |Since(Deaths(t.log), now - p.flapWindow)| >= p.flapThreshold;
      && Heartbeat(p, t.rec, now).status == (if flaps then Quarantined else Alive)
      && Rejoin(p, t.rec, now).status == (if flaps then Quarantined else Alive)
  {}

  lemma WindowKept(p: Policy, t: Tracked, u: Tracked, last: real, now: real)
    requires WindowExact(p, t, last) && last <= now && Deaths(u.log) == Deaths(t.log)
    requires u.rec.recentDeaths == t.rec.recentDeaths
          || u.rec.recentDeaths == Since(t.rec.recentDeaths, now - p.flapWindow)
    ensures WindowExact(p, u, now)
  {
    forall c: real | c >= now - p.flapWindow
      ensures Since(u.rec.recentDeaths, c) == Since(Deaths(u.log), c)
    {
      SinceTwice(t.rec.recentDeaths, now - p.flapWindow, c);
    }
  }

  lemma LaterIsSound(p: Policy, t: Tracked, last: real, now: real)
    requires Sound(p, t, last) && last <= now
    ensures Sound(p, t, now)
  {
  }

  lemma JoinIsSound(p: Policy, t: Tracked, last: real, now: real)
    requires Sound(p, t, last) && last <= now
    ensures Sound(p, TrackJoin(p, Some(t), now), now)
  {
    LastEvent(t.log, Joined(now));
    WindowKept(p, t, TrackJoin(p, Some(t), now), Pruned(t, last), now);
  }

  lemma BeatIsSound(p: Policy, t: Tracked, last: real, now: real)
    requires Sound(p, t, last) && last <= now
    ensures Sound(p, TrackBeat(p, t, now), now)
  {
    var u := TrackBeat(p, t, now);
    LastEvent(t.log, Beat(now));
    if t.rec.status == Quarantined && u.rec.status == Alive {
      LastEvent(t.log + [Beat(now)], Trusted);
      assert Deaths(u.log) == [];
    } else {
      assert u.log == t.log + [Beat(now)];
      WindowKept(p, t, u, Pruned(t, last), now);
    }
  }

  /** The monitor reads its clock before it takes the lock, so `now` may lie before `last`; but a record
      that it declares dead was last heard of before `now`. */
  lemma TickIsSound(p: Policy, t: Tracked, last: real, now: real)
    requires Sound(p, t, last) && p.timeout >= 0.0
    ensures Sound(p, TrackTick(p, t, now), Max(last, now))
  {
    var u, later := TrackTick(p, t, now), Max(last, now);
    if TimesOut(p, t.rec, now) {
      LastEvent(t.log, Died(now));
      forall c: real | c >= later - p.flapWindow
        ensures Since(u.rec.recentDeaths, c) == Since(Deaths(u.log), c)
      {
        SinceTwice(t.rec.recentDeaths + [now], now - p.flapWindow, c);
        SinceAppend(t.rec.recentDeaths, [now], c);
        SinceAppend(Deaths(t.log), [now], c);
      }
    } else {
      LaterIsSound(p, t, last, later);
    }
  }

  // ----- The registry over a whole run -----

  datatype Op = Join(id: Id, at: real) | HeartbeatFrom(id: Id, at: real) | Leave(id: Id, at: real) | Monitor(at: real)

  function Apply(p: Policy, g: map<Id, Tracked>, op: Op): map<Id, Tracked> {
    match op
    case Join(id, now) => g[id := TrackJoin(p, if id in g then Some(g[id]) else None, now)]
    case HeartbeatFrom(id, now) => if id in g then g[id := TrackBeat(p, g[id], now)] else g
    case Leave(id, _) => g - {id}
    case Monitor(now) => map id | id in g && !Purgeable(p, g[id].rec, now) :: TrackTick(p, g[id], now)
  }

  function RecordsOf(g: map<Id, Tracked>): map<Id, Record> { map id | id in g :: g[id].rec }

  /** The logs only watch: without them, an operation is what the master's object does. */
  lemma LogsOnlyWatch(p: Policy, g: map<Id, Tracked>, op: Op)
    ensures RecordsOf(Apply(p, g, op)) ==
      match op
      case Join(id, now) => RecordsOf(g)[id := if id in g then Rejoin(p, g[id].rec, now) else NewRecord(now)]
      case HeartbeatFrom(id, now) =>
        if id in g then RecordsOf(g)[id := Heartbeat(p, g[id].rec, now)] else RecordsOf(g)
      case Leave(id, _) => RecordsOf(g) - {id}
      case Monitor(now) => map id | id in g && !Purgeable(p, g[id].rec, now) :: Tick(p, g[id].rec, now)
  {}

  /** `states[k]` is the registry after the first `k` operations of a master whose clock does not run
      backwards; `start` is its reading before them. Joins and heartbeats read it under the lock, so
      after every reading before; the monitor's reading may be late by any amount. */
  ghost predicate IsRun(p: Policy, ops: seq<Op>, states: seq<map<Id, Tracked>>, start: real) {
    && |states| == |ops| + 1 && states[0] == map[] && p.timeout >= 0.0
    && (forall k :: 0 <= k < |ops| ==> Follows(p, ops, states, start, k))
  }

  ghost predicate Follows(p: Policy, ops: seq<Op>, states: seq<map<Id, Tracked>>, start: real, k: nat)
    requires k < |ops| == |states| - 1
  {
    && states[k + 1] == Apply(p, states[k], ops[k])
    && (ops[k].Join? || ops[k].HeartbeatFrom? ==> Clock(ops, start, k) <= ops[k].at)
  }

  /** The latest reading so far; a leave takes none. */
  function Clock(ops: seq<Op>, start: real, k: nat): real
    requires k <= |ops|
  {
    if k == 0 then start else ClockAfter(ops[k - 1], Clock(ops, start, k - 1))
  }

  function ClockAfter(op: Op, last: real): real { if op.Leave? then last else Max(last, op.at) }

  lemma RunsAreSound(p: Policy, ops: seq<Op>, states: seq<map<Id, Tracked>>, start: real, k: nat, id: Id)
    requires IsRun(p, ops, states, start) && k < |states| && id in states[k]
    ensures Sound(p, states[k][id], Clock(ops, start, k))
    decreases k
  {
    if k > 0 {
      var g, op, last := states[k - 1], ops[k - 1], Clock(ops, start, k - 1);
      assert Follows(p, ops, states, start, k - 1);
      if id in g {
        RunsAreSound(p, ops, states, start, k - 1, id);
        StepIsSound(p, g, op, id, last);
      } else {
        assert op == Join(id, op.at);
        NewIsSound(p, op.at);
      }
    }
  }

  lemma StepIsSound(p: Policy, g: map<Id, Tracked>, op: Op, id: Id, last: real)
    requires id in g && Sound(p, g[id], last) && p.timeout >= 0.0
    requires op.Join? || op.HeartbeatFrom? ==> last <= op.at
    ensures id in Apply(p, g, op) ==> Sound(p, Apply(p, g, op)[id], ClockAfter(op, last))
  {
    var t := g[id];
    LaterIsSound(p, t, last, ClockAfter(op, last));
    match op {
      case Join(j, now) => if j == id { JoinIsSound(p, t, last, now); }
      case HeartbeatFrom(j, now) => if j == id { BeatIsSound(p, t, last, now); }
      case Leave(_, _) =>
      case Monitor(now) => TickIsSound(p, t, last, now);
    }
  }

  ghost predicate StatusAt(states: seq<map<Id, Tracked>>, k: nat, id: Id, status: Status) {
    k < |states| && id in states[k] && states[k][id].rec.status == status
  }

  /** One operation that ends a record's death. */
  lemma RevivalDecision(p: Policy, g: map<Id, Tracked>, op: Op, h: map<Id, Tracked>, id: Id, last: real)
    requires id in g && Sound(p, g[id], last) && g[id].rec.status == Dead
    requires op.Join? || op.HeartbeatFrom? ==> last <= op.at
    requires h == Apply(p, g, op) && id in h && h[id].rec.status != Dead
    ensures var flaps := |Since(Deaths(g[id].log), op.at - p.flapWindow)| >= p.flapThreshold;
      h[id].rec.status == if flaps then Quarantined else Alive
  {
    if op.Join? || op.HeartbeatFrom? {
      RecoveryDecision(p, g[id], last, op.at);
    }
  }

  lemma RunStep(p: Policy, ops: seq<Op>, states: seq<map<Id, Tracked>>, start: real, k: nat, id: Id)
    requires IsRun(p, ops, states, start) && k < |ops| && id in states[k]
    ensures states[k + 1] == Apply(p, states[k], ops[k])
    ensures ops[k].Join? || ops[k].HeartbeatFrom? ==> Clock(ops, start, k) <= ops[k].at
    ensures Sound(p, states[k][id], Clock(ops, start, k))
  {
    RunsAreSound(p, ops, states, start, k, id);
    assert Follows(p, ops, states, start, k);
  }

  /** Wherever a run turns a dead record alive, the full count of deaths in the window ending then
      was below the threshold; wherever it quarantines one, it was not. */
  lemma FlapWindowIsExact(p: Policy, ops: seq<Op>, states: seq<map<Id, Tracked>>, start: real, k: nat, id: Id)
    requires IsRun(p, ops, states, start) && k < |ops|
    requires StatusAt(states, k, id, Dead) && id in states[k + 1] && !StatusAt(states, k + 1, id, Dead)
    ensures
      var flaps := |Since(Deaths(states[k][id].log), ops[k].at - p.flapWindow)| >= p.flapThreshold;
      states[k + 1][id].rec.status == if flaps then Quarantined else Alive
  {
    RunStep(p, ops, states, start, k, id);
    RevivalDecision(p, states[k], ops[k], states[k + 1], id, Clock(ops, start, k));
  }

  /** A quarantined record holds at least `flap_threshold` recent deaths, and its streak is the
      evidence gathered since its last death, still short of what is required. */
  lemma QuarantineHolds(p: Policy, ops: seq<Op>, states: seq<map<Id, Tracked>>, start: real, k: nat, id: Id)
    requires IsRun(p, ops, states, start) && StatusAt(states, k, id, Quarantined)
    ensures var t := states[k][id];
      && |t.rec.recentDeaths| >= p.flapThreshold
      && t.rec.streak == Evidence(t.log) && 1 <= Evidence(t.log) < Required(p)
  {
    RunsAreSound(p, ops, states, start, k, id);
  }

  /** A quarantined record becomes alive only on a heartbeat, and exactly on the one that completes
      the required evidence since its last recorded death. */
  lemma TrustIsEarned(p: Policy, ops: seq<Op>, states: seq<map<Id, Tracked>>, start: real, k: nat, id: Id)
    requires IsRun(p, ops, states, start) && k < |ops| && StatusAt(states, k, id, Quarantined)
    ensures StatusAt(states, k + 1, id, Alive) <==>
              ops[k] == HeartbeatFrom(id, ops[k].at)
              && Evidence(states[k][id].log + [Beat(ops[k].at)]) == Required(p)
  {
    RunsAreSound(p, ops, states, start, k, id);
    LastEvent(states[k][id].log, Beat(ops[k].at));
    assert Follows(p, ops, states, start, k);
  }
}
