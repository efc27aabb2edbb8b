/** A node's record against the plain history of what reached the master: joins, heartbeats, leaves and
    monitor passes. Nothing here is pruned, and silence is the inequality itself. */
module LifecycleHistory {
  import opened Options
  import opened Lifecycle
  import opened LifecycleLaws

  // ----- One monitor pass -----

  predicate Serving(r: Record) { r.status == Alive || r.status == Quarantined }

  /** After a join the node serves, whatever it was, and was heard of just now; a heartbeat does the same for
      every node that is not leaving. */
  lemma JoinServes(p: Policy, g: map<Id, Tracked>, id: Id, now: real)
    ensures
      var h := Apply(p, g, Join(id, now));
      id in h && Serving(h[id].rec) && h[id].rec.lastHeartbeat == now
    ensures
      var h := Apply(p, g, HeartbeatFrom(id, now));
      && h.Keys == g.Keys
      && (id in g ==> h[id].rec.lastHeartbeat == now && (g[id].rec.status != Leaving ==> Serving(h[id].rec)))
  {
  }

  /** What a monitor pass at `now` makes of each record: it declares dead whoever serves and has been silent
      for longer than the timeout, purges whoever has been dead for too long, and touches nobody else. */
  lemma PassExactly(p: Policy, g: map<Id, Tracked>, now: real, id: Id)
    requires id in g
    ensures
      var h, r, silence := Apply(p, g, Monitor(now)), g[id].rec, now - g[id].rec.lastHeartbeat;
      var purged := r.status == Dead && p.purgeAfter.Some? && silence > p.purgeAfter.value;
      && (id in h <==> !purged)
      && (!purged && Serving(r) && silence > p.timeout ==>
            var d := h[id].rec;
            && d.status == Dead && d.deathCount == r.deathCount + 1 && d.streak == 0
            && d.lastHeartbeat == r.lastHeartbeat && d.heartbeats == r.heartbeats
            && (p.flapWindow >= 0.0 ==> now in d.recentDeaths))
      && (!purged && !(Serving(r) && silence > p.timeout) ==> h[id].rec == r)
      && (id in h && Serving(h[id].rec) ==> now - h[id].rec.lastHeartbeat <= p.timeout)
  {
    SinceAppend(g[id].rec.recentDeaths, [now], now - p.flapWindow);
  }

  // ----- The plain history -----

  /** What a node has done since it was registered: its last sign of life, how many heartbeats, all passes
      that found it silent (since it was last trusted), how many such passes in all, whether it has been
      silent since, whether it is suspect, and its signs of life since it was last silent. */
  datatype Life = Life(lastSign: real, beats: nat, deaths: seq<real>, silences: nat, silent: bool, suspect: bool,
                       evidence: nat)

  /** How many of these times are at or after the cutoff? */
  function CountSince(times: seq<real>, cutoff: real): nat {
    if times == [] then 0
    else CountSince(times[..|times| - 1], cutoff) + (if times[|times| - 1] >= cutoff then 1 else 0)
  }

  /** A join or a heartbeat. A node that comes back with enough silences in the window is suspect; a suspect
      is trusted with the heartbeat that completes the evidence, two signs at least. */
  function Sign(p: Policy, h: Life, at: real, beat: bool): Life {
    var evidence := if beat then h.evidence + 1 else if h.evidence == 0 then 1 else h.evidence;
    var beats := if beat then h.beats + 1 else h.beats;
    var suspect := if h.silent then CountSince(h.deaths, at - p.flapWindow) >= p.flapThreshold else h.suspect;
    var trusted := !h.silent && h.suspect && beat && evidence >= 2 && evidence >= p.recovery;
    Life(at, beats, if trusted then [] else h.deaths, h.silences, false, suspect && !trusted, evidence)
  }

  function Silence(p: Policy, h: Life, now: real): Option<Life> {
    if h.silent then
      if p.purgeAfter.Some? && now - h.lastSign > p.purgeAfter.value then None else Some(h)
    else if now - h.lastSign > p.timeout then
      Some(h.(deaths := h.deaths + [now], silences := h.silences + 1, silent := true, evidence := 0))
    else Some(h)
  }

  function Next(p: Policy, h: Option<Life>, op: Op, id: Id): Option<Life> {
    match op
    case Join(x, at) =>
      if x != id then h
      else if h.None? then Some(Life(at, 0, [], 0, false, false, 1))
      else Some(Sign(p, h.value, at, false))
    case HeartbeatFrom(x, at) => if x != id || h.None? then h else Some(Sign(p, h.value, at, true))
    case Leave(x, _) => if x == id then None else h
    case Monitor(now) => if h.None? then None else Silence(p, h.value, now)
  }

  /** The history of `id` after the first `k` operations. */
  function LifeAfter(p: Policy, ops: seq<Op>, id: Id, k: nat): Option<Life>
    requires k <= |ops|
  {
    if k == 0 then None else Next(p, LifeAfter(p, ops, id, k - 1), ops[k - 1], id)
  }

  // ----- The record implements it -----

  ghost predicate Implements(t: Tracked, h: Life) {
    && t.rec.lastHeartbeat == h.lastSign && t.rec.heartbeats == h.beats && t.rec.deathCount == h.silences
    && t.rec.status == (if h.silent then Dead else if h.suspect then Quarantined else Alive)
    && Deaths(t.log) == h.deaths && Evidence(t.log) == h.evidence
    && (h.silent <==> h.evidence == 0)
  }

  lemma {:induction false} CountIsSince(times: seq<real>, cutoff: real)
    ensures |Since(times, cutoff)| == CountSince(times, cutoff)
  {
    if times != [] {
      var init, last := times[..|times| - 1], times[|times| - 1];
      CountIsSince(init, cutoff);
      SinceAppend(init, [last], cutoff);
      assert times == init + [last] && |Since([last], cutoff)| == if last >= cutoff then 1 else 0;
    }
  }

  lemma NewImplements(p: Policy, now: real)
    ensures Implements(TrackJoin(p, None, now), Life(now, 0, [], 0, false, false, 1))
  {
    assert [Joined(now)][..0] == [];
  }

  lemma JoinImplements(p: Policy, t: Tracked, h: Life, last: real, now: real)
    requires Implements(t, h) && Sound(p, t, last) && last <= now
    ensures Implements(TrackJoin(p, Some(t), now), Sign(p, h, now, false))
  {
    LastEvent(t.log, Joined(now));
    CountIsSince(h.deaths, now - p.flapWindow);
    if h.silent {
      RecoveryDecision(p, t, last, now);
    }
  }

  lemma BeatImplements(p: Policy, t: Tracked, h: Life, last: real, now: real)
    requires Implements(t, h) && Sound(p, t, last) && last <= now
    ensures Implements(TrackBeat(p, t, now), Sign(p, h, now, true))
  {
    var u := TrackBeat(p, t, now);
    LastEvent(t.log, Beat(now));
    CountIsSince(h.deaths, now - p.flapWindow);
    if h.silent {
      RecoveryDecision(p, t, last, now);
    }
    if t.rec.status == Quarantined && u.rec.status == Alive {
      LastEvent(t.log + [Beat(now)], Trusted);
    } else {
      assert u.log == t.log + [Beat(now)];
    }
  }

  lemma PassImplements(p: Policy, t: Tracked, h: Life, now: real)
    requires Implements(t, h)
    ensures Silence(p, h, now).None? <==> Purgeable(p, t.rec, now)
    ensures Silence(p, h, now).Some? ==> Implements(TrackTick(p, t, now), Silence(p, h, now).value)
  {
    LastEvent(t.log, Died(now));
  }

  ghost predicate SameLife(g: map<Id, Tracked>, id: Id, h: Option<Life>) {
    (id in g <==> h.Some?) && (id in g ==> Implements(g[id], h.value))
  }

  lemma StepImplements(p: Policy, g: map<Id, Tracked>, op: Op, id: Id, h: Option<Life>, last: real)
    requires SameLife(g, id, h) && (id in g ==> Sound(p, g[id], last))
    requires op.Join? || op.HeartbeatFrom? ==> last <= op.at
    ensures SameLife(Apply(p, g, op), id, Next(p, h, op, id))
  {
    match op {
      case Join(x, at) =>
        if x == id {
          if id in g {
            JoinImplements(p, g[id], h.value, last, at);
          } else {
            NewImplements(p, at);
          }
        }
      case HeartbeatFrom(x, at) =>
        if x == id && id in g {
          BeatImplements(p, g[id], h.value, last, at);
        }
      case Leave(_, _) =>
      case Monitor(now) =>
        if id in g {
          PassImplements(p, g[id], h.value, now);
        }
    }
  }

  lemma NextImplements(p: Policy, ops: seq<Op>, states: seq<map<Id, Tracked>>, start: real, k: nat, id: Id)
    requires IsRun(p, ops, states, start) && k < |ops| && SameLife(states[k], id, LifeAfter(p, ops, id, k))
    ensures SameLife(states[k + 1], id, LifeAfter(p, ops, id, k + 1))
  {
    assert Follows(p, ops, states, start, k);
    if id in states[k] {
      RunsAreSound(p, ops, states, start, k, id);
    }
    StepImplements(p, states[k], ops[k], id, LifeAfter(p, ops, id, k), Clock(ops, start, k));
  }

  /** In every state of every run, the registry, with its pruned windows and its streaks, says of each node
      what the node's plain history says: whether it is registered, when it was last heard of, how often,
      how many passes found it silent, and whether it is alive, dead or quarantined. */
  lemma {:induction false} RegistryIsHistory(p: Policy, ops: seq<Op>, states: seq<map<Id, Tracked>>, start: real,
                                             k: nat, id: Id)
    requires IsRun(p, ops, states, start) && k < |states|
    ensures SameLife(states[k], id, LifeAfter(p, ops, id, k))
  {
    if k > 0 {
      RegistryIsHistory(p, ops, states, start, k - 1, id);
      NextImplements(p, ops, states, start, k - 1, id);
    }
  }

  // ----- What this means for silence and trust -----

  /** Right after a monitor pass nobody serves who has been silent for longer than the timeout. */
  lemma {:induction false} NobodySilentServes(p: Policy, ops: seq<Op>, states: seq<map<Id, Tracked>>, start: real,
                                              k: nat, id: Id)
    requires IsRun(p, ops, states, start) && k < |ops| && ops[k].Monitor?
    requires id in states[k + 1] && Serving(states[k + 1][id].rec)
    ensures LifeAfter(p, ops, id, k + 1).Some?
    ensures ops[k].at - LifeAfter(p, ops, id, k + 1).value.lastSign <= p.timeout
  {
    RegistryIsHistory(p, ops, states, start, k, id);
    RegistryIsHistory(p, ops, states, start, k + 1, id);
  }

  predicate Heard(p: Policy, h: Option<Life>, now: real) {
    h.Some? && !h.value.silent ==> now - h.value.lastSign <= p.timeout
  }

  /** No pass from `a` to `b` finds `id` silent. */
  ghost predicate HeardThroughout(p: Policy, ops: seq<Op>, id: Id, a: nat, b: nat)
    requires b <= |ops|
  {
    forall k :: a <= k < b && ops[k].Monitor? ==> Heard(p, LifeAfter(p, ops, id, k), ops[k].at)
  }

  /** Evidence is gathered without a silence in between: since the first of the counted signs, every monitor
      pass found the node within its timeout. */
  lemma {:induction false} EvidenceIsUnbroken(p: Policy, ops: seq<Op>, id: Id, k: nat) returns (first: nat)
    requires k <= |ops| && LifeAfter(p, ops, id, k).Some? && LifeAfter(p, ops, id, k).value.evidence > 0
    ensures first < k && HeardThroughout(p, ops, id, first, k)
    ensures LifeAfter(p, ops, id, first).Some? ==> LifeAfter(p, ops, id, first).value.evidence == 0
    ensures ops[first] == Join(id, ops[first].at) || ops[first] == HeartbeatFrom(id, ops[first].at)
    ensures forall j :: first < j <= k ==> LifeAfter(p, ops, id, j).Some? && LifeAfter(p, ops, id, j).value.evidence > 0
  {
    var before := LifeAfter(p, ops, id, k - 1);
    if before.Some? && before.value.evidence > 0 {
      first := EvidenceIsUnbroken(p, ops, id, k - 1);
      SilentHasNone(p, ops, id, k - 1);
    } else {
      first := k - 1;
    }
  }

  lemma {:induction false} SilentHasNone(p: Policy, ops: seq<Op>, id: Id, k: nat)
    requires k <= |ops| && LifeAfter(p, ops, id, k).Some?
    ensures LifeAfter(p, ops, id, k).value.silent <==> LifeAfter(p, ops, id, k).value.evidence == 0
  {
    if k > 0 && LifeAfter(p, ops, id, k - 1).Some? {
      SilentHasNone(p, ops, id, k - 1);
    }
  }

  /** A quarantined node becomes alive exactly with the heartbeat that completes its signs of life since it
      was last found silent, at least two, and none of the passes in between found it silent. */
  lemma {:induction false} TrustNeedsUnbrokenSigns(p: Policy, ops: seq<Op>, states: seq<map<Id, Tracked>>,
                                                   start: real, k: nat, id: Id)
    requires IsRun(p, ops, states, start) && k < |ops| && StatusAt(states, k, id, Quarantined)
    ensures LifeAfter(p, ops, id, k).Some? && LifeAfter(p, ops, id, k).value.evidence >= 1
    ensures StatusAt(states, k + 1, id, Alive) <==>
      && ops[k] == HeartbeatFrom(id, ops[k].at)
      && LifeAfter(p, ops, id, k).value.evidence + 1 >= p.recovery
    ensures StatusAt(states, k + 1, id, Alive) ==>
      exists first: nat :: first < k && HeardThroughout(p, ops, id, first, k)
        && (ops[first] == Join(id, ops[first].at) || ops[first] == HeartbeatFrom(id, ops[first].at))
  {
    RegistryIsHistory(p, ops, states, start, k, id);
    RegistryIsHistory(p, ops, states, start, k + 1, id);
    var first := EvidenceIsUnbroken(p, ops, id, k);
  }
}
