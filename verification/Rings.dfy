/** The two rings of huddle_cluster.py as values: what each operation under the cluster lock does to
    them. The class in `HuddleClusterObject` runs the same operations on fields updated in place. */
module Rings {
  import opened Options
  import opened HeapQueue

  type Id = nat
  type SessionKey = nat

  datatype Position = Inner | Draining | Outer
  datatype Reason = Overheated | Manual | HealthFail | AbsoluteLatency

  datatype Server = Server(weight: real, temperature: real, position: Position, lastRotated: real,
                           coldUntil: real, metrics: Metrics)
  datatype Metrics = Metrics(healthy: bool, errorRate: real, avgMs: real, connections: int)

  /** An entry of `_draining_servers`, which keeps its insertion order. */
  datatype Drain = Drain(id: Id, since: real, reason: Reason)

  /** `outer` is the list handed to `heapq`, keyed by temperature. */
  datatype Ring = Ring(servers: map<Id, Server>, inner: seq<Id>, draining: seq<Drain>, outer: seq<Id>,
                       affinity: map<SessionKey, Id>)

  datatype Config = Config(minInner: nat, maxInner: nat, cooldown: real, minDwell: real, floor: Option<real>,
                           coldStart: real, breaker: real, drainTimeout: real)

  /** heat_threshold and cool_threshold, which the adaptive controller may move between cycles. */
  datatype Thresholds = Thresholds(heat: real, cool: real)

  /** What the constructor accepts. */
  ghost predicate ValidConfig(c: Config) { 1 <= c.minInner <= c.maxInner }

  function DrainIds(d: seq<Drain>): seq<Id> {
    if d == [] then [] else [d[0].id] + DrainIds(d[1..])
  }

  /** The record of a server. Only registered ids are ever looked up; see `RingLaws.Conservation`. */
  function At(servers: map<Id, Server>, id: Id): Server {
    if id in servers then servers[id]
    else Server(1.0, 0.0, Outer, 0.0, 0.0, Metrics(true, 0.0, 0.0, 0))
  }

  function Temp(servers: map<Id, Server>): Id -> real { (id: Id) => At(servers, id).temperature }

  /** `list.remove`: the first occurrence. */
  function Without(s: seq<Id>, x: Id): seq<Id> {
    if s == [] then [] else if s[0] == x then s[1..] else [s[0]] + Without(s[1..], x)
  }

  function WithoutDrain(d: seq<Drain>, x: Id): seq<Drain> {
    if d == [] then [] else if d[0].id == x then d[1..] else [d[0]] + WithoutDrain(d[1..], x)
  }

  // ----- Moves -----

  /** The readings of `time.monotonic()` that one operation takes, in the order it takes them; some
      operations leave a few unread. */
  type Clock = seq<real>

  /** Reading `k`. A clock with no reading left stands still. */
  function Tick(clk: Clock, k: nat): real {
    if k < |clk| then clk[k] else if clk == [] then 0.0 else clk[|clk| - 1]
  }

  ghost predicate NeverRunsBack(clk: Clock) { forall i, j :: 0 <= i <= j ==> Tick(clk, i) <= Tick(clk, j) }

  function Unbind(affinity: map<SessionKey, Id>, id: Id): map<SessionKey, Id> {
    map k | k in affinity && affinity[k] != id :: affinity[k]
  }

  /** `_complete_eviction`, for a server that is in no ring at the moment. */
  function CompleteEviction(r: Ring, id: Id, now: real): Ring {
    var servers := r.servers[id := At(r.servers, id).(position := Outer, lastRotated := now)];
    r.(servers := servers, outer := Push(Temp(servers), r.outer, id))
  }

  /** Does an evicted server drain first, its connections still open? */
  predicate Parks(c: Config, r: Ring, id: Id) {
    c.drainTimeout > 0.0 && At(r.servers, id).metrics.connections > 0 && id !in DrainIds(r.draining)
  }

  /** `_move_to_outer`: it reads the clock at `now`, and at `done` once more in `_complete_eviction`. */
  function MoveToOuter(c: Config, r: Ring, id: Id, reason: Reason, now: real, done: real): Ring {
    var s := At(r.servers, id);
    var s1 := s.(lastRotated := now,
                 temperature := if reason == AbsoluteLatency && s.temperature < 0.8 then 0.8 else s.temperature);
    var r1 := r.(affinity := Unbind(r.affinity, id), inner := Without(r.inner, id), servers := r.servers[id := s1]);
    if Parks(c, r, id)
    then r1.(servers := r.servers[id := s1.(position := Draining)],
             draining := r.draining + [Drain(id, now, reason)])
    else CompleteEviction(r1, id, done)
  }

  /** `heappop` on the outer ring, then `_move_to_inner`. */
  function PullCoolest(r: Ring, now: real): Ring
    requires r.outer != []
  {
    var id := r.outer[0];
    r.(servers := r.servers[id := At(r.servers, id).(position := Inner, lastRotated := now)],
       outer := Pop(Temp(r.servers), r.outer), inner := r.inner + [id])
  }

  // ----- rotate() -----

  function EffectiveHeat(heat: real, weight: real): real {
    if heat * weight < 1.0 then heat * weight else 1.0
  }

  /** Is an inner server due for eviction in step 1, and why? */
  function Verdict(c: Config, th: Thresholds, s: Server, now: real): Option<Reason> {
    var mayMove := !s.metrics.healthy || now - s.lastRotated >= c.cooldown;
    if c.floor.Some? && s.metrics.avgMs > 0.0 && s.metrics.avgMs > c.floor.value && mayMove then Some(AbsoluteLatency)
    else if s.temperature >= EffectiveHeat(th.heat, s.weight) && mayMove then Some(Overheated)
    else None
  }

  datatype Due = Due(id: Id, reason: Reason)

  function Candidates(c: Config, th: Thresholds, servers: map<Id, Server>, ids: seq<Id>, now: real): seq<Due> {
    if ids == [] then []
    else
      var rest := Candidates(c, th, servers, ids[1..], now);
      match Verdict(c, th, At(servers, ids[0]), now)
      case None => rest
      case Some(reason) => [Due(ids[0], reason)] + rest
  }

  function Max(a: int, b: int): int { if a < b then b else a }
  function Min(a: int, b: int): int { if a < b then a else b }

  /** How many servers step 1 may evict. */
  function EvictionCap(c: Config, innerSize: nat): nat {
    Min(Max(1, innerSize / 3), Max(0, innerSize - c.minInner))
  }

  function EvictAll(c: Config, r: Ring, due: seq<Due>, clk: Clock, k: nat): Ring
    decreases |due|
  {
    if due == [] then r
    else EvictAll(c, MoveToOuter(c, r, due[0].id, due[0].reason, Tick(clk, k), Tick(clk, k + 1)), due[1..], clk, k + 2)
  }

  lemma EvictAllStep(c: Config, r: Ring, due: seq<Due>, i: nat, clk: Clock, k: nat)
    requires i < |due|
    ensures EvictAll(c, r, due[i..], clk, k)
         == EvictAll(c, MoveToOuter(c, r, due[i].id, due[i].reason, Tick(clk, k), Tick(clk, k + 1)), due[i + 1..],
                      clk, k + 2)
  {
    assert due[i..][1..] == due[i + 1..];
  }

  /** What step 1 evicts. */
  function ToEvict(c: Config, th: Thresholds, r: Ring, now: real): seq<Due> {
    var due := Candidates(c, th, r.servers, r.inner, now);
    due[..Min(|due|, EvictionCap(c, |r.inner|))]
  }

  /** The gate of step 2: it reads the clock for the dwell time and again for the cold start;
      `blocked` are the ids the remediator holds in quarantine. */
  predicate MayPromote(c: Config, th: Thresholds, r: Ring, clk: Clock, k: nat, blocked: set<Id>) {
    && r.outer != [] && |r.inner| < c.maxInner
    && var s := At(r.servers, r.outer[0]);
       Tick(clk, k + 1) >= s.coldUntil && Tick(clk, k) - s.lastRotated >= c.minDwell
       && r.outer[0] !in blocked && s.temperature <= th.cool
  }

  function Promote(c: Config, th: Thresholds, r: Ring, clk: Clock, k: nat, blocked: set<Id>): Ring
    decreases |r.outer|
  {
    if MayPromote(c, th, r, clk, k, blocked)
    then Promote(c, th, PullCoolest(r, Tick(clk, k + 2)), clk, k + 3, blocked)
    else r
  }

  lemma PromoteStep(c: Config, th: Thresholds, r: Ring, clk: Clock, k: nat, blocked: set<Id>)
    ensures Promote(c, th, r, clk, k, blocked) ==
      if MayPromote(c, th, r, clk, k, blocked)
      then Promote(c, th, PullCoolest(r, Tick(clk, k + 2)), clk, k + 3, blocked)
      else r
  {
  }

  lemma PromoteShrinks(c: Config, th: Thresholds, r: Ring, clk: Clock, k: nat, blocked: set<Id>)
    ensures
      var t := Promote(c, th, r, clk, k, blocked);
      |t.outer| <= |r.outer| && (|t.outer| < |r.outer| <==> MayPromote(c, th, r, clk, k, blocked))
    decreases |r.outer|
  {
    if MayPromote(c, th, r, clk, k, blocked) {
      PromoteShrinks(c, th, PullCoolest(r, Tick(clk, k + 2)), clk, k + 3, blocked);
    }
  }

  predicate CircuitOpen(c: Config, s: Server) { c.breaker < 1.0 && s.metrics.errorRate >= c.breaker }

  predicate Sick(c: Config, s: Server) { !s.metrics.healthy || CircuitOpen(c, s) }

  /** Step 3 over the snapshot `ids` of the inner ring. */
  function EvictSick(c: Config, r: Ring, ids: seq<Id>, clk: Clock, k: nat): Ring
    decreases |ids|
  {
    if ids == [] || |r.inner| <= c.minInner then r
    else if Sick(c, At(r.servers, ids[0])) then
      EvictSick(c, MoveToOuter(c, r, ids[0], HealthFail, Tick(clk, k), Tick(clk, k + 1)), ids[1..], clk, k + 2)
    else EvictSick(c, r, ids[1..], clk, k)
  }

  /** The first reading of step 2 of a cycle on `r`, past all that step 1 may take. */
  function GateReading(r: Ring): nat { 1 + 2 * |r.inner| }

  /** The first reading of step 3, when step 1 has left `r1`. */
  function SickReading(r: Ring, r1: Ring): nat { GateReading(r) + 3 * |r1.outer| + 2 }

  lemma EvictSickStep(c: Config, r: Ring, ids: seq<Id>, i: nat, clk: Clock, k: nat)
    requires i < |ids| && |r.inner| > c.minInner
    ensures EvictSick(c, r, ids[i..], clk, k) ==
      if Sick(c, At(r.servers, ids[i]))
      then EvictSick(c, MoveToOuter(c, r, ids[i], HealthFail, Tick(clk, k), Tick(clk, k + 1)), ids[i + 1..], clk, k + 2)
      else EvictSick(c, r, ids[i + 1..], clk, k)
  {
    assert ids[i..][1..] == ids[i + 1..];
  }

  /** `rotate()` without hardware fusion. */
  function Rotate(c: Config, th: Thresholds, r: Ring, clk: Clock, blocked: set<Id>): Ring {
    var r1 := EvictAll(c, r, ToEvict(c, th, r, Tick(clk, 0)), clk, 1);
    var r2 := Promote(c, th, r1, clk, GateReading(r), blocked);
    EvictSick(c, r2, r2.inner, clk, SickReading(r, r1))
  }

  // ----- Registration -----

  /** `add_server` of a server that is not registered yet. */
  function Add(c: Config, r: Ring, id: Id, s: Server, forceInner: bool, now: real): Ring
    requires id !in r.servers
  {
    if c.coldStart <= 0.0 && forceInner && |r.inner| < c.maxInner then
      r.(servers := r.servers[id := s.(position := Inner)], inner := r.inner + [id])
    else
      var s1 := if c.coldStart > 0.0 then s.(coldUntil := now + c.coldStart, position := Outer)
                else s.(position := Outer);
      var servers := r.servers[id := s1];
      r.(servers := servers, outer := Push(Temp(servers), r.outer, id))
  }

  /** `_maybe_pull_from_outer`. */
  function MaybePull(c: Config, r: Ring, clk: Clock, k: nat): Ring
    decreases |r.outer|
  {
    if r.outer != [] && |r.inner| < c.minInner then MaybePull(c, PullCoolest(r, Tick(clk, k)), clk, k + 1) else r
  }

  lemma MaybePullStep(c: Config, r: Ring, clk: Clock, k: nat)
    ensures MaybePull(c, r, clk, k) ==
      if r.outer != [] && |r.inner| < c.minInner then MaybePull(c, PullCoolest(r, Tick(clk, k)), clk, k + 1) else r
  {
  }

  /** `remove_server`: it looks in the two rings only, so a draining server is not found. */
  function Remove(c: Config, r: Ring, id: Id, clk: Clock): Ring {
    if id in r.inner then
      MaybePull(c, r.(inner := Without(r.inner, id), servers := r.servers - {id}), clk, 0)
    else if id in r.outer then
      r.(outer := Heapify(Temp(r.servers), Without(r.outer, id)), servers := r.servers - {id})
    else r
  }

  function ForceEvict(c: Config, r: Ring, id: Id, clk: Clock): Ring {
    if id in r.inner then MoveToOuter(c, r, id, Manual, Tick(clk, 0), Tick(clk, 1)) else r
  }

  // ----- Draining -----

  predicate Drained(c: Config, servers: map<Id, Server>, d: Drain, now: real) {
    At(servers, d.id).metrics.connections <= 0 || now - d.since >= c.drainTimeout
  }

  /** The ids of the completed drains, in order. */
  function Completed(c: Config, servers: map<Id, Server>, ds: seq<Drain>, now: real): seq<Id> {
    if ds == [] then []
    else
      var rest := Completed(c, servers, ds[1..], now);
      if Drained(c, servers, ds[0], now) then [ds[0].id] + rest else rest
  }

  function FinishDrains(r: Ring, ids: seq<Id>, clk: Clock, k: nat): Ring
    decreases |ids|
  {
    if ids == [] then r
    else
      var r1 := r.(draining := WithoutDrain(r.draining, ids[0]));
      FinishDrains(CompleteEviction(r1, ids[0], Tick(clk, k)), ids[1..], clk, k + 1)
  }

  lemma FinishDrainsStep(r: Ring, ids: seq<Id>, i: nat, clk: Clock, k: nat)
    requires i < |ids|
    ensures
      var r1 := r.(draining := WithoutDrain(r.draining, ids[i]));
      FinishDrains(r, ids[i..], clk, k)
      == FinishDrains(CompleteEviction(r1, ids[i], Tick(clk, k)), ids[i + 1..], clk, k + 1)
  {
    assert ids[i..][1..] == ids[i + 1..];
  }

  /** `_check_draining_servers`. */
  function CheckDraining(c: Config, r: Ring, clk: Clock): Ring {
    FinishDrains(r, Completed(c, r.servers, r.draining, Tick(clk, 0)), clk, 1)
  }

  // ----- Routing -----

  /** `_emergency_server`. */
  function Emergency(r: Ring): Option<Id> {
    if r.outer != [] then Some(r.outer[0])
    else if r.draining != [] then Some(r.draining[0].id)
    else None
  }

  /** `deque.rotate(-1)`. */
  function Turn(s: seq<Id>): seq<Id> { if s == [] then s else s[1..] + [s[0]] }

  /** `get_server` while no traffic ramp is active. */
  function GetServer(r: Ring, key: Option<SessionKey>): (Ring, Option<Id>) {
    if r.inner == [] then (r, Emergency(r))
    else
      match key
      case None => (r.(inner := Turn(r.inner)), Some(r.inner[0]))
      case Some(k) =>
        if k in r.affinity && r.affinity[k] in r.inner && At(r.servers, r.affinity[k]).metrics.healthy
        then (r, Some(r.affinity[k]))
        else (r.(inner := Turn(r.inner), affinity := r.affinity[k := r.inner[0]]), Some(r.inner[0]))
  }

  /** The scan of `_get_server_excluding`: at most `n` turns, stopping at an id not excluded. */
  function Scan(inner: seq<Id>, excluded: set<Id>, n: nat): (seq<Id>, Id)
    requires inner != []
    decreases n
  {
    if n == 0 || inner[0] !in excluded then (Turn(inner), inner[0])
    else Scan(Turn(inner), excluded, n - 1)
  }

  function GetExcluding(r: Ring, excluded: set<Id>): (Ring, Option<Id>) {
    if r.inner == [] then (r, Emergency(r))
    else
      var (inner, id) := Scan(r.inner, excluded, |r.inner|);
      (r.(inner := inner), Some(id))
  }

  function Others(s: seq<Id>, x: Id): seq<Id> {
    if s == [] then [] else if s[0] == x then Others(s[1..], x) else [s[0]] + Others(s[1..], x)
  }

  /** `min(candidates, key=temperature)`: the first of the coolest. */
  function Coolest(servers: map<Id, Server>, ids: seq<Id>): Option<Id> {
    if ids == [] then None
    else
      match Coolest(servers, ids[..|ids| - 1])
      case None => Some(ids[0])
      case Some(best) =>
        if At(servers, ids[|ids| - 1]).temperature < At(servers, best).temperature then Some(ids[|ids| - 1])
        else Some(best)
  }

  /** Where `hedged_request` sends its backup: to the coolest other server of the inner ring, or, if there
      is none, of the outer ring. */
  function Backup(r: Ring, primary: Id): Option<Id> {
    var near := Others(r.inner, primary);
    Coolest(r.servers, if near != [] then near else Others(r.outer, primary))
  }

  /** Anything that writes a server's own numbers: `update_temperature`, `record_latency`, health
      checks, probes, connection counts and completed ramps. */
  function Observe(r: Ring, id: Id, weight: real, temperature: real, m: Metrics): Ring {
    if id in r.servers
    then r.(servers := r.servers[id := r.servers[id].(weight := weight, temperature := temperature, metrics := m)])
    else r
  }

  function ClearAffinity(r: Ring, key: Option<SessionKey>): Ring {
    r.(affinity := if key.Some? then r.affinity - {key.value} else map[])
  }
}
