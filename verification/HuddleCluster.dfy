/** The cluster object of huddle_cluster.py. Its rings, draining list and bindings are updated in
    place; every method is proved equal to the operation of `Rings` with the same name, so the laws
    of `RingLaws`, `RotationLaws` and `RoutingLaws` are laws of this object. */
module HuddleClusterObject {
  import opened Options
  import opened HeapQueue
  import opened Rings
  import opened RingLaws
  import opened RoutingLaws

  class HuddleCluster {
    const c: Config
    var th: Thresholds
    var servers: map<Id, Server>
    var inner: seq<Id>
    var draining: seq<Drain>
    var outer: seq<Id>
    var affinity: map<SessionKey, Id>

    ghost function State(): Ring
      reads this
    {
      Ring(servers, inner, draining, outer, affinity)
    }

    constructor (c: Config, th: Thresholds)
      requires ValidConfig(c) && th.cool < th.heat
      ensures this.c == c && this.th == th && State() == EMPTY_RING
    {
      this.c, this.th := c, th;
      servers, inner, draining, outer, affinity := map[], [], [], [], map[];
    }

    // ----- Registration -----

    method AddServer(id: Id, server: Server, forceInner: bool, now: real)
      requires id !in servers
      modifies this
      ensures th == old(th) && State() == Add(c, old(State()), id, server, forceInner, now)
    {
      if c.coldStart > 0.0 {
        servers := servers[id := server.(coldUntil := now + c.coldStart, position := Outer)];
        outer := Push(Temp(servers), outer, id);
        return;
      }
      if forceInner && |inner| < c.maxInner {
        servers := servers[id := server.(position := Inner)];
        inner := inner + [id];
      } else {
        servers := servers[id := server.(position := Outer)];
        outer := Push(Temp(servers), outer, id);
      }
    }

    method RemoveServer(id: Id, clk: Clock) returns (found: bool)
      modifies this
      ensures th == old(th) && State() == Remove(c, old(State()), id, clk)
      ensures found <==> id in old(inner) || id in old(outer)
    {
      if id in inner {
        inner := Without(inner, id);
        servers := servers - {id};
        MaybePullFromOuter(clk);
        return true;
      }
      if id in outer {
        outer := Heapify(Temp(servers), Without(outer, id));
        servers := servers - {id};
        return true;
      }
      return false;
    }

    method MaybePullFromOuter(clk: Clock)
      modifies this
      ensures th == old(th) && State() == MaybePull(c, old(State()), clk, 0)
    {
      var k := 0;
      while outer != [] && |inner| < c.minInner
        invariant th == old(th) && MaybePull(c, State(), clk, k) == MaybePull(c, old(State()), clk, 0)
        decreases |outer|
      {
        MoveRootToInner(Tick(clk, k));
        k := k + 1;
      }
    }

    method ForceEvictServer(id: Id, clk: Clock) returns (found: bool)
      modifies this
      ensures th == old(th) && State() == ForceEvict(c, old(State()), id, clk)
      ensures found <==> id in old(inner)
    {
      found := id in inner;
      if found {
        EvictServer(id, Manual, Tick(clk, 0), Tick(clk, 1));
      }
    }

    // ----- Moves -----

    /** `_move_to_outer` */
    method EvictServer(id: Id, reason: Reason, now: real, done: real)
      modifies this
      ensures th == old(th) && State() == MoveToOuter(c, old(State()), id, reason, now, done)
    {
      var s := At(servers, id).(lastRotated := now);
      affinity := Unbind(affinity, id);
      if reason == AbsoluteLatency && s.temperature < 0.8 {
        s := s.(temperature := 0.8);
      }
      inner := Without(inner, id);
      if c.drainTimeout > 0.0 && s.metrics.connections > 0 && id !in DrainIds(draining) {
        servers := servers[id := s.(position := Draining)];
        draining := draining + [Drain(id, now, reason)];
        return;
      }
      servers := servers[id := s];
      FinishEviction(id, done);
    }

    /** `_complete_eviction` */
    method FinishEviction(id: Id, now: real)
      modifies this`servers, this`outer
      ensures State() == CompleteEviction(old(State()), id, now)
    {
      servers := servers[id := At(servers, id).(position := Outer, lastRotated := now)];
      outer := Push(Temp(servers), outer, id);
    }

    /** `heappop` and `_move_to_inner` */
    method MoveRootToInner(now: real)
      requires outer != []
      modifies this
      ensures th == old(th) && State() == PullCoolest(old(State()), now)
    {
      var id := outer[0];
      outer := Pop(Temp(servers), outer);
      servers := servers[id := At(servers, id).(position := Inner, lastRotated := now)];
      inner := inner + [id];
    }

    // ----- rotate() -----

    /** `adapted` is what the adaptive controller returned, if there is one; `blocked` are the ids
        in remediation quarantine. The three steps of the source are the three methods below. */
    method RotateRings(adapted: Option<Thresholds>, clk: Clock, blocked: set<Id>) returns (rotated: bool)
      modifies this
      ensures th == (if adapted.Some? then adapted.value else old(th))
      ensures State() == Rotate(c, th, old(State()), clk, blocked)
      ensures !rotated ==> State() == old(State())
      ensures ToEvict(c, th, old(State()), Tick(clk, 0)) != [] ==> rotated
    {
      if adapted.Some? {
        th := adapted.value;
      }
      ghost var r := State();
      var gate := 1 + 2 * |inner|;
      var evicted := EvictOverheated(clk);
      ghost var r1 := State();
      var sickFrom := gate + 3 * |outer| + 2;
      assert gate == GateReading(r) && sickFrom == SickReading(r, r1);
      var promoted := PromoteCooled(clk, gate, blocked);
      ghost var r2 := State();
      var sick := EvictUnhealthy(clk, sickFrom);
      assert State() == EvictSick(c, r2, r2.inner, clk, SickReading(r, r1));
      rotated := evicted || promoted || sick;
    }

    method EvictOverheated(clk: Clock) returns (rotated: bool)
      modifies this
      ensures th == old(th)
      ensures State() == EvictAll(c, old(State()), ToEvict(c, th, old(State()), Tick(clk, 0)), clk, 1)
      ensures rotated <==> ToEvict(c, th, old(State()), Tick(clk, 0)) != []
      ensures !rotated ==> State() == old(State())
    {
      var due := CollectDue(Tick(clk, 0));
      var cap := Min(Max(1, |inner| / 3), Max(0, |inner| - c.minInner));
      due := due[..Min(|due|, cap)];
      var k := 1;
      assert due[0..] == due;
      for i := 0 to |due|
        invariant th == old(th)
        invariant EvictAll(c, State(), due[i..], clk, k) == EvictAll(c, old(State()), due, clk, 1)
        invariant i == 0 ==> State() == old(State())
      {
        EvictAllStep(c, State(), due, i, clk, k);
        EvictServer(due[i].id, due[i].reason, Tick(clk, k), Tick(clk, k + 1));
        k := k + 2;
      }
      rotated := |due| > 0;
    }

    method PromoteCooled(clk: Clock, start: nat, blocked: set<Id>) returns (rotated: bool)
      modifies this
      ensures th == old(th) && State() == Promote(c, th, old(State()), clk, start, blocked)
      ensures rotated <==> MayPromote(c, th, old(State()), clk, start, blocked)
      ensures !rotated ==> State() == old(State())
    {
      ghost var r := State();
      ghost var want := Promote(c, th, r, clk, start, blocked);
      PromoteShrinks(c, th, r, clk, start, blocked);
      rotated := false;
      var k := start;
      while outer != [] && |inner| < c.maxInner
        invariant th == old(th) && Promote(c, th, State(), clk, k, blocked) == want
        invariant |outer| <= |r.outer| && (rotated ==> |outer| < |r.outer|) && (!rotated ==> State() == r)
        decreases |outer|
      {
        var promoted := PromoteNext(clk, k, blocked);
        if !promoted {
          break;
        }
        k := k + 3;
        rotated := true;
      }
      PromoteStep(c, th, State(), clk, k, blocked);
      assert State() == want;
    }

    /** One turn of step 2. */
    method PromoteNext(clk: Clock, k: nat, blocked: set<Id>) returns (promoted: bool)
      requires outer != [] && |inner| < c.maxInner
      modifies this
      ensures th == old(th)
      ensures if promoted then |outer| < |old(outer)| else State() == old(State())
      ensures Promote(c, th, old(State()), clk, k, blocked)
           == if promoted then Promote(c, th, State(), clk, k + 3, blocked) else State()
    {
      PromoteStep(c, th, State(), clk, k, blocked);
      promoted := GateOpens(clk, k, blocked);
      if promoted {
        MoveRootToInner(Tick(clk, k + 2));
      }
    }

    /** The checks on the coolest server at the top of the loop of step 2. */
    method GateOpens(clk: Clock, k: nat, blocked: set<Id>) returns (open: bool)
      requires outer != [] && |inner| < c.maxInner
      ensures open <==> MayPromote(c, th, State(), clk, k, blocked)
    {
      var coolest := At(servers, outer[0]);
      var dwell := Tick(clk, k) - coolest.lastRotated;
      if Tick(clk, k + 1) < coolest.coldUntil {
        return false;
      }
      if dwell < c.minDwell {
        return false;
      }
      if outer[0] in blocked {
        return false;
      }
      open := coolest.temperature <= th.cool;
    }

    method EvictUnhealthy(clk: Clock, start: nat) returns (rotated: bool)
      modifies this
      ensures th == old(th) && State() == EvictSick(c, old(State()), old(inner), clk, start)
      ensures !rotated ==> State() == old(State())
    {
      ghost var r := State();
      var snapshot := inner;
      ghost var want := EvictSick(c, r, snapshot, clk, start);
      rotated := false;
      var k := start;
      assert snapshot[0..] == snapshot;
      for i := 0 to |snapshot|
        invariant th == old(th) && EvictSick(c, State(), snapshot[i..], clk, k) == want
        invariant !rotated ==> State() == r
      {
        if |inner| <= c.minInner {
          break;
        }
        var moved := EvictIfSick(snapshot, i, clk, k);
        if moved {
          k := k + 2;
          rotated := true;
        }
      }
    }

    /** One turn of step 3. */
    method EvictIfSick(snapshot: seq<Id>, i: nat, clk: Clock, k: nat) returns (moved: bool)
      requires i < |snapshot| && |inner| > c.minInner
      modifies this
      ensures th == old(th) && (!moved ==> State() == old(State()))
      ensures EvictSick(c, old(State()), snapshot[i..], clk, k)
           == EvictSick(c, State(), snapshot[i + 1..], clk, if moved then k + 2 else k)
    {
      EvictSickStep(c, State(), snapshot, i, clk, k);
      moved := Sick(c, At(servers, snapshot[i]));
      if moved {
        EvictServer(snapshot[i], HealthFail, Tick(clk, k), Tick(clk, k + 1));
      }
    }

    method CollectDue(now: real) returns (due: seq<Due>)
      ensures due == Candidates(c, th, servers, inner, now)
    {
      due := [];
      for i := 0 to |inner|
        invariant Candidates(c, th, servers, inner, now) == due + Candidates(c, th, servers, inner[i..], now)
      {
        assert inner[i..][1..] == inner[i + 1..];
        match Verdict(c, th, At(servers, inner[i]), now)
        case None =>
        case Some(reason) => due := due + [Due(inner[i], reason)];
      }
    }

    /** `_check_draining_servers` */
    method CheckDrainingServers(clk: Clock)
      modifies this
      ensures th == old(th) && State() == CheckDraining(c, old(State()), clk)
    {
      ghost var want := CheckDraining(c, State(), clk);
      var completed := CollectDrained(Tick(clk, 0));
      assert completed[0..] == completed;
      for i := 0 to |completed|
        invariant th == old(th) && FinishDrains(State(), completed[i..], clk, 1 + i) == want
      {
        CompleteDrain(completed, i, clk);
      }
    }

    method CompleteDrain(completed: seq<Id>, i: nat, clk: Clock)
      requires i < |completed|
      modifies this
      ensures th == old(th)
      ensures FinishDrains(old(State()), completed[i..], clk, 1 + i)
           == FinishDrains(State(), completed[i + 1..], clk, 1 + (i + 1))
    {
      FinishDrainsStep(State(), completed, i, clk, 1 + i);
      draining := WithoutDrain(draining, completed[i]);
      FinishEviction(completed[i], Tick(clk, 1 + i));
    }

    method CollectDrained(now: real) returns (completed: seq<Id>)
      ensures completed == Completed(c, servers, draining, now)
    {
      completed := [];
      for i := 0 to |draining|
        invariant Completed(c, servers, draining, now) == completed + Completed(c, servers, draining[i..], now)
      {
        assert draining[i..][1..] == draining[i + 1..];
        if Drained(c, servers, draining[i], now) {
          completed := completed + [draining[i].id];
        }
      }
    }

    // ----- Routing -----

    method EmergencyServer() returns (id: Option<Id>)
      ensures id == Emergency(State())
    {
      if outer != [] {
        return Some(outer[0]);
      }
      if draining != [] {
        return Some(draining[0].id);
      }
      return None;
    }

    method NextServer(key: Option<SessionKey>) returns (id: Option<Id>)
      modifies this`inner, this`affinity
      ensures (State(), id) == GetServer(old(State()), key)
    {
      if inner == [] {
        id := EmergencyServer();
        return;
      }
      if key.Some? && key.value in affinity && affinity[key.value] in inner
         && At(servers, affinity[key.value]).metrics.healthy {
        return Some(affinity[key.value]);
      }
      id := Some(inner[0]);
      inner := Turn(inner);
      if key.Some? {
        affinity := affinity[key.value := id.value];
      }
    }

    method NextServerExcluding(excluded: set<Id>) returns (id: Option<Id>)
      modifies this`inner
      ensures (State(), id) == GetExcluding(old(State()), excluded)
    {
      if inner == [] {
        id := EmergencyServer();
        return;
      }
      ghost var want := Scan(inner, excluded, |inner|);
      var n := |inner|;
      for k := 0 to n
        invariant |inner| == n && Scan(inner, excluded, n - k) == want
      {
        var server := inner[0];
        inner := Turn(inner);
        if server !in excluded {
          return Some(server);
        }
      }
      id := Some(inner[0]);
      inner := Turn(inner);
    }

    /** The choice of the second server in `hedged_request`. */
    method BackupServer(primary: Id) returns (id: Option<Id>)
      ensures id == Backup(State(), primary)
    {
      var candidates := OtherServers(inner, primary);
      if candidates == [] {
        candidates := OtherServers(outer, primary);
      }
      id := CoolestServer(candidates);
    }

    method OtherServers(ids: seq<Id>, primary: Id) returns (others: seq<Id>)
      ensures others == Others(ids, primary)
    {
      others := [];
      assert ids[0..] == ids;
      for i := 0 to |ids|
        invariant Others(ids, primary) == others + Others(ids[i..], primary)
      {
        assert ids[i..][1..] == ids[i + 1..];
        if ids[i] != primary {
          others := others + [ids[i]];
        }
      }
      assert ids[|ids|..] == [] && others + [] == others;
    }

    method CoolestServer(ids: seq<Id>) returns (id: Option<Id>)
      ensures id == Coolest(servers, ids)
    {
      id := None;
      for i := 0 to |ids|
        invariant id == Coolest(servers, ids[..i])
        invariant i > 0 ==> id.Some?
      {
        assert ids[..i + 1][..i] == ids[..i];
        if id.None? || At(servers, ids[i]).temperature < At(servers, id.value).temperature {
          id := Some(ids[i]);
        }
      }
      assert ids[..|ids|] == ids;
    }

    /** `outcomes[k]` is what the caller's function does on attempt `k`; there are
        `max_retries + 1` of them. */
    method RequestWithRetry(key: Option<SessionKey>, outcomes: seq<Outcome>) returns (tried: seq<Id>, verdict: Answer)
      modifies this
      ensures Retry(State(), tried, verdict) == Attempts(old(State()), key, [], outcomes)
      ensures th == old(th)
    {
      tried := [];
      for attempt := 0 to |outcomes|
        invariant th == old(th) && |tried| == attempt
        invariant Attempts(State(), key, tried, outcomes[attempt..]) == Attempts(old(State()), key, [], outcomes)
      {
        assert outcomes[attempt..][1..] == outcomes[attempt + 1..];
        var id;
        if attempt == 0 {
          id := NextServer(key);
        } else {
          id := NextServerExcluding(SetOf(tried));
        }
        if id.None? {
          return tried, Exhausted;
        }
        tried := tried + [id.value];
        match outcomes[attempt] {
          case Succeeds => return tried, Returned(id.value);
          case FailsFatal => return tried, Raised(id.value);
          case FailsRetryable =>
            if id.value in servers {
              servers := servers[id.value := servers[id.value].(metrics := Penalise(servers[id.value].metrics))];
            }
        }
      }
      verdict := Exhausted;
    }
  }
}
