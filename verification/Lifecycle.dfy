/** A node record of the master's registry (huddle_cluster_pkg/cluster_master.py): alive, dead or
    quarantined, with the deaths of the last flap window. What the handlers and the monitor do to a
    record, as functions; `MasterNodeObject` runs them on records updated in place. */
module Lifecycle {
  import opened Options

  type Id = nat

  datatype Status = Alive | Dead | Quarantined | Leaving

  datatype Record = Record(status: Status, lastHeartbeat: real, heartbeats: nat, deathCount: nat,
                           recentDeaths: seq<real>, streak: int)

  /** heartbeat_timeout_sec, flap_window_sec, flap_threshold, quarantine_recovery_heartbeats and
      purge_after_sec. */
  datatype Policy = Policy(timeout: real, flapWindow: real, flapThreshold: int, recovery: int,
                           purgeAfter: Option<real>)

  /** [t for t in times if t >= cutoff] */
  function Since(times: seq<real>, cutoff: real): seq<real> {
    if times == [] then []
    else if times[0] >= cutoff then [times[0]] + Since(times[1..], cutoff)
    else Since(times[1..], cutoff)
  }

  function NewRecord(now: real): Record { Record(Alive, now, 0, 0, [], 0) }

  function RecordDeath(p: Policy, r: Record, now: real): Record {
    r.(deathCount := r.deathCount + 1,
       recentDeaths := Since(r.recentDeaths + [now], now - p.flapWindow),
       streak := 0)
  }

  predicate TimesOut(p: Policy, r: Record, now: real) {
    (r.status == Alive || r.status == Quarantined) && now - r.lastHeartbeat > p.timeout
  }

  predicate Purgeable(p: Policy, r: Record, now: real) {
    r.status == Dead && p.purgeAfter.Some? && now - r.lastHeartbeat > p.purgeAfter.value
  }

  /** One record in a pass of `_check_heartbeats`. */
  function Tick(p: Policy, r: Record, now: real): Record {
    if TimesOut(p, r, now) then RecordDeath(p, r.(status := Dead), now) else r
  }

  /** A sign of life from a dead node. */
  function Recover(p: Policy, r: Record, now: real): Record {
    var recent := Since(r.recentDeaths, now - p.flapWindow);
    if |recent| >= p.flapThreshold
    then r.(recentDeaths := recent, status := Quarantined, streak := 1)
    else r.(recentDeaths := recent, status := Alive)
  }

  /** `_handle_join` of a registered node. */
  function Rejoin(p: Policy, r: Record, now: real): Record {
    var r1 := r.(lastHeartbeat := now);
    match r.status
    case Dead => Recover(p, r1, now)
    case Leaving => r1.(status := Alive)
    case _ => r1
  }

  /** `_handle_heartbeat` */
  function Heartbeat(p: Policy, r: Record, now: real): Record {
    var r1 := r.(lastHeartbeat := now, heartbeats := r.heartbeats + 1);
    match r.status
    case Dead => Recover(p, r1, now)
    case Quarantined =>
      if r.streak + 1 >= p.recovery then r1.(streak := r.streak + 1, status := Alive, recentDeaths := [])
      else r1.(streak := r.streak + 1)
    case _ => r1
  }
}

/** The registry object. */
module MasterNodeObject {
  import opened Lifecycle

  class NodeRecord {
    var status: Status
    var lastHeartbeat: real
    var heartbeats: nat
    var deathCount: nat
    var recentDeaths: seq<real>
    var streak: int

    ghost function Value(): Record
      reads this
    {
      Record(status, lastHeartbeat, heartbeats, deathCount, recentDeaths, streak)
    }

    constructor (now: real)
      ensures Value() == NewRecord(now)
    {
      status, lastHeartbeat, heartbeats, deathCount, recentDeaths, streak := Alive, now, 0, 0, [], 0;
    }
  }

  method Prune(times: seq<real>, cutoff: real) returns (kept: seq<real>)
    ensures kept == Since(times, cutoff)
  {
    kept := [];
    for i := 0 to |times|
      invariant Since(times, cutoff) == kept + Since(times[i..], cutoff)
    {
      assert times[i..][1..] == times[i + 1..];
      if times[i] >= cutoff {
        kept := kept + [times[i]];
      }
    }
  }

  class MasterNode {
    const p: Policy
    var nodes: map<Id, NodeRecord>

    constructor (p: Policy)
      ensures this.p == p && nodes == map[]
    {
      this.p := p;
      nodes := map[];
    }

    /** No two ids share a record. */
    ghost predicate Valid()
      reads this
    {
      forall a, b :: a in nodes && b in nodes && a != b ==> nodes[a] != nodes[b]
    }

    ghost function Records(): map<Id, Record>
      reads this, nodes.Values
    {
      map id | id in nodes :: nodes[id].Value()
    }

    method RegisterDeath(node: NodeRecord, now: real)
      modifies node
      ensures node.Value() == RecordDeath(p, old(node.Value()), now)
    {
      node.deathCount := node.deathCount + 1;
      node.recentDeaths := Prune(node.recentDeaths + [now], now - p.flapWindow);
      node.streak := 0;
    }

    method RecoverNode(node: NodeRecord, now: real)
      modifies node
      ensures node.Value() == Recover(p, old(node.Value()), now)
    {
      node.recentDeaths := Prune(node.recentDeaths, now - p.flapWindow);
      if |node.recentDeaths| >= p.flapThreshold {
        node.status := Quarantined;
        node.streak := 1;
      } else {
        node.status := Alive;
      }
    }

    method HandleJoin(id: Id, now: real)
      requires Valid()
      modifies this, nodes.Values
      ensures Valid()
      ensures Records() == old(Records())[id := if id in old(nodes) then Rejoin(p, old(nodes[id].Value()), now)
                                                else NewRecord(now)]
    {
      if id in nodes {
        var node := nodes[id];
        node.lastHeartbeat := now;
        if node.status == Dead {
          RecoverNode(node, now);
        } else if node.status == Leaving {
          node.status := Alive;
        }
      } else {
        var node := new NodeRecord(now);
        nodes := nodes[id := node];
      }
    }

    method HandleHeartbeat(id: Id, now: real) returns (ok: bool)
      requires Valid()
      modifies nodes.Values
      ensures Valid() && (ok <==> id in nodes)
      ensures Records() == if ok then old(Records())[id := Heartbeat(p, old(nodes[id].Value()), now)]
                           else old(Records())
    {
      if id !in nodes {
        return false;
      }
      ok := true;
      var node := nodes[id];
      node.lastHeartbeat := now;
      node.heartbeats := node.heartbeats + 1;
      if node.status == Dead {
        RecoverNode(node, now);
      } else if node.status == Quarantined {
        node.streak := node.streak + 1;
        if node.streak >= p.recovery {
          node.status := Alive;
          node.recentDeaths := [];
        }
      }
    }

    method HandleLeave(id: Id) returns (ok: bool)
      requires Valid()
      modifies this
      ensures Valid() && (ok <==> id in old(nodes))
      ensures Records() == old(Records()) - {id}
    {
      ok := id in nodes;
      nodes := nodes - {id};
    }

    /** What the monitor does to one record, and whether the record is to be purged. */
    method CheckNode(node: NodeRecord, now: real) returns (silent: bool)
      modifies node
      ensures node.Value() == Tick(p, old(node.Value()), now)
      ensures silent <==> Purgeable(p, old(node.Value()), now)
    {
      silent := false;
      if (node.status == Alive || node.status == Quarantined) && now - node.lastHeartbeat > p.timeout {
        node.status := Dead;
        RegisterDeath(node, now);
      } else if node.status == Dead && p.purgeAfter.Some? && now - node.lastHeartbeat > p.purgeAfter.value {
        silent := true;
      }
    }

    method CheckHeartbeats(now: real)
      requires Valid()
      modifies this, nodes.Values
      ensures Valid()
      ensures Records() == map id | id in old(nodes) && !Purgeable(p, old(nodes[id].Value()), now) ::
                             Tick(p, old(nodes[id].Value()), now)
    {
      var todo := nodes.Keys;
      var purged: set<Id> := {};
      while todo != {}
        invariant nodes == old(nodes) && todo <= nodes.Keys
        invariant forall id :: id in todo ==> nodes[id].Value() == old(nodes[id].Value())
        invariant forall id :: id in nodes.Keys - todo ==> nodes[id].Value() == Tick(p, old(nodes[id].Value()), now)
        invariant forall id :: id in purged <==>
          id in nodes && id !in todo && Purgeable(p, old(nodes[id].Value()), now)
        decreases todo
      {
        var id :| id in todo;
        var silent := CheckNode(nodes[id], now);
        if silent {
          purged := purged + {id};
        }
        todo := todo - {id};
      }
      nodes := nodes - purged;
    }
  }
}
