/** Which moves expose a server in quarantine to live traffic, over whole runs. */
module QuarantineLaws {
  import opened Options
  import opened Rings
  import opened RingLaws
  import opened RoutingLaws
  import opened Quarantine
  import M = Remediation

  // ----- One move -----

  lemma InnerOnlyShrinks(c: Config, j: Joint, m: Move)
    requires Enabled(c, j, m) && (m.Withdraw? || m.Evict? || m.Settle? || m.Route? || m.RouteExcluding? || m.Observing?)
    ensures Apply(c, j, m).rem == j.rem
    ensures forall id :: id in Apply(c, j, m).ring.inner ==> id in j.ring.inner
  {
    match m {
      case Withdraw(id) => WithoutMembers(j.ring.inner, id);
      case Evict(id, _, _, _) => WithoutMembers(j.ring.inner, id);
      case Settle(_, _) =>
      case Observing(_, _, _, _) =>
      case Route(_) => TurnBag(j.ring.inner);
      case RouteExcluding(excluded) => if j.ring.inner != [] { ScanBag(j.ring.inner, excluded, |j.ring.inner|); }
    }
  }

  /** A pulled server is in quarantine afterwards exactly if it was and does not recover on the way. */
  lemma PullExposesExactly(j: Joint, cool: real, now: real)
    requires Sheltered(j) && j.ring.outer != []
    ensures Sheltered(Pull(j, cool, now)) <==>
            (j.ring.outer[0] in j.rem.quarantined ==> Recovers(j, j.ring.outer[0], cool))
  {
    var id, t := j.ring.outer[0], Pull(j, cool, now);
    assert t.ring.inner == j.ring.inner + [id];
    assert t.ring.inner[|j.ring.inner|] == id;
  }

  lemma MoveSheltersExactly(c: Config, j: Joint, m: Move)
    requires Sheltered(j) && Enabled(c, j, m)
    ensures Sheltered(Apply(c, j, m)) <==> Guarded(c, j, m)
  {
    match m {
      case Enroll(id, _, forceInner, _) =>
        if EntersInner(c, j.ring, forceInner) {
          assert Apply(c, j, m).ring.inner[|j.ring.inner|] == id;
        }
      case Refill(cool, now) => PullExposesExactly(j, cool, now);
      case Return(th, clk, k) => PullExposesExactly(j, th.cool, Tick(clk, k + 2));
      case Counting(_, _) =>
      case Admitting(id, _, _, _) =>
      case Concluding(_, _, _) =>
      case Releasing(_) =>
      case _ => InnerOnlyShrinks(c, j, m);
    }
  }

  // ----- Runs -----

  const BEGIN := Joint(EMPTY_RING, M.FRESH)

  ghost predicate IsRun(c: Config, moves: seq<Move>, states: seq<Joint>) {
    && |states| == |moves| + 1 && states[0] == BEGIN
    && (forall k :: 0 <= k < |moves| ==> Follows(c, moves, states, k))
  }

  ghost predicate Follows(c: Config, moves: seq<Move>, states: seq<Joint>, k: nat)
    requires k < |moves| == |states| - 1
  {
    Enabled(c, states[k], moves[k]) && states[k + 1] == Apply(c, states[k], moves[k])
  }

  ghost predicate GuardedAt(c: Config, j: Joint, m: Move) { Enabled(c, j, m) && Guarded(c, j, m) }

  lemma {:induction false} GuardedShelters(c: Config, moves: seq<Move>, states: seq<Joint>, k: nat)
    requires IsRun(c, moves, states) && k < |states|
    requires forall i :: 0 <= i < |moves| ==> GuardedAt(c, states[i], moves[i])
    ensures Sheltered(states[k])
  {
    if k > 0 {
      GuardedShelters(c, moves, states, k - 1);
      assert Follows(c, moves, states, k - 1) && GuardedAt(c, states[k - 1], moves[k - 1]);
      MoveSheltersExactly(c, states[k - 1], moves[k - 1]);
    }
  }

  /** Over a whole run: no server in quarantine is ever in the inner ring if and only if every manual or
      other trigger hits a server outside it, every refill finds the coolest server free or recovering,
      and no quarantined id is registered straight into it. */
  lemma ShelteredExactly(c: Config, moves: seq<Move>, states: seq<Joint>)
    requires IsRun(c, moves, states)
    ensures (forall k :: 0 <= k < |states| ==> Sheltered(states[k])) <==>
            (forall k :: 0 <= k < |moves| ==> GuardedAt(c, states[k], moves[k]))
  {
    if forall k :: 0 <= k < |moves| ==> GuardedAt(c, states[k], moves[k]) {
      forall k | 0 <= k < |states|
        ensures Sheltered(states[k])
      {
        GuardedShelters(c, moves, states, k);
      }
    }
    if forall k :: 0 <= k < |states| ==> Sheltered(states[k]) {
      forall k | 0 <= k < |moves|
        ensures GuardedAt(c, states[k], moves[k])
      {
        assert Follows(c, moves, states, k) && Sheltered(states[k + 1]);
        MoveSheltersExactly(c, states[k], moves[k]);
      }
    }
  }

  // ----- What routing makes of it -----

  /** This choice of a server is in quarantine. */
  predicate Blocked(j: Joint, choice: Option<Id>) { choice.Some? && choice.value in j.rem.quarantined }

  /** While quarantined servers are out of the inner ring, a request, or a retry, goes to one exactly when
      the inner ring is empty and the emergency choice is in quarantine; and the backup of a hedged request
      exactly when the inner ring holds nobody but the primary and the coolest other server of the outer
      ring is in quarantine. */
  lemma RoutedExactly(j: Joint, key: Option<SessionKey>, excluded: set<Id>, primary: Id)
    requires Sheltered(j)
    ensures
      var emergency := j.ring.inner == [] && Blocked(j, Emergency(j.ring));
      && (Blocked(j, GetServer(j.ring, key).1) <==> emergency)
      && (Blocked(j, GetExcluding(j.ring, excluded).1) <==> emergency)
    ensures Blocked(j, Backup(j.ring, primary)) <==>
      && (forall id :: id in j.ring.inner ==> id == primary)
      && Blocked(j, Coolest(j.ring.servers, Others(j.ring.outer, primary)))
  {
    OthersMembers(j.ring.inner, primary);
    CoolestIsLeast(j.ring.servers, Others(j.ring.inner, primary));
    if Others(j.ring.inner, primary) != [] {
      assert Others(j.ring.inner, primary)[0] in Others(j.ring.inner, primary);
    }
    if j.ring.inner != [] {
      ScanMember(j.ring.inner, excluded, |j.ring.inner|);
      assert j.ring.inner[0] in j.ring.inner;
    }
  }

  // ----- The operations of the cluster are made of these moves -----

  /** Moves taken one after the other, from `j` to `t`. */
  ghost predicate Leads(c: Config, j: Joint, moves: seq<Move>, t: Joint)
    decreases |moves|
  {
    if moves == [] then t == j
    else Enabled(c, j, moves[0]) && Leads(c, Apply(c, j, moves[0]), moves[1..], t)
  }

  /** The same, each of them guarded. */
  ghost predicate Safely(c: Config, j: Joint, moves: seq<Move>, t: Joint)
    decreases |moves|
  {
    if moves == [] then t == j
    else GuardedAt(c, j, moves[0]) && Safely(c, Apply(c, j, moves[0]), moves[1..], t)
  }

  lemma SafelyOne(c: Config, j: Joint, m: Move)
    requires GuardedAt(c, j, m)
    ensures Safely(c, j, [m], Apply(c, j, m))
  {
    assert [m][1..] == [];
  }

  lemma {:induction false} LeadsThen(c: Config, j: Joint, a: seq<Move>, t: Joint, b: seq<Move>, u: Joint)
    requires Leads(c, j, a, t) && Leads(c, t, b, u)
    ensures Leads(c, j, a + b, u)
    decreases |a|
  {
    if a == [] {
      assert a + b == b;
    } else {
      assert (a + b)[0] == a[0] && (a + b)[1..] == a[1..] + b;
      LeadsThen(c, Apply(c, j, a[0]), a[1..], t, b, u);
    }
  }

  lemma {:induction false} SafelyLeads(c: Config, j: Joint, moves: seq<Move>, t: Joint)
    requires Safely(c, j, moves, t)
    ensures Leads(c, j, moves, t)
    decreases |moves|
  {
    if moves != [] {
      SafelyLeads(c, Apply(c, j, moves[0]), moves[1..], t);
    }
  }

  lemma {:induction false} SafelyThen(c: Config, j: Joint, a: seq<Move>, t: Joint, b: seq<Move>, u: Joint)
    requires Safely(c, j, a, t) && Safely(c, t, b, u)
    ensures Safely(c, j, a + b, u)
    decreases |a|
  {
    if a == [] {
      assert a + b == b;
    } else {
      assert (a + b)[0] == a[0] && (a + b)[1..] == a[1..] + b;
      SafelyThen(c, Apply(c, j, a[0]), a[1..], t, b, u);
    }
  }

  lemma PullIs(j: Joint, cool: real, now: real)
    requires j.ring.outer != []
    ensures Pull(j, cool, now).ring == PullCoolest(j.ring, now)
    ensures |Pull(j, cool, now).ring.outer| < |j.ring.outer|
  {
  }

  lemma ReturnIsSafe(c: Config, th: Thresholds, j: Joint, clk: Clock, k: nat)
    requires MayPromote(c, th, j.ring, clk, k, j.rem.quarantined)
    ensures
      var t := Apply(c, j, Return(th, clk, k));
      && GuardedAt(c, j, Return(th, clk, k)) && t.ring == PullCoolest(j.ring, Tick(clk, k + 2))
      && t.rem.quarantined == j.rem.quarantined && |t.ring.outer| < |j.ring.outer|
  {
    PullIs(j, th.cool, Tick(clk, k + 2));
    assert j.ring.outer != [] && j.ring.outer[0] !in j.rem.quarantined;
    RecoverReleases(j.rem, j.ring.outer[0]);
  }

  lemma RecoverReleases(r: M.Remediator, id: Id)
    requires id !in r.quarantined
    ensures M.Recover(r, id).quarantined == r.quarantined
  {
  }

  lemma {:induction false} RefillsAreMoves(c: Config, j: Joint, cool: real, clk: Clock, k: nat)
    returns (moves: seq<Move>, t: Joint)
    ensures t.ring == MaybePull(c, j.ring, clk, k) && Leads(c, j, moves, t)
    ensures forall i :: 0 <= i < |moves| ==> moves[i].Refill?
    decreases |j.ring.outer|
  {
    moves, t := [], j;
    if j.ring.outer != [] && |j.ring.inner| < c.minInner {
      var j1 := Pull(j, cool, Tick(clk, k));
      PullIs(j, cool, Tick(clk, k));
      var rest;
      rest, t := RefillsAreMoves(c, j1, cool, clk, k + 1);
      moves := RefillThen(c, j, cool, clk, k, rest, t);
    } else {
      MaybePullStep(c, j.ring, clk, k);
    }
  }

  lemma RefillThen(c: Config, j: Joint, cool: real, clk: Clock, k: nat, rest: seq<Move>, t: Joint)
    returns (moves: seq<Move>)
    requires j.ring.outer != [] && |j.ring.inner| < c.minInner
    requires var j1 := Pull(j, cool, Tick(clk, k));
      t.ring == MaybePull(c, j1.ring, clk, k + 1) && Leads(c, j1, rest, t)
    requires forall i :: 0 <= i < |rest| ==> rest[i].Refill?
    ensures t.ring == MaybePull(c, j.ring, clk, k) && Leads(c, j, moves, t)
    ensures forall i :: 0 <= i < |moves| ==> moves[i].Refill?
  {
    moves := [Refill(cool, Tick(clk, k))] + rest;
    RefillRing(c, j, cool, clk, k);
    RefillLeads(c, j, cool, Tick(clk, k), rest, t);
  }

  lemma RefillRing(c: Config, j: Joint, cool: real, clk: Clock, k: nat)
    requires j.ring.outer != [] && |j.ring.inner| < c.minInner
    ensures MaybePull(c, j.ring, clk, k) == MaybePull(c, Pull(j, cool, Tick(clk, k)).ring, clk, k + 1)
  {
    PullIs(j, cool, Tick(clk, k));
    MaybePullStep(c, j.ring, clk, k);
  }

  lemma RefillLeads(c: Config, j: Joint, cool: real, now: real, rest: seq<Move>, t: Joint)
    requires j.ring.outer != [] && |j.ring.inner| < c.minInner && Leads(c, Pull(j, cool, now), rest, t)
    ensures Leads(c, j, [Refill(cool, now)] + rest, t)
  {
    var moves := [Refill(cool, now)] + rest;
    assert moves[1..] == rest && Apply(c, j, moves[0]) == Pull(j, cool, now);
  }

  /** A removal is a withdrawal and refills, and nothing looks at the quarantine. */
  lemma RemoveIsMoves(c: Config, j: Joint, id: Id, cool: real, clk: Clock) returns (moves: seq<Move>, t: Joint)
    ensures t.ring == Remove(c, j.ring, id, clk) && Leads(c, j, moves, t)
    ensures |moves| > 0 && moves[0] == Withdraw(id) && forall i :: 1 <= i < |moves| ==> moves[i].Refill?
  {
    var j1 := Apply(c, j, Withdraw(id));
    var rest;
    if id in j.ring.inner {
      rest, t := RefillsAreMoves(c, j1, cool, clk, 0);
    } else {
      rest, t := [], j1;
    }
    moves := [Withdraw(id)] + rest;
    assert moves[1..] == rest;
  }

  // ----- The ways in -----

  const SMALL := Config(1, 2, 0.0, 0.0, None, 0.0, 1.0, 0.0)
  const WARM := Server(1.0, 0.4, Outer, 0.0, 0.0, Metrics(true, 0.0, 0.0, 0))

  /** The request a cluster in this state answers next goes to a server in quarantine. */
  ghost predicate Exposes(j: Joint) {
    Blocked(j, GetServer(j.ring, None).1)
  }

  lemma OneMore(c: Config, moves: seq<Move>, states: seq<Joint>, m: Move)
    returns (moves': seq<Move>, states': seq<Joint>)
    requires IsRun(c, moves, states) && Enabled(c, states[|moves|], m)
    ensures moves' == moves + [m] && states' == states + [Apply(c, states[|moves|], m)] && IsRun(c, moves', states')
  {
    moves', states' := moves + [m], states + [Apply(c, states[|moves|], m)];
    forall k | 0 <= k < |moves'|
      ensures Follows(c, moves', states', k)
    {
      if k < |moves| {
        assert Follows(c, moves, states, k);
      }
    }
  }

  /** A remediation triggered by hand: the server keeps its place in the inner ring. */
  lemma ManualTriggerExposes() returns (moves: seq<Move>, states: seq<Joint>)
    ensures IsRun(SMALL, moves, states) && |moves| == 2
    ensures states[2].ring.inner == [0]
    ensures 0 in states[2].rem.states && states[2].rem.states[0] == M.Quarantined && Exposes(states[2])
  {
    moves, states := [], [BEGIN];
    moves, states := OneMore(SMALL, moves, states, Enroll(0, WARM, true, 0.0));
    assert states[1].ring.inner == [0];
    moves, states := OneMore(SMALL, moves, states, Admitting(0, 3, 0.0, 0.0));
  }

  /** One server inside, one outside. */
  lemma OneEach() returns (moves: seq<Move>, states: seq<Joint>)
    ensures IsRun(SMALL, moves, states) && |moves| == 2
    ensures states[2].rem == M.FRESH && states[2].ring.inner == [0] && states[2].ring.outer == [1]
    ensures states[2].ring.servers == map[0 := WARM.(position := Inner), 1 := WARM]
  {
    moves, states := [], [BEGIN];
    moves, states := OneMore(SMALL, moves, states, Enroll(0, WARM, true, 0.0));
    moves, states := OneMore(SMALL, moves, states, Enroll(1, WARM, false, 0.0));
    assert multiset(states[2].ring.outer) == multiset{1};
    OneElement(states[2].ring.outer, 1);
  }

  /** A refill: removing the only inner server pulls in the quarantined one, warm as it is. */
  lemma RefillExposes() returns (moves: seq<Move>, states: seq<Joint>)
    ensures IsRun(SMALL, moves, states) && |moves| == 5 && moves[4] == Refill(0.3, 0.0)
    ensures states[5].ring.inner == [1]
    ensures 1 in states[5].rem.states && states[5].rem.states[1] == M.Quarantined && Exposes(states[5])
  {
    moves, states := OneEach();
    moves, states := OneMore(SMALL, moves, states, Admitting(1, 3, 0.0, 0.0));
    moves, states := OneMore(SMALL, moves, states, Withdraw(0));
    assert states[4].ring.inner == [] && states[4].ring.outer == [1];
    moves, states := OneMore(SMALL, moves, states, Refill(0.3, 0.0));
  }

  /** A registration: a server in quarantine is removed, comes back, and goes straight to the inner ring. */
  lemma RegistrationExposes() returns (moves: seq<Move>, states: seq<Joint>)
    ensures IsRun(SMALL, moves, states) && |moves| == 4 && moves[3] == Enroll(0, WARM, true, 0.0)
    ensures Sheltered(states[3]) && Exposes(states[4])
  {
    moves, states := [], [BEGIN];
    moves, states := OneMore(SMALL, moves, states, Enroll(0, WARM, true, 0.0));
    moves, states := OneMore(SMALL, moves, states, Admitting(0, 3, 0.0, 0.0));
    moves, states := OneMore(SMALL, moves, states, Withdraw(0));
    assert states[3].ring.inner == [];
    moves, states := OneMore(SMALL, moves, states, Enroll(0, WARM, true, 0.0));
    assert states[4].ring.inner == [0];
  }

  /** A hedged request: the only inner server is slow, and the backup goes to the quarantined one. */
  lemma BackupExposes() returns (moves: seq<Move>, states: seq<Joint>)
    ensures IsRun(SMALL, moves, states) && |moves| == 3
    ensures Sheltered(states[3]) && states[3].ring.inner == [0] && !Exposes(states[3])
    ensures Blocked(states[3], Backup(states[3].ring, 0))
  {
    moves, states := OneEach();
    moves, states := OneMore(SMALL, moves, states, Admitting(1, 3, 0.0, 0.0));
    assert Others([0], 0) == [];
    assert Others([1], 0) == [1] && Coolest(states[3].ring.servers, [1]) == Some(1);
  }

  /** The emergency choice: with nothing in the inner ring, the quarantine is not consulted. */
  lemma EmergencyExposes() returns (moves: seq<Move>, states: seq<Joint>)
    ensures IsRun(SMALL, moves, states) && |moves| == 2
    ensures Sheltered(states[2]) && Exposes(states[2])
  {
    moves, states := [], [BEGIN];
    moves, states := OneMore(SMALL, moves, states, Enroll(1, WARM, false, 0.0));
    assert multiset(states[1].ring.outer) == multiset{1};
    OneElement(states[1].ring.outer, 1);
    moves, states := OneMore(SMALL, moves, states, Admitting(1, 3, 0.0, 0.0));
  }

  lemma OneElement(s: seq<Id>, x: Id)
    requires multiset(s) == multiset{x}
    ensures s == [x]
  {
    assert |multiset(s)| == |s| == 1;
    assert s[0] in multiset(s);
  }
}
