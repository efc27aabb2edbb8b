/** What the election promises over whole runs, for every cluster size, schedule and failure. */
module ElectionSafety {
  import opened Options
  import opened ElectionNode
  import opened Election

  /** `states[k]` is the cluster after the first `k` of `steps`. */
  ghost predicate IsRun(cfg: seq<Settings>, states: seq<Sys>, steps: seq<Step>) {
    && ValidConfig(cfg)
    && |states| == |steps| + 1
    && states[0] == Init(cfg)
    && (forall k :: 0 <= k < |steps| ==> IsStep(cfg, states[k], steps[k], states[k + 1]))
  }

  ghost predicate IsStep(cfg: seq<Settings>, s: Sys, e: Step, t: Sys) {
    WellFormed(cfg, s) && Enabled(cfg, s, e) && t == Apply(cfg, s, e)
  }

  ghost predicate FreshAt(cfg: seq<Settings>, s: Sys, e: Step) {
    WellFormed(cfg, s) && Enabled(cfg, s, e) && Fresh(cfg, s, e)
  }

  ghost predicate AllFresh(cfg: seq<Settings>, states: seq<Sys>, steps: seq<Step>)
    requires |states| == |steps| + 1
  {
    forall k :: 0 <= k < |steps| ==> FreshAt(cfg, states[k], steps[k])
  }

  /** The safety invariant holds in every state of a run exactly when no step acts on stale data. */
  lemma RunIsSafeIffFresh(cfg: seq<Settings>, states: seq<Sys>, steps: seq<Step>)
    requires IsRun(cfg, states, steps)
    ensures (forall k :: 0 <= k < |states| ==> Inv(cfg, states[k])) <==> AllFresh(cfg, states, steps)
  {
    if AllFresh(cfg, states, steps) {
      InitOk(cfg);
      for k := 0 to |steps|
        invariant forall l :: 0 <= l <= k ==> Inv(cfg, states[l])
      {
        assert IsStep(cfg, states[k], steps[k], states[k + 1]) && FreshAt(cfg, states[k], steps[k]);
        StepExact(cfg, states[k], steps[k]);
      }
    }
    if forall k :: 0 <= k < |states| ==> Inv(cfg, states[k]) {
      forall k | 0 <= k < |steps| ensures FreshAt(cfg, states[k], steps[k]) {
        assert IsStep(cfg, states[k], steps[k], states[k + 1]) && Inv(cfg, states[k + 1]);
        StepExact(cfg, states[k], steps[k]);
      }
    }
  }

  lemma InitOk(cfg: seq<Settings>)
    requires ValidConfig(cfg)
    ensures Inv(cfg, Init(cfg))
  {
    forall i | 0 <= i < |cfg| ensures NodeOk(cfg, Init(cfg), i) && RoundOk(cfg, Init(cfg), i) {}
  }

  // ----- Quorum intersection -----

  lemma BoundedCardinality(n: nat, s: set<Id>)
    requires forall v :: v in s ==> v < n
    ensures |s| <= n
  {
    if n > 0 {
      BoundedCardinality(n - 1, s - {n - 1});
      CardinalityMonotone(s, (s - {n - 1}) + {n - 1});
    } else {
      assert s == {};
    }
  }

  /** Two majorities share a voter, and a voter has one vote. */
  lemma OneWinner(n: nat, votes: map<(nat, Id), Id>, term: nat, i: Id, j: Id)
    requires Won(n, votes, term, i) && Won(n, votes, term, j)
    ensures i == j
  {
    var a, b := Voters(n, votes, term, i), Voters(n, votes, term, j);
    BoundedCardinality(n, a + b);
    assert |a + b| == |a| + |b| - |a * b|;
    var v :| v in a * b;
  }

  // ----- History -----

  lemma StepKeepsVotes(cfg: seq<Settings>, s: Sys, e: Step)
    requires Inv(cfg, s) && Enabled(cfg, s, e)
    ensures forall t: nat, v: Id :: (t, v) in s.votes ==>
              (t, v) in Apply(cfg, s, e).votes && Apply(cfg, s, e).votes[(t, v)] == s.votes[(t, v)]
    ensures forall v :: 0 <= v < |cfg| ==> s.top[v] <= Apply(cfg, s, e).top[v]
  {
    forall t: nat, v: Id | (t, v) in s.votes ensures VoteKept(|cfg|, s, t, v) {}
    match e
    case Elect(i) => assert NodeOk(cfg, s, i);
    case OnVoteReq(m) => assert NodeOk(cfg, s, m.to);
    case _ =>
  }

  lemma VotesKeptAlong(cfg: seq<Settings>, states: seq<Sys>, steps: seq<Step>, a: nat, b: nat)
    requires IsRun(cfg, states, steps) && a <= b < |states|
    requires forall k :: 0 <= k < |states| ==> Inv(cfg, states[k])
    ensures forall t: nat, v: Id :: (t, v) in states[a].votes ==>
              (t, v) in states[b].votes && states[b].votes[(t, v)] == states[a].votes[(t, v)]
    ensures |states[a].top| == |states[b].top| == |cfg|
    ensures forall v :: 0 <= v < |cfg| ==> states[a].top[v] <= states[b].top[v]
    decreases b
  {
    if a < b {
      VotesKeptAlong(cfg, states, steps, a, b - 1);
      assert IsStep(cfg, states[b - 1], steps[b - 1], states[b]);
      StepKeepsVotes(cfg, states[b - 1], steps[b - 1]);
    }
  }

  lemma WinsKeptAlong(cfg: seq<Settings>, states: seq<Sys>, steps: seq<Step>, a: nat, b: nat, term: nat, i: Id)
    requires IsRun(cfg, states, steps) && a <= b < |states|
    requires forall k :: 0 <= k < |states| ==> Inv(cfg, states[k])
    requires Won(|cfg|, states[a].votes, term, i)
    ensures Won(|cfg|, states[b].votes, term, i)
  {
    VotesKeptAlong(cfg, states, steps, a, b);
    CardinalityMonotone(Voters(|cfg|, states[a].votes, term, i), Voters(|cfg|, states[b].votes, term, i));
  }

  lemma OneWinnerEver(cfg: seq<Settings>, states: seq<Sys>, steps: seq<Step>,
                      a: nat, i: Id, b: nat, j: Id, term: nat)
    requires IsRun(cfg, states, steps) && AllFresh(cfg, states, steps)
    requires a < |states| && Won(|cfg|, states[a].votes, term, i)
    requires b < |states| && Won(|cfg|, states[b].votes, term, j)
    ensures i == j
  {
    RunIsSafeIffFresh(cfg, states, steps);
    var last := |states| - 1;
    WinsKeptAlong(cfg, states, steps, a, last, term, i);
    WinsKeptAlong(cfg, states, steps, b, last, term, j);
    OneWinner(|cfg|, states[last].votes, term, i, j);
  }

  // ----- The promises -----

  ghost predicate LeaderAt(s: Sys, i: Id, term: nat) {
    i < |s.procs| && s.procs[i].node.role == Leader && s.procs[i].node.ballot.term == term
  }

  ghost predicate FollowsAt(s: Sys, i: Id, term: nat, leader: Id) {
    i < |s.procs| && s.procs[i].node.ballot.term == term && s.procs[i].node.leaderId == Some(leader)
  }

  /** At most one node is ever leader in a given term, at any two moments of a run. */
  lemma ElectionSafety(cfg: seq<Settings>, states: seq<Sys>, steps: seq<Step>,
                       a: nat, i: Id, b: nat, j: Id, term: nat)
    requires IsRun(cfg, states, steps) && AllFresh(cfg, states, steps)
    requires a < |states| && LeaderAt(states[a], i, term)
    requires b < |states| && LeaderAt(states[b], j, term)
    ensures i == j
  {
    RunIsSafeIffFresh(cfg, states, steps);
    assert NodeOk(cfg, states[a], i) && NodeOk(cfg, states[b], j);
    OneWinnerEver(cfg, states, steps, a, i, b, j, term);
  }

  /** Whoever knows a leader of a term knows the same one, and it is the only one that can lead. */
  lemma LeaderAgreement(cfg: seq<Settings>, states: seq<Sys>, steps: seq<Step>,
                        a: nat, i: Id, l: Id, b: nat, j: Id, k: Id, term: nat)
    requires IsRun(cfg, states, steps) && AllFresh(cfg, states, steps)
    requires a < |states| && FollowsAt(states[a], i, term, l)
    requires b < |states| && (FollowsAt(states[b], j, term, k) || (LeaderAt(states[b], j, term) && j == k))
    ensures l == k
  {
    RunIsSafeIffFresh(cfg, states, steps);
    assert NodeOk(cfg, states[a], i) && NodeOk(cfg, states[b], j);
    OneWinnerEver(cfg, states, steps, a, l, b, k, term);
  }

  /** Terms never go back, and a vote cast in a term is never changed while the term lasts: not by
      any message, and not by a crash and restart. */
  lemma VoteOnce(cfg: seq<Settings>, states: seq<Sys>, steps: seq<Step>, a: nat, b: nat, i: Id)
    requires IsRun(cfg, states, steps) && AllFresh(cfg, states, steps)
    requires a <= b < |states| && i < |cfg|
    ensures |states[a].procs| == |states[b].procs| == |cfg|
    ensures var x, y := states[a].procs[i].node.ballot, states[b].procs[i].node.ballot;
      x.term <= y.term && (x.term == y.term && x.votedFor.Some? ==> y.votedFor == x.votedFor)
  {
    RunIsSafeIffFresh(cfg, states, steps);
    assert NodeOk(cfg, states[a], i) && NodeOk(cfg, states[b], i);
    VotesKeptAlong(cfg, states, steps, a, b);
    var x := states[a].procs[i].node.ballot;
    if x.votedFor.Some? {
      VoteStands(cfg, states[b], x.term, i);
    }
  }
}
