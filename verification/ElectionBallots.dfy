/** Vote-once, taken by itself: which steps break it, whatever else has gone wrong in the run. */
module ElectionBallots {
  import opened Options
  import opened ElectionNode
  import opened Election
  import opened ElectionSafety

  /** The state file holds the ballot, if there is a state file. */
  ghost predicate Saved(cfg: seq<Settings>, s: Sys) {
    WellFormed(cfg, s)
    && forall i :: 0 <= i < |cfg| ==>
         s.procs[i].node.disk == if cfg[i].durable then s.procs[i].node.ballot else FRESH_BALLOT
  }

  /** No process is in a term below the highest it has ever been in. */
  ghost predicate NeverBack(s: Sys) {
    |s.procs| == |s.top| && forall i :: 0 <= i < |s.procs| ==> s.procs[i].node.ballot.term == s.top[i]
  }

  /** Process `i` keeps its term or moves on, and keeps its vote while it keeps its term. */
  ghost predicate BallotKept(s: Sys, t: Sys, i: Id)
    requires i < |s.procs| == |s.top| && |t.procs| == |t.top| == |s.procs|
  {
    var x, y := s.procs[i].node.ballot, t.procs[i].node.ballot;
    && s.top[i] <= t.top[i] == y.term
    && (x.term == y.term && x.votedFor.Some? ==> y.votedFor == x.votedFor)
  }

  ghost predicate BallotsKept(s: Sys, t: Sys) {
    |s.procs| == |s.top| == |t.procs| == |t.top| && forall i :: 0 <= i < |s.procs| ==> BallotKept(s, t, i)
  }

  /** Steps that vote, stand or start over. */
  predicate Balloting(e: Step) { e.Elect? || e.OnVoteReq? || e.OnVoteReqCrash? || e.Crash? }

  lemma BallotingSaves(cfg: seq<Settings>, s: Sys, e: Step)
    requires Saved(cfg, s) && Enabled(cfg, s, e) && Balloting(e)
    ensures Saved(cfg, Apply(cfg, s, e))
  {
  }

  lemma OtherStepSaves(cfg: seq<Settings>, s: Sys, e: Step)
    requires Saved(cfg, s) && Enabled(cfg, s, e) && !Balloting(e)
    ensures Saved(cfg, Apply(cfg, s, e))
  {
  }

  lemma StepSaves(cfg: seq<Settings>, s: Sys, e: Step)
    requires Saved(cfg, s) && Enabled(cfg, s, e)
    ensures Saved(cfg, Apply(cfg, s, e))
  {
    if Balloting(e) {
      BallotingSaves(cfg, s, e);
    } else {
      OtherStepSaves(cfg, s, e);
    }
  }

  /** A step changes one process. */
  function Mover(e: Step): Id {
    match e
    case Elect(i) => i
    case OnVoteReq(m) => m.to
    case OnVoteReqCrash(m, _) => m.to
    case OnVoteReply(i, _) => i
    case Win(i) => i
    case Beat(i) => i
    case Push(i) => i
    case OnAppend(m) => m.to
    case OnBeatReply(i, _) => i
    case EndBeat(i, _, _) => i
    case Readonly(i) => i
    case Writable(i) => i
    case Crash(i, _) => i
  }

  lemma OthersKeepBallots(cfg: seq<Settings>, s: Sys, e: Step, j: Id)
    requires WellFormed(cfg, s) && NeverBack(s) && Enabled(cfg, s, e) && j < |cfg| && j != Mover(e)
    ensures WellFormed(cfg, Apply(cfg, s, e)) && BallotKept(s, Apply(cfg, s, e), j)
  {
  }

  lemma VotingKeepsExactly(cfg: seq<Settings>, s: Sys, e: Step)
    requires Saved(cfg, s) && NeverBack(s) && Enabled(cfg, s, e) && (e.Elect? || e.OnVoteReq?)
    ensures WellFormed(cfg, Apply(cfg, s, e)) && Mover(e) < |cfg|
    ensures BallotKept(s, Apply(cfg, s, e), Mover(e)) <==> e.Win? || Fresh(cfg, s, e)
  {
  }

  lemma CrashKeepsExactly(cfg: seq<Settings>, s: Sys, e: Step)
    requires Saved(cfg, s) && NeverBack(s) && Enabled(cfg, s, e) && (e.OnVoteReqCrash? || e.Crash?)
    ensures WellFormed(cfg, Apply(cfg, s, e)) && Mover(e) < |cfg|
    ensures BallotKept(s, Apply(cfg, s, e), Mover(e)) <==> e.Win? || Fresh(cfg, s, e)
  {
  }

  lemma ReplyKeepsExactly(cfg: seq<Settings>, s: Sys, e: Step)
    requires Saved(cfg, s) && NeverBack(s) && Enabled(cfg, s, e) && (e.OnVoteReply? || e.OnBeatReply? || e.OnAppend?)
    ensures WellFormed(cfg, Apply(cfg, s, e)) && Mover(e) < |cfg|
    ensures BallotKept(s, Apply(cfg, s, e), Mover(e)) <==> e.Win? || Fresh(cfg, s, e)
  {
  }

  lemma LeadingKeepsExactly(cfg: seq<Settings>, s: Sys, e: Step)
    requires Saved(cfg, s) && NeverBack(s) && Enabled(cfg, s, e)
    requires (e.Win? || e.Beat? || e.Push? || e.EndBeat? || e.Readonly? || e.Writable?)
    ensures WellFormed(cfg, Apply(cfg, s, e)) && Mover(e) < |cfg|
    ensures BallotKept(s, Apply(cfg, s, e), Mover(e)) <==> e.Win? || Fresh(cfg, s, e)
  {
  }

  lemma MoverKeepsExactly(cfg: seq<Settings>, s: Sys, e: Step)
    requires Saved(cfg, s) && NeverBack(s) && Enabled(cfg, s, e)
    ensures WellFormed(cfg, Apply(cfg, s, e)) && Mover(e) < |cfg|
    ensures BallotKept(s, Apply(cfg, s, e), Mover(e)) <==> e.Win? || Fresh(cfg, s, e)
  {
    if e.Elect? || e.OnVoteReq? {
      VotingKeepsExactly(cfg, s, e);
    } else if e.OnVoteReqCrash? || e.Crash? {
      CrashKeepsExactly(cfg, s, e);
    } else if e.OnVoteReply? || e.OnBeatReply? || e.OnAppend? {
      ReplyKeepsExactly(cfg, s, e);
    } else {
      LeadingKeepsExactly(cfg, s, e);
    }
  }

  /** A step keeps every ballot exactly when it is fresh; winning never touches one. */
  lemma StepKeepsExactly(cfg: seq<Settings>, s: Sys, e: Step)
    requires Saved(cfg, s) && NeverBack(s) && Enabled(cfg, s, e)
    ensures BallotsKept(s, Apply(cfg, s, e)) <==> e.Win? || Fresh(cfg, s, e)
    ensures BallotsKept(s, Apply(cfg, s, e)) ==> NeverBack(Apply(cfg, s, e))
  {
    MoverKeepsExactly(cfg, s, e);
    var t := Apply(cfg, s, e);
    forall j | 0 <= j < |cfg| && j != Mover(e)
      ensures BallotKept(s, t, j)
    {
      OthersKeepBallots(cfg, s, e, j);
    }
    if BallotsKept(s, t) {
      forall i | 0 <= i < |t.procs|
        ensures t.procs[i].node.ballot.term == t.top[i]
      {
        assert BallotKept(s, t, i);
      }
    } else {
      var j :| 0 <= j < |s.procs| && !BallotKept(s, t, j);
    }
  }

  /** Every step but a win checks its captured term. */
  ghost predicate FreshButForWins(cfg: seq<Settings>, states: seq<Sys>, steps: seq<Step>)
    requires |states| == |steps| + 1
  {
    forall k :: 0 <= k < |steps| ==> steps[k].Win? || FreshAt(cfg, states[k], steps[k])
  }

  ghost predicate AllBallotsKept(states: seq<Sys>) {
    forall k :: 0 < k < |states| ==> BallotsKept(states[k - 1], states[k])
  }

  lemma {:induction false} KeptSoFar(cfg: seq<Settings>, states: seq<Sys>, steps: seq<Step>, k: nat)
    requires IsRun(cfg, states, steps) && k < |states|
    requires forall j :: 0 < j <= k ==> BallotsKept(states[j - 1], states[j])
    ensures Saved(cfg, states[k]) && NeverBack(states[k])
  {
    if k > 0 {
      KeptSoFar(cfg, states, steps, k - 1);
      assert IsStep(cfg, states[k - 1], steps[k - 1], states[k]);
      StepSaves(cfg, states[k - 1], steps[k - 1]);
      StepKeepsExactly(cfg, states[k - 1], steps[k - 1]);
    }
  }

  lemma {:induction false} FreshKeeps(cfg: seq<Settings>, states: seq<Sys>, steps: seq<Step>, k: nat)
    requires IsRun(cfg, states, steps) && FreshButForWins(cfg, states, steps) && k < |states|
    ensures forall j :: 0 < j <= k ==> BallotsKept(states[j - 1], states[j])
  {
    if k > 0 {
      FreshKeeps(cfg, states, steps, k - 1);
      KeptSoFar(cfg, states, steps, k - 1);
      assert IsStep(cfg, states[k - 1], steps[k - 1], states[k]);
      assert steps[k - 1].Win? || FreshAt(cfg, states[k - 1], steps[k - 1]);
      StepKeepsExactly(cfg, states[k - 1], steps[k - 1]);
    }
  }

  /** Over a whole run: no term ever goes back and no vote is changed or forgotten within its term, if
      and only if every step that steps a node down or restarts one was fresh. */
  lemma VoteOnceExactly(cfg: seq<Settings>, states: seq<Sys>, steps: seq<Step>)
    requires IsRun(cfg, states, steps)
    ensures |states| == |steps| + 1
    ensures AllBallotsKept(states) <==> FreshButForWins(cfg, states, steps)
  {
    if FreshButForWins(cfg, states, steps) {
      FreshKeeps(cfg, states, steps, |steps|);
    } else if AllBallotsKept(states) {
      forall k | 0 <= k < |steps|
        ensures steps[k].Win? || FreshAt(cfg, states[k], steps[k])
      {
        KeptSoFar(cfg, states, steps, k);
        assert IsStep(cfg, states[k], steps[k], states[k + 1]);
        assert BallotsKept(states[k + 1 - 1], states[k + 1]);
        StepKeepsExactly(cfg, states[k], steps[k]);
      }
    }
  }
}
