/** Runs of the source's own steps in which one term has two leaders, each with a single stale step: a
    win, either of the two step-downs, and a restart without a state file. */
module ElectionWitness {
  import opened Options
  import opened ElectionNode
  import opened Election
  import opened ElectionSafety

  ghost function Two(): seq<Settings> {
    [Settings(0, [1], true, true, 3.0), Settings(1, [0], true, true, 3.0)]
  }

  /** Three masters, the last of them with or without a state file. */
  ghost function Three(durable: bool): seq<Settings> {
    [Settings(0, [1, 2], true, true, 3.0), Settings(1, [0, 2], true, true, 3.0),
     Settings(2, [0, 1], durable, true, 3.0)]
  }

  /** A run, seen at its last state, whose stale steps are exactly those numbered in `stale`. */
  ghost predicate Reaches(cfg: seq<Settings>, states: seq<Sys>, steps: seq<Step>, s: Sys, stale: set<nat>) {
    && IsRun(cfg, states, steps) && s == states[|steps|] && WellFormed(cfg, s)
    && (forall k :: k in stale ==> k < |steps|)
    && (forall k: nat :: k < |steps| ==> (FreshAt(cfg, states[k], steps[k]) <==> k !in stale))
  }

  ghost predicate At(s: Sys, i: Id, ballot: Ballot, role: Role, round: Option<Round>, beat: Option<nat>) {
    && i < |s.procs| && s.procs[i].node.ballot == ballot
    && s.procs[i].node.role == role && s.procs[i].round == round && s.procs[i].beat == beat
  }

  lemma Extend(cfg: seq<Settings>, states: seq<Sys>, steps: seq<Step>, s: Sys, stale: set<nat>, e: Step)
    returns (states': seq<Sys>, steps': seq<Step>, t: Sys)
    requires Reaches(cfg, states, steps, s, stale) && Enabled(cfg, s, e)
    ensures t == Apply(cfg, s, e) && states' == states + [t] && steps' == steps + [e]
    ensures Reaches(cfg, states', steps', t, if FreshAt(cfg, s, e) then stale else stale + {|steps|})
  {
    t := Apply(cfg, s, e);
    states', steps' := states + [t], steps + [e];
    forall k: nat | k < |steps'|
      ensures IsStep(cfg, states'[k], steps'[k], states'[k + 1])
      ensures k < |steps| ==> (FreshAt(cfg, states'[k], steps'[k]) <==> k !in stale)
    {
      if k < |steps| {
        assert IsStep(cfg, states[k], steps[k], states[k + 1]);
        assert FreshAt(cfg, states[k], steps[k]) <==> k !in stale;
      }
    }
  }

  // ----- A stale win -----

  /** Node 0 stands in term 1 and has counted node 1's vote. */
  lemma FirstCandidate() returns (states: seq<Sys>, steps: seq<Step>, s: Sys)
    ensures Reaches(Two(), states, steps, s, {}) && |steps| == 3
    ensures At(s, 0, Ballot(1, Some(0)), Candidate, Some(Round(1, 1, 2)), None)
    ensures At(s, 1, Ballot(1, Some(0)), Follower, None, None)
  {
    s := Init(Two());
    states, steps := [s], [];
    states, steps, s := Extend(Two(), states, steps, s, {}, Elect(0));
    assert VoteReq(1, 0, 1) in VoteReqs(Two()[0], 1);
    states, steps, s := Extend(Two(), states, steps, s, {}, OnVoteReq(VoteReq(1, 0, 1)));
    states, steps, s := Extend(Two(), states, steps, s, {}, OnVoteReply(0, Some(VoteResp(1, 0, 1, Reply(true, 1)))));
  }

  /** Node 1 then stands in term 2, gets node 0's vote and wins. */
  lemma SecondCandidate() returns (states: seq<Sys>, steps: seq<Step>, s: Sys)
    ensures Reaches(Two(), states, steps, s, {}) && |steps| == 7
    ensures At(s, 0, Ballot(2, Some(1)), Follower, Some(Round(1, 1, 2)), None)
    ensures At(s, 1, Ballot(2, Some(1)), Leader, None, None)
  {
    states, steps, s := FirstCandidate();
    states, steps, s := Extend(Two(), states, steps, s, {}, Elect(1));
    assert VoteReq(0, 1, 2) in VoteReqs(Two()[1], 2);
    assert At(s, 0, Ballot(1, Some(0)), Candidate, Some(Round(1, 1, 2)), None);
    states, steps, s := Extend(Two(), states, steps, s, {}, OnVoteReq(VoteReq(0, 1, 2)));
    assert At(s, 0, Ballot(2, Some(1)), Follower, Some(Round(1, 1, 2)), None);
    states, steps, s := Extend(Two(), states, steps, s, {}, OnVoteReply(1, Some(VoteResp(0, 1, 2, Reply(true, 2)))));
    assert At(s, 1, Ballot(2, Some(1)), Candidate, Some(Round(2, 1, 2)), None);
    states, steps, s := Extend(Two(), states, steps, s, {}, Win(1));
  }

  /** Only now does node 0 act on the majority it had counted in term 1: both nodes lead term 2.
      Every step but this last one is fresh. */
  lemma StaleWinElectsTwoLeaders() returns (states: seq<Sys>, steps: seq<Step>)
    ensures IsRun(Two(), states, steps) && |steps| == 8 && steps[7] == Win(0)
    ensures forall k: nat :: k < 8 ==> (FreshAt(Two(), states[k], steps[k]) <==> k != 7)
    ensures LeaderAt(states[8], 0, 2) && LeaderAt(states[8], 1, 2)
  {
    var s;
    states, steps, s := SecondCandidate();
    states, steps, s := Extend(Two(), states, steps, s, {}, Win(0));
  }

  // ----- Three masters -----

  /** Node `i` stands in its next term. */
  lemma Stands(durable: bool, states: seq<Sys>, steps: seq<Step>, s: Sys, stale: set<nat>, i: Id)
    returns (states': seq<Sys>, steps': seq<Step>, t: Sys)
    requires Reaches(Three(durable), states, steps, s, stale) && Enabled(Three(durable), s, Elect(i))
    ensures Reaches(Three(durable), states', steps', t, stale) && steps' == steps + [Elect(i)]
    ensures
      var term := s.procs[i].node.ballot.term + 1;
      && At(t, i, Ballot(term, Some(i)), Candidate, Some(Round(term, 0, 1)), s.procs[i].beat)
      && (forall j :: 0 <= j < 3 && j != i ==> t.procs[j] == s.procs[j] && VoteReq(j, i, term) in t.net)
      && s.net <= t.net
  {
    states', steps', t := Extend(Three(durable), states, steps, s, stale, Elect(i));
    var term := s.procs[i].node.ballot.term + 1;
    forall j | 0 <= j < 3 && j != i
      ensures VoteReq(j, i, term) in t.net
    {
      assert VoteReq(j, i, term) in VoteReqs(Three(durable)[i], term);
    }
  }

  /** Node `m.to` answers a vote request. */
  lemma Answers(durable: bool, states: seq<Sys>, steps: seq<Step>, s: Sys, stale: set<nat>, m: Msg)
    returns (states': seq<Sys>, steps': seq<Step>, t: Sys)
    requires Reaches(Three(durable), states, steps, s, stale) && Enabled(Three(durable), s, OnVoteReq(m))
    ensures Reaches(Three(durable), states', steps', t, stale) && steps' == steps + [OnVoteReq(m)]
    ensures
      var (n, r) := HandleVote(Three(durable)[m.to], s.procs[m.to].node, m.cand, m.term);
      && t.procs[m.to] == s.procs[m.to].(node := n) && VoteResp(m.to, m.cand, m.term, r) in t.net
      && (forall j :: 0 <= j < 3 && j != m.to ==> t.procs[j] == s.procs[j])
      && s.net <= t.net
  {
    states', steps', t := Extend(Three(durable), states, steps, s, stale, OnVoteReq(m));
  }

  /** Node `i` hears nothing from its first peer, counts the vote of its second, and wins. */
  lemma CountsAndWins(durable: bool, states: seq<Sys>, steps: seq<Step>, s: Sys, stale: set<nat>,
                      i: Id, voter: Id, term: nat)
    returns (states': seq<Sys>, steps': seq<Step>, t: Sys)
    requires Reaches(Three(durable), states, steps, s, stale) && i < 3 && voter == Three(durable)[i].peers[1]
    requires s.procs[i].node.ballot.term == term && s.procs[i].round == Some(Round(term, 0, 1))
    requires VoteResp(voter, i, term, Reply(true, term)) in s.net
    ensures Reaches(Three(durable), states', steps', t, stale) && |steps'| == |steps| + 3 && steps <= steps'
    ensures At(t, i, s.procs[i].node.ballot, Leader, None, s.procs[i].beat)
    ensures (forall j :: 0 <= j < 3 && j != i ==> t.procs[j] == s.procs[j]) && s.net <= t.net
  {
    var cfg := Three(durable);
    states', steps', t := Extend(cfg, states, steps, s, stale, OnVoteReply(i, None));
    assert t.procs[i] == s.procs[i].(round := Some(Round(term, 1, 1)));
    states', steps', t :=
      Extend(cfg, states', steps', t, stale, OnVoteReply(i, Some(VoteResp(voter, i, term, Reply(true, term)))));
    assert t.procs[i] == s.procs[i].(round := Some(Round(term, 2, 2)));
    states', steps', t := Extend(cfg, states', steps', t, stale, Win(i));
  }

  /** What the three runs below end with: node 2 forgot that it voted in `term`, so that node 1, standing
      in that term, gets its vote as well. */
  lemma SecondLeader(durable: bool, states: seq<Sys>, steps: seq<Step>, s: Sys, stale: set<nat>, term: nat)
    returns (states': seq<Sys>, steps': seq<Step>, t: Sys)
    requires Reaches(Three(durable), states, steps, s, stale) && term >= 1
    requires LeaderAt(s, 0, term)
    requires s.procs[1].node.ballot.term == term - 1 && s.procs[1].node.role != Leader && s.procs[1].round == None
    requires s.procs[2].node.ballot == Ballot(term, None) || s.procs[2].node.ballot.term < term
    ensures Reaches(Three(durable), states', steps', t, stale) && |steps'| == |steps| + 5 && steps <= steps'
    ensures LeaderAt(t, 0, term) && LeaderAt(t, 1, term)
  {
    states', steps', t := Stands(durable, states, steps, s, stale, 1);
    assert t.procs[0] == s.procs[0] && t.procs[2] == s.procs[2];
    states', steps', t := Answers(durable, states', steps', t, stale, VoteReq(2, 1, term));
    assert VoteResp(2, 1, term, Reply(true, term)) in t.net;
    states', steps', t := CountsAndWins(durable, states', steps', t, stale, 1, 2, term);
  }

  ghost predicate TwoLeaders(durable: bool, states: seq<Sys>, steps: seq<Step>, only: nat, term: nat) {
    && IsRun(Three(durable), states, steps)
    && (forall k: nat :: k < |steps| ==> (FreshAt(Three(durable), states[k], steps[k]) <==> k != only))
    && LeaderAt(states[|steps|], 0, term) && LeaderAt(states[|steps|], 1, term)
  }

  lemma Finished(durable: bool, states: seq<Sys>, steps: seq<Step>, s: Sys, only: nat, term: nat)
    requires Reaches(Three(durable), states, steps, s, {only}) && LeaderAt(s, 0, term) && LeaderAt(s, 1, term)
    ensures TwoLeaders(durable, states, steps, only, term)
  {
  }

  /** Nobody has done anything yet. */
  lemma Beginning(durable: bool) returns (states: seq<Sys>, steps: seq<Step>, s: Sys)
    ensures Reaches(Three(durable), states, steps, s, {}) && |steps| == 0 && s.net == {}
    ensures forall i: nat :: i < 3 ==> At(s, i, FRESH_BALLOT, Follower, None, None)
  {
    s := Init(Three(durable));
    states, steps := [s], [];
  }

  // ----- A restart without a state file -----

  /** Node 0 leads term 1 with node 2's vote. */
  lemma ZeroLeads(durable: bool) returns (states: seq<Sys>, steps: seq<Step>, s: Sys)
    ensures Reaches(Three(durable), states, steps, s, {}) && |steps| == 5
    ensures LeaderAt(s, 0, 1) && At(s, 1, FRESH_BALLOT, Follower, None, None)
    ensures At(s, 2, Ballot(1, Some(0)), Follower, None, None)
  {
    states, steps, s := Beginning(durable);
    states, steps, s := Stands(durable, states, steps, s, {}, 0);
    states, steps, s := Answers(durable, states, steps, s, {}, VoteReq(2, 0, 1));
    states, steps, s := CountsAndWins(durable, states, steps, s, {}, 0, 2, 1);
  }

  /** Node 2 votes for node 0 in term 1, restarts, and votes for node 1 in term 1: both lead it. */
  lemma RestartElectsTwoLeaders() returns (states: seq<Sys>, steps: seq<Step>)
    ensures |steps| == 11 && TwoLeaders(false, states, steps, 5, 1) && steps[5] == Crash(2, 0.0)
  {
    var s;
    states, steps, s := ZeroLeads(false);
    states, steps, s := Extend(Three(false), states, steps, s, {}, Crash(2, 0.0));
    assert s.procs[2].node.ballot == FRESH_BALLOT && s.procs[1].node.ballot == FRESH_BALLOT;
    assert LeaderAt(s, 0, 1) && steps[5] == Crash(2, 0.0);
    states, steps, s := SecondLeader(false, states, steps, s, {5}, 1);
    Finished(false, states, steps, s, 5, 1);
  }

  // ----- A vote reply that steps the node down in the term it votes in -----

  /** Nodes 2 and 1 stand in term 1; node 0 votes for node 1, and goes on to stand in term 2. */
  lemma TermTwoBegins() returns (states: seq<Sys>, steps: seq<Step>, s: Sys)
    ensures Reaches(Three(true), states, steps, s, {}) && |steps| == 4
    ensures At(s, 0, Ballot(2, Some(0)), Candidate, Some(Round(2, 0, 1)), None)
    ensures At(s, 1, Ballot(1, Some(1)), Candidate, Some(Round(1, 0, 1)), None)
    ensures At(s, 2, Ballot(1, Some(2)), Candidate, Some(Round(1, 0, 1)), None)
    ensures VoteReq(0, 2, 1) in s.net && VoteReq(2, 0, 2) in s.net
  {
    states, steps, s := Beginning(true);
    states, steps, s := Stands(true, states, steps, s, {}, 2);
    states, steps, s := Stands(true, states, steps, s, {}, 1);
    assert s.procs[2].round == Some(Round(1, 0, 1));
    states, steps, s := Answers(true, states, steps, s, {}, VoteReq(0, 1, 1));
    assert s.procs[0].node.ballot == Ballot(1, Some(1)) && s.procs[0].round == None;
    states, steps, s := Stands(true, states, steps, s, {}, 0);
  }

  /** Node 2's request of term 1 is refused with term 2; meanwhile it votes for node 0, which wins. */
  lemma TermTwoWon() returns (states: seq<Sys>, steps: seq<Step>, s: Sys)
    ensures Reaches(Three(true), states, steps, s, {}) && |steps| == 9
    ensures LeaderAt(s, 0, 2)
    ensures At(s, 1, Ballot(1, Some(1)), Candidate, Some(Round(1, 0, 1)), None)
    ensures At(s, 2, Ballot(2, Some(0)), Follower, Some(Round(1, 0, 1)), None)
    ensures VoteResp(0, 2, 1, Reply(false, 2)) in s.net
  {
    states, steps, s := TermTwoBegins();
    states, steps, s := Answers(true, states, steps, s, {}, VoteReq(0, 2, 1));
    assert VoteResp(0, 2, 1, Reply(false, 2)) in s.net && s.procs[0].round == Some(Round(2, 0, 1));
    states, steps, s := Answers(true, states, steps, s, {}, VoteReq(2, 0, 2));
    assert VoteResp(2, 0, 2, Reply(true, 2)) in s.net && s.procs[2].node.ballot == Ballot(2, Some(0));
    states, steps, s := CountsAndWins(true, states, steps, s, {}, 0, 2, 2);
  }

  /** Node 1 gives up its round of term 1. */
  lemma GivesUp(states: seq<Sys>, steps: seq<Step>, s: Sys, stale: set<nat>)
    returns (states': seq<Sys>, steps': seq<Step>, t: Sys)
    requires Reaches(Three(true), states, steps, s, stale)
    requires At(s, 1, Ballot(1, Some(1)), Candidate, Some(Round(1, 0, 1)), None)
    ensures Reaches(Three(true), states', steps', t, stale) && |steps'| == |steps| + 3 && steps <= steps'
    ensures At(t, 1, Ballot(1, Some(1)), Candidate, None, None)
    ensures t.procs[0] == s.procs[0] && t.procs[2] == s.procs[2]
  {
    states', steps', t := Extend(Three(true), states, steps, s, stale, OnVoteReply(1, None));
    assert At(t, 1, Ballot(1, Some(1)), Candidate, Some(Round(1, 1, 1)), None);
    states', steps', t := Extend(Three(true), states', steps', t, stale, OnVoteReply(1, None));
    assert At(t, 1, Ballot(1, Some(1)), Candidate, Some(Round(1, 2, 1)), None);
    states', steps', t := Extend(Three(true), states', steps', t, stale, Win(1));
  }

  /** The refusal then makes node 2 forget its vote in term 2, and node 1 gets it too. */
  lemma StaleVoteReplyElectsTwoLeaders() returns (states: seq<Sys>, steps: seq<Step>)
    ensures |steps| == 18 && TwoLeaders(true, states, steps, 9, 2)
    ensures steps[9] == OnVoteReply(2, Some(VoteResp(0, 2, 1, Reply(false, 2))))
  {
    var s;
    states, steps, s := TermTwoWon();
    var stale := OnVoteReply(2, Some(VoteResp(0, 2, 1, Reply(false, 2))));
    states, steps, s := Extend(Three(true), states, steps, s, {}, stale);
    assert s.procs[2].node.ballot == Ballot(2, None) && LeaderAt(s, 0, 2) && steps[9] == stale;
    assert At(s, 1, Ballot(1, Some(1)), Candidate, Some(Round(1, 0, 1)), None);
    states, steps, s := GivesUp(states, steps, s, {9});
    states, steps, s := SecondLeader(true, states, steps, s, {9}, 2);
    Finished(true, states, steps, s, 9, 2);
  }

  // ----- A heartbeat reply that does the same -----

  /** Node 2 leads term 1 with node 1's vote, and sends its heartbeats. */
  lemma TwoLeads() returns (states: seq<Sys>, steps: seq<Step>, s: Sys)
    ensures Reaches(Three(true), states, steps, s, {}) && |steps| == 6
    ensures At(s, 0, FRESH_BALLOT, Follower, None, None) && At(s, 1, Ballot(1, Some(2)), Follower, None, None)
    ensures At(s, 2, Ballot(1, Some(2)), Leader, None, Some(1))
    ensures VoteReq(0, 2, 1) in s.net && Append(0, 2, 1) in s.net
  {
    states, steps, s := Beginning(true);
    states, steps, s := Stands(true, states, steps, s, {}, 2);
    states, steps, s := Answers(true, states, steps, s, {}, VoteReq(1, 2, 1));
    states, steps, s := CountsAndWins(true, states, steps, s, {}, 2, 1, 1);
    assert VoteReq(0, 2, 1) in s.net;
    states, steps, s := Extend(Three(true), states, steps, s, {}, Beat(2));
    assert Append(0, 2, 1) in Appends(Three(true)[2], 1);
  }

  /** Node 0 votes for it, goes on to stand in term 2, and refuses the heartbeat with term 2. */
  lemma HeartbeatRefused() returns (states: seq<Sys>, steps: seq<Step>, s: Sys)
    ensures Reaches(Three(true), states, steps, s, {}) && |steps| == 9
    ensures At(s, 0, Ballot(2, Some(0)), Candidate, Some(Round(2, 0, 1)), None)
    ensures At(s, 1, Ballot(1, Some(2)), Follower, None, None) && At(s, 2, Ballot(1, Some(2)), Leader, None, Some(1))
    ensures VoteReq(2, 0, 2) in s.net && AppendResp(0, 2, 1, Reply(false, 2)) in s.net
  {
    states, steps, s := TwoLeads();
    states, steps, s := Answers(true, states, steps, s, {}, VoteReq(0, 2, 1));
    assert s.procs[0].node.ballot == Ballot(1, Some(2)) && s.procs[0].node.role == Follower;
    states, steps, s := Stands(true, states, steps, s, {}, 0);
    assert Append(0, 2, 1) in s.net;
    states, steps, s := Extend(Three(true), states, steps, s, {}, OnAppend(Append(0, 2, 1)));
  }

  /** Before that refusal arrives, node 2 votes for node 0 in term 2, and node 0 wins. */
  lemma HeartbeatLate() returns (states: seq<Sys>, steps: seq<Step>, s: Sys)
    ensures Reaches(Three(true), states, steps, s, {}) && |steps| == 13
    ensures LeaderAt(s, 0, 2) && At(s, 1, Ballot(1, Some(2)), Follower, None, None)
    ensures At(s, 2, Ballot(2, Some(0)), Follower, None, Some(1))
    ensures AppendResp(0, 2, 1, Reply(false, 2)) in s.net
  {
    states, steps, s := HeartbeatRefused();
    states, steps, s := Answers(true, states, steps, s, {}, VoteReq(2, 0, 2));
    assert VoteResp(2, 0, 2, Reply(true, 2)) in s.net && s.procs[2].node.ballot == Ballot(2, Some(0));
    states, steps, s := CountsAndWins(true, states, steps, s, {}, 0, 2, 2);
  }

  /** Now it arrives: node 2 forgets its vote in term 2, and node 1 gets it too. */
  lemma StaleBeatReplyElectsTwoLeaders() returns (states: seq<Sys>, steps: seq<Step>)
    ensures |steps| == 19 && TwoLeaders(true, states, steps, 13, 2)
    ensures steps[13] == OnBeatReply(2, AppendResp(0, 2, 1, Reply(false, 2)))
  {
    var s;
    states, steps, s := HeartbeatLate();
    var stale := OnBeatReply(2, AppendResp(0, 2, 1, Reply(false, 2)));
    states, steps, s := Extend(Three(true), states, steps, s, {}, stale);
    assert s.procs[2].node.ballot == Ballot(2, None) && LeaderAt(s, 0, 2) && steps[13] == stale;
    assert At(s, 1, Ballot(1, Some(2)), Follower, None, None);
    states, steps, s := SecondLeader(true, states, steps, s, {13}, 2);
    Finished(true, states, steps, s, 13, 2);
  }
}
