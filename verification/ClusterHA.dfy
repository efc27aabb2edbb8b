/** The object of huddle_cluster_pkg/cluster_ha.py with its fields updated in place. Each method is
    proved equal to the atomic section of the same name; the two round methods are the source's
    loops over the peers, run without interleaving. `Election` interleaves the same sections. */
module ClusterHAObject {
  import opened Options
  import opened ElectionNode

  class ClusterHA {
    const c: Settings
    var term: nat
    var votedFor: Option<Id>
    var role: Role
    var leaderId: Option<Id>
    var guard: Guard
    var disk: Ballot

    ghost function State(): Node
      reads this
    {
      Node(Ballot(term, votedFor), role, leaderId, guard, disk)
    }

    /** `__init__` on a machine whose state file holds `saved`. */
    constructor (c: Settings, saved: Ballot, now: real)
      ensures this.c == c && State() == Restart(c, saved, now)
    {
      this.c := c;
      term, votedFor := 0, None;
      role, leaderId := Follower, None;
      guard := Guard(false, Healthy, {}, now, 0, 0);
      disk := saved;
      if c.durable {
        term, votedFor := saved.term, saved.votedFor;
      }
    }

    method PersistBallot()
      modifies this`disk
      ensures State() == Persist(c, old(State()))
    {
      if c.durable {
        disk := Ballot(term, votedFor);
      }
    }

    method StepDownTo(newTerm: nat)
      modifies this
      ensures State() == StepDown(c, old(State()), newTerm)
    {
      term := newTerm;
      role := Follower;
      votedFor := None;
      PersistBallot();
      leaderId := None;
    }

    method HandleVoteRequest(candidate: Id, candidateTerm: nat) returns (reply: Reply)
      modifies this
      ensures (State(), reply) == HandleVote(c, old(State()), candidate, candidateTerm)
    {
      if candidateTerm < term {
        return Reply(false, term);
      }
      if candidateTerm > term {
        StepDownTo(candidateTerm);
      }
      if votedFor == None || votedFor == Some(candidate) {
        votedFor := Some(candidate);
        PersistBallot();
        return Reply(true, term);
      }
      return Reply(false, term);
    }

    method HandleAppendEntries(leader: Id, leaderTerm: nat) returns (reply: Reply)
      modifies this
      ensures (State(), reply) == HandleAppend(c, old(State()), leader, leaderTerm)
    {
      if leaderTerm < term {
        return Reply(false, term);
      }
      if leaderTerm > term {
        StepDownTo(leaderTerm);
      }
      leaderId := Some(leader);
      role := Follower;
      if c.autoHeal && guard.readonly {
        guard := Heal(guard);
      }
      return Reply(true, leaderTerm);
    }

    /** `_start_election`: `replies` are the peers' answers in the order they are asked. */
    method StartElection(replies: seq<Option<Reply>>)
      requires |replies| == |c.peers|
      modifies this
      ensures State() == (var s := BeginElection(c, old(State())); RunRound(c, s, OpenRound(s), replies))
    {
      term := term + 1;
      role := Candidate;
      votedFor := Some(c.self);
      PersistBallot();
      leaderId := None;
      var captured := term;
      var votes := 1;
      ghost var s := State();
      for i := 0 to |replies|
        invariant State() == s && captured == s.ballot.term
        invariant RunRound(c, s, OpenRound(s), replies)
               == RunRound(c, s, Round(captured, i, votes), replies[i..])
      {
        assert replies[i..][0] == replies[i] && replies[i..][1..] == replies[i + 1..];
        match replies[i]
        case None =>
        case Some(r) =>
          if r.term > captured {
            StepDownTo(r.term);
            return;
          }
          if r.granted {
            votes := votes + 1;
          }
      }
      if votes >= Needed(|c.peers|) {
        role := Leader;
        leaderId := Some(c.self);
      }
    }

    method EnterReadonlyMode()
      modifies this`guard, this`role, this`leaderId
      ensures State() == EnterReadonly(old(State()))
    {
      guard := guard.(readonly := true, partition := IsolatedMinority);
      if role == Leader {
        role := Follower;
        leaderId := None;
      }
    }

    method ExitReadonlyMode()
      modifies this`guard
      ensures State() == ExitReadonly(old(State()))
    {
      guard := guard.(readonly := false, partition := Healthy);
    }

    /** One pass of `_heartbeat_loop`; `now` is read at the quorum evaluation. */
    method HeartbeatRound(replies: seq<Option<Reply>>, now: real)
      requires |replies| == |c.peers|
      modifies this
      ensures State() ==
              if old(role) != Leader then old(State())
              else match RunBeat(c, old(State()), old(term), c.peers, replies, {})
                   case SteppedDown(s) => s
                   case Collected(active) => EvaluateQuorum(c, old(State()), active, now)
      // A leader still leading after the round holds a majority now or held one recently.
      ensures role == Leader ==> term == old(term)
      ensures role == Leader ==> (|guard.active| + 1 >= Needed(|c.peers|)
                                  || now - old(guard.lastQuorum) < c.quorumTimeout)
    {
      if role != Leader {
        return;
      }
      var captured := term;
      var active: set<Id> := {};
      ghost var s := State();
      for i := 0 to |replies|
        invariant State() == s && role == Leader && captured == s.ballot.term
        invariant RunBeat(c, s, captured, c.peers, replies, {})
               == RunBeat(c, s, captured, c.peers[i..], replies[i..], active)
      {
        assert replies[i..][0] == replies[i] && replies[i..][1..] == replies[i + 1..];
        assert c.peers[i..][0] == c.peers[i] && c.peers[i..][1..] == c.peers[i + 1..];
        match replies[i]
        case None =>
        case Some(r) =>
          if r.term > captured {
            StepDownTo(r.term);
            return;
          }
          if r.granted {
            active := active + {c.peers[i]};
          }
      }
      guard := guard.(active := active);
      if |active| + 1 >= Needed(|c.peers|) {
        guard := guard.(lastQuorum := now);
        if guard.readonly {
          guard := Heal(guard);
        } else {
          guard := guard.(partition := if |active| == |c.peers| then Healthy else MajorityActive);
        }
      } else if now - guard.lastQuorum >= c.quorumTimeout {
        guard := guard.(splitBrains := guard.splitBrains + 1);
        EnterReadonlyMode();
      }
    }
  }
}
