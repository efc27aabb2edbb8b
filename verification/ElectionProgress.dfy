/** What the election does, not only what it never does: each message and each timer in terms of terms,
    votes and roles, who follows whom and for how long, and that a leader can be elected and followed in
    every cluster. */
module ElectionProgress {
  import opened Options
  import opened ElectionNode
  import opened Election
  import opened ElectionSafety

  // ----- One step -----

  /** Only process `i` has changed. */
  ghost predicate OthersStay(s: Sys, t: Sys, i: Id) {
    |t.procs| == |s.procs| && forall j :: 0 <= j < |s.procs| && j != i ==> t.procs[j] == s.procs[j]
  }

  /** The vote of this node in this term is still free, or already goes to the candidate. */
  predicate Willing(b: Ballot, term: nat, cand: Id) {
    term > b.term || (term == b.term && (b.votedFor == None || b.votedFor == Some(cand)))
  }

  /** A vote request is granted exactly by the willing. Granting binds the vote, on disk too; a higher term
      ends whatever the node was before; and the answer says all that. */
  lemma VoteRequestExactly(cfg: seq<Settings>, s: Sys, m: Msg, t: Sys)
    requires m.VoteReq? && IsStep(cfg, s, OnVoteReq(m), t)
    ensures m.to < |s.procs| && OthersStay(s, t, m.to)
    ensures
      var a, b := s.procs[m.to], t.procs[m.to];
      var granted := Willing(a.node.ballot, m.term, m.cand);
      && b.node.ballot == (if granted then Ballot(m.term, Some(m.cand)) else a.node.ballot)
      && VoteResp(m.to, m.cand, m.term, Reply(granted, b.node.ballot.term)) in t.net
      && (granted && cfg[m.to].durable ==> b.node.disk == b.node.ballot)
      && (!granted || !cfg[m.to].durable ==> b.node.disk == a.node.disk)
      && (m.term > a.node.ballot.term ==> b.node.role == Follower && b.node.leaderId == None)
      && (m.term <= a.node.ballot.term ==> b.node.role == a.node.role && b.node.leaderId == a.node.leaderId)
      && b.node.guard == a.node.guard && b.round == a.round && b.beat == a.beat
  {
  }

  /** A message from a leader of a term not behind one's own is obeyed: the node follows that leader in that
      term, keeps the vote it had in it, and is writable again if it heals by itself. An older one is
      refused with the current term, and changes nothing. */
  lemma AppendExactly(cfg: seq<Settings>, s: Sys, m: Msg, t: Sys)
    requires m.Append? && IsStep(cfg, s, OnAppend(m), t)
    ensures m.to < |s.procs| && OthersStay(s, t, m.to)
    ensures
      var a, b := s.procs[m.to], t.procs[m.to];
      if m.term < a.node.ballot.term then
        b == a && AppendResp(m.to, m.leader, m.term, Reply(false, a.node.ballot.term)) in t.net
      else
        && b.node.role == Follower && FollowsAt(t, m.to, m.term, m.leader)
        && b.node.ballot.votedFor == (if m.term == a.node.ballot.term then a.node.ballot.votedFor else None)
        && (m.term > a.node.ballot.term && cfg[m.to].durable ==> b.node.disk == Ballot(m.term, None))
        && (if cfg[m.to].autoHeal && a.node.guard.readonly
            then !b.node.guard.readonly && b.node.guard.heals == a.node.guard.heals + 1
            else b.node.guard == a.node.guard)
        && b.round == a.round && b.beat == a.beat
        && AppendResp(m.to, m.leader, m.term, Reply(true, m.term)) in t.net
  {
  }

  /** Whoever stands goes to the next term, votes for itself, forgets its leader, and asks every other node. */
  lemma StandExactly(cfg: seq<Settings>, s: Sys, i: Id, t: Sys)
    requires IsStep(cfg, s, Elect(i), t)
    ensures i < |s.procs| && OthersStay(s, t, i)
    ensures
      var a, b := s.procs[i], t.procs[i];
      && b.node.ballot == Ballot(a.node.ballot.term + 1, Some(i)) && b.node.role == Candidate
      && b.node.leaderId == None && b.node.guard == a.node.guard && b.beat == a.beat
      && (cfg[i].durable ==> b.node.disk == b.node.ballot)
      && b.round == Some(Round(b.node.ballot.term, 0, 1))
      && (forall k :: 0 <= k < |cfg[i].peers| ==> VoteReq(cfg[i].peers[k], i, b.node.ballot.term) in t.net)
  {
    assert ValidSettings(cfg, i);
  }

  /** An answer is counted, if it grants, and the next peer asked; a higher term ends the candidacy. */
  lemma VoteReplyExactly(cfg: seq<Settings>, s: Sys, i: Id, m: Option<Msg>, t: Sys)
    requires IsStep(cfg, s, OnVoteReply(i, m), t)
    ensures i < |s.procs| && s.procs[i].round.Some? && OthersStay(s, t, i)
    ensures
      var a, b, r := s.procs[i], t.procs[i], s.procs[i].round.value;
      if m.Some? && m.value.reply.term > r.term then
        && b.round == None && b.node.ballot == Ballot(m.value.reply.term, None)
        && b.node.role == Follower && b.node.leaderId == None
      else
        && b.node == a.node && b.beat == a.beat
        && b.round == Some(Round(r.term, r.next + 1, r.votes + (if m.Some? && m.value.reply.granted then 1 else 0)))
  {
  }

  /** The votes of more than half of the cluster make a leader, and fewer do not. */
  lemma WinExactly(cfg: seq<Settings>, s: Sys, i: Id, t: Sys)
    requires IsStep(cfg, s, Win(i), t)
    ensures i < |s.procs| && s.procs[i].round.Some? && OthersStay(s, t, i)
    ensures
      var a, b := s.procs[i], t.procs[i];
      && b.round == None && b.node.ballot == a.node.ballot && b.node.guard == a.node.guard && b.node.disk == a.node.disk
      && (2 * a.round.value.votes > |cfg| ==> b.node.role == Leader && b.node.leaderId == Some(i))
      && (2 * a.round.value.votes <= |cfg| ==> b.node == a.node)
  {
    assert ValidSettings(cfg, i);
  }

  /** A leader's heartbeat and its pushes reach for every other node, in the leader's term. */
  lemma SendExactly(cfg: seq<Settings>, s: Sys, i: Id, e: Step, t: Sys)
    requires (e == Beat(i) || e == Push(i)) && IsStep(cfg, s, e, t)
    ensures i < |s.procs| && OthersStay(s, t, i) && t.procs[i].node == s.procs[i].node
    ensures forall k :: 0 <= k < |cfg[i].peers| ==> Append(cfg[i].peers[k], i, s.procs[i].node.ballot.term) in t.net
    ensures t.procs[i].beat == if e.Beat? then Some(s.procs[i].node.ballot.term) else s.procs[i].beat
  {
    assert ValidSettings(cfg, i);
  }

  /** A heartbeat answered with a higher term deposes the sender. */
  lemma BeatReplyExactly(cfg: seq<Settings>, s: Sys, i: Id, m: Msg, t: Sys)
    requires m.AppendResp? && IsStep(cfg, s, OnBeatReply(i, m), t)
    ensures i < |s.procs| && OthersStay(s, t, i)
    ensures
      if m.reply.term > m.asked then
        && t.procs[i].node.ballot == Ballot(m.reply.term, None) && t.procs[i].node.role == Follower
        && t.procs[i].node.leaderId == None && t.procs[i].beat == None
      else t == s
  {
  }

  /** The end of a heartbeat round: a leader that reached more than half of the cluster, itself included, goes
      on leading and is writable; one that has not for as long as the quorum timeout leads no more, and
      is read-only; one in between only notes whom it reached. Nobody else is affected. */
  lemma RoundVerdict(cfg: seq<Settings>, s: Sys, i: Id, active: set<Id>, now: real, t: Sys)
    requires IsStep(cfg, s, EndBeat(i, active, now), t)
    ensures i < |s.procs| && OthersStay(s, t, i) && t.procs[i].beat == None && t.procs[i].round == s.procs[i].round
    ensures
      var a, b := s.procs[i].node, t.procs[i].node;
      && b.ballot == a.ballot && b.disk == a.disk
      && (a.role != Leader ==> b == a)
      && (a.role == Leader && 2 * (|active| + 1) > |cfg| ==>
            && b.role == Leader && b.leaderId == a.leaderId && !b.guard.readonly
            && b.guard.active == active && b.guard.lastQuorum == now && b.guard.splitBrains == a.guard.splitBrains
            && b.guard.heals == a.guard.heals + (if a.guard.readonly then 1 else 0)
            && b.guard.partition == (if a.guard.readonly || |active| + 1 == |cfg| then Healthy else MajorityActive))
      && (a.role == Leader && 2 * (|active| + 1) <= |cfg| && now - a.guard.lastQuorum >= cfg[i].quorumTimeout ==>
            && b.role == Follower && b.leaderId == None
            && b.guard == Guard(true, IsolatedMinority, active, a.guard.lastQuorum, a.guard.splitBrains + 1,
                                a.guard.heals))
      && (a.role == Leader && 2 * (|active| + 1) <= |cfg| && now - a.guard.lastQuorum < cfg[i].quorumTimeout ==>
            b == a.(guard := a.guard.(active := active)))
  {
    assert ValidSettings(cfg, i);
  }

  /** Read-only mode takes a leadership away, and only that; leaving it gives none back. */
  lemma GuardExactly(cfg: seq<Settings>, s: Sys, i: Id, e: Step, t: Sys)
    requires (e == Readonly(i) || e == Writable(i)) && IsStep(cfg, s, e, t)
    ensures i < |s.procs| && OthersStay(s, t, i)
    ensures t.procs[i].round == s.procs[i].round && t.procs[i].beat == s.procs[i].beat
    ensures
      var a, b := s.procs[i].node, t.procs[i].node;
      && b.ballot == a.ballot && b.disk == a.disk
      && (e.Readonly? ==> b.guard == a.guard.(readonly := true, partition := IsolatedMinority))
      && (e.Writable? ==> b.guard == a.guard.(readonly := false, partition := Healthy))
      && (if e.Readonly? && a.role == Leader then b.role == Follower && b.leaderId == None
          else b.role == a.role && b.leaderId == a.leaderId)
  {
  }

  /** After a restart a node knows its saved ballot, or a fresh one, and nothing else. */
  lemma RestartExactly(cfg: seq<Settings>, s: Sys, i: Id, now: real, t: Sys)
    requires IsStep(cfg, s, Crash(i, now), t)
    ensures i < |s.procs| && OthersStay(s, t, i)
    ensures
      var b, disk := t.procs[i], s.procs[i].node.disk;
      && b.node.ballot == (if cfg[i].durable then disk else Ballot(0, None)) && b.node.disk == disk
      && b.node.role == Follower && b.node.leaderId == None && b.round == None && b.beat == None
      && b.node.guard == Guard(false, Healthy, {}, now, 0, 0)
  {
  }

  // ----- Who follows whom, and for how long -----

  /** What can end a follower's allegiance: it stands, restarts, wins, or hears of a higher term. */
  ghost predicate Unsettles(s: Sys, e: Step, i: Id, term: nat)
    requires i < |s.procs|
  {
    match e
    case Elect(j) => j == i
    case Crash(j, _) => j == i
    case OnVoteReqCrash(m, _) => m.VoteReq? && m.to == i
    case Win(j) => j == i && s.procs[i].round.Some? && 2 * s.procs[i].round.value.votes > |s.procs|
    case OnVoteReq(m) => m.VoteReq? && m.to == i && m.term > term
    case OnAppend(m) => m.Append? && m.to == i && m.term > term
    case OnVoteReply(j, m) => j == i && m.Some? && m.value.VoteResp? && s.procs[i].round.Some?
                              && m.value.reply.term > s.procs[i].round.value.term
    case OnBeatReply(j, m) => j == i && m.AppendResp? && m.reply.term > m.asked
    case _ => false
  }

  /** It follows this leader in this term, and leads nobody itself. */
  ghost predicate Obeys(s: Sys, i: Id, term: nat, leader: Id) {
    FollowsAt(s, i, term, leader) && s.procs[i].node.role != Leader
  }

  lemma StepKeepsAllegiance(cfg: seq<Settings>, s: Sys, e: Step, t: Sys, i: Id, term: nat, leader: Id)
    requires Inv(cfg, s) && IsStep(cfg, s, e, t) && Obeys(s, i, term, leader) && !Unsettles(s, e, i, term)
    ensures Obeys(t, i, term, leader)
  {
    match e {
      case OnVoteReq(m) => VoteRequestExactly(cfg, s, m, t);
      case OnAppend(m) =>
        AppendExactly(cfg, s, m, t);
        assert MsgOk(cfg, s, m) && NodeOk(cfg, s, i);
        if m.to == i && m.term == term {
          OneWinner(|cfg|, s.votes, term, m.leader, leader);
        }
      case OnVoteReply(j, m) => VoteReplyExactly(cfg, s, j, m, t);
      case Win(j) => WinExactly(cfg, s, j, t);
      case OnBeatReply(j, m) => BeatReplyExactly(cfg, s, j, m, t);
      case EndBeat(j, active, now) => RoundVerdict(cfg, s, j, active, now, t);
      case Readonly(j) => GuardExactly(cfg, s, j, e, t);
      case Writable(j) => GuardExactly(cfg, s, j, e, t);
      case Beat(j) => SendExactly(cfg, s, j, e, t);
      case Push(j) => SendExactly(cfg, s, j, e, t);
      case Elect(j) => StandExactly(cfg, s, j, t);
      case Crash(j, now) => RestartExactly(cfg, s, j, now, t);
      case OnVoteReqCrash(m, now) =>
    }
  }

  /** Nothing between two moments unsettles `i`. */
  ghost predicate Settled(cfg: seq<Settings>, states: seq<Sys>, steps: seq<Step>, i: Id, term: nat, a: nat, b: nat)
    requires b <= |steps| == |states| - 1 && i < |cfg|
  {
    forall k :: a <= k < b ==> |states[k].procs| == |cfg| && !Unsettles(states[k], steps[k], i, term)
  }

  /** A follower keeps following the same leader until it stands, restarts, wins or hears of a higher term;
      no other leader of the term can turn it. */
  lemma {:induction false} KeepsFollowing(cfg: seq<Settings>, states: seq<Sys>, steps: seq<Step>, i: Id, term: nat,
                                          leader: Id, a: nat, b: nat)
    requires IsRun(cfg, states, steps) && AllFresh(cfg, states, steps) && i < |cfg| && a <= b < |states|
    requires Obeys(states[a], i, term, leader) && Settled(cfg, states, steps, i, term, a, b)
    ensures Obeys(states[b], i, term, leader)
    decreases b
  {
    if a < b {
      var last := b - 1;
      RunIsSafeIffFresh(cfg, states, steps);
      KeepsFollowing(cfg, states, steps, i, term, leader, a, last);
      assert IsStep(cfg, states[last], steps[last], states[last + 1]);
      StepKeepsAllegiance(cfg, states[last], steps[last], states[b], i, term, leader);
    }
  }

  /** Step `d` delivers the leader's message of this term to `i`, which is not ahead of it. */
  ghost predicate Delivered(states: seq<Sys>, steps: seq<Step>, i: Id, term: nat, leader: Id, d: nat) {
    && d < |steps| && |states| == |steps| + 1 && steps[d] == OnAppend(Append(i, leader, term))
    && i < |states[d].procs| && states[d].procs[i].node.ballot.term <= term
  }

  /** One delivery is enough. */
  lemma {:induction false} DeliveredIsFollowed(cfg: seq<Settings>, states: seq<Sys>, steps: seq<Step>, i: Id,
                                               term: nat, leader: Id, d: nat, b: nat)
    requires IsRun(cfg, states, steps) && AllFresh(cfg, states, steps) && i < |cfg|
    requires Delivered(states, steps, i, term, leader, d) && d < b < |states|
    requires Settled(cfg, states, steps, i, term, d + 1, b)
    ensures Obeys(states[b], i, term, leader)
  {
    assert IsStep(cfg, states[d], steps[d], states[d + 1]);
    AppendExactly(cfg, states[d], steps[d].m, states[d + 1]);
    KeepsFollowing(cfg, states, steps, i, term, leader, d + 1, b);
  }

  /** Once a leader's message has been delivered to every node of a set, none of which has been unsettled
      since, they all follow it, and nobody else. */
  lemma {:induction false} AllFollow(cfg: seq<Settings>, states: seq<Sys>, steps: seq<Step>, nodes: set<Id>,
                                     term: nat, leader: Id, b: nat)
    requires IsRun(cfg, states, steps) && AllFresh(cfg, states, steps) && b < |states|
    requires forall i :: i in nodes ==> i < |cfg| && exists d: nat ::
      d < b && Delivered(states, steps, i, term, leader, d) && Settled(cfg, states, steps, i, term, d + 1, b)
    ensures forall i :: i in nodes ==> Obeys(states[b], i, term, leader)
  {
    forall i | i in nodes
      ensures Obeys(states[b], i, term, leader)
    {
      var d: nat :| d < b && Delivered(states, steps, i, term, leader, d)
                    && Settled(cfg, states, steps, i, term, d + 1, b);
      DeliveredIsFollowed(cfg, states, steps, i, term, leader, d, b);
    }
  }

  // ----- An election that nothing disturbs -----

  /** A fresh run, seen at its last state. */
  ghost predicate Runs(cfg: seq<Settings>, states: seq<Sys>, steps: seq<Step>, s: Sys) {
    IsRun(cfg, states, steps) && AllFresh(cfg, states, steps) && s == states[|steps|] && WellFormed(cfg, s)
  }

  lemma OneMore(cfg: seq<Settings>, states: seq<Sys>, steps: seq<Step>, s: Sys, e: Step)
    returns (states': seq<Sys>, steps': seq<Step>, t: Sys)
    requires Runs(cfg, states, steps, s) && FreshAt(cfg, s, e)
    ensures Runs(cfg, states', steps', t) && IsStep(cfg, s, e, t) && states <= states' && steps <= steps'
    ensures s.net <= t.net && |steps'| == |steps| + 1
  {
    t := Apply(cfg, s, e);
    states', steps' := states + [t], steps + [e];
    forall k | 0 <= k < |steps'|
      ensures IsStep(cfg, states'[k], steps'[k], states'[k + 1]) && FreshAt(cfg, states'[k], steps'[k])
    {
      if k < |steps| {
        assert IsStep(cfg, states[k], steps[k], states[k + 1]) && FreshAt(cfg, states[k], steps[k]);
      }
    }
  }

  ghost predicate AllBehind(cfg: seq<Settings>, s: Sys, i: Id, term: nat)
    requires WellFormed(cfg, s) && i < |cfg|
  {
    forall p :: p in cfg[i].peers && p < |cfg| ==> s.procs[p].node.ballot.term < term
  }

  /** The candidate has been through `k` of its peers, who have all voted for it. */
  ghost predicate Canvassed(cfg: seq<Settings>, s: Sys, t: Sys, i: Id, term: nat, k: nat)
    requires WellFormed(cfg, s) && WellFormed(cfg, t) && i < |cfg| && k <= |cfg[i].peers|
  {
    && t.procs[i].node.ballot == Ballot(term, Some(i)) && t.procs[i].node.role == Candidate
    && t.procs[i].round == Some(Round(term, k, k + 1))
    && (forall p :: p in cfg[i].peers[..k] && p < |cfg| ==> t.procs[p].node.ballot == Ballot(term, Some(i)))
    && (forall p :: p in cfg[i].peers[k..] && p < |cfg| ==> t.procs[p] == s.procs[p])
    && (forall p :: p in cfg[i].peers && p < |cfg| ==> VoteReq(p, i, term) in t.net)
  }

  lemma OnePeer(cfg: seq<Settings>, i: Id, k: nat)
    requires ValidConfig(cfg) && i < |cfg| && k < |cfg[i].peers|
    ensures cfg[i].peers[k] < |cfg| && cfg[i].peers[k] != i && cfg[i].peers[k] in cfg[i].peers
    ensures cfg[i].peers[..k + 1] == cfg[i].peers[..k] + [cfg[i].peers[k]]
    ensures cfg[i].peers[k] !in cfg[i].peers[..k] && cfg[i].peers[k] !in cfg[i].peers[k + 1..]
    ensures cfg[i].peers[k..] == [cfg[i].peers[k]] + cfg[i].peers[k + 1..]
  {
    assert ValidSettings(cfg, i);
  }

  /** The next peer is asked, and votes; ... */
  lemma AskVote(cfg: seq<Settings>, states: seq<Sys>, steps: seq<Step>, s: Sys, t: Sys, i: Id, term: nat, k: nat)
    returns (states': seq<Sys>, steps': seq<Step>, t': Sys)
    requires WellFormed(cfg, s) && Runs(cfg, states, steps, t) && i < |cfg| && k < |cfg[i].peers|
    requires Canvassed(cfg, s, t, i, term, k) && AllBehind(cfg, s, i, term)
    ensures Runs(cfg, states', steps', t') && states <= states' && steps <= steps'
    ensures cfg[i].peers[k] < |cfg| && OthersStay(t, t', cfg[i].peers[k]) && t.net <= t'.net
    ensures t'.procs[cfg[i].peers[k]].node.ballot == Ballot(term, Some(i))
    ensures VoteResp(cfg[i].peers[k], i, term, Reply(true, term)) in t'.net
  {
    var ask := VoteReq(cfg[i].peers[k], i, term);
    OnePeer(cfg, i, k);
    states', steps', t' := OneMore(cfg, states, steps, t, OnVoteReq(ask));
    VoteRequestExactly(cfg, t, ask, t');
  }

  /** ... and is counted. */
  lemma AskOne(cfg: seq<Settings>, states: seq<Sys>, steps: seq<Step>, s: Sys, t: Sys, i: Id, term: nat, k: nat)
    returns (states': seq<Sys>, steps': seq<Step>, t': Sys)
    requires WellFormed(cfg, s) && Runs(cfg, states, steps, t) && i < |cfg| && k < |cfg[i].peers|
    requires Canvassed(cfg, s, t, i, term, k) && AllBehind(cfg, s, i, term)
    ensures Runs(cfg, states', steps', t') && states <= states' && steps <= steps'
    ensures Canvassed(cfg, s, t', i, term, k + 1)
  {
    var answer := VoteResp(cfg[i].peers[k], i, term, Reply(true, term));
    OnePeer(cfg, i, k);
    var t1;
    states', steps', t1 := AskVote(cfg, states, steps, s, t, i, term, k);
    states', steps', t' := OneMore(cfg, states', steps', t1, OnVoteReply(i, Some(answer)));
    VoteReplyExactly(cfg, t1, i, Some(answer), t');
    CanvassedOn(cfg, s, t, t1, t', i, term, k);
  }

  lemma CanvassedOn(cfg: seq<Settings>, s: Sys, t: Sys, t1: Sys, t': Sys, i: Id, term: nat, k: nat)
    requires WellFormed(cfg, s) && WellFormed(cfg, t) && WellFormed(cfg, t1) && WellFormed(cfg, t')
    requires i < |cfg| && k < |cfg[i].peers| && Canvassed(cfg, s, t, i, term, k)
    requires cfg[i].peers[k] < |cfg| && OthersStay(t, t1, cfg[i].peers[k]) && t.net <= t1.net <= t'.net
    requires t1.procs[cfg[i].peers[k]].node.ballot == Ballot(term, Some(i)) && OthersStay(t1, t', i)
    requires t'.procs[i].node == t1.procs[i].node && t'.procs[i].round == Some(Round(term, k + 1, k + 2))
    ensures Canvassed(cfg, s, t', i, term, k + 1)
  {
    OnePeer(cfg, i, k);
    assert ValidSettings(cfg, i);
    assert i !in cfg[i].peers[..k] && i !in cfg[i].peers[k + 1..];
  }

  lemma {:induction false} AskAll(cfg: seq<Settings>, states: seq<Sys>, steps: seq<Step>, s: Sys, t: Sys, i: Id,
                                  term: nat, k: nat)
    returns (states': seq<Sys>, steps': seq<Step>, t': Sys)
    requires WellFormed(cfg, s) && Runs(cfg, states, steps, t) && i < |cfg| && k <= |cfg[i].peers|
    requires Canvassed(cfg, s, t, i, term, k) && AllBehind(cfg, s, i, term)
    ensures Runs(cfg, states', steps', t') && states <= states' && steps <= steps'
    ensures Canvassed(cfg, s, t', i, term, |cfg[i].peers|)
    decreases |cfg[i].peers| - k
  {
    states', steps', t' := states, steps, t;
    if k < |cfg[i].peers| {
      states', steps', t' := AskOne(cfg, states, steps, s, t, i, term, k);
      states', steps', t' := AskAll(cfg, states', steps', s, t', i, term, k + 1);
    }
  }

  /** The leader has announced itself to `k` of its peers, who follow it. */
  ghost predicate Announced(cfg: seq<Settings>, t: Sys, i: Id, term: nat, k: nat)
    requires WellFormed(cfg, t) && i < |cfg| && k <= |cfg[i].peers|
  {
    && LeaderAt(t, i, term)
    && (forall p :: p in cfg[i].peers && p < |cfg| ==>
          t.procs[p].node.ballot.term == term && Append(p, i, term) in t.net)
    && (forall p :: p in cfg[i].peers[..k] ==> Obeys(t, p, term, i))
  }

  lemma TellOne(cfg: seq<Settings>, states: seq<Sys>, steps: seq<Step>, t: Sys, i: Id, term: nat, k: nat)
    returns (states': seq<Sys>, steps': seq<Step>, t': Sys)
    requires Runs(cfg, states, steps, t) && i < |cfg| && k < |cfg[i].peers| && Announced(cfg, t, i, term, k)
    ensures Runs(cfg, states', steps', t') && states <= states' && steps <= steps'
    ensures Announced(cfg, t', i, term, k + 1)
  {
    var p := cfg[i].peers[k];
    OnePeer(cfg, i, k);
    var m := Append(p, i, term);
    states', steps', t' := OneMore(cfg, states, steps, t, OnAppend(m));
    AppendExactly(cfg, t, m, t');
  }

  lemma {:induction false} TellAll(cfg: seq<Settings>, states: seq<Sys>, steps: seq<Step>, t: Sys, i: Id, term: nat,
                                   k: nat)
    returns (states': seq<Sys>, steps': seq<Step>, t': Sys)
    requires Runs(cfg, states, steps, t) && i < |cfg| && k <= |cfg[i].peers| && Announced(cfg, t, i, term, k)
    ensures Runs(cfg, states', steps', t') && states <= states' && steps <= steps'
    ensures Announced(cfg, t', i, term, |cfg[i].peers|)
    decreases |cfg[i].peers| - k
  {
    states', steps', t' := states, steps, t;
    if k < |cfg[i].peers| {
      states', steps', t' := TellOne(cfg, states, steps, t, i, term, k);
      states', steps', t' := TellAll(cfg, states', steps', t', i, term, k + 1);
    }
  }

  function Members(s: seq<Id>): (m: set<Id>)
    ensures forall x :: x in m <==> x in s
  {
    if s == [] then {}
    else
      assert s == s[..|s| - 1] + [s[|s| - 1]];
      Members(s[..|s| - 1]) + {s[|s| - 1]}
  }

  function FirstIds(n: nat): (m: set<Id>)
    ensures forall x: nat :: x in m <==> x < n
    ensures |m| == n
  {
    if n == 0 then {} else FirstIds(n - 1) + {n - 1}
  }

  lemma {:induction false} DistinctSize(s: seq<Id>)
    requires forall k, l :: 0 <= k < l < |s| ==> s[k] != s[l]
    ensures |Members(s)| == |s|
  {
    if s != [] {
      DistinctSize(s[..|s| - 1]);
      assert s[|s| - 1] !in s[..|s| - 1];
    }
  }

  lemma SubsetOfSize(a: set<Id>, b: set<Id>)
    requires a <= b && |a| == |b|
    ensures a == b
  {
    assert |b - a| == |b| - |a|;
  }

  /** Every other node is a peer. */
  lemma PeersAreAll(cfg: seq<Settings>, i: Id)
    requires ValidConfig(cfg) && i < |cfg|
    ensures forall j: nat :: j < |cfg| && j != i ==> j in cfg[i].peers
  {
    assert ValidSettings(cfg, i);
    CoversAll(cfg[i].peers, |cfg|, i);
  }

  lemma CoversAll(peers: seq<Id>, n: nat, i: Id)
    requires i < n && |peers| == n - 1 && forall k :: 0 <= k < |peers| ==> peers[k] < n && peers[k] != i
    requires forall k, l :: 0 <= k < l < |peers| ==> peers[k] != peers[l]
    ensures forall j: nat :: j < n && j != i ==> j in peers
  {
    DistinctSize(peers);
    var all := AllButOne(n, i);
    var members := Members(peers);
    forall x | x in members
      ensures x in all
    {
      var k :| 0 <= k < |peers| && peers[k] == x;
    }
    SubsetOfSize(members, all);
  }

  lemma AllButOne(n: nat, i: Id) returns (all: set<Id>)
    requires i < n
    ensures |all| == n - 1 && forall x: nat :: x in all <==> x < n && x != i
  {
    all := FirstIds(n) - {i};
  }

  /** The candidate that has every vote wins, and announces itself. */
  lemma WinAndPush(cfg: seq<Settings>, states: seq<Sys>, steps: seq<Step>, s: Sys, t: Sys, i: Id, term: nat)
    returns (states': seq<Sys>, steps': seq<Step>, t': Sys)
    requires WellFormed(cfg, s) && Runs(cfg, states, steps, t) && i < |cfg|
    requires Canvassed(cfg, s, t, i, term, |cfg[i].peers|)
    ensures Runs(cfg, states', steps', t') && states <= states' && steps <= steps'
    ensures Announced(cfg, t', i, term, 0)
  {
    assert ValidSettings(cfg, i) && cfg[i].peers[..|cfg[i].peers|] == cfg[i].peers;
    var t1;
    states', steps', t1 := OneMore(cfg, states, steps, t, Win(i));
    WinExactly(cfg, t, i, t1);
    states', steps', t' := OneMore(cfg, states', steps', t1, Push(i));
    SendExactly(cfg, t1, i, Push(i), t');
  }

  lemma StandFirst(cfg: seq<Settings>, states: seq<Sys>, steps: seq<Step>, s: Sys, i: Id)
    returns (states': seq<Sys>, steps': seq<Step>, t: Sys)
    requires Runs(cfg, states, steps, s) && i < |cfg|
    requires s.procs[i].round == None && s.procs[i].node.role != Leader
    ensures Runs(cfg, states', steps', t) && states <= states' && steps <= steps'
    ensures Canvassed(cfg, s, t, i, s.procs[i].node.ballot.term + 1, 0)
  {
    states', steps', t := OneMore(cfg, states, steps, s, Elect(i));
    StandExactly(cfg, s, i, t);
    assert ValidSettings(cfg, i) && cfg[i].peers[0..] == cfg[i].peers;
    forall p | p in cfg[i].peers && p < |cfg|
      ensures VoteReq(p, i, s.procs[i].node.ballot.term + 1) in t.net && t.procs[p] == s.procs[p]
    {
      var k :| 0 <= k < |cfg[i].peers| && cfg[i].peers[k] == p;
    }
  }

  /** From any state of any fresh run, a node that neither leads nor is in an election, and whose term nobody is
      ahead of, can be elected: the run goes on, still fresh, to a state in which it leads the next term and
      every other node follows it. */
  lemma {:induction false} ElectionSucceeds(cfg: seq<Settings>, states: seq<Sys>, steps: seq<Step>, s: Sys, i: Id)
    returns (states': seq<Sys>, steps': seq<Step>, t: Sys, term: nat)
    requires Runs(cfg, states, steps, s) && i < |cfg|
    requires s.procs[i].round == None && s.procs[i].node.role != Leader
    requires forall j :: 0 <= j < |cfg| ==> s.procs[j].node.ballot.term <= s.procs[i].node.ballot.term
    ensures IsRun(cfg, states', steps') && AllFresh(cfg, states', steps') && states <= states' && steps <= steps'
    ensures term == s.procs[i].node.ballot.term + 1 && t == states'[|steps'|] && LeaderAt(t, i, term)
    ensures forall j: nat :: j < |cfg| && j != i ==> Obeys(t, j, term, i)
  {
    term := s.procs[i].node.ballot.term + 1;
    assert ValidSettings(cfg, i);
    states', steps', t := StandFirst(cfg, states, steps, s, i);
    states', steps', t := AskAll(cfg, states', steps', s, t, i, term, 0);
    states', steps', t := WinAndPush(cfg, states', steps', s, t, i, term);
    states', steps', t := TellAll(cfg, states', steps', t, i, term, 0);
    PeersAreAll(cfg, i);
    assert cfg[i].peers[..|cfg[i].peers|] == cfg[i].peers;
  }
}
