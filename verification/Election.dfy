/** Leader election as a run of the whole cluster: the sections of `ElectionNode` interleaved in
    any order, over a network that may lose, delay, reorder and repeat messages, with crashes.

    The step relation is the source's own, including its three places that act on a term captured
    before the lock was released. `Fresh` says when such a step is harmless, and `RunIsSafeIffFresh`
    proves that this is exact: the safety invariant holds all along a run if and only if every step
    of the run is fresh. */
module Election {
  import opened Options
  import opened ElectionNode

  /** One process: the shared fields, and the locals of its election and heartbeat threads. */
  datatype Proc = Proc(node: Node, round: Option<Round>, beat: Option<nat>)

  datatype Msg =
    | VoteReq(to: Id, cand: Id, term: nat)
    | VoteResp(src: Id, to: Id, asked: nat, reply: Reply)
    | Append(to: Id, leader: Id, term: nat)
    | AppendResp(src: Id, to: Id, asked: nat, reply: Reply)

  /** `votes` and `top` are history: who voted for whom in which term, and the highest term a
      process has ever been in. No step reads them. */
  datatype Sys = Sys(procs: seq<Proc>, net: set<Msg>, votes: map<(nat, Id), Id>, top: seq<nat>)

  /** A cluster of at least two masters, each with every other one as its peer, once. */
  ghost predicate ValidConfig(cfg: seq<Settings>) {
    |cfg| >= 2 && forall i :: 0 <= i < |cfg| ==> ValidSettings(cfg, i)
  }

  ghost predicate ValidSettings(cfg: seq<Settings>, i: nat)
    requires i < |cfg|
  {
    && cfg[i].self == i
    && |cfg[i].peers| == |cfg| - 1
    && (forall k :: 0 <= k < |cfg[i].peers| ==> cfg[i].peers[k] < |cfg| && cfg[i].peers[k] != i)
    && (forall k, l :: 0 <= k < l < |cfg[i].peers| ==> cfg[i].peers[k] != cfg[i].peers[l])
  }

  datatype Step =
    | Elect(i: Id)                              // first section of _start_election
    | OnVoteReq(m: Msg)                         // handle_vote_request
    | OnVoteReqCrash(m: Msg, now: real)         // a crash between its two _persist calls
    | OnVoteReply(i: Id, answer: Option<Msg>)   // one iteration of the vote loop
    | Win(i: Id)                                // the end of the vote loop
    | Beat(i: Id)                               // first section of a heartbeat round
    | Push(i: Id)                               // the snapshots of a new leader, and of the sync thread
    | OnAppend(m: Msg)                          // handle_append_entries
    | OnBeatReply(i: Id, m: Msg)                // a heartbeat reply
    | EndBeat(i: Id, active: set<Id>, now: real)
    | Readonly(i: Id)
    | Writable(i: Id)
    | Crash(i: Id, now: real)                   // stop, and restart from the state file

  ghost predicate WellFormed(cfg: seq<Settings>, s: Sys) {
    ValidConfig(cfg) && |s.procs| == |s.top| == |cfg|
  }

  /** May this step be taken? */
  ghost predicate Enabled(cfg: seq<Settings>, s: Sys, e: Step)
    requires WellFormed(cfg, s)
  {
    match e
    case Elect(i) => i < |cfg| && s.procs[i].round == None && s.procs[i].node.role != Leader
    case OnVoteReq(m) => m in s.net && m.VoteReq? && m.to < |cfg|
    case OnVoteReqCrash(m, _) => m in s.net && m.VoteReq? && m.to < |cfg| && m.term > s.procs[m.to].node.ballot.term
    case OnVoteReply(i, m) =>
      && i < |cfg| && s.procs[i].round.Some? && s.procs[i].round.value.next < |cfg[i].peers|
      && (m.Some? ==> m.value in s.net && m.value.VoteResp? && m.value.to == i
                      && m.value.src == cfg[i].peers[s.procs[i].round.value.next]
                      && m.value.asked == s.procs[i].round.value.term)
    case Win(i) => i < |cfg| && s.procs[i].round.Some? && s.procs[i].round.value.next == |cfg[i].peers|
    case Beat(i) => i < |cfg| && s.procs[i].node.role == Leader && s.procs[i].beat == None
    case Push(i) => i < |cfg| && s.procs[i].node.role == Leader
    case OnAppend(m) => m in s.net && m.Append? && m.to < |cfg|
    case OnBeatReply(i, m) =>
      i < |cfg| && m in s.net && m.AppendResp? && m.to == i && s.procs[i].beat == Some(m.asked)
    case EndBeat(i, _, _) => i < |cfg| && s.procs[i].beat.Some?
    case Readonly(i) => i < |cfg|
    case Writable(i) => i < |cfg|
    case Crash(i, _) => i < |cfg|
  }

  function Raise(top: seq<nat>, i: Id, term: nat): seq<nat>
    requires i < |top|
  {
    if term > top[i] then top[i := term] else top
  }

  /** Process `i` becomes `p`, and `out` goes onto the network. */
  function Put(s: Sys, i: Id, p: Proc, out: set<Msg>): Sys
    requires i < |s.procs| == |s.top|
  {
    s.(procs := s.procs[i := p], net := s.net + out, top := Raise(s.top, i, p.node.ballot.term))
  }

  function VoteReqs(c: Settings, term: nat): set<Msg> { set p | p in c.peers :: VoteReq(p, c.self, term) }
  function Appends(c: Settings, term: nat): set<Msg> { set p | p in c.peers :: Append(p, c.self, term) }

  /** What the source does in this step. Sending a whole round at once loses no behaviour: a
      request that would go out later is one that the network delays. */
  ghost function Apply(cfg: seq<Settings>, s: Sys, e: Step): Sys
    requires WellFormed(cfg, s) && Enabled(cfg, s, e)
  {
    match e
    case Elect(i) =>
      var n := BeginElection(cfg[i], s.procs[i].node);
      Put(s, i, s.procs[i].(node := n, round := Some(OpenRound(n))), VoteReqs(cfg[i], n.ballot.term))
        .(votes := s.votes[(n.ballot.term, i) := i])
    case OnVoteReq(m) =>
      var (n, r) := HandleVote(cfg[m.to], s.procs[m.to].node, m.cand, m.term);
      var s1 := Put(s, m.to, s.procs[m.to].(node := n), {VoteResp(m.to, m.cand, m.term, r)});
      if r.granted then s1.(votes := s.votes[(m.term, m.to) := m.cand]) else s1
    case OnVoteReqCrash(m, now) =>
      var n := StepDown(cfg[m.to], s.procs[m.to].node, m.term);
      var s1 := Put(s, m.to, Proc(n, None, None), {});
      Put(s1, m.to, Proc(Restart(cfg[m.to], n.disk, now), None, None), {})
    case OnVoteReply(i, m) =>
      var reply := if m.Some? then Some(m.value.reply) else None;
      var (n, r) := Absorb(cfg[i], s.procs[i].node, s.procs[i].round.value, reply);
      Put(s, i, s.procs[i].(node := n, round := r), {})
    case Win(i) =>
      var n := Finish(cfg[i], s.procs[i].node, s.procs[i].round.value);
      Put(s, i, s.procs[i].(node := n, round := None), {})
    case Beat(i) =>
      var t := s.procs[i].node.ballot.term;
      Put(s, i, s.procs[i].(beat := Some(t)), Appends(cfg[i], t))
    case Push(i) => Put(s, i, s.procs[i], Appends(cfg[i], s.procs[i].node.ballot.term))
    case OnAppend(m) =>
      var (n, r) := HandleAppend(cfg[m.to], s.procs[m.to].node, m.leader, m.term);
      Put(s, m.to, s.procs[m.to].(node := n), {AppendResp(m.to, m.leader, m.term, r)})
    case OnBeatReply(i, m) =>
      if m.reply.term > m.asked
      then Put(s, i, s.procs[i].(node := StepDown(cfg[i], s.procs[i].node, m.reply.term), beat := None), {})
      else s
    case EndBeat(i, active, now) =>
      Put(s, i, s.procs[i].(node := EvaluateQuorum(cfg[i], s.procs[i].node, active, now), beat := None), {})
    case Readonly(i) => Put(s, i, s.procs[i].(node := EnterReadonly(s.procs[i].node)), {})
    case Writable(i) => Put(s, i, s.procs[i].(node := ExitReadonly(s.procs[i].node)), {})
    case Crash(i, now) =>
      Put(s, i, Proc(Restart(cfg[i], s.procs[i].node.disk, now), None, None), {})
  }

  ghost function Init(cfg: seq<Settings>): Sys
    requires ValidConfig(cfg)
  {
    Sys(seq(|cfg|, i requires 0 <= i < |cfg| => Proc(Restart(cfg[i], FRESH_BALLOT, 0.0), None, None)),
        {}, map[], seq(|cfg|, _ => 0))
  }

  // ----- The condition -----

  /** May a node in ballot `b` step down to `term` without forgetting a vote or going back? */
  predicate SafeStepDown(b: Ballot, term: nat) {
    term > b.term || (term == b.term && b.votedFor == None)
  }

  /** Each step that acts on remembered data checks that it is still current: a reply that steps the
      node down is compared with the node's own term, a win with the term of its round, and a
      restart finds the ballot it had. Every other step is fresh. */
  ghost predicate Fresh(cfg: seq<Settings>, s: Sys, e: Step)
    requires WellFormed(cfg, s) && Enabled(cfg, s, e)
  {
    match e
    case OnVoteReply(i, m) =>
      m.Some? && m.value.reply.term > s.procs[i].round.value.term ==>
        SafeStepDown(s.procs[i].node.ballot, m.value.reply.term)
    case OnBeatReply(i, m) =>
      m.reply.term > m.asked ==> SafeStepDown(s.procs[i].node.ballot, m.reply.term)
    case Win(i) =>
      s.procs[i].round.value.votes >= Needed(|cfg[i].peers|) ==>
        s.procs[i].node.ballot.term == s.procs[i].round.value.term
    case Crash(i, _) => cfg[i].durable || s.procs[i].node.ballot == FRESH_BALLOT
    case OnVoteReqCrash(m, _) => cfg[m.to].durable
    case _ => true
  }

  // ----- The invariant -----

  ghost function Voters(n: nat, votes: map<(nat, Id), Id>, term: nat, cand: Id): set<Id> {
    set v | 0 <= v < n && (term, v) in votes && votes[(term, v)] == cand
  }

  /** `cand` holds a majority of the recorded votes of `term`. */
  ghost predicate Won(n: nat, votes: map<(nat, Id), Id>, term: nat, cand: Id) {
    cand < n && |Voters(n, votes, term, cand)| >= n / 2 + 1
  }

  /** `cand` has voted for itself in `term`, as only the start of an election does. */
  ghost predicate Stood(votes: map<(nat, Id), Id>, term: nat, cand: Id) {
    (term, cand) in votes && votes[(term, cand)] == cand
  }

  /** A recorded vote binds its voter: the voter's term has not gone back behind it and, while it is
      still the voter's term, the vote stands. */
  ghost predicate VoteKept(n: nat, s: Sys, term: nat, v: Id)
    requires |s.procs| == |s.top| == n && (term, v) in s.votes
  {
    && v < n && term <= s.top[v]
    && (term == s.top[v] ==> s.procs[v].node.ballot.votedFor == Some(s.votes[(term, v)]))
    && Stood(s.votes, term, s.votes[(term, v)]) && s.votes[(term, v)] < n
  }

  ghost predicate NodeOk(cfg: seq<Settings>, s: Sys, i: Id)
    requires WellFormed(cfg, s) && i < |cfg|
  {
    var nd := s.procs[i].node;
    && nd.ballot.term == s.top[i]
    && nd.disk == (if cfg[i].durable then nd.ballot else FRESH_BALLOT)
    && (nd.ballot.votedFor.Some? ==>
          (nd.ballot.term, i) in s.votes && s.votes[(nd.ballot.term, i)] == nd.ballot.votedFor.value)
    && (nd.role == Leader ==> Won(|cfg|, s.votes, nd.ballot.term, i))
    && (nd.leaderId.Some? ==> Won(|cfg|, s.votes, nd.ballot.term, nd.leaderId.value))
  }

  /** The voters a round may count after `next` peers: the candidate, and those asked. */
  ghost function Counted(c: Settings, n: nat, votes: map<(nat, Id), Id>, r: Round): set<Id>
    requires r.next <= |c.peers|
  {
    set v | v in Voters(n, votes, r.term, c.self) && (v == c.self || v in c.peers[..r.next])
  }

  ghost predicate RoundOk(cfg: seq<Settings>, s: Sys, i: Id)
    requires WellFormed(cfg, s) && i < |cfg|
  {
    s.procs[i].round.Some? ==>
      var r := s.procs[i].round.value;
      && r.next <= |cfg[i].peers| && r.term <= s.top[i]
      && Stood(s.votes, r.term, i)
      && (forall t: nat :: Stood(s.votes, t, i) ==> t <= r.term)
      && r.votes <= |Counted(cfg[i], |cfg|, s.votes, r)|
  }

  ghost predicate MsgOk(cfg: seq<Settings>, s: Sys, m: Msg) {
    match m
    case VoteReq(to, cand, term) => cand < |cfg| && Stood(s.votes, term, cand)
    case VoteResp(src, to, asked, reply) =>
      reply.granted ==> (asked, src) in s.votes && s.votes[(asked, src)] == to
    case Append(to, leader, term) => Won(|cfg|, s.votes, term, leader)
    case AppendResp(_, _, _, _) => true
  }

  ghost predicate Inv(cfg: seq<Settings>, s: Sys) {
    && WellFormed(cfg, s)
    && (forall i :: 0 <= i < |cfg| ==> NodeOk(cfg, s, i))
    && (forall i :: 0 <= i < |cfg| ==> RoundOk(cfg, s, i))
    && (forall m :: m in s.net ==> MsgOk(cfg, s, m))
    && (forall t: nat, v: Id :: (t, v) in s.votes ==> VoteKept(|cfg|, s, t, v))
  }

  // ----- Frames -----

  /** Votes are only ever added, and here only by voter `i`. */
  ghost predicate Extends(old_: map<(nat, Id), Id>, new_: map<(nat, Id), Id>, i: Id) {
    && (forall t: nat, v: Id :: (t, v) in old_ ==> (t, v) in new_ && new_[(t, v)] == old_[(t, v)])
    && (forall t: nat, v: Id :: (t, v) in new_ && (t, v) !in old_ ==> v == i)
  }

  lemma VotersGrow(n: nat, old_: map<(nat, Id), Id>, new_: map<(nat, Id), Id>, i: Id, term: nat, cand: Id)
    requires Extends(old_, new_, i)
    ensures Voters(n, old_, term, cand) <= Voters(n, new_, term, cand)
    ensures |Voters(n, old_, term, cand)| <= |Voters(n, new_, term, cand)|
    ensures Won(n, old_, term, cand) ==> Won(n, new_, term, cand)
  {
    CardinalityMonotone(Voters(n, old_, term, cand), Voters(n, new_, term, cand));
  }

  lemma CardinalityMonotone<T>(a: set<T>, b: set<T>)
    requires a <= b
    ensures |a| <= |b|
  {
    assert b == a + (b - a);
  }

  /** `t` differs from `s` only in process `i`, in what `i` voted and in new messages. */
  ghost predicate OnlyAt(cfg: seq<Settings>, s: Sys, t: Sys, i: Id) {
    && WellFormed(cfg, s) && WellFormed(cfg, t) && i < |cfg|
    && Extends(s.votes, t.votes, i)
    && t.procs == s.procs[i := t.procs[i]]
    && t.top == s.top[i := t.top[i]]
    && s.net <= t.net
  }

  lemma OthersKeep(cfg: seq<Settings>, s: Sys, t: Sys, i: Id, j: Id)
    requires Inv(cfg, s) && OnlyAt(cfg, s, t, i) && j < |cfg| && j != i
    ensures NodeOk(cfg, t, j) && RoundOk(cfg, t, j)
  {
    assert NodeOk(cfg, s, j) && RoundOk(cfg, s, j);
    var nd := s.procs[j].node;
    VotersGrow(|cfg|, s.votes, t.votes, i, nd.ballot.term, j);
    if nd.leaderId.Some? {
      VotersGrow(|cfg|, s.votes, t.votes, i, nd.ballot.term, nd.leaderId.value);
    }
    if s.procs[j].round.Some? {
      var r := s.procs[j].round.value;
      VotersGrow(|cfg|, s.votes, t.votes, i, r.term, j);
      CardinalityMonotone(Counted(cfg[j], |cfg|, s.votes, r), Counted(cfg[j], |cfg|, t.votes, r));
      assert forall k: nat :: Stood(t.votes, k, j) ==> Stood(s.votes, k, j);
    }
  }

  lemma MessagesKeep(cfg: seq<Settings>, s: Sys, t: Sys, i: Id, m: Msg)
    requires Inv(cfg, s) && OnlyAt(cfg, s, t, i) && m in s.net
    ensures MsgOk(cfg, t, m)
  {
    assert MsgOk(cfg, s, m);
    if m.Append? {
      VotersGrow(|cfg|, s.votes, t.votes, i, m.term, m.leader);
    }
  }

  /** To keep the invariant, a step of process `i` answers for `i`, its messages and its votes. */
  lemma Assemble(cfg: seq<Settings>, s: Sys, t: Sys, i: Id)
    requires Inv(cfg, s) && OnlyAt(cfg, s, t, i)
    requires NodeOk(cfg, t, i) && RoundOk(cfg, t, i)
    requires forall m :: m in t.net && m !in s.net ==> MsgOk(cfg, t, m)
    requires forall k: nat :: (k, i) in t.votes ==> VoteKept(|cfg|, t, k, i)
    ensures Inv(cfg, t)
  {
    forall j | 0 <= j < |cfg| ensures NodeOk(cfg, t, j) && RoundOk(cfg, t, j) {
      if j != i { OthersKeep(cfg, s, t, i, j); }
    }
    forall m | m in t.net ensures MsgOk(cfg, t, m) {
      if m in s.net { MessagesKeep(cfg, s, t, i, m); }
    }
    forall k: nat, v: Id | (k, v) in t.votes ensures VoteKept(|cfg|, t, k, v) {
      if v != i { assert VoteKept(|cfg|, s, k, v); }
    }
  }

  // ----- Steps that never break the invariant -----

  lemma ElectKeeps(cfg: seq<Settings>, s: Sys, i: Id)
    requires Inv(cfg, s) && Enabled(cfg, s, Elect(i))
    ensures Inv(cfg, Apply(cfg, s, Elect(i)))
  {
    var t := Apply(cfg, s, Elect(i));
    assert NodeOk(cfg, s, i) && ValidSettings(cfg, i);
    var term := s.procs[i].node.ballot.term + 1;
    forall k: nat | (k, i) in s.votes ensures k < term {
      assert VoteKept(|cfg|, s, k, i);
    }
    assert forall k: nat, v: Id :: (k, v) in s.votes ==> VoteKept(|cfg|, s, k, v);
    assert OnlyAt(cfg, s, t, i);
    var r := t.procs[i].round.value;
    assert i in Counted(cfg[i], |cfg|, t.votes, r);
    CardinalityMonotone({i}, Counted(cfg[i], |cfg|, t.votes, r));
    assert RoundOk(cfg, t, i);
    forall k: nat | (k, i) in t.votes ensures VoteKept(|cfg|, t, k, i) {
      if k != term { assert VoteKept(|cfg|, s, k, i); }
    }
    Assemble(cfg, s, t, i);
  }

  /** A round survives whatever its process does, as long as the process does not stand again. */
  lemma RoundKeeps(cfg: seq<Settings>, s: Sys, t: Sys, i: Id)
    requires Inv(cfg, s) && OnlyAt(cfg, s, t, i) && s.top[i] <= t.top[i]
    requires t.procs[i].round.Some? ==> t.procs[i].round == s.procs[i].round
    requires forall k: nat :: Stood(t.votes, k, i) ==> Stood(s.votes, k, i)
    ensures RoundOk(cfg, t, i)
  {
    assert RoundOk(cfg, s, i);
    if t.procs[i].round.Some? {
      var r := s.procs[i].round.value;
      CardinalityMonotone(Counted(cfg[i], |cfg|, s.votes, r), Counted(cfg[i], |cfg|, t.votes, r));
    }
  }

  /** The same for a process that keeps its term, and what it knows of the leader. */
  lemma NodeKeeps(cfg: seq<Settings>, s: Sys, t: Sys, i: Id)
    requires Inv(cfg, s) && OnlyAt(cfg, s, t, i) && s.top[i] == t.top[i]
    requires var a, b := s.procs[i].node, t.procs[i].node;
      && b.ballot == a.ballot && b.disk == a.disk
      && (b.role == Leader ==> a.role == Leader)
      && (b.leaderId.Some? ==> b.leaderId == a.leaderId)
    ensures NodeOk(cfg, t, i)
    ensures t.votes == s.votes ==> forall k: nat :: (k, i) in t.votes ==> VoteKept(|cfg|, t, k, i)
  {
    var a := s.procs[i].node;
    assert NodeOk(cfg, s, i);
    VotersGrow(|cfg|, s.votes, t.votes, i, a.ballot.term, i);
    if a.leaderId.Some? {
      VotersGrow(|cfg|, s.votes, t.votes, i, a.ballot.term, a.leaderId.value);
    }
    if t.votes == s.votes {
      forall k: nat | (k, i) in t.votes ensures VoteKept(|cfg|, t, k, i) {
        assert VoteKept(|cfg|, s, k, i);
      }
    }
  }

  lemma VoteReqKeeps(cfg: seq<Settings>, s: Sys, m: Msg)
    requires Inv(cfg, s) && Enabled(cfg, s, OnVoteReq(m))
    ensures Inv(cfg, Apply(cfg, s, OnVoteReq(m)))
  {
    var i := m.to;
    var t := Apply(cfg, s, OnVoteReq(m));
    assert NodeOk(cfg, s, i) && MsgOk(cfg, s, m);
    var b := s.procs[i].node.ballot;
    var (n, r) := HandleVote(cfg[i], s.procs[i].node, m.cand, m.term);
    assert (m.term, i) in s.votes ==> VoteKept(|cfg|, s, m.term, i);
    assert t.procs[i] == s.procs[i].(node := n);
    assert t.votes == if r.granted then s.votes[(m.term, i) := m.cand] else s.votes;
    assert OnlyAt(cfg, s, t, i);
    assert forall k: nat :: Stood(t.votes, k, i) ==> Stood(s.votes, k, i);
    RoundKeeps(cfg, s, t, i);
    VoteReqNode(cfg, s, m, n, r, t);
    VoteReqVotes(cfg, s, m, n, r, t);
    Assemble(cfg, s, t, i);
  }

  lemma VoteReqNode(cfg: seq<Settings>, s: Sys, m: Msg, n: Node, r: Reply, t: Sys)
    requires Inv(cfg, s) && OnlyAt(cfg, s, t, m.to) && m.VoteReq?
    requires (n, r) == HandleVote(cfg[m.to], s.procs[m.to].node, m.cand, m.term)
    requires t.procs[m.to].node == n && t.top == Raise(s.top, m.to, n.ballot.term)
    requires t.votes == if r.granted then s.votes[(m.term, m.to) := m.cand] else s.votes
    ensures NodeOk(cfg, t, m.to)
  {
    var i := m.to;
    assert NodeOk(cfg, s, i);
    var nd := s.procs[i].node;
    VotersGrow(|cfg|, s.votes, t.votes, i, nd.ballot.term, i);
    if nd.leaderId.Some? {
      VotersGrow(|cfg|, s.votes, t.votes, i, nd.ballot.term, nd.leaderId.value);
    }
  }

  lemma VoteReqVotes(cfg: seq<Settings>, s: Sys, m: Msg, n: Node, r: Reply, t: Sys)
    requires Inv(cfg, s) && OnlyAt(cfg, s, t, m.to) && m.VoteReq? && MsgOk(cfg, s, m)
    requires (n, r) == HandleVote(cfg[m.to], s.procs[m.to].node, m.cand, m.term)
    requires t.procs[m.to].node == n && t.top == Raise(s.top, m.to, n.ballot.term)
    requires t.votes == if r.granted then s.votes[(m.term, m.to) := m.cand] else s.votes
    ensures forall k: nat :: (k, m.to) in t.votes ==> VoteKept(|cfg|, t, k, m.to)
  {
    assert NodeOk(cfg, s, m.to);
    forall k: nat | (k, m.to) in t.votes ensures VoteKept(|cfg|, t, k, m.to) {
      assert (k, m.to) in s.votes ==> VoteKept(|cfg|, s, k, m.to);
    }
  }

  lemma AppendKeeps(cfg: seq<Settings>, s: Sys, m: Msg)
    requires Inv(cfg, s) && Enabled(cfg, s, OnAppend(m))
    ensures Inv(cfg, Apply(cfg, s, OnAppend(m)))
  {
    var t := Apply(cfg, s, OnAppend(m));
    assert NodeOk(cfg, s, m.to) && MsgOk(cfg, s, m);
    RoundKeeps(cfg, s, t, m.to);
    forall k: nat | (k, m.to) in t.votes ensures VoteKept(|cfg|, t, k, m.to) {
      assert VoteKept(|cfg|, s, k, m.to);
    }
    Assemble(cfg, s, t, m.to);
  }

  lemma BeatKeeps(cfg: seq<Settings>, s: Sys, i: Id)
    requires Inv(cfg, s) && Enabled(cfg, s, Beat(i))
    ensures Inv(cfg, Apply(cfg, s, Beat(i)))
  {
    var t := Apply(cfg, s, Beat(i));
    assert NodeOk(cfg, s, i) && ValidSettings(cfg, i);
    RoundKeeps(cfg, s, t, i);
    NodeKeeps(cfg, s, t, i);
    Assemble(cfg, s, t, i);
  }

  lemma PushKeeps(cfg: seq<Settings>, s: Sys, i: Id)
    requires Inv(cfg, s) && Enabled(cfg, s, Push(i))
    ensures Inv(cfg, Apply(cfg, s, Push(i)))
  {
    var t := Apply(cfg, s, Push(i));
    assert NodeOk(cfg, s, i) && ValidSettings(cfg, i);
    RoundKeeps(cfg, s, t, i);
    NodeKeeps(cfg, s, t, i);
    Assemble(cfg, s, t, i);
  }

  /** The read-only guard may take the leadership away; it never touches the ballot. */
  lemma GuardKeeps(cfg: seq<Settings>, s: Sys, i: Id, e: Step)
    requires Inv(cfg, s) && Enabled(cfg, s, e)
    requires e == Readonly(i) || e == Writable(i) || (e.EndBeat? && e.i == i)
    ensures Inv(cfg, Apply(cfg, s, e))
  {
    var t := Apply(cfg, s, e);
    assert NodeOk(cfg, s, i);
    RoundKeeps(cfg, s, t, i);
    NodeKeeps(cfg, s, t, i);
    Assemble(cfg, s, t, i);
  }

  lemma VoteStands(cfg: seq<Settings>, s: Sys, term: nat, v: Id)
    requires Inv(cfg, s) && (term, v) in s.votes
    ensures VoteKept(|cfg|, s, term, v)
  {}

  // ----- Steps that act on remembered data: kept if and only if fresh -----

  lemma StepDownExact(cfg: seq<Settings>, s: Sys, i: Id, term: nat, beat: Option<nat>, round: Option<Round>)
    requires Inv(cfg, s) && i < |cfg|
    requires round.Some? ==> round == s.procs[i].round
    ensures Inv(cfg, Put(s, i, Proc(StepDown(cfg[i], s.procs[i].node, term), round, beat), {})) <==>
            SafeStepDown(s.procs[i].node.ballot, term)
  {
    var t := Put(s, i, Proc(StepDown(cfg[i], s.procs[i].node, term), round, beat), {});
    assert NodeOk(cfg, s, i);
    var b := s.procs[i].node.ballot;
    if SafeStepDown(b, term) {
      RoundKeeps(cfg, s, t, i);
      forall k: nat | (k, i) in t.votes ensures VoteKept(|cfg|, t, k, i) {
        assert VoteKept(|cfg|, s, k, i);
      }
      Assemble(cfg, s, t, i);
    } else if Inv(cfg, t) {
      assert NodeOk(cfg, t, i);         // so the term has not gone back ...
      assert term == b.term;
      VoteStands(cfg, t, term, i);      // ... but the vote of that term is forgotten
    }
  }

  lemma VoteReplyExact(cfg: seq<Settings>, s: Sys, i: Id, m: Option<Msg>)
    requires Inv(cfg, s) && Enabled(cfg, s, OnVoteReply(i, m))
    ensures Inv(cfg, Apply(cfg, s, OnVoteReply(i, m))) <==> Fresh(cfg, s, OnVoteReply(i, m))
  {
    var t := Apply(cfg, s, OnVoteReply(i, m));
    var r := s.procs[i].round.value;
    assert NodeOk(cfg, s, i);
    if m.Some? && m.value.reply.term > r.term {
      StepDownExact(cfg, s, i, m.value.reply.term, s.procs[i].beat, None);
    } else {
      var r1 := t.procs[i].round.value;
      NodeKeeps(cfg, s, t, i);
      CountOne(cfg, s, i, m, r1);
      Assemble(cfg, s, t, i);
    }
  }

  /** The peer just asked had not been counted, and is now counted if it granted the vote. */
  lemma CountOne(cfg: seq<Settings>, s: Sys, i: Id, m: Option<Msg>, r1: Round)
    requires Inv(cfg, s) && Enabled(cfg, s, OnVoteReply(i, m))
    requires var r := s.procs[i].round.value;
      r1 == r.(next := r.next + 1, votes := if m.Some? && m.value.reply.granted then r.votes + 1 else r.votes)
    ensures r1.votes <= |Counted(cfg[i], |cfg|, s.votes, r1)|
    ensures s.procs[i].round.value.next < |cfg[i].peers| && RoundOk(cfg, s, i)
  {
    assert RoundOk(cfg, s, i) && ValidSettings(cfg, i);
    var r := s.procs[i].round.value;
    var p := cfg[i].peers[r.next];
    var before, after := Counted(cfg[i], |cfg|, s.votes, r), Counted(cfg[i], |cfg|, s.votes, r1);
    assert cfg[i].peers[..r1.next] == cfg[i].peers[..r.next] + [p];
    if m.Some? && m.value.reply.granted {
      assert MsgOk(cfg, s, m.value);
      assert VoteKept(|cfg|, s, r.term, p);
      assert p !in before && before + {p} <= after;
      CardinalityMonotone(before + {p}, after);
    } else {
      CardinalityMonotone(before, after);
    }
  }

  lemma WinExact(cfg: seq<Settings>, s: Sys, i: Id)
    requires Inv(cfg, s) && Enabled(cfg, s, Win(i))
    ensures Inv(cfg, Apply(cfg, s, Win(i))) <==> Fresh(cfg, s, Win(i))
  {
    var t := Apply(cfg, s, Win(i));
    var r := s.procs[i].round.value;
    assert NodeOk(cfg, s, i) && RoundOk(cfg, s, i) && ValidSettings(cfg, i);
    var term := s.procs[i].node.ballot.term;
    if Fresh(cfg, s, Win(i)) {
      CardinalityMonotone(Counted(cfg[i], |cfg|, s.votes, r), Voters(|cfg|, s.votes, r.term, i));
      forall k: nat | (k, i) in t.votes ensures VoteKept(|cfg|, t, k, i) {
        assert VoteKept(|cfg|, s, k, i);
      }
      Assemble(cfg, s, t, i);
    } else if Inv(cfg, t) {
      assert NodeOk(cfg, t, i);
      NobodyWonBehind(cfg, s, i);
    }
  }

  /** A round is its process's latest candidacy, so it cannot have won a later term. */
  lemma NobodyWonBehind(cfg: seq<Settings>, s: Sys, i: Id)
    requires Inv(cfg, s) && i < |cfg| && s.procs[i].round.Some?
    requires s.procs[i].round.value.term != s.procs[i].node.ballot.term
    ensures !Won(|cfg|, s.votes, s.procs[i].node.ballot.term, i)
  {
    assert NodeOk(cfg, s, i) && RoundOk(cfg, s, i);
    var term := s.procs[i].node.ballot.term;
    assert !Stood(s.votes, term, i);
    forall v: Id | (term, v) in s.votes ensures s.votes[(term, v)] != i {
      VoteStands(cfg, s, term, v);
    }
    assert Voters(|cfg|, s.votes, term, i) == {};
  }

  lemma CrashExact(cfg: seq<Settings>, s: Sys, i: Id, now: real)
    requires Inv(cfg, s) && i < |cfg|
    ensures Inv(cfg, Apply(cfg, s, Crash(i, now))) <==> Fresh(cfg, s, Crash(i, now))
  {
    var t := Apply(cfg, s, Crash(i, now));
    assert NodeOk(cfg, s, i);
    var b := s.procs[i].node.ballot;
    if Fresh(cfg, s, Crash(i, now)) {
      NodeKeeps(cfg, s, t, i);
      RoundKeeps(cfg, s, t, i);
      Assemble(cfg, s, t, i);
    } else if Inv(cfg, t) {
      assert NodeOk(cfg, t, i);
      assert b.term == 0;
      VoteStands(cfg, t, 0, i);
    }
  }

  lemma VoteReqCrashExact(cfg: seq<Settings>, s: Sys, m: Msg, now: real)
    requires Inv(cfg, s) && Enabled(cfg, s, OnVoteReqCrash(m, now))
    ensures Inv(cfg, Apply(cfg, s, OnVoteReqCrash(m, now))) <==> Fresh(cfg, s, OnVoteReqCrash(m, now))
  {
    var i := m.to;
    var s1 := Put(s, i, Proc(StepDown(cfg[i], s.procs[i].node, m.term), None, None), {});
    StepDownExact(cfg, s, i, m.term, None, None);
    CrashExact(cfg, s1, i, now);
    assert Apply(cfg, s, OnVoteReqCrash(m, now)) == Apply(cfg, s1, Crash(i, now));
  }

  lemma BeatReplyExact(cfg: seq<Settings>, s: Sys, i: Id, m: Msg)
    requires Inv(cfg, s) && Enabled(cfg, s, OnBeatReply(i, m))
    ensures Inv(cfg, Apply(cfg, s, OnBeatReply(i, m))) <==> Fresh(cfg, s, OnBeatReply(i, m))
  {
    StepDownExact(cfg, s, i, m.reply.term, None, s.procs[i].round);
  }

  /** From a good state, one step of the source's code leads to a good state exactly when it is fresh. */
  lemma StepExact(cfg: seq<Settings>, s: Sys, e: Step)
    requires Inv(cfg, s) && Enabled(cfg, s, e)
    ensures Inv(cfg, Apply(cfg, s, e)) <==> Fresh(cfg, s, e)
  {
    match e
    case Elect(i) => ElectKeeps(cfg, s, i);
    case OnVoteReq(m) => VoteReqKeeps(cfg, s, m);
    case OnVoteReqCrash(m, now) => VoteReqCrashExact(cfg, s, m, now);
    case OnVoteReply(i, m) => VoteReplyExact(cfg, s, i, m);
    case Win(i) => WinExact(cfg, s, i);
    case Beat(i) => BeatKeeps(cfg, s, i);
    case Push(i) => PushKeeps(cfg, s, i);
    case OnAppend(m) => AppendKeeps(cfg, s, m);
    case OnBeatReply(i, m) => BeatReplyExact(cfg, s, i, m);
    case EndBeat(i, _, _) => GuardKeeps(cfg, s, i, e);
    case Readonly(i) => GuardKeeps(cfg, s, i, e);
    case Writable(i) => GuardKeeps(cfg, s, i, e);
    case Crash(i, now) => CrashExact(cfg, s, i, now);
  }
}
