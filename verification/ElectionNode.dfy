/** One high-availability master (huddle_cluster_pkg/cluster_ha.py): every section that the
    source runs under `self._lock`, as a function on the fields it reads and writes.
    The lock is released between these sections, so they are the atomic steps of a run. */
module ElectionNode {
  import opened Options

  type Id = nat

  datatype Role = Follower | Candidate | Leader

  /** What `_persist` writes: {term, voted_for}. */
  datatype Ballot = Ballot(term: nat, votedFor: Option<Id>)

  datatype Partition = Healthy | MajorityActive | IsolatedMinority

  /** The split-brain guard. `_readonly` and `_split_brain_detected` are always set and cleared
      together, so one flag stands for both. */
  datatype Guard = Guard(readonly: bool, partition: Partition, active: set<Id>, lastQuorum: real,
                         splitBrains: nat, heals: nat)

  datatype Node = Node(ballot: Ballot, role: Role, leaderId: Option<Id>, guard: Guard, disk: Ballot)

  /** Settings of one node: its own id, its peers in the order the loops visit them, whether
      `state_file` is set, `auto_heal_enabled` and `quorum_timeout_sec`. */
  datatype Settings = Settings(self: Id, peers: seq<Id>, durable: bool, autoHeal: bool, quorumTimeout: real)

  const FRESH_BALLOT := Ballot(0, None)

  /** A peer's answer to a vote request or to a heartbeat. */
  datatype Reply = Reply(granted: bool, term: nat)

  function Needed(peerCount: nat): nat { (peerCount + 1) / 2 + 1 }

  function Persist(c: Settings, s: Node): Node {
    if c.durable then s.(disk := s.ballot) else s
  }

  function StepDown(c: Settings, s: Node, newTerm: nat): Node {
    Persist(c, s.(ballot := Ballot(newTerm, None), role := Follower)).(leaderId := None)
  }

  function Heal(g: Guard): Guard {
    g.(readonly := false, partition := Healthy, heals := g.heals + 1)
  }

  function CanVote(b: Ballot, candidate: Id): bool {
    b.votedFor == None || b.votedFor == Some(candidate)
  }

  function HandleVote(c: Settings, s: Node, candidate: Id, term: nat): (Node, Reply) {
    if term < s.ballot.term then (s, Reply(false, s.ballot.term))
    else
      var s1 := if term > s.ballot.term then StepDown(c, s, term) else s;
      if CanVote(s1.ballot, candidate)
      then (Persist(c, s1.(ballot := Ballot(term, Some(candidate)))), Reply(true, term))
      else (s1, Reply(false, term))
  }

  function HandleAppend(c: Settings, s: Node, leader: Id, term: nat): (Node, Reply) {
    if term < s.ballot.term then (s, Reply(false, s.ballot.term))
    else
      var s1 := if term > s.ballot.term then StepDown(c, s, term) else s;
      var g := if c.autoHeal && s1.guard.readonly then Heal(s1.guard) else s1.guard;
      (s1.(leaderId := Some(leader), role := Follower, guard := g), Reply(true, term))
  }

  function BeginElection(c: Settings, s: Node): Node {
    Persist(c, s.(ballot := Ballot(s.ballot.term + 1, Some(c.self)), role := Candidate)).(leaderId := None)
  }

  function BecomeLeader(c: Settings, s: Node): Node {
    s.(role := Leader, leaderId := Some(c.self))
  }

  function EnterReadonly(s: Node): Node {
    var s1 := s.(guard := s.guard.(readonly := true, partition := IsolatedMinority));
    if s.role == Leader then s1.(role := Follower, leaderId := None) else s1
  }

  function ExitReadonly(s: Node): Node {
    s.(guard := s.guard.(readonly := false, partition := Healthy))
  }

  /** The evaluation at the end of a heartbeat round. */
  function EvaluateQuorum(c: Settings, s: Node, active: set<Id>, now: real): Node {
    if s.role != Leader then s
    else
      var s1 := s.(guard := s.guard.(active := active));
      if |active| + 1 >= Needed(|c.peers|) then
        var g := s1.guard.(lastQuorum := now);
        s1.(guard := if g.readonly then Heal(g)
                     else g.(partition := if |active| == |c.peers| then Healthy else MajorityActive))
      else if now - s1.guard.lastQuorum >= c.quorumTimeout then
        EnterReadonly(s1.(guard := s1.guard.(splitBrains := s1.guard.splitBrains + 1)))
      else s1
  }

  function Loaded(c: Settings, disk: Ballot): Ballot { if c.durable then disk else FRESH_BALLOT }

  /** A process start: everything but the state file is lost. */
  function Restart(c: Settings, disk: Ballot, now: real): Node {
    Node(Loaded(c, disk), Follower, None, Guard(false, Healthy, {}, now, 0, 0), disk)
  }

  // ----- The loop of `_start_election`, one peer at a time -----

  /** Locals of one `_start_election` call: the captured term, the next peer, the votes so far. */
  datatype Round = Round(term: nat, next: nat, votes: nat)

  function OpenRound(s: Node): Round { Round(s.ballot.term, 0, 1) }

  /** One iteration. `None` is an unreachable peer. A reply with a term above the captured one
      steps the node down - whatever its term is by now - and ends the call. */
  function Absorb(c: Settings, s: Node, r: Round, reply: Option<Reply>): (Node, Option<Round>) {
    match reply
    case None => (s, Some(r.(next := r.next + 1)))
    case Some(a) =>
      if a.term > r.term then (StepDown(c, s, a.term), None)
      else (s, Some(r.(next := r.next + 1, votes := if a.granted then r.votes + 1 else r.votes)))
  }

  /** After the loop: the win acts on the current term, not on the captured one. */
  function Finish(c: Settings, s: Node, r: Round): Node {
    if r.votes >= Needed(|c.peers|) then BecomeLeader(c, s) else s
  }

  /** The rest of an election call whose replies arrive with nothing in between. */
  function RunRound(c: Settings, s: Node, r: Round, replies: seq<Option<Reply>>): Node
    decreases |replies|
  {
    if replies == [] then Finish(c, s, r)
    else
      var (s1, r1) := Absorb(c, s, r, replies[0]);
      if r1.None? then s1 else RunRound(c, s1, r1.value, replies[1..])
  }

  // ----- The loop of `_heartbeat_loop` -----

  datatype BeatResult = SteppedDown(node: Node) | Collected(active: set<Id>)

  function RunBeat(c: Settings, s: Node, term: nat, peers: seq<Id>, replies: seq<Option<Reply>>,
                   active: set<Id>): BeatResult
    requires |peers| == |replies|
    decreases |replies|
  {
    if replies == [] then Collected(active)
    else if replies[0].Some? && replies[0].value.term > term
    then SteppedDown(StepDown(c, s, replies[0].value.term))
    else RunBeat(c, s, term, peers[1..], replies[1..],
                 if replies[0].Some? && replies[0].value.granted then active + {peers[0]} else active)
  }
}
