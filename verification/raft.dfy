/**
 * One node's message handler (class `Raft` in lib/raft.rb) as a pure step
 * function. The inbox loop takes one message at a time and runs exactly one
 * handler to completion; `Step` is that loop body, returning the node's new
 * fields, the messages it sent, and whether the loop ended.
 */
module Raft {
  import opened Optional
  import opened Messages

  /** `@status`; the status predicates `leading?`, `following?` and `voting?`
      are the discriminators `Leading?`, `Following?` and `Voting?`. */
  datatype Status = Following | Voting | Electing | Leading

  /** One element of `@votes`: `{ voter:, candidate: }`. */
  datatype Vote = Vote(voter: NodeId, candidate: Payload)

  /** The fields a handler reads or writes. `votes` is `None` until the node
      first requests an election, as `@votes` is nil until then. */
  datatype NodeState = NodeState(
    id: NodeId,
    status: Status,
    leader: Option<NodeId>,
    votes: Option<seq<Vote>>,
    log: seq<Payload>,
    inboxLog: seq<Message>)

  /** Why a handler raised: `@votes << …` on a nil `@votes`, or one of the two
      explicit role checks. */
  datatype Fault = VotesUnset | NotLeader | AlreadyLeader

  /** Why the inbox loop ended: a `:stop` message, or an exception. */
  datatype Halt = Stopped | Raised(fault: Fault)

  datatype Effect = Effect(node: NodeState, outbox: seq<Envelope>, halt: Option<Halt>)

  /** A freshly constructed node: following, no leader, no votes, empty logs. */
  function Init(id: NodeId): (r: NodeState)
  {
    NodeState(id, Following, None, None, [], [])
  }

  /** The message types the inbox loop writes to `inbox_log`. */
  predicate Recorded(k: Kind)
  {
    !(k.Timeout? || k.Heartbeat? || k.Stop?)
  }

  /** The number of votes naming `id` as candidate. */
  function Approvals(votes: seq<Vote>, id: NodeId): (k: nat)
    ensures k <= |votes|
    ensures (forall i :: 0 <= i < |votes| ==> votes[i].candidate == NodeRef(id)) ==> k == |votes|
    ensures (forall i :: 0 <= i < |votes| ==> votes[i].candidate != NodeRef(id)) ==> k == 0
  {
    if votes == [] then 0
    else Approvals(votes[..|votes| - 1], id) + (if votes[|votes| - 1].candidate == NodeRef(id) then 1 else 0)
  }

  /** `log_state`: the one way an entry enters the log. */
  function AppendLog(s: NodeState, content: Payload): (r: NodeState)
    ensures |r.log| == |s.log| + 1
    ensures r.log[..|s.log|] == s.log && r.log[|s.log|] == content
    ensures r.(log := s.log) == s
  {
    s.(log := s.log + [content])
  }

  /** `propagate_state`: only a leader may send `:log_state` to its neighbours. */
  function PropagateState(s: NodeState, neighbours: seq<NodeId>, state: Payload): (r: Effect)
    ensures r.node == s
    ensures !s.status.Leading? <==> r.halt == Some(Raised(NotLeader))
    ensures !s.status.Leading? ==> r.outbox == []
    ensures s.status.Leading? ==> r.halt == None && r.outbox == Broadcast(s.id, neighbours, LogState, state)
  {
    if !s.status.Leading? then Effect(s, [], Some(Raised(NotLeader)))
    else Effect(s, Broadcast(s.id, neighbours, LogState, state), None)
  }

  /** `propose_state_to_leader`: forward once to the known leader, or drop. */
  function ProposeStateToLeader(s: NodeState, state: Payload): (r: Effect)
    ensures r.node == s && r.halt == None
    ensures s.leader.None? ==> r.outbox == []
    ensures s.leader.Some? ==> r.outbox == [Envelope(s.leader.value, Message(s.id, ProposeState, state))]
  {
    match s.leader
    case None => Effect(s, [], None)
    case Some(l) => Effect(s, [Envelope(l, Message(s.id, ProposeState, state))], None)
  }

  /** `handle_propose_state`. The raise in `propagate_state` cannot happen:
      it is only reached by a leader. */
  function HandleProposeState(s: NodeState, neighbours: seq<NodeId>, m: Message): (r: Effect)
    requires m.kind.ProposeState?
    ensures r.halt == None
    ensures s.status.Leading? ==>
      && r.node.log == s.log + [m.content]
      && r.node.(log := s.log) == s
      && r.outbox == Broadcast(s.id, neighbours, LogState, m.content)
    ensures !s.status.Leading? ==> r.node == s
    ensures !s.status.Leading? && s.leader.None? ==> r.outbox == []
    ensures !s.status.Leading? && s.leader.Some? ==>
      r.outbox == [Envelope(s.leader.value, Message(s.id, ProposeState, m.content))]
  {
    if s.status.Leading? then PropagateState(AppendLog(s, m.content), neighbours, m.content)
    else ProposeStateToLeader(s, m.content)
  }

  /** `request_leader_election`: a leader may not start an election; anyone
      else becomes `:electing`, empties its votes and asks every neighbour. */
  function RequestLeaderElection(s: NodeState, neighbours: seq<NodeId>): (r: Effect)
    ensures s.status.Leading? <==> r.halt == Some(Raised(AlreadyLeader))
    ensures s.status.Leading? ==> r.node == s && r.outbox == []
    ensures !s.status.Leading? ==>
      && r.halt == None
      && r.node.status == Electing
      && r.node.votes == Some([])
      && r.node.(status := s.status, votes := s.votes) == s
      && r.outbox == Broadcast(s.id, neighbours, LeaderElectionRequest, Nil)
  {
    if s.status.Leading? then Effect(s, [], Some(Raised(AlreadyLeader)))
    else Effect(s.(status := Electing, votes := Some([])), Broadcast(s.id, neighbours, LeaderElectionRequest, Nil), None)
  }

  /** `handle_timeout`. A leader or a voter ignores the timeout. Anyone else
      forgets its leader and starts an election; the `:voting` status set
      first is overwritten by `:electing`. The raise in
      `request_leader_election` cannot happen. */
  function HandleTimeout(s: NodeState, neighbours: seq<NodeId>): (r: Effect)
    ensures r.halt == None
    ensures s.status.Leading? || s.status.Voting? ==> r.node == s && r.outbox == []
    ensures !(s.status.Leading? || s.status.Voting?) ==>
      && r.node.status == Electing
      && r.node.leader == None
      && r.node.votes == Some([])
      && r.node.(status := s.status, leader := s.leader, votes := s.votes) == s
      && r.outbox == Broadcast(s.id, neighbours, LeaderElectionRequest, Nil)
  {
    if s.status.Leading? then Effect(s, [], None)
    else if s.status.Voting? then Effect(s, [], None)
    else RequestLeaderElection(s.(leader := None, status := Voting), neighbours)
  }

  /** `handle_leader_election_request`: become a voter and reply to the sender
      with one vote naming the sender as candidate. */
  function HandleElectionRequest(s: NodeState, m: Message): (r: Effect)
    requires m.kind.LeaderElectionRequest?
    ensures r.halt == None
    ensures r.node.status == Voting && r.node.(status := s.status) == s
    ensures r.outbox == [Envelope(m.sender, Message(s.id, LeaderElectionVote, NodeRef(m.sender)))]
  {
    Effect(s.(status := Voting), [Envelope(m.sender, Message(s.id, LeaderElectionVote, NodeRef(m.sender)))], None)
  }

  /** The quorum test of `handle_leader_election_vote`: approvals against half
      the neighbour count, rounded down as Ruby's integer `/` does. */
  predicate Quorum(approvals: nat, neighbourCount: nat)
  {
    approvals >= neighbourCount / 2
  }

  /** `handle_leader_election_vote`: record the vote; once there are as many
      votes as neighbours, become leader on a quorum of approvals and announce
      it, or else fall back to following and announce that there is no leader.
      With no vote list yet (`@votes` nil) the handler raises. */
  function HandleElectionVote(s: NodeState, neighbours: seq<NodeId>, m: Message): (r: Effect)
    requires m.kind.LeaderElectionVote?
    ensures s.votes.None? <==> r.halt.Some?
    ensures s.votes.None? ==> r.node == s && r.outbox == [] && r.halt == Some(Raised(VotesUnset))
    ensures s.votes.Some? ==>
      && r.node.votes == Some(s.votes.value + [Vote(m.sender, m.content)])
      && r.node.(status := s.status, votes := s.votes) == s
    ensures s.votes.Some? && |s.votes.value| + 1 != |neighbours| ==>
      r.node.status == s.status && r.outbox == []
    ensures s.votes.Some? && |s.votes.value| + 1 == |neighbours| ==>
      && (r.node.status.Leading? || r.node.status.Following?)
      && (r.node.status.Leading? <==> Quorum(Approvals(r.node.votes.value, s.id), |neighbours|))
      && r.outbox == Broadcast(s.id, neighbours, (if r.node.status.Leading? then SetLeader else NoLeader), Nil)
  {
    match s.votes
    case None => Effect(s, [], Some(Raised(VotesUnset)))
    case Some(old_votes) =>
      var votes := old_votes + [Vote(m.sender, m.content)];
      var s1 := s.(votes := Some(votes));
      if |votes| != |neighbours| then Effect(s1, [], None)
      else if Quorum(Approvals(votes, s.id), |neighbours|) then
        Effect(s1.(status := Leading), Broadcast(s.id, neighbours, SetLeader, Nil), None)
      else
        Effect(s1.(status := Following), Broadcast(s.id, neighbours, NoLeader, Nil), None)
  }

  /** `handle_set_leader`: follow the sender. */
  function HandleSetLeader(s: NodeState, m: Message): (r: Effect)
    requires m.kind.SetLeader?
    ensures r.halt == None && r.outbox == []
    ensures r.node.status == Following && r.node.leader == Some(m.sender)
    ensures r.node.(status := s.status, leader := s.leader) == s
  {
    Effect(s.(leader := Some(m.sender), status := Following), [], None)
  }

  /** `handle_no_leader`: follow nobody. */
  function HandleNoLeader(s: NodeState): (r: Effect)
    ensures r.halt == None && r.outbox == []
    ensures r.node.status == Following && r.node.leader == None
    ensures r.node.(status := s.status, leader := s.leader) == s
  {
    Effect(s.(leader := None, status := Following), [], None)
  }

  /** One iteration of the inbox loop in `start`: record the message unless it
      is a timeout, a heartbeat or a stop, then dispatch it to exactly one
      handler. */
  function Step(s: NodeState, neighbours: seq<NodeId>, m: Message): (r: Effect)
    ensures r.node.id == s.id
    ensures r.node.inboxLog == if Recorded(m.kind) then s.inboxLog + [m] else s.inboxLog
    ensures s.votes.Some? ==> r.node.votes.Some?
    ensures r.halt == Some(Stopped) <==> m.kind.Stop?
    ensures r.halt.Some? && !m.kind.Stop? ==>
      r.halt == Some(Raised(VotesUnset)) && m.kind.LeaderElectionVote? && s.votes.None?
    ensures m.kind.Heartbeat? || m.kind.Unknown? ==>
      r.node.(inboxLog := s.inboxLog) == s && r.outbox == [] && r.halt == None
  {
    var s1 := if Recorded(m.kind) then s.(inboxLog := s.inboxLog + [m]) else s;
    match m.kind
    case Heartbeat => Effect(s1, [], None)
    case ProposeState => HandleProposeState(s1, neighbours, m)
    case LogState => Effect(AppendLog(s1, m.content), [], None)
    case Timeout => HandleTimeout(s1, neighbours)
    case LeaderElectionRequest => HandleElectionRequest(s1, m)
    case LeaderElectionVote => HandleElectionVote(s1, neighbours, m)
    case SetLeader => HandleSetLeader(s1, m)
    case NoLeader => HandleNoLeader(s1)
    case Stop => Effect(s1, [], Some(Stopped))
    case Unknown(_) => Effect(s1, [], None)
  }

  /** The inbox loop of `start` with loop body `step`: take the messages in
      order, and stop taking them at the first one that ends the loop. */
  function RunLoop(step: (NodeState, Message) -> Effect, s: NodeState, ms: seq<Message>): (r: Effect)
    decreases |ms|
  {
    if ms == [] then Effect(s, [], None)
    else
      var e := step(s, ms[0]);
      if e.halt.Some? then e
      else
        var rest := RunLoop(step, e.node, ms[1..]);
        Effect(rest.node, e.outbox + rest.outbox, rest.halt)
  }

  /** The inbox loop of a node with the given neighbours: its body is `Step`. */
  function Loop(s: NodeState, neighbours: seq<NodeId>, ms: seq<Message>): (r: Effect)
  {
    RunLoop((t, m) => Step(t, neighbours, m), s, ms)
  }
}
