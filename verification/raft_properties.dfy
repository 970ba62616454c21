/**
 * Properties of a single node's step that relate the handlers to each other:
 * which messages may touch which field, the append-only log, and the
 * invariant linking `@status` and `@votes`.
 */
module RaftProperties {
  import opened Optional
  import opened Messages
  import opened Raft

  /** What a node sends: every message is signed by the node itself and is
      never a timeout, heartbeat or stop; an election request leaves the
      sender with a vote list; a vote only ever answers an election request,
      goes back to the requester, and leaves the voter's own votes alone. */
  lemma OutboxDiscipline(s: NodeState, neighbours: seq<NodeId>, m: Message)
    ensures forall e :: e in Step(s, neighbours, m).outbox ==> e.msg.sender == s.id && Recorded(e.msg.kind)
    ensures forall e :: e in Step(s, neighbours, m).outbox && e.msg.kind.LeaderElectionRequest? ==>
      Step(s, neighbours, m).node.votes.Some?
    ensures forall e :: e in Step(s, neighbours, m).outbox && e.msg.kind.LeaderElectionVote? ==>
      m.kind.LeaderElectionRequest? && e.to == m.sender && Step(s, neighbours, m).node.votes == s.votes
  {
    // One case per message type: not needed for the proof itself, but it
    // keeps the solver's effort the same across random seeds.
    match m.kind
    case Heartbeat =>
    case ProposeState =>
    case LogState =>
    case Timeout =>
    case LeaderElectionRequest =>
    case LeaderElectionVote =>
    case SetLeader =>
    case NoLeader =>
    case Stop =>
    case Unknown(_) =>
  }

  /** The log grows by exactly the message content at the end when a leader
      takes a proposal or anyone takes a `:log_state`, and is untouched by
      every other message. */
  lemma LogAppendOnly(s: NodeState, neighbours: seq<NodeId>, m: Message)
    ensures var r := Step(s, neighbours, m);
      (m.kind.LogState? || (m.kind.ProposeState? && s.status.Leading?)) ==> r.node.log == s.log + [m.content]
    ensures var r := Step(s, neighbours, m);
      !(m.kind.LogState? || (m.kind.ProposeState? && s.status.Leading?)) ==> r.node.log == s.log
  {
  }

  /** Which messages may change which field: the leader field only on a
      timeout, `:set_leader` or `:no_leader`; the votes only on a timeout or a
      vote; the status never on a heartbeat, a proposal, a `:log_state` or a
      stop; and only a vote can make a node leader. */
  lemma FieldsEachMessageTouches(s: NodeState, neighbours: seq<NodeId>, m: Message)
    ensures var r := Step(s, neighbours, m);
      r.node.leader != s.leader ==> m.kind.Timeout? || m.kind.SetLeader? || m.kind.NoLeader?
    ensures var r := Step(s, neighbours, m);
      r.node.votes != s.votes ==> m.kind.Timeout? || m.kind.LeaderElectionVote?
    ensures var r := Step(s, neighbours, m);
      r.node.status != s.status ==>
        m.kind.Timeout? || m.kind.LeaderElectionRequest? || m.kind.LeaderElectionVote? ||
        m.kind.SetLeader? || m.kind.NoLeader?
    ensures var r := Step(s, neighbours, m);
      r.node.status.Leading? && !s.status.Leading? ==> m.kind.LeaderElectionVote?
  {
  }

  /** A timeout at a leader or a voter changes nothing (not even the inbox
      log) and sends nothing. */
  lemma TimeoutIgnoredByLeaderAndVoter(s: NodeState, neighbours: seq<NodeId>, d: Payload)
    requires s.status.Leading? || s.status.Voting?
    ensures Step(s, neighbours, Message(s.id, Timeout, d)) == Effect(s, [], None)
  {
  }

  /** A non-leader given a proposal never touches its own log; with no known
      leader the proposal is lost without a message and without an error. */
  lemma ProposalAtNonLeaderNeverLogged(s: NodeState, neighbours: seq<NodeId>, m: Message)
    requires m.kind.ProposeState? && !s.status.Leading?
    ensures Step(s, neighbours, m).node.log == s.log
    ensures Step(s, neighbours, m).halt == None
    ensures s.leader.None? ==> Step(s, neighbours, m).outbox == []
  {
  }

  /** A node that is electing or leading has a vote list: both statuses are
      only entered through `request_leader_election` or a vote tally. */
  predicate Consistent(s: NodeState)
  {
    (s.status.Electing? || s.status.Leading?) ==> s.votes.Some?
  }

  /** A freshly constructed node is consistent and has no vote list. Any node
      without a vote list (fresh, or one that has since taken only messages
      other than a timeout) ends its loop exactly on a stop, and raises
      exactly on a vote. */
  lemma FreshNode(id: NodeId, s: NodeState, neighbours: seq<NodeId>, m: Message)
    requires s.votes.None?
    ensures Consistent(Init(id)) && Init(id).votes.None?
    ensures Step(s, neighbours, m).halt == Some(Stopped) <==> m.kind.Stop?
    ensures Step(s, neighbours, m).halt == Some(Raised(VotesUnset)) <==> m.kind.LeaderElectionVote?
  {
  }

  lemma StepPreservesConsistent(s: NodeState, neighbours: seq<NodeId>, m: Message)
    requires Consistent(s)
    ensures Consistent(Step(s, neighbours, m).node)
  {
  }

  /** A node with no neighbours never becomes leader: its vote count can never
      equal its neighbour count of zero once a vote is recorded, and no vote
      is ever tallied without one. */
  lemma LoneNodeNeverLeads(s: NodeState, m: Message)
    requires !s.status.Leading?
    ensures !Step(s, [], m).node.status.Leading?
  {
  }

  /** An election request makes the receiver a voter that answers the
      requester with a vote naming it; leader and log stay as they were. */
  lemma RequestMakesVoter(s: NodeState, neighbours: seq<NodeId>, k: NodeId)
    ensures var r := Step(s, neighbours, Message(k, LeaderElectionRequest, Nil));
      && r.halt == None
      && r.node.status.Voting?
      && r.node.leader == s.leader
      && r.node.log == s.log
      && r.outbox == [Envelope(k, Message(s.id, LeaderElectionVote, NodeRef(k)))]
  {
  }

  /** A `:set_leader` makes the receiver follow the sender, sending nothing
      and leaving the log as it was. */
  lemma SetLeaderMakesFollower(s: NodeState, neighbours: seq<NodeId>, k: NodeId)
    ensures var r := Step(s, neighbours, Message(k, SetLeader, Nil));
      && r.halt == None
      && r.node.status.Following?
      && r.node.leader == Some(k)
      && r.node.log == s.log
      && r.outbox == []
  {
  }

  /** A `:log_state` appends its content to the receiver's log and changes
      neither status nor leader, sending nothing. */
  lemma LogStateAppends(s: NodeState, neighbours: seq<NodeId>, k: NodeId, x: Payload)
    ensures var r := Step(s, neighbours, Message(k, LogState, x));
      && r.halt == None
      && r.node.log == s.log + [x]
      && r.node.status == s.status
      && r.node.leader == s.leader
      && r.outbox == []
  {
  }

  /** A vote naming the receiver, at a node whose recorded votes all name
      it: the vote is recorded; the vote that brings the count up to the
      neighbour count makes the node leader and announces it to every
      neighbour; earlier votes change nothing else and send nothing. */
  lemma VoteForSelf(s: NodeState, neighbours: seq<NodeId>, m: Message, w: seq<Vote>)
    requires m.kind.LeaderElectionVote? && m.content == NodeRef(s.id)
    requires s.votes == Some(w) && forall i :: 0 <= i < |w| ==> w[i].candidate == NodeRef(s.id)
    requires |w| < |neighbours|
    ensures var r := Step(s, neighbours, m);
      && r.halt == None
      && r.node.votes.Some?
      && |r.node.votes.value| == |w| + 1
      && (forall i :: 0 <= i < |r.node.votes.value| ==> r.node.votes.value[i].candidate == NodeRef(s.id))
      && r.node.leader == s.leader
      && r.node.log == s.log
      && r.node.id == s.id
    ensures var r := Step(s, neighbours, m);
      |w| + 1 < |neighbours| ==> r.node.status == s.status && r.outbox == []
    ensures var r := Step(s, neighbours, m);
      |w| + 1 == |neighbours| ==> r.node.status.Leading? && r.outbox == Broadcast(s.id, neighbours, SetLeader, Nil)
  {
    var votes := w + [Vote(m.sender, m.content)];
    assert forall i :: 0 <= i < |votes| ==> votes[i].candidate == NodeRef(s.id);
    assert Approvals(votes, s.id) == |votes|;
  }

  /** A loop body that keeps the node's identity and lets both logs grow
      only at their ends, the log by at most one entry. */
  predicate Appends(s: NodeState, r: NodeState)
  {
    && r.id == s.id
    && |s.log| <= |r.log| <= |s.log| + 1
    && r.log[..|s.log|] == s.log
    && |s.inboxLog| <= |r.inboxLog|
    && r.inboxLog[..|s.inboxLog|] == s.inboxLog
  }

  /** What a whole run keeps when every single step appends. */
  lemma {:induction false} RunOnlyAppends(step: (NodeState, Message) -> Effect, s: NodeState, ms: seq<Message>)
    requires forall t, m :: Appends(t, step(t, m).node)
    ensures var r := RunLoop(step, s, ms);
      && r.node.id == s.id
      && |s.log| <= |r.node.log| <= |s.log| + |ms|
      && r.node.log[..|s.log|] == s.log
      && |s.inboxLog| <= |r.node.inboxLog|
      && r.node.inboxLog[..|s.inboxLog|] == s.inboxLog
    decreases |ms|
  {
    if ms != [] {
      var e := step(s, ms[0]);
      assert Appends(s, e.node);
      if e.halt.None? {
        var rest := RunLoop(step, e.node, ms[1..]);
        RunOnlyAppends(step, e.node, ms[1..]);
        assert rest.node.log[..|s.log|] == rest.node.log[..|e.node.log|][..|s.log|];
        assert rest.node.inboxLog[..|s.inboxLog|] == rest.node.inboxLog[..|e.node.inboxLog|][..|s.inboxLog|];
      }
    }
  }

  /** Every message the inbox loop handles appends in this sense. */
  lemma StepAppends(s: NodeState, neighbours: seq<NodeId>, m: Message)
    ensures Appends(s, Step(s, neighbours, m).node)
  {
    LogAppendOnly(s, neighbours, m);
  }

  /** Across any run of the inbox loop the node keeps its identity, the log
      only grows at its end, by at most one entry per message taken, and the
      inbox log only grows at its end. */
  lemma LoopOnlyAppends(s: NodeState, neighbours: seq<NodeId>, ms: seq<Message>)
    ensures var r := Loop(s, neighbours, ms);
      && r.node.id == s.id
      && |s.log| <= |r.node.log| <= |s.log| + |ms|
      && r.node.log[..|s.log|] == s.log
      && |s.inboxLog| <= |r.node.inboxLog|
      && r.node.inboxLog[..|s.inboxLog|] == s.inboxLog
  {
    forall t, m ensures Appends(t, Step(t, neighbours, m).node) {
      StepAppends(t, neighbours, m);
    }
    RunOnlyAppends((t, m) => Step(t, neighbours, m), s, ms);
  }

  /** The messages of `ms` the inbox loop writes to `inbox_log`, in order. */
  function RecordedOf(ms: seq<Message>): (r: seq<Message>)
  {
    if ms == [] then []
    else (if Recorded(ms[0].kind) then [ms[0]] else []) + RecordedOf(ms[1..])
  }

  /** A run that takes every message records, when every step records its
      message exactly when it is `Recorded`, those messages in order. */
  lemma {:induction false} RunRecords(step: (NodeState, Message) -> Effect, s: NodeState, ms: seq<Message>)
    requires forall t, m :: step(t, m).node.inboxLog == t.inboxLog + (if Recorded(m.kind) then [m] else [])
    ensures RunLoop(step, s, ms).halt == None ==> RunLoop(step, s, ms).node.inboxLog == s.inboxLog + RecordedOf(ms)
    decreases |ms|
  {
    if ms != [] {
      var e := step(s, ms[0]);
      if e.halt.None? {
        RunRecords(step, e.node, ms[1..]);
        var rest := RunLoop(step, e.node, ms[1..]);
        assert RunLoop(step, s, ms).node == rest.node && RunLoop(step, s, ms).halt == rest.halt;
        var head := if Recorded(ms[0].kind) then [ms[0]] else [];
        assert e.node.inboxLog == s.inboxLog + head;
        assert RecordedOf(ms) == head + RecordedOf(ms[1..]);
        assert s.inboxLog + head + RecordedOf(ms[1..]) == s.inboxLog + (head + RecordedOf(ms[1..]));
      }
    }
  }

  /** A run of the inbox loop that takes every message records exactly those
      that are not timeouts, heartbeats or stops, in the order taken. */
  lemma LoopRecords(s: NodeState, neighbours: seq<NodeId>, ms: seq<Message>)
    ensures Loop(s, neighbours, ms).halt == None ==>
      Loop(s, neighbours, ms).node.inboxLog == s.inboxLog + RecordedOf(ms)
  {
    RunRecords((t, m) => Step(t, neighbours, m), s, ms);
  }

  /** Once the loop has ended, later messages are never taken. */
  lemma {:induction false} RunEndedThen(step: (NodeState, Message) -> Effect, s: NodeState, a: seq<Message>, b: seq<Message>)
    ensures RunLoop(step, s, a).halt.Some? ==> RunLoop(step, s, a + b) == RunLoop(step, s, a)
    decreases |a|
  {
    if a != [] {
      assert (a + b)[0] == a[0] && (a + b)[1..] == a[1..] + b;
      var e := step(s, a[0]);
      if e.halt.None? {
        RunEndedThen(step, e.node, a[1..], b);
      }
    }
  }

  /** Running the loop over `a + b`, when `a` does not end it, is running it
      over `a` and then over `b` from where it left off, sending both outboxes
      in order. */
  lemma {:induction false} RunRunningThen(step: (NodeState, Message) -> Effect, s: NodeState, a: seq<Message>, b: seq<Message>)
    ensures var ra := RunLoop(step, s, a);
      var rb := RunLoop(step, ra.node, b);
      ra.halt.None? ==> RunLoop(step, s, a + b) == Effect(rb.node, ra.outbox + rb.outbox, rb.halt)
    decreases |a|
  {
    if a == [] {
      assert a + b == b;
    } else {
      assert (a + b)[0] == a[0] && (a + b)[1..] == a[1..] + b;
      var e := step(s, a[0]);
      if e.halt.None? {
        RunRunningThen(step, e.node, a[1..], b);
        var ra' := RunLoop(step, e.node, a[1..]);
        if ra'.halt.None? {
          var rb := RunLoop(step, ra'.node, b);
          assert e.outbox + (ra'.outbox + rb.outbox) == (e.outbox + ra'.outbox) + rb.outbox;
        }
      }
    }
  }

  /** A `:stop` ends the inbox loop for good: whatever follows it is never taken. */
  lemma NothingAfterStop(s: NodeState, neighbours: seq<NodeId>, ms: seq<Message>, stop: Message, rest: seq<Message>)
    requires stop.kind.Stop?
    ensures Loop(s, neighbours, ms + [stop] + rest) == Loop(s, neighbours, ms + [stop])
    ensures Loop(s, neighbours, ms + [stop]).halt.Some?
  {
    var step := (t, m) => Step(t, neighbours, m);
    RunEndedThen(step, s, ms, [stop]);
    RunRunningThen(step, s, ms, [stop]);
    RunEndedThen(step, s, ms + [stop], rest);
  }
}
