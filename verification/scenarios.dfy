/**
 * What the cluster tests observe, for a cluster built by `generate_cluster`
 * and synchronous round-by-round delivery: one timeout elects exactly one
 * leader, and a proposal given to the leader, or to a follower that knows
 * the leader, ends up at the end of every node's log.
 */
module Scenarios {
  import opened Optional
  import opened Messages
  import opened Raft
  import opened Cluster
  import Helpers
  import RaftProperties

  /** Every node other than `k` still runs its inbox loop. */
  predicate OthersLive(c: Config, k: NodeId)
  {
    forall j :: 0 <= j < |c.nodes| && j != k ==> j !in c.halted
  }

  /** In a complete cluster a broadcast from `k` addresses every other node
      exactly once and never `k` itself. */
  lemma BroadcastShape(c: Config, k: NodeId, m: Message)
    requires Wf(c) && Complete(c) && k < |c.nodes|
    ensures InRange(c, Broadcast(k, c.neighbours[k], m.kind, m.content))
    ensures DistinctRecipients(Broadcast(k, c.neighbours[k], m.kind, m.content))
    ensures !Addressed(Broadcast(k, c.neighbours[k], m.kind, m.content), k)
    ensures forall j :: 0 <= j < |c.nodes| && j != k ==> Addressed(Broadcast(k, c.neighbours[k], m.kind, m.content), j)
  {
    var o := Helpers.Others(|c.nodes|, k);
    var b := Broadcast(k, o, m.kind, m.content);
    BroadcastReaches(k, o, m.kind, m.content);
    assert Distinct(o);
    forall p | 0 <= p < |b|
      ensures b[p].to < |c.nodes|
    {
      assert Addressed(b, b[p].to);
    }
  }

  /** A broadcast of anything but a stop or a vote, to nodes other than `k`,
      halts none of them. */
  lemma BroadcastQuiet(c: Config, k: NodeId, m: Message)
    requires Wf(c) && Complete(c) && k < |c.nodes| && OthersLive(c, k)
    requires !m.kind.Stop? && !m.kind.LeaderElectionVote?
    ensures var b := Broadcast(k, c.neighbours[k], m.kind, m.content);
      forall p :: 0 <= p < |b| ==> b[p].to < |c.nodes| && b[p].to !in c.halted && StepAt(c, b[p]).halt.None?
  {
    var b := Broadcast(k, c.neighbours[k], m.kind, m.content);
    BroadcastShape(c, k, m);
    forall p | 0 <= p < |b|
      ensures b[p].to !in c.halted && StepAt(c, b[p]).halt.None?
    {
      assert b[p].to != k;
    }
  }

  /** Delivering a broadcast from `k` halts no one, leaves `k` alone, and
      sends what the recipients would send from their states before the round. */
  lemma BroadcastRoundFrame(c: Config, k: NodeId, m: Message)
    requires Wf(c) && Complete(c) && k < |c.nodes| && OthersLive(c, k)
    requires !m.kind.Stop? && !m.kind.LeaderElectionVote?
    ensures var b := Broadcast(k, c.neighbours[k], m.kind, m.content);
      && InRange(c, b)
      && DeliverAll(c, b).config.halted == c.halted
      && DeliverAll(c, b).config.nodes[k] == c.nodes[k]
      && DeliverAll(c, b).sent == Outboxes(c, b)
  {
    BroadcastShape(c, k, m);
    BroadcastQuiet(c, k, m);
    DeliverDistinct(c, Broadcast(k, c.neighbours[k], m.kind, m.content));
  }

  /** Delivering a broadcast from `k` lets every other node step once on it. */
  lemma BroadcastRoundOthers(c: Config, k: NodeId, m: Message)
    requires Wf(c) && Complete(c) && k < |c.nodes| && OthersLive(c, k) && m.sender == k
    requires !m.kind.Stop? && !m.kind.LeaderElectionVote?
    ensures forall j :: 0 <= j < |c.nodes| && j != k ==>
      DeliverAll(c, Broadcast(k, c.neighbours[k], m.kind, m.content)).config.nodes[j] == Step(c.nodes[j], c.neighbours[j], m).node
  {
    var b := Broadcast(k, c.neighbours[k], m.kind, m.content);
    BroadcastShape(c, k, m);
    BroadcastQuiet(c, k, m);
    DeliverDistinct(c, b);
    forall j | 0 <= j < |c.nodes| && j != k
      ensures DeliverAll(c, b).config.nodes[j] == Step(c.nodes[j], c.neighbours[j], m).node
    {
      assert Addressed(b, j);
      var p :| 0 <= p < |b| && b[p].to == j;
      assert b[p].msg == m;
    }
  }

  /** A broadcast from `k` in a complete cluster reaches every other node once,
      each stepping from its state before the round; `k` itself is untouched. */
  lemma BroadcastRound(c: Config, k: NodeId, kind: Kind, content: Payload)
    requires Wf(c) && Complete(c) && k < |c.nodes| && OthersLive(c, k)
    requires !kind.Stop? && !kind.LeaderElectionVote?
    ensures var b := Broadcast(k, c.neighbours[k], kind, content);
      && InRange(c, b)
      && DeliverAll(c, b).config.halted == c.halted
      && DeliverAll(c, b).config.nodes[k] == c.nodes[k]
      && (forall j :: 0 <= j < |c.nodes| && j != k ==>
            DeliverAll(c, b).config.nodes[j] == Step(c.nodes[j], c.neighbours[j], Message(k, kind, content)).node)
      && DeliverAll(c, b).sent == Outboxes(c, b)
  {
    var m := Message(k, kind, content);
    BroadcastRoundFrame(c, k, m);
    BroadcastRoundOthers(c, k, m);
  }

  /** Round two of an election: what the other nodes send back to `k`. */
  lemma RequestRoundReplies(c: Config, k: NodeId)
    requires Wf(c) && Complete(c) && k < |c.nodes|
    ensures var b := Broadcast(k, c.neighbours[k], LeaderElectionRequest, Nil);
      && InRange(c, b)
      && |Outboxes(c, b)| == |c.nodes| - 1
      && (forall p :: 0 <= p < |Outboxes(c, b)| ==>
            && Outboxes(c, b)[p].to == k
            && Outboxes(c, b)[p].msg.sender == c.neighbours[k][p]
            && Outboxes(c, b)[p].msg.kind.LeaderElectionVote?
            && Outboxes(c, b)[p].msg.content == NodeRef(k))
  {
    var b := Broadcast(k, c.neighbours[k], LeaderElectionRequest, Nil);
    var m := Message(k, LeaderElectionRequest, Nil);
    assert forall p :: 0 <= p < |b| ==> b[p].to in c.neighbours[k];
    assert InRange(c, b);
    forall p | 0 <= p < |b|
      ensures StepAt(c, b[p]).outbox == [Envelope(k, Message(b[p].to, LeaderElectionVote, NodeRef(k)))]
    {
      assert b[p].msg == m;
      RaftProperties.RequestMakesVoter(c.nodes[b[p].to], c.neighbours[b[p].to], k);
    }
    OutboxesOfSingles(c, b);
  }

  /** Round two of an election: every other node becomes a voter. */
  lemma RequestRoundVoters(c: Config, k: NodeId)
    requires Wf(c) && Complete(c) && k < |c.nodes| && OthersLive(c, k)
    ensures var d := DeliverAll(c, Broadcast(k, c.neighbours[k], LeaderElectionRequest, Nil));
      && d.config.halted == c.halted
      && d.config.nodes[k] == c.nodes[k]
      && (forall j :: 0 <= j < |c.nodes| && j != k ==>
            && d.config.nodes[j].status.Voting?
            && d.config.nodes[j].leader == c.nodes[j].leader
            && d.config.nodes[j].log == c.nodes[j].log)
  {
    BroadcastRound(c, k, LeaderElectionRequest, Nil);
    forall j | 0 <= j < |c.nodes| && j != k {
      RaftProperties.RequestMakesVoter(c.nodes[j], c.neighbours[j], k);
    }
  }

  /** Round two of an election: every other node becomes a voter and answers
      `k` with one vote naming `k`, the votes coming in neighbour order. */
  lemma RequestRound(c: Config, k: NodeId)
    requires Wf(c) && Complete(c) && k < |c.nodes| && OthersLive(c, k)
    ensures var d := DeliverAll(c, Broadcast(k, c.neighbours[k], LeaderElectionRequest, Nil));
      && d.config.halted == c.halted
      && d.config.nodes[k] == c.nodes[k]
      && (forall j :: 0 <= j < |c.nodes| && j != k ==>
            && d.config.nodes[j].status.Voting?
            && d.config.nodes[j].leader == c.nodes[j].leader
            && d.config.nodes[j].log == c.nodes[j].log)
      && |d.sent| == |c.nodes| - 1
      && (forall p :: 0 <= p < |d.sent| ==>
            && d.sent[p].to == k
            && d.sent[p].msg.sender == c.neighbours[k][p]
            && d.sent[p].msg.kind.LeaderElectionVote?
            && d.sent[p].msg.content == NodeRef(k))
  {
    RequestRoundVoters(c, k);
    BroadcastRound(c, k, LeaderElectionRequest, Nil);
    RequestRoundReplies(c, k);
  }

  /** Round three of an election: `k` collects votes that all name it. Until
      it holds one per neighbour nothing happens; the last vote makes it
      leader and it announces `:set_leader` to every neighbour. */
  lemma {:induction false} VotesRound(c: Config, k: NodeId, envs: seq<Envelope>, w: seq<Vote>)
    requires Wf(c) && Live(c, k)
    requires c.nodes[k].votes == Some(w)
    requires forall i :: 0 <= i < |w| ==> w[i].candidate == NodeRef(k)
    requires forall p :: 0 <= p < |envs| ==>
      envs[p].to == k && envs[p].msg.kind.LeaderElectionVote? && envs[p].msg.content == NodeRef(k)
    requires |w| + |envs| <= |c.neighbours[k]|
    ensures var d := DeliverAll(c, envs);
      && d.config.halted == c.halted
      && d.config.nodes[k].votes.Some?
      && |d.config.nodes[k].votes.value| == |w| + |envs|
      && (forall i :: 0 <= i < |d.config.nodes[k].votes.value| ==> d.config.nodes[k].votes.value[i].candidate == NodeRef(k))
      && d.config.nodes[k].leader == c.nodes[k].leader
      && d.config.nodes[k].log == c.nodes[k].log
    ensures var d := DeliverAll(c, envs);
      (envs == [] || |w| + |envs| < |c.neighbours[k]|) ==>
        d.config.nodes[k].status == c.nodes[k].status && d.sent == []
    ensures var d := DeliverAll(c, envs);
      (envs != [] && |w| + |envs| == |c.neighbours[k]|) ==>
        d.config.nodes[k].status.Leading? && d.sent == Broadcast(k, c.neighbours[k], SetLeader, Nil)
    decreases |envs|
  {
    if envs != [] {
      var pre := envs[..|envs| - 1];
      var e := envs[|envs| - 1];
      assert forall p :: 0 <= p < |pre| ==> pre[p] == envs[p];
      VotesRound(c, k, pre, w);
      var d0 := DeliverAll(c, pre);
      var s := d0.config.nodes[k];
      RaftProperties.VoteForSelf(s, c.neighbours[k], e.msg, s.votes.value);
      assert Live(d0.config, k);
      assert DeliverAll(c, envs) == Delivery(Deliver(d0.config, e).config, d0.sent + Deliver(d0.config, e).sent);
    }
  }

  /** Round four of an election: every other node follows `k`. */
  lemma SetLeaderRound(c: Config, k: NodeId)
    requires Wf(c) && Complete(c) && k < |c.nodes| && OthersLive(c, k)
    ensures var d := DeliverAll(c, Broadcast(k, c.neighbours[k], SetLeader, Nil));
      && d.config.halted == c.halted
      && d.config.nodes[k] == c.nodes[k]
      && (forall j :: 0 <= j < |c.nodes| && j != k ==>
            && d.config.nodes[j].status.Following?
            && d.config.nodes[j].leader == Some(k)
            && d.config.nodes[j].log == c.nodes[j].log)
      && d.sent == []
  {
    var b := Broadcast(k, c.neighbours[k], SetLeader, Nil);
    BroadcastRound(c, k, SetLeader, Nil);
    forall p | 0 <= p < |b|
      ensures StepAt(c, b[p]).outbox == []
    {
      assert b[p].msg == Message(k, SetLeader, Nil);
      RaftProperties.SetLeaderMakesFollower(c.nodes[b[p].to], c.neighbours[b[p].to], k);
    }
    OutboxesOfSilent(c, b);
    forall j | 0 <= j < |c.nodes| && j != k {
      RaftProperties.SetLeaderMakesFollower(c.nodes[j], c.neighbours[j], k);
    }
  }

  /** Replication: every other node appends the leader's state to its log. */
  lemma LogStateRound(c: Config, k: NodeId, x: Payload)
    requires Wf(c) && Complete(c) && k < |c.nodes| && OthersLive(c, k)
    ensures var d := DeliverAll(c, Broadcast(k, c.neighbours[k], LogState, x));
      && d.config.halted == c.halted
      && d.config.nodes[k] == c.nodes[k]
      && (forall j :: 0 <= j < |c.nodes| && j != k ==>
            && d.config.nodes[j].log == c.nodes[j].log + [x]
            && d.config.nodes[j].status == c.nodes[j].status
            && d.config.nodes[j].leader == c.nodes[j].leader)
      && d.sent == []
  {
    var b := Broadcast(k, c.neighbours[k], LogState, x);
    BroadcastRound(c, k, LogState, x);
    forall p | 0 <= p < |b|
      ensures StepAt(c, b[p]).outbox == []
    {
      assert b[p].msg == Message(k, LogState, x);
      RaftProperties.LogStateAppends(c.nodes[b[p].to], c.neighbours[b[p].to], k, x);
    }
    OutboxesOfSilent(c, b);
    forall j | 0 <= j < |c.nodes| && j != k {
      RaftProperties.LogStateAppends(c.nodes[j], c.neighbours[j], k, x);
    }
  }

  /** Round one of an election: `k` times out, starts electing with an empty
      vote list and asks every neighbour for a vote. */
  lemma TimeoutRound(c: Config, k: NodeId)
    requires Wf(c) && Complete(c) && k < |c.nodes| && k !in c.halted
    requires !c.nodes[k].status.Leading? && !c.nodes[k].status.Voting?
    ensures var d := DeliverAll(c, [Envelope(k, Message(k, Timeout, Nil))]);
      && Complete(d.config)
      && d.config.halted == c.halted
      && d.config.nodes[k].status.Electing?
      && d.config.nodes[k].votes == Some([])
      && d.config.nodes[k].log == c.nodes[k].log
      && (forall j :: 0 <= j < |c.nodes| && j != k ==> d.config.nodes[j] == c.nodes[j])
      && d.sent == Broadcast(k, c.neighbours[k], LeaderElectionRequest, Nil)
  {
    DeliverAllOne(c, Envelope(k, Message(k, Timeout, Nil)));
  }

  /** The outcome the election test expects: `k` is the only leader, every
      other node follows `k`, no log has changed, and nothing is left to
      deliver. */
  predicate Elected(c: Config, k: NodeId, d: Delivery)
    requires |d.config.nodes| == |c.nodes|
  {
    && d.sent == []
    && d.config.halted == c.halted
    && (forall j :: 0 <= j < |c.nodes| ==> (d.config.nodes[j].status.Leading? <==> j == k))
    && (forall j :: 0 <= j < |c.nodes| && j != k ==>
          d.config.nodes[j].status.Following? && d.config.nodes[j].leader == Some(k))
    && (forall j :: 0 <= j < |c.nodes| ==> d.config.nodes[j].log == c.nodes[j].log)
  }

  /** Leader election in a generated cluster of at least two nodes: when node
      `k`, neither leading nor voting, times out and the requests, the votes
      and the announcements are delivered, `k` is the one and only leader,
      everyone else follows `k`, no log has changed and nothing is left to
      deliver. */
  lemma ElectionElectsSingleLeader(c: Config, k: NodeId)
    requires Wf(c) && Complete(c) && 2 <= |c.nodes| && k < |c.nodes| && c.halted == {}
    requires !c.nodes[k].status.Leading? && !c.nodes[k].status.Voting?
    ensures Elected(c, k, Rounds(c, [Envelope(k, Message(k, Timeout, Nil))], 4))
  {
    var t := Envelope(k, Message(k, Timeout, Nil));
    var d1 := DeliverAll(c, [t]);
    var d2 := DeliverAll(d1.config, d1.sent);
    var d3 := DeliverAll(d2.config, d2.sent);
    var d4 := DeliverAll(d3.config, d3.sent);
    assert Elected(c, k, d4) by {
      TimeoutRound(c, k);
      RequestRound(d1.config, k);
      VotesRound(d2.config, k, d2.sent, []);
      DeliverAllToOne(d2.config, k, d2.sent);
      SetLeaderRound(d3.config, k);
      forall j | 0 <= j < |c.nodes|
        ensures d4.config.nodes[j].status.Leading? <==> j == k
        ensures j != k ==> d4.config.nodes[j].status.Following? && d4.config.nodes[j].leader == Some(k)
        ensures d4.config.nodes[j].log == c.nodes[j].log
      {
        if j != k {
          assert d3.config.nodes[j] == d2.config.nodes[j];
          assert d1.config.nodes[j] == c.nodes[j];
        }
      }
    }
    assert Rounds(c, [t], 4) == d4 by {
      RoundsUnfold(c, [t], 4);
      RoundsUnfold(d1.config, d1.sent, 3);
      RoundsUnfold(d2.config, d2.sent, 2);
      RoundsUnfold(d3.config, d3.sent, 1);
    }
  }

  /** The outcome the replication test expects: every node's log has grown by
      `x` at the end, no status or leader has changed, and nothing is left to
      deliver. */
  predicate Replicated(c: Config, x: Payload, d: Delivery)
    requires |d.config.nodes| == |c.nodes|
  {
    && d.sent == []
    && d.config.halted == c.halted
    && (forall j :: 0 <= j < |c.nodes| ==> d.config.nodes[j].log == c.nodes[j].log + [x])
    && (forall j :: 0 <= j < |c.nodes| ==>
          d.config.nodes[j].status == c.nodes[j].status && d.config.nodes[j].leader == c.nodes[j].leader)
  }

  /** A leader given a proposal logs it and sends `:log_state` to every neighbour. */
  lemma LeaderProposeRound(c: Config, l: NodeId, from: NodeId, x: Payload)
    requires Wf(c) && Complete(c) && l < |c.nodes| && l !in c.halted && c.nodes[l].status.Leading?
    ensures var d := DeliverAll(c, [Envelope(l, Message(from, ProposeState, x))]);
      && Complete(d.config)
      && d.config.halted == c.halted
      && d.config.nodes[l].log == c.nodes[l].log + [x]
      && d.config.nodes[l].status == c.nodes[l].status
      && d.config.nodes[l].leader == c.nodes[l].leader
      && d.config.nodes[l].inboxLog == c.nodes[l].inboxLog + [Message(from, ProposeState, x)]
      && (forall j :: 0 <= j < |c.nodes| && j != l ==> d.config.nodes[j] == c.nodes[j])
      && d.sent == Broadcast(l, c.neighbours[l], LogState, x)
  {
    DeliverAllOne(c, Envelope(l, Message(from, ProposeState, x)));
  }

  /** A follower that knows its leader forwards a proposal to it, once, and
      keeps its own log as it was. */
  lemma FollowerForwardRound(c: Config, f: NodeId, l: NodeId, from: NodeId, x: Payload)
    requires Wf(c) && Complete(c) && f < |c.nodes| && f !in c.halted
    requires !c.nodes[f].status.Leading? && c.nodes[f].leader == Some(l)
    ensures var d := DeliverAll(c, [Envelope(f, Message(from, ProposeState, x))]);
      && Complete(d.config)
      && d.config.halted == c.halted
      && d.config.nodes[f].log == c.nodes[f].log
      && d.config.nodes[f].status == c.nodes[f].status
      && d.config.nodes[f].leader == c.nodes[f].leader
      && (forall j :: 0 <= j < |c.nodes| && j != f ==> d.config.nodes[j] == c.nodes[j])
      && d.sent == [Envelope(l, Message(f, ProposeState, x))]
  {
    DeliverAllOne(c, Envelope(f, Message(from, ProposeState, x)));
  }

  /** Replication from the leader: a proposal given to the leader of a
      generated cluster, followed by delivery of its `:log_state` messages,
      extends every node's log by that same state. */
  lemma ProposalReachesEveryLog(c: Config, l: NodeId, from: NodeId, x: Payload)
    requires Wf(c) && Complete(c) && l < |c.nodes| && c.halted == {} && c.nodes[l].status.Leading?
    ensures Replicated(c, x, Rounds(c, [Envelope(l, Message(from, ProposeState, x))], 2))
  {
    var e := Envelope(l, Message(from, ProposeState, x));
    var d1 := DeliverAll(c, [e]);
    var d2 := DeliverAll(d1.config, d1.sent);
    assert Replicated(c, x, d2) by {
      LeaderProposeRound(c, l, from, x);
      LogStateRound(d1.config, l, x);
      forall j | 0 <= j < |c.nodes|
        ensures d2.config.nodes[j].log == c.nodes[j].log + [x]
        ensures d2.config.nodes[j].status == c.nodes[j].status
        ensures d2.config.nodes[j].leader == c.nodes[j].leader
      {
        if j != l {
          assert d1.config.nodes[j] == c.nodes[j];
        }
      }
    }
    assert Rounds(c, [e], 2) == d2 by {
      RoundsUnfold(c, [e], 2);
      RoundsUnfold(d1.config, d1.sent, 1);
    }
  }

  /** Replication through a follower: a proposal given to a follower that
      knows the leader is forwarded to the leader, which records the
      forwarded message in its inbox log, and then reaches every node's log
      exactly as a proposal given to the leader would. */
  lemma ForwardedProposalReachesEveryLog(c: Config, f: NodeId, l: NodeId, from: NodeId, x: Payload)
    requires Wf(c) && Complete(c) && f < |c.nodes| && l < |c.nodes| && f != l && c.halted == {}
    requires c.nodes[l].status.Leading? && !c.nodes[f].status.Leading? && c.nodes[f].leader == Some(l)
    ensures Replicated(c, x, Rounds(c, [Envelope(f, Message(from, ProposeState, x))], 3))
    ensures Message(f, ProposeState, x) in Rounds(c, [Envelope(f, Message(from, ProposeState, x))], 3).config.nodes[l].inboxLog
  {
    var e := Envelope(f, Message(from, ProposeState, x));
    var d1 := DeliverAll(c, [e]);
    var d2 := DeliverAll(d1.config, d1.sent);
    var d3 := DeliverAll(d2.config, d2.sent);
    assert Replicated(c, x, d3) && Message(f, ProposeState, x) in d3.config.nodes[l].inboxLog by {
      FollowerForwardRound(c, f, l, from, x);
      assert d1.sent == [Envelope(l, Message(f, ProposeState, x))];
      LeaderProposeRound(d1.config, l, f, x);
      LogStateRound(d2.config, l, x);
      forall j | 0 <= j < |c.nodes|
        ensures d3.config.nodes[j].log == c.nodes[j].log + [x]
        ensures d3.config.nodes[j].status == c.nodes[j].status
        ensures d3.config.nodes[j].leader == c.nodes[j].leader
      {
        if j != l {
          assert d2.config.nodes[j] == d1.config.nodes[j];
          if j != f {
            assert d1.config.nodes[j] == c.nodes[j];
          }
        }
      }
    }
    assert Rounds(c, [e], 3) == d3 by {
      RoundsUnfold(c, [e], 3);
      RoundsUnfold(d1.config, d1.sent, 2);
      RoundsUnfold(d2.config, d2.sent, 1);
    }
  }
}
