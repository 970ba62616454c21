/**
 * A run of a three-node generated cluster in which two nodes time out before
 * any vote arrives. Every node answers every election request with a vote
 * for the requester, so both requesters collect one vote per neighbour and
 * both become leader at the same time.
 */
module SplitVote {
  import opened Optional
  import opened Messages
  import opened Raft
  import opened Cluster
  import opened Network
  import Helpers

  /** The election request `k` sends. */
  function Request(k: NodeId): (m: Message) { Message(k, LeaderElectionRequest, Nil) }
  /** The vote `from` sends for candidate `k`. */
  function VoteFor(from: NodeId, k: NodeId): (m: Message) { Message(from, LeaderElectionVote, NodeRef(k)) }
  /** The `:set_leader` announcement of `k`. */
  function SetLeaderFrom(k: NodeId): (m: Message) { Message(k, SetLeader, Nil) }

  /** The statuses and vote lists of the three nodes, and the in-flight messages. */
  datatype Snapshot = Snapshot(st: seq<Status>, vs: seq<Option<seq<Vote>>>, fl: seq<Envelope>)

  /** A running three-node generated cluster that looks like `s`. */
  predicate Shape(n: Net, s: Snapshot)
  {
    && Wf(n.config) && Complete(n.config) && |n.config.nodes| == 3 && n.config.halted == {}
    && |s.st| == 3 && |s.vs| == 3
    && (forall i :: 0 <= i < 3 ==> n.config.nodes[i].status == s.st[i] && n.config.nodes[i].votes == s.vs[i])
    && n.inFlight == s.fl
  }

  lemma NeighboursOfThree(c: Config)
    requires Complete(c) && |c.nodes| == 3
    ensures c.neighbours[0] == [1, 2] && c.neighbours[1] == [0, 2] && c.neighbours[2] == [0, 1]
  {
    assert Helpers.Others(3, 0) == [1, 2];
    assert Helpers.Others(3, 1) == [0, 2];
    assert Helpers.Others(3, 2) == [0, 1];
  }

  /** The actions of the run: nodes 0 and 1 time out; node 2 answers
      both; each of nodes 0 and 1 answers the other; each then collects its
      two votes. */
  function SplitActions(): (a: seq<Action>)
  {
    [TimeOut(0), TimeOut(1), Receive(1), Receive(2), Receive(0), Receive(0), Receive(0), Receive(1), Receive(0), Receive(0)]
  }

  /** The cluster before action `k` of the run (after all ten when `k` is 10). */
  function Expected(k: nat): (s: Snapshot)
    requires k <= 10
  {
    var none := Some([]);
    var two0 := Some([Vote(2, NodeRef(0)), Vote(1, NodeRef(0))]);
    match k
    case 0 => Snapshot([Following, Following, Following], [None, None, None], [])
    case 1 => Snapshot([Electing, Following, Following], [none, None, None],
                [Envelope(1, Request(0)), Envelope(2, Request(0))])
    case 2 => Snapshot([Electing, Electing, Following], [none, none, None],
                [Envelope(1, Request(0)), Envelope(2, Request(0)), Envelope(0, Request(1)), Envelope(2, Request(1))])
    case 3 => Snapshot([Electing, Electing, Voting], [none, none, None],
                [Envelope(1, Request(0)), Envelope(0, Request(1)), Envelope(2, Request(1)), Envelope(0, VoteFor(2, 0))])
    case 4 => Snapshot([Electing, Electing, Voting], [none, none, None],
                [Envelope(1, Request(0)), Envelope(0, Request(1)), Envelope(0, VoteFor(2, 0)), Envelope(1, VoteFor(2, 1))])
    case 5 => Snapshot([Electing, Voting, Voting], [none, none, None],
                [Envelope(0, Request(1)), Envelope(0, VoteFor(2, 0)), Envelope(1, VoteFor(2, 1)), Envelope(0, VoteFor(1, 0))])
    case 6 => Snapshot([Voting, Voting, Voting], [none, none, None],
                [Envelope(0, VoteFor(2, 0)), Envelope(1, VoteFor(2, 1)), Envelope(0, VoteFor(1, 0)), Envelope(1, VoteFor(0, 1))])
    case 7 => Snapshot([Voting, Voting, Voting], [Some([Vote(2, NodeRef(0))]), none, None],
                [Envelope(1, VoteFor(2, 1)), Envelope(0, VoteFor(1, 0)), Envelope(1, VoteFor(0, 1))])
    case 8 => Snapshot([Leading, Voting, Voting], [two0, none, None],
                [Envelope(1, VoteFor(2, 1)), Envelope(1, VoteFor(0, 1)), Envelope(1, SetLeaderFrom(0)), Envelope(2, SetLeaderFrom(0))])
    case 9 => Snapshot([Leading, Voting, Voting], [two0, Some([Vote(2, NodeRef(1))]), None],
                [Envelope(1, VoteFor(0, 1)), Envelope(1, SetLeaderFrom(0)), Envelope(2, SetLeaderFrom(0))])
    case _ => Snapshot([Leading, Leading, Voting], [two0, Some([Vote(2, NodeRef(1)), Vote(0, NodeRef(1))]), None],
                [Envelope(1, SetLeaderFrom(0)), Envelope(2, SetLeaderFrom(0)), Envelope(0, SetLeaderFrom(1)), Envelope(2, SetLeaderFrom(1))])
  }

  lemma Booted()
    ensures Shape(Start(3), Expected(0))
  {
  }

  lemma Take0(n: Net)
    requires Shape(n, Expected(0))
    ensures Enabled(n, TimeOut(0)) && Shape(Apply(n, TimeOut(0)), Expected(1))
  {
    NeighboursOfThree(n.config);
  }

  lemma Take1(n: Net)
    requires Shape(n, Expected(1))
    ensures Enabled(n, TimeOut(1)) && Shape(Apply(n, TimeOut(1)), Expected(2))
  {
    NeighboursOfThree(n.config);
  }

  lemma Take2(n: Net)
    requires Shape(n, Expected(2))
    ensures Enabled(n, Receive(1)) && Shape(Apply(n, Receive(1)), Expected(3))
  {
    NeighboursOfThree(n.config);
  }

  lemma Take3(n: Net)
    requires Shape(n, Expected(3))
    ensures Enabled(n, Receive(2)) && Shape(Apply(n, Receive(2)), Expected(4))
  {
    NeighboursOfThree(n.config);
  }

  lemma Take4(n: Net)
    requires Shape(n, Expected(4))
    ensures Enabled(n, Receive(0)) && Shape(Apply(n, Receive(0)), Expected(5))
  {
    NeighboursOfThree(n.config);
  }

  lemma Take5(n: Net)
    requires Shape(n, Expected(5))
    ensures Enabled(n, Receive(0)) && Shape(Apply(n, Receive(0)), Expected(6))
  {
    NeighboursOfThree(n.config);
  }

  lemma Take6(n: Net)
    requires Shape(n, Expected(6))
    ensures Enabled(n, Receive(0)) && Shape(Apply(n, Receive(0)), Expected(7))
  {
    NeighboursOfThree(n.config);
    assert [] + [Vote(2, NodeRef(0))] == [Vote(2, NodeRef(0))];
  }

  lemma Take7(n: Net)
    requires Shape(n, Expected(7))
    ensures Enabled(n, Receive(1)) && Shape(Apply(n, Receive(1)), Expected(8))
  {
    NeighboursOfThree(n.config);
    assert [Vote(2, NodeRef(0))] + [Vote(1, NodeRef(0))] == [Vote(2, NodeRef(0)), Vote(1, NodeRef(0))];
  }

  lemma Take8(n: Net)
    requires Shape(n, Expected(8))
    ensures Enabled(n, Receive(0)) && Shape(Apply(n, Receive(0)), Expected(9))
  {
    NeighboursOfThree(n.config);
    assert [] + [Vote(2, NodeRef(1))] == [Vote(2, NodeRef(1))];
    assert Deliver(n.config, n.inFlight[0]).sent == [];
  }

  lemma Take9(n: Net)
    requires Shape(n, Expected(9))
    ensures Enabled(n, Receive(0)) && Shape(Apply(n, Receive(0)), Expected(10))
  {
    NeighboursOfThree(n.config);
    assert [Vote(2, NodeRef(1))] + [Vote(0, NodeRef(1))] == [Vote(2, NodeRef(1)), Vote(0, NodeRef(1))];
  }

  /** Action `k` of the run is enabled before it and leads to the next snapshot. */
  lemma Take(n: Net, k: nat)
    requires k < 10 && Shape(n, Expected(k))
    ensures Enabled(n, SplitActions()[k]) && Shape(Apply(n, SplitActions()[k]), Expected(k + 1))
  {
    match k
    case 0 => Take0(n);
    case 1 => Take1(n);
    case 2 => Take2(n);
    case 3 => Take3(n);
    case 4 => Take4(n);
    case 5 => Take5(n);
    case 6 => Take6(n);
    case 7 => Take7(n);
    case 8 => Take8(n);
    case _ => Take9(n);
  }

  /** From snapshot `k` the rest of the run goes through and ends with nodes
      0 and 1 leading and node 2 voting. */
  lemma {:induction false} RunFrom(n: Net, k: nat)
    requires k <= 10 && Shape(n, Expected(k))
    ensures var r := Run(n, SplitActions()[k..]);
      && r.Some?
      && |r.value.config.nodes| == 3
      && r.value.config.nodes[0].status.Leading?
      && r.value.config.nodes[1].status.Leading?
      && r.value.config.nodes[2].status.Voting?
    decreases 10 - k
  {
    if k == 10 {
      assert SplitActions()[k..] == [];
    } else {
      var a := SplitActions()[k];
      Take(n, k);
      RunFrom(Apply(n, a), k + 1);
      assert SplitActions()[k..][0] == a && SplitActions()[k..][1..] == SplitActions()[k + 1..];
    }
  }

  /** In a fresh three-node generated cluster the run of `SplitActions`
      leaves nodes 0 and 1 leading at the same time, with node 2 still
      voting. The start state is a parameter equal to `Start(3)` rather than
      `Start(3)` written inline: with every argument a literal, the verifier
      would unfold the whole run at once instead of going through `RunFrom`
      action by action. */
  lemma TwoTimeoutsCanElectTwoLeaders(n0: Net)
    requires n0 == Start(3)
    ensures var r := Run(n0, SplitActions());
      && r.Some?
      && |r.value.config.nodes| == 3
      && r.value.config.nodes[0].status.Leading?
      && r.value.config.nodes[1].status.Leading?
      && r.value.config.nodes[2].status.Voting?
  {
    Booted();
    RunFrom(n0, 0);
    assert SplitActions()[0..] == SplitActions();
  }
}
