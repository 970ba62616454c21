/**
 * A cluster under any interleaving the threads allow. Messages in flight may
 * be taken in any order, any node's receive may time out at any moment, an
 * outside caller may propose a state to any node, and a leader's heartbeat
 * loop may fire at any time. Under all of these, no node's inbox loop ever
 * ends by an exception: neither the two role checks nor the vote on a nil
 * `@votes` can be reached.
 */
module Network {
  import opened Optional
  import opened Messages
  import opened Raft
  import opened Cluster
  import RaftProperties

  /** A running cluster: its nodes and the messages sent but not yet taken. */
  datatype Net = Net(config: Config, inFlight: seq<Envelope>)

  datatype Action =
    | Receive(i: nat)
    | TimeOut(k: NodeId)
    | Propose(k: NodeId, state: Payload)
    | Beat(k: NodeId)

  /** A generated cluster of `n` fresh nodes with nothing in flight. */
  function Start(n: nat): (r: Net)
  {
    Net(Boot(n), [])
  }

  predicate Enabled(n: Net, a: Action)
  {
    && Wf(n.config)
    && match a
       case Receive(i) => i < |n.inFlight|
       case TimeOut(_) => true
       case Propose(_, _) => true
       case Beat(k) => k < |n.config.nodes|
  }

  /** The effect of one action: a node takes an in-flight message, a node's
      receive times out, a caller proposes a state to a node through its
      inbox, or a node's heartbeat loop sends `:heartbeat` to all neighbours
      when (and only when) the node is leading. */
  function Apply(n: Net, a: Action): (r: Net)
    requires Enabled(n, a)
  {
    match a
    case Receive(i) =>
      var d := Deliver(n.config, n.inFlight[i]);
      Net(d.config, n.inFlight[..i] + n.inFlight[i + 1..] + d.sent)
    case TimeOut(k) =>
      var d := Deliver(n.config, Envelope(k, Message(k, Timeout, Nil)));
      Net(d.config, n.inFlight + d.sent)
    case Propose(k, x) =>
      Net(n.config, n.inFlight + [Envelope(k, Message(k, ProposeState, x))])
    case Beat(k) =>
      if n.config.nodes[k].status.Leading? then
        Net(n.config, n.inFlight + Broadcast(k, n.config.neighbours[k], Heartbeat, Nil))
      else n
  }

  /** Run a sequence of actions; `None` if one of them is not enabled. */
  function Run(n: Net, acts: seq<Action>): (r: Option<Net>)
    decreases |acts|
  {
    if acts == [] then Some(n)
    else if !Enabled(n, acts[0]) then None
    else Run(Apply(n, acts[0]), acts[1..])
  }

  /** An in-flight message is harmless: it is no stop; an election request
      comes from a node that has a vote list; a vote goes to a node that has
      one. */
  predicate Harmless(c: Config, e: Envelope)
  {
    && !e.msg.kind.Stop?
    && (e.msg.kind.LeaderElectionRequest? ==> e.msg.sender < |c.nodes| && c.nodes[e.msg.sender].votes.Some?)
    && (e.msg.kind.LeaderElectionVote? && e.to < |c.nodes| ==> c.nodes[e.to].votes.Some?)
  }

  predicate Inv(n: Net)
  {
    && Wf(n.config)
    && n.config.halted == {}
    && (forall y :: 0 <= y < |n.config.nodes| ==> RaftProperties.Consistent(n.config.nodes[y]))
    && (forall e :: e in n.inFlight ==> Harmless(n.config, e))
  }

  /** No node has lost its vote list between `c` and `c2`. */
  predicate VotesKept(c: Config, c2: Config)
  {
    && |c2.nodes| == |c.nodes|
    && forall y :: 0 <= y < |c.nodes| && c.nodes[y].votes.Some? ==> c2.nodes[y].votes.Some?
  }

  lemma HarmlessKept(c: Config, c2: Config, e: Envelope)
    requires Harmless(c, e) && VotesKept(c, c2)
    ensures Harmless(c2, e)
  {
  }

  /** Under the invariant, a live node taking a harmless message never raises
      and sends only harmless messages. */
  lemma {:induction false} SafeDelivery(n: Net, e: Envelope)
    requires Inv(n) && Harmless(n.config, e)
    ensures var d := Deliver(n.config, e);
      && d.config.halted == {}
      && VotesKept(n.config, d.config)
      && (forall y :: 0 <= y < |d.config.nodes| ==> RaftProperties.Consistent(d.config.nodes[y]))
      && (forall e2 :: e2 in d.sent ==> Harmless(d.config, e2))
  {
    var c := n.config;
    if Live(c, e.to) {
      var s := c.nodes[e.to];
      var r := StepAt(c, e);
      RaftProperties.OutboxDiscipline(s, c.neighbours[e.to], e.msg);
      RaftProperties.StepPreservesConsistent(s, c.neighbours[e.to], e.msg);
      assert r.halt == None;
      var d := Deliver(c, e);
      assert d.config.nodes == c.nodes[e.to := r.node];
      forall e2 | e2 in d.sent
        ensures Harmless(d.config, e2)
      {
        if e2.msg.kind.LeaderElectionVote? {
          assert e.msg.kind.LeaderElectionRequest? && e2.to == e.msg.sender;
        }
      }
    }
  }

  /** The invariant holds in every state an action can lead to. */
  lemma {:induction false} ApplyKeepsInv(n: Net, a: Action)
    requires Inv(n) && Enabled(n, a)
    ensures Inv(Apply(n, a))
  {
    match a
    case Receive(i) =>
      var e := n.inFlight[i];
      SafeDelivery(n, e);
      var d := Deliver(n.config, e);
      var rest := n.inFlight[..i] + n.inFlight[i + 1..];
      forall e2 | e2 in rest + d.sent
        ensures Harmless(d.config, e2)
      {
        if e2 in rest {
          assert e2 in n.inFlight;
          HarmlessKept(n.config, d.config, e2);
        }
      }
    case TimeOut(k) =>
      var e := Envelope(k, Message(k, Timeout, Nil));
      SafeDelivery(n, e);
      var d := Deliver(n.config, e);
      forall e2 | e2 in n.inFlight + d.sent
        ensures Harmless(d.config, e2)
      {
        if e2 in n.inFlight {
          HarmlessKept(n.config, d.config, e2);
        }
      }
    case Propose(k, x) =>
    case Beat(k) =>
  }

  lemma {:induction false} RunKeepsInv(n: Net, acts: seq<Action>)
    requires Inv(n)
    ensures Run(n, acts).Some? ==> Inv(Run(n, acts).value)
    decreases |acts|
  {
    if acts != [] && Enabled(n, acts[0]) {
      ApplyKeepsInv(n, acts[0]);
      RunKeepsInv(Apply(n, acts[0]), acts[1..]);
    }
  }

  /** In every run of a generated cluster, every node's inbox loop is still
      running, and whichever in-flight message a node takes next, its handler
      returns without raising. */
  lemma NoHandlerEverRaises(size: nat, acts: seq<Action>)
    ensures Run(Start(size), acts).Some? ==> Run(Start(size), acts).value.config.halted == {}
    ensures Run(Start(size), acts).Some? ==>
      var n := Run(Start(size), acts).value;
      Wf(n.config) && forall e :: e in n.inFlight && e.to < |n.config.nodes| ==> StepAt(n.config, e).halt == None
  {
    RunKeepsInv(Start(size), acts);
    if Run(Start(size), acts).Some? {
      var n := Run(Start(size), acts).value;
      forall e | e in n.inFlight && e.to < |n.config.nodes|
        ensures StepAt(n.config, e).halt == None
      {
        SafeDelivery(n, e);
      }
    }
  }
}
