/**
 * A cluster of nodes exchanging messages with synchronous delivery.
 *
 * Node `i` sits at index `i`. Delivering an envelope runs the recipient's
 * step and collects what it sends; a node whose inbox loop has ended (by a
 * stop or an exception) processes nothing more. Delivery in rounds (every
 * pending message, then every message those sent, and so on) is one of the
 * orders the threads of the Ruby program can produce.
 */
module Cluster {
  import opened Optional
  import opened Messages
  import opened Raft
  import Helpers

  datatype Config = Config(nodes: seq<NodeState>, neighbours: seq<seq<NodeId>>, halted: set<NodeId>)

  predicate Wf(c: Config)
  {
    && |c.nodes| == |c.neighbours|
    && forall i :: 0 <= i < |c.nodes| ==> c.nodes[i].id == i
  }

  /** The topology `generate_cluster` builds: everyone neighbours everyone else. */
  predicate Complete(c: Config)
  {
    && |c.nodes| == |c.neighbours|
    && forall i :: 0 <= i < |c.nodes| ==> c.neighbours[i] == Helpers.Others(|c.nodes|, i)
  }

  /** A generated cluster of `n` fresh nodes, none of which has stopped. */
  function Boot(n: nat): (c: Config)
    ensures Wf(c) && Complete(c) && |c.nodes| == n && c.halted == {}
    ensures forall i :: 0 <= i < n ==> c.nodes[i] == Init(i)
  {
    Config(seq(n, i requires 0 <= i < n => Init(i)), seq(n, i requires 0 <= i < n => Helpers.Others(n, i)), {})
  }

  /** True when `id` names a node of the cluster whose inbox loop still runs. */
  predicate Live(c: Config, id: NodeId)
  {
    id < |c.nodes| && id !in c.halted
  }

  /** The step the recipient of `e` takes in configuration `c`. */
  function StepAt(c: Config, e: Envelope): (r: Effect)
    requires Wf(c) && e.to < |c.nodes|
  {
    Step(c.nodes[e.to], c.neighbours[e.to], e.msg)
  }

  datatype Delivery = Delivery(config: Config, sent: seq<Envelope>)

  /** Deliver one envelope. */
  function Deliver(c: Config, e: Envelope): (d: Delivery)
    requires Wf(c)
    ensures Wf(d.config) && |d.config.nodes| == |c.nodes| && d.config.neighbours == c.neighbours
    ensures c.halted <= d.config.halted
    ensures forall j :: 0 <= j < |c.nodes| && j != e.to ==> d.config.nodes[j] == c.nodes[j]
    ensures d.config.halted <= c.halted + {e.to}
    ensures !Live(c, e.to) ==> d == Delivery(c, [])
  {
    if !Live(c, e.to) then Delivery(c, [])
    else
      var r := StepAt(c, e);
      Delivery(
        Config(c.nodes[e.to := r.node], c.neighbours, if r.halt.Some? then c.halted + {e.to} else c.halted),
        r.outbox)
  }

  /** Deliver the envelopes one after another, collecting everything sent. */
  function DeliverAll(c: Config, envs: seq<Envelope>): (d: Delivery)
    requires Wf(c)
    ensures Wf(d.config) && |d.config.nodes| == |c.nodes| && d.config.neighbours == c.neighbours
    ensures c.halted <= d.config.halted
    ensures forall j :: 0 <= j < |c.nodes| && !Addressed(envs, j) ==> d.config.nodes[j] == c.nodes[j]
    decreases |envs|
  {
    if envs == [] then Delivery(c, [])
    else
      var d0 := DeliverAll(c, envs[..|envs| - 1]);
      var d1 := Deliver(d0.config, envs[|envs| - 1]);
      Delivery(d1.config, d0.sent + d1.sent)
  }

  /** True when every envelope of `envs` is addressed to a node of `c`. */
  predicate InRange(c: Config, envs: seq<Envelope>)
  {
    forall p :: 0 <= p < |envs| ==> envs[p].to < |c.nodes|
  }

  /** Delivering a one-envelope sequence is delivering the envelope. */
  lemma DeliverAllOne(c: Config, e: Envelope)
    requires Wf(c)
    ensures DeliverAll(c, [e]) == Deliver(c, e)
  {
    assert [e][..0] == [];
    assert [] + Deliver(c, e).sent == Deliver(c, e).sent;
  }

  /** Envelopes that all go to `k` leave every other node as it was. */
  lemma DeliverAllToOne(c: Config, k: NodeId, envs: seq<Envelope>)
    requires Wf(c) && forall p :: 0 <= p < |envs| ==> envs[p].to == k
    ensures forall j :: 0 <= j < |c.nodes| && j != k ==> DeliverAll(c, envs).config.nodes[j] == c.nodes[j]
  {
    forall j | 0 <= j < |c.nodes| && j != k
      ensures DeliverAll(c, envs).config.nodes[j] == c.nodes[j]
    {
      assert !Addressed(envs, j);
    }
  }

  /** Deliver `pending`, then what that sent, for `r` rounds. */
  function Rounds(c: Config, pending: seq<Envelope>, r: nat): (d: Delivery)
    requires Wf(c)
    ensures Wf(d.config) && |d.config.nodes| == |c.nodes| && d.config.neighbours == c.neighbours
    decreases r
  {
    if r == 0 then Delivery(c, pending)
    else
      var d := DeliverAll(c, pending);
      Rounds(d.config, d.sent, r - 1)
  }

  /** One round of `Rounds`: deliver everything pending, then carry on. */
  lemma RoundsUnfold(c: Config, pending: seq<Envelope>, r: nat)
    requires Wf(c) && r > 0
    ensures Rounds(c, pending, r) == Rounds(DeliverAll(c, pending).config, DeliverAll(c, pending).sent, r - 1)
  {
  }

  /** What `f` gives for each of `envs`, one after another. */
  function Collect(f: Envelope -> seq<Envelope>, envs: seq<Envelope>): (out: seq<Envelope>)
    decreases |envs|
  {
    if envs == [] then [] else Collect(f, envs[..|envs| - 1]) + f(envs[|envs| - 1])
  }

  /** What the recipient of an envelope would send, stepping from its state in `c`. */
  function OutboxAt(c: Config): (f: Envelope -> seq<Envelope>)
    requires Wf(c)
  {
    (e: Envelope) => if e.to < |c.nodes| then StepAt(c, e).outbox else []
  }

  /** What the recipients of `envs` would send, each stepping from its state in `c`. */
  function Outboxes(c: Config, envs: seq<Envelope>): (out: seq<Envelope>)
    requires Wf(c) && InRange(c, envs)
  {
    Collect(OutboxAt(c), envs)
  }

  /** Delivering to pairwise distinct live recipients is the same as letting
      every recipient step once from its state before the round. */
  lemma {:induction false} DeliverDistinct(c: Config, envs: seq<Envelope>)
    requires Wf(c) && DistinctRecipients(envs) && InRange(c, envs)
    requires forall p :: 0 <= p < |envs| ==> envs[p].to !in c.halted && StepAt(c, envs[p]).halt.None?
    ensures DeliverAll(c, envs).config.halted == c.halted
    ensures forall p :: 0 <= p < |envs| ==> DeliverAll(c, envs).config.nodes[envs[p].to] == StepAt(c, envs[p]).node
    ensures DeliverAll(c, envs).sent == Outboxes(c, envs)
    decreases |envs|
  {
    if envs != [] {
      var pre := envs[..|envs| - 1];
      var e := envs[|envs| - 1];
      assert forall p :: 0 <= p < |pre| ==> pre[p] == envs[p];
      DeliverDistinct(c, pre);
      var d0 := DeliverAll(c, pre);
      assert !Addressed(pre, e.to);
      assert d0.config.nodes[e.to] == c.nodes[e.to];
      var r := StepAt(c, e);
      assert StepAt(d0.config, e) == r;
      var d1 := Deliver(d0.config, e);
      assert d1.config.nodes == d0.config.nodes[e.to := r.node] && d1.sent == r.outbox;
      assert DeliverAll(c, envs) == Delivery(d1.config, d0.sent + d1.sent);
      assert OutboxAt(c)(e) == r.outbox;
      assert Outboxes(c, envs) == Outboxes(c, pre) + r.outbox;
      forall p | 0 <= p < |envs|
        ensures d1.config.nodes[envs[p].to] == StepAt(c, envs[p]).node
      {
        if p < |envs| - 1 {
          assert envs[p].to != e.to;
        }
      }
    }
  }

  /** Appending a one-element sequence keeps every old position and adds its
      element at the end. */
  lemma AppendOne(a: seq<Envelope>, b: seq<Envelope>)
    requires |b| == 1
    ensures |a + b| == |a| + 1 && (a + b)[|a|] == b[0]
    ensures forall p :: 0 <= p < |a| ==> (a + b)[p] == a[p]
  {
  }

  /** When `f` gives exactly one envelope for each input, collecting gives
      one envelope per input, in order. */
  lemma {:induction false} CollectSingles(f: Envelope -> seq<Envelope>, envs: seq<Envelope>)
    requires forall p :: 0 <= p < |envs| ==> |f(envs[p])| == 1
    ensures |Collect(f, envs)| == |envs|
    ensures forall p :: 0 <= p < |envs| ==> Collect(f, envs)[p] == f(envs[p])[0]
    decreases |envs|
  {
    if envs != [] {
      var pre := envs[..|envs| - 1];
      assert forall p :: 0 <= p < |pre| ==> pre[p] == envs[p];
      CollectSingles(f, pre);
      AppendOne(Collect(f, pre), f(envs[|envs| - 1]));
    }
  }

  /** When `f` gives nothing for every input, collecting gives nothing. */
  lemma {:induction false} CollectSilent(f: Envelope -> seq<Envelope>, envs: seq<Envelope>)
    requires forall p :: 0 <= p < |envs| ==> f(envs[p]) == []
    ensures Collect(f, envs) == []
    decreases |envs|
  {
    if envs != [] {
      var pre := envs[..|envs| - 1];
      assert forall p :: 0 <= p < |pre| ==> pre[p] == envs[p];
      CollectSilent(f, pre);
    }
  }

  /** When every recipient sends exactly one envelope, the round sends one
      envelope per input, in order. */
  lemma OutboxesOfSingles(c: Config, envs: seq<Envelope>)
    requires Wf(c) && InRange(c, envs)
    requires forall p :: 0 <= p < |envs| ==> |StepAt(c, envs[p]).outbox| == 1
    ensures |Outboxes(c, envs)| == |envs|
    ensures forall p :: 0 <= p < |envs| ==> Outboxes(c, envs)[p] == StepAt(c, envs[p]).outbox[0]
  {
    assert forall p :: 0 <= p < |envs| ==> OutboxAt(c)(envs[p]) == StepAt(c, envs[p]).outbox;
    CollectSingles(OutboxAt(c), envs);
  }

  /** When no recipient sends anything, neither does the round. */
  lemma OutboxesOfSilent(c: Config, envs: seq<Envelope>)
    requires Wf(c) && InRange(c, envs)
    requires forall p :: 0 <= p < |envs| ==> StepAt(c, envs[p]).outbox == []
    ensures Outboxes(c, envs) == []
  {
    assert forall p :: 0 <= p < |envs| ==> OutboxAt(c)(envs[p]) == StepAt(c, envs[p]).outbox;
    CollectSilent(OutboxAt(c), envs);
  }
}
