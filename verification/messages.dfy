/**
 * Messages exchanged between the nodes of a simulated cluster.
 *
 * A message is the hash `{ sender:, type:, content: }` that `Node#send` puts
 * into the recipient's inbox. An envelope pairs a message with the node it is
 * delivered to (the receiver of `send`).
 */
module Messages {

  /** A node's identity. The Ruby code compares nodes by object identity, so a
      node is modelled by an abstract number and never by its name. */
  type NodeId = nat

  /** The `type` field. Types that the inbox loop has no branch for are `Unknown`. */
  datatype Kind =
    | Heartbeat
    | ProposeState
    | LogState
    | Timeout
    | LeaderElectionRequest
    | LeaderElectionVote
    | SetLeader
    | NoLeader
    | Stop
    | Unknown(name: string)

  /** The `content` field: nothing, a proposed state value, or a node (a vote
      names its candidate by content). */
  datatype Payload = Nil | State(value: string) | NodeRef(id: NodeId)

  datatype Message = Message(sender: NodeId, kind: Kind, content: Payload)

  datatype Envelope = Envelope(to: NodeId, msg: Message)

  /** `send_to_all_neighbors`: one envelope per neighbour, in neighbour order,
      all carrying the same message signed by `from`. */
  function Broadcast(from: NodeId, neighbours: seq<NodeId>, kind: Kind, content: Payload): (out: seq<Envelope>)
  {
    seq(|neighbours|, i requires 0 <= i < |neighbours| => Envelope(neighbours[i], Message(from, kind, content)))
  }

  /** A broadcast reaches exactly the neighbours, each with the same message,
      and none twice when the neighbour list has no repeats. */
  lemma BroadcastReaches(from: NodeId, neighbours: seq<NodeId>, kind: Kind, content: Payload)
    ensures var out := Broadcast(from, neighbours, kind, content);
      && |out| == |neighbours|
      && (forall i :: 0 <= i < |out| ==> out[i].msg == Message(from, kind, content))
      && (forall j :: Addressed(out, j) <==> j in neighbours)
      && (Distinct(neighbours) ==> DistinctRecipients(out))
  {
    var out := Broadcast(from, neighbours, kind, content);
    forall j | j in neighbours
      ensures Addressed(out, j)
    {
      var p :| 0 <= p < |neighbours| && neighbours[p] == j;
      assert out[p].to == j;
    }
  }

  /** True when some envelope of `out` is addressed to `id`. */
  predicate Addressed(out: seq<Envelope>, id: NodeId)
  {
    exists p :: 0 <= p < |out| && out[p].to == id
  }

  /** True when no node occurs twice in `ids`. */
  predicate Distinct(ids: seq<NodeId>)
  {
    forall p, q :: 0 <= p < q < |ids| ==> ids[p] != ids[q]
  }

  /** True when no two envelopes of `out` go to the same node. */
  predicate DistinctRecipients(out: seq<Envelope>)
  {
    forall p, q :: 0 <= p < q < |out| ==> out[p].to != out[q].to
  }
}
