/**
 * The cluster builder of the test helpers (`generate_cluster` in
 * spec/helpers.rb): one node per name, each made a neighbour of every other.
 */
module Helpers {
  import opened Messages

  /** A constructed node: its identity, its name and its neighbour list. */
  datatype ClusterNode = ClusterNode(id: NodeId, name: string, neighbours: seq<NodeId>)

  /** The ids below `n` other than `i`, ascending: the neighbour list the
      builder gives node `i` of an `n`-node cluster. */
  function Others(n: nat, i: NodeId): (r: seq<NodeId>)
    ensures forall j: NodeId :: j in r <==> j < n && j != i
    ensures forall p, q :: 0 <= p < q < |r| ==> r[p] < r[q]
    ensures |r| == if i < n then n - 1 else n
  {
    if n == 0 then []
    else if n - 1 == i then Others(n - 1, i)
    else
      var r := Others(n - 1, i);
      assert forall p :: 0 <= p < |r| ==> r[p] in r;
      r + [n - 1]
  }

  /** `add_neighbor`, taken to append the neighbour to the list. */
  function AddNeighbour(node: ClusterNode, neighbour: NodeId): (r: ClusterNode)
    ensures r.id == node.id && r.name == node.name
    ensures |r.neighbours| == |node.neighbours| + 1 && r.neighbours[|node.neighbours|] == neighbour
    ensures r.neighbours[..|node.neighbours|] == node.neighbours
  {
    node.(neighbours := node.neighbours + [neighbour])
  }

  /** `generate_cluster`: build one node per name, in name order, then give
      every node each of the other nodes as neighbour. Node `i` gets id `i`:
      every `Node.new` is a distinct object, even for repeated names. */
  method GenerateCluster(names: seq<string>) returns (nodes: seq<ClusterNode>)
    ensures |nodes| == |names|
    ensures forall i :: 0 <= i < |nodes| ==> nodes[i].id == i && nodes[i].name == names[i]
    ensures forall i :: 0 <= i < |nodes| ==> nodes[i].neighbours == Others(|nodes|, i)
  {
    nodes := seq(|names|, i requires 0 <= i < |names| => ClusterNode(i, names[i], []));
    var i := 0;
    while i < |nodes|
      invariant |nodes| == |names| && 0 <= i <= |nodes|
      invariant forall k :: 0 <= k < |nodes| ==> nodes[k].id == k && nodes[k].name == names[k]
      invariant forall k :: 0 <= k < i ==> nodes[k].neighbours == Others(|nodes|, k)
      invariant forall k :: i <= k < |nodes| ==> nodes[k].neighbours == []
    {
      var j := 0;
      while j < |nodes|
        invariant |nodes| == |names| && 0 <= j <= |nodes|
        invariant forall k :: 0 <= k < |nodes| ==> nodes[k].id == k && nodes[k].name == names[k]
        invariant forall k :: 0 <= k < i ==> nodes[k].neighbours == Others(|nodes|, k)
        invariant forall k :: i < k < |nodes| ==> nodes[k].neighbours == []
        invariant nodes[i].neighbours == Others(j, i)
      {
        if nodes[j].id != nodes[i].id {
          nodes := nodes[i := AddNeighbour(nodes[i], nodes[j].id)];
        }
        j := j + 1;
      }
      i := i + 1;
    }
  }

  /** The topology of a generated cluster: no node neighbours itself, each has
      every other node as neighbour, `n - 1` of them, and the relation is
      symmetric. */
  lemma GeneratedTopology(nodes: seq<ClusterNode>)
    requires forall i :: 0 <= i < |nodes| ==> nodes[i].neighbours == Others(|nodes|, i)
    ensures forall i :: 0 <= i < |nodes| ==> i !in nodes[i].neighbours
    ensures forall i :: 0 <= i < |nodes| ==> |nodes[i].neighbours| == |nodes| - 1
    ensures forall i, j :: 0 <= i < |nodes| && 0 <= j < |nodes| && i != j ==> j in nodes[i].neighbours
    ensures forall i, j :: 0 <= i < |nodes| && 0 <= j < |nodes| ==>
      (j in nodes[i].neighbours <==> i in nodes[j].neighbours)
  {
  }
}
