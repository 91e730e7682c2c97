/** What the audio controller reports: Bluetooth sink nodes and links. */
module PipeWire {
  import opened Options
  import opened Stores

  datatype Node = Node(id: int, mac: Mac, name: string)
  datatype Link = Link(output: int, input: int, state: string)
  datatype Snapshot = Snapshot(nodes: seq<Node>, links: seq<Link>)

  /** The node a MAC is bound to when a map is filled from the list: the last one wins. */
  function NodeFor(nodes: seq<Node>, mac: Mac): Option<Node> {
    if nodes == [] then None
    else if nodes[|nodes| - 1].mac == mac then Some(nodes[|nodes| - 1])
    else NodeFor(nodes[..|nodes| - 1], mac)
  }

  /** It is the last node listed for the MAC, and there is none only if none is listed. */
  lemma {:induction false} NodeForExactly(nodes: seq<Node>, mac: Mac)
    ensures match NodeFor(nodes, mac)
            case None => forall i :: 0 <= i < |nodes| ==> nodes[i].mac != mac
            case Some(n) => exists k :: 0 <= k < |nodes| && nodes[k] == n && n.mac == mac
                                        && forall i :: k < i < |nodes| ==> nodes[i].mac != mac
  {
    if nodes != [] && nodes[|nodes| - 1].mac != mac {
      NodeForExactly(nodes[..|nodes| - 1], mac);
    }
  }

  method NodesByMac(nodes: seq<Node>) returns (ids: map<Mac, int>)
    ensures forall m :: m in ids <==> NodeFor(nodes, m).Some?
    ensures forall m :: m in ids ==> ids[m] == NodeFor(nodes, m).value.id
  {
    ids := map[];
    for i := 0 to |nodes|
      invariant forall m :: m in ids <==> NodeFor(nodes[..i], m).Some?
      invariant forall m :: m in ids ==> ids[m] == NodeFor(nodes[..i], m).value.id
    {
      assert nodes[..i + 1][..i] == nodes[..i];
      ids := ids[nodes[i].mac := nodes[i].id];
    }
    assert nodes[..|nodes|] == nodes;
  }
}
