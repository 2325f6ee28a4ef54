/** What the reference placer's promises say of capacities and labels. */
module PlacerLaws {
  import opened Placer

  /** A sound placement: every camera placed is a known one, on a node that
      exists and has all its labels, and no node carries more than it can. */
  lemma SoundMeans(placed: map<CamId, Placement>, cameras: map<CamId, Camera>, nodes: map<NodeId, NodeSpec>)
    ensures Sound(placed, cameras, nodes) <==>
            && (forall c :: c in placed ==>
                  && c in cameras && placed[c].node in nodes
                  && forall l :: l in cameras[c].labels ==> l in nodes[placed[c].node].labels)
            && (forall n :: n in nodes ==> LoadOn(placed, cameras, n) <= nodes[n].capacity)
  {}

  /** A node has room for a camera that is not placed if and only if placing it
      there leaves it within capacity, and it has all the labels. */
  lemma RoomMeans(placed: map<CamId, Placement>, cameras: map<CamId, Camera>, nodes: map<NodeId, NodeSpec>, c: CamId,
          n: NodeId, at: nat)
    requires c in cameras && c !in placed
    ensures HasRoom(placed, cameras, nodes, c, n) <==>
            && n in nodes && LoadOn(placed[c := Placement(n, at)], cameras, n) <= nodes[n].capacity
            && forall l :: l in cameras[c].labels ==> l in nodes[n].labels
  {
    LoadWith(placed, cameras, c, Placement(n, at), n);
  }

  /** The load on a node is the sum of the loads placed on it: nothing without
      any, and each camera that comes adds its own. */
  lemma LoadMeans(placed: map<CamId, Placement>, cameras: map<CamId, Camera>, c: CamId, p: Placement, n: NodeId)
    requires c in cameras && c !in placed
    ensures LoadOn(map[], cameras, n) == 0.0
    ensures LoadOn(placed[c := p], cameras, n) ==
            LoadOn(placed, cameras, n) + if p.node == n then cameras[c].load else 0.0
  {
    assert On(map[], cameras, n) == {};
    LoadWith(placed, cameras, c, p, n);
  }
}
