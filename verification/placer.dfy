/** The reference placer: cameras with real loads and labels on nodes with
    real capacities and labels. */
module Placer {
  import opened Variables
  import opened FiniteSets
  import opened Spread

  type NodeId = string
  type CamId = nat

  datatype Camera = Camera(load: real, labels: set<string>)
  datatype NodeSpec = NodeSpec(capacity: real, labels: set<string>)
  datatype Placement = Placement(node: NodeId, at: nat)
  datatype Move = Move(cam: CamId, from: NodeId, to: NodeId)
  datatype Op =
    | Put(c: CamId)
    | Take(c: CamId)
    | Add(id: NodeId, node: NodeSpec)
    | Retire(id: NodeId)
    | Spread(budget: nat)
    | Describe(c: CamId, cam: Camera)    // the caller's table: a camera is added, or changed while it is not placed
    | Forget(c: CamId)

  // ----- loads

  function Total(cs: set<CamId>, cameras: map<CamId, Camera>): real
    requires cs <= cameras.Keys
  {
    if cs == {} then 0.0
    else
      var c := Least(cs);
      cameras[c].load + Total(cs - {c}, cameras)
  }

  lemma {:induction false} TotalSplits(cs: set<CamId>, cameras: map<CamId, Camera>, c: CamId)
    requires cs <= cameras.Keys && c in cs
    ensures Total(cs, cameras) == cameras[c].load + Total(cs - {c}, cameras)
    decreases |cs|
  {
    var l := Least(cs);
    if l != c {
      TotalSplits(cs - {l}, cameras, c);
      TotalSplits(cs - {c}, cameras, l);
      assert cs - {l} - {c} == cs - {c} - {l};
    }
  }

  function On(placed: map<CamId, Placement>, cameras: map<CamId, Camera>, n: NodeId): set<CamId> {
    set c | c in placed && placed[c].node == n && c in cameras
  }

  function LoadOn(placed: map<CamId, Placement>, cameras: map<CamId, Camera>, n: NodeId): real {
    Total(On(placed, cameras, n), cameras)
  }

  /** Taking one camera out of the placement, and putting one in. */
  lemma LoadWithout(placed: map<CamId, Placement>, cameras: map<CamId, Camera>, c: CamId, n: NodeId)
    requires c in placed && c in cameras
    ensures LoadOn(placed - {c}, cameras, n) ==
            LoadOn(placed, cameras, n) - (if placed[c].node == n then cameras[c].load else 0.0)
  {
    if placed[c].node == n {
      assert On(placed - {c}, cameras, n) == On(placed, cameras, n) - {c};
      TotalSplits(On(placed, cameras, n), cameras, c);
    } else {
      assert On(placed - {c}, cameras, n) == On(placed, cameras, n);
    }
  }

  lemma LoadWith(placed: map<CamId, Placement>, cameras: map<CamId, Camera>, c: CamId, p: Placement, n: NodeId)
    requires c in cameras && c !in placed
    ensures LoadOn(placed[c := p], cameras, n) ==
            LoadOn(placed, cameras, n) + (if p.node == n then cameras[c].load else 0.0)
  {
    var q := placed[c := p];
    assert q - {c} == placed;
    LoadWithout(q, cameras, c, n);
  }

  // ----- the invariant

  predicate Reaches(cameras: map<CamId, Camera>, nodes: map<NodeId, NodeSpec>, c: CamId, n: NodeId)
    requires c in cameras
  {
    n in nodes && cameras[c].labels <= nodes[n].labels
  }

  /** `c` sits on an existing node with its labels. */
  predicate Seated(placed: map<CamId, Placement>, cameras: map<CamId, Camera>, nodes: map<NodeId, NodeSpec>, c: CamId)
    requires c in placed
  {
    c in cameras && Reaches(cameras, nodes, c, placed[c].node)
  }

  ghost predicate Within(placed: map<CamId, Placement>, cameras: map<CamId, Camera>, nodes: map<NodeId, NodeSpec>) {
    forall n :: n in nodes ==> LoadOn(placed, cameras, n) <= nodes[n].capacity
  }

  ghost predicate Sound(placed: map<CamId, Placement>, cameras: map<CamId, Camera>, nodes: map<NodeId, NodeSpec>) {
    && (forall c :: c in placed ==> Seated(placed, cameras, nodes, c))
    && Within(placed, cameras, nodes)
  }

  ghost predicate PositiveLoads(cameras: map<CamId, Camera>) {
    forall c :: c in cameras ==> cameras[c].load > 0.0
  }

  /** Node `n` could take camera `c` as things stand. */
  ghost predicate HasRoom(placed: map<CamId, Placement>, cameras: map<CamId, Camera>, nodes: map<NodeId, NodeSpec>,
          c: CamId, n: NodeId)
    requires c in cameras
  {
    Reaches(cameras, nodes, c, n) && LoadOn(placed, cameras, n) + cameras[c].load <= nodes[n].capacity
  }

  lemma PlacedWithin(placed: map<CamId, Placement>, cameras: map<CamId, Camera>, nodes: map<NodeId, NodeSpec>, c: CamId,
          p: Placement)
    requires c in cameras && c !in placed && HasRoom(placed, cameras, nodes, c, p.node)
    ensures Within(placed, cameras, nodes) ==> Within(placed[c := p], cameras, nodes)
  {
    forall n ensures LoadOn(placed[c := p], cameras, n) ==
                     LoadOn(placed, cameras, n) + (if p.node == n then cameras[c].load else 0.0) {
      LoadWith(placed, cameras, c, p, n);
    }
  }

  // ----- rebalance, one move

  ghost predicate Sized(nodes: map<NodeId, NodeSpec>, order: seq<NodeId>) {
    forall n :: n in order ==> n in nodes && nodes[n].capacity > 0.0
  }

  function Ratio(placed: map<CamId, Placement>, cameras: map<CamId, Camera>, nodes: map<NodeId, NodeSpec>,
          n: NodeId): real
    requires n in nodes && nodes[n].capacity > 0.0
  {
    LoadOn(placed, cameras, n) / nodes[n].capacity
  }

  /** The first most loaded node, relative to its capacity. */
  function Fullest(placed: map<CamId, Placement>, cameras: map<CamId, Camera>, nodes: map<NodeId, NodeSpec>,
          order: seq<NodeId>): (n: NodeId)
    requires order != [] && Sized(nodes, order)
    ensures n in order
  {
    if |order| == 1 then order[0]
    else
      var b, n := Fullest(placed, cameras, nodes, order[..|order| - 1]), order[|order| - 1];
      if Ratio(placed, cameras, nodes, n) > Ratio(placed, cameras, nodes, b) then n else b
  }

  function Emptiest(placed: map<CamId, Placement>, cameras: map<CamId, Camera>, nodes: map<NodeId, NodeSpec>,
          order: seq<NodeId>): (n: NodeId)
    requires order != [] && Sized(nodes, order)
    ensures n in order
  {
    if |order| == 1 then order[0]
    else
      var b, n := Emptiest(placed, cameras, nodes, order[..|order| - 1]), order[|order| - 1];
      if Ratio(placed, cameras, nodes, n) < Ratio(placed, cameras, nodes, b) then n else b
  }

  /** The two ends of `order`, with their relative loads. */
  ghost predicate AreExtremes(placed: map<CamId, Placement>, cameras: map<CamId, Camera>, nodes: map<NodeId, NodeSpec>,
          order: seq<NodeId>, hi: NodeId, lo: NodeId, top: real, bottom: real)
    requires order != [] && Sized(nodes, order)
  {
    && hi == Fullest(placed, cameras, nodes, order) && top == Ratio(placed, cameras, nodes, hi)
    && lo == Emptiest(placed, cameras, nodes, order) && bottom == Ratio(placed, cameras, nodes, lo)
  }

  lemma SizedPrefix(nodes: map<NodeId, NodeSpec>, order: seq<NodeId>, i: nat)
    requires Sized(nodes, order) && i <= |order|
    ensures Sized(nodes, order[..i])
  {}

  lemma ExtremesPlus(placed: map<CamId, Placement>, cameras: map<CamId, Camera>, nodes: map<NodeId, NodeSpec>,
          order: seq<NodeId>, n: NodeId, hi: NodeId, lo: NodeId, top: real, bottom: real)
    requires order != [] && Sized(nodes, order + [n]) && Sized(nodes, order)
    requires AreExtremes(placed, cameras, nodes, order, hi, lo, top, bottom)
    ensures n in nodes && nodes[n].capacity > 0.0
    ensures var r := Ratio(placed, cameras, nodes, n);
            AreExtremes(placed, cameras, nodes, order + [n], if r > top then n else hi, if r < bottom then n else lo,
                        if r > top then r else top, if r < bottom then r else bottom)
  {
    assert (order + [n])[..|order + [n]| - 1] == order;
    assert n in order + [n];
    hide Ratio;
  }

  function Candidates(placed: map<CamId, Placement>, cameras: map<CamId, Camera>, nodes: map<NodeId, NodeSpec>,
          hi: NodeId, lo: NodeId): set<CamId>
    requires lo in nodes
  {
    set c | c in placed && placed[c].node == hi && c in cameras && cameras[c].labels <= nodes[lo].labels
  }

  /** The move the loop would make next: a lightest camera that may go from
      the fullest node to the emptiest, if the spread is worth it and it fits. */
  ghost predicate CanMove(placed: map<CamId, Placement>, cameras: map<CamId, Camera>, nodes: map<NodeId, NodeSpec>,
          order: seq<NodeId>, m: Move)
    requires order != [] && Sized(nodes, order)
  {
    var hi, lo := Fullest(placed, cameras, nodes, order), Emptiest(placed, cameras, nodes, order);
    && m.from == hi && m.to == lo
    && Ratio(placed, cameras, nodes, hi) - Ratio(placed, cameras, nodes, lo) >= 0.10
    && m.cam in Candidates(placed, cameras, nodes, hi, lo)
    && (forall c :: c in Candidates(placed, cameras, nodes, hi, lo) ==> cameras[m.cam].load <= cameras[c].load)
    && LoadOn(placed, cameras, lo) + cameras[m.cam].load <= nodes[lo].capacity
  }

  /** `trace` is the placement before each move and after the last. */
  ghost predicate Moves(trace: seq<map<CamId, Placement>>, moves: seq<Move>, cameras: map<CamId, Camera>,
          nodes: map<NodeId, NodeSpec>, order: seq<NodeId>)
    requires order != [] && Sized(nodes, order)
  {
    && |trace| == |moves| + 1
    && forall i :: 0 <= i < |moves| ==> MovedAt(trace, moves, cameras, nodes, order, i)
  }

  ghost predicate MovedAt(trace: seq<map<CamId, Placement>>, moves: seq<Move>, cameras: map<CamId, Camera>,
          nodes: map<NodeId, NodeSpec>, order: seq<NodeId>, i: nat)
    requires order != [] && Sized(nodes, order) && |trace| == |moves| + 1 && i < |moves|
  {
    && CanMove(trace[i], cameras, nodes, order, moves[i])
    && exists at :: trace[i + 1] == trace[i][moves[i].cam := Placement(moves[i].to, at)]
  }

  lemma MoveChangesLoads(placed: map<CamId, Placement>, cameras: map<CamId, Camera>, m: Move, at: nat, n: NodeId)
    requires m.cam in placed && m.cam in cameras && placed[m.cam].node == m.from
    ensures LoadOn(placed[m.cam := Placement(m.to, at)], cameras, n) == LoadOn(placed, cameras, n)
              + (if n == m.to then cameras[m.cam].load else 0.0) - (if n == m.from then cameras[m.cam].load else 0.0)
  {
    LoadWithout(placed, cameras, m.cam, n);
    LoadWith(placed - {m.cam}, cameras, m.cam, Placement(m.to, at), n);
    assert (placed - {m.cam})[m.cam := Placement(m.to, at)] == placed[m.cam := Placement(m.to, at)];
  }

  lemma MoveKeepsSound(placed: map<CamId, Placement>, cameras: map<CamId, Camera>, nodes: map<NodeId, NodeSpec>,
          order: seq<NodeId>, m: Move, at: nat)
    requires order != [] && Sized(nodes, order)
    requires PositiveLoads(cameras) && Sound(placed, cameras, nodes) && CanMove(placed, cameras, nodes, order, m)
    ensures Sound(placed[m.cam := Placement(m.to, at)], cameras, nodes)
  {
    var u := placed[m.cam := Placement(m.to, at)];
    forall n | n in nodes ensures LoadOn(u, cameras, n) <= nodes[n].capacity {
      MoveChangesLoads(placed, cameras, m, at, n);
    }
    forall c | c in u ensures Seated(u, cameras, nodes, c) {
      if c != m.cam {
        assert Seated(placed, cameras, nodes, c);
      }
    }
  }

  // ----- retiring a node, one orphan at a time

  /** `was` is the placement before the node went; `rest` still names it. */
  ghost predicate Rehoming(was: map<CamId, Placement>, placed: map<CamId, Placement>, rest: set<CamId>,
          homeless: set<CamId>, cameras: map<CamId, Camera>, nodes: map<NodeId, NodeSpec>, id: NodeId)
  {
    && homeless !! rest && rest <= cameras.Keys
    && placed.Keys == was.Keys - homeless
    && (forall c :: c in rest ==> c in placed && placed[c].node == id)
    && (forall c :: c in placed && c !in rest ==> Seated(placed, cameras, nodes, c))
    && (forall c :: c in was && was[c].node != id ==> c in placed && placed[c] == was[c])
    && (forall c :: c in homeless || c in rest ==> c in was && was[c].node == id)
  }

  ghost predicate NoRoomFor(placed: map<CamId, Placement>, cameras: map<CamId, Camera>, nodes: map<NodeId, NodeSpec>,
          homeless: set<CamId>)
  {
    forall c :: c in homeless ==> c in cameras && forall n :: !HasRoom(placed, cameras, nodes, c, n)
  }

  lemma RehomingStarts(was: map<CamId, Placement>, cameras: map<CamId, Camera>, nodes: map<NodeId, NodeSpec>,
          id: NodeId)
    requires Sound(was, cameras, nodes) && id in nodes
    ensures Rehoming(was, was, set c | c in was && was[c].node == id, {}, cameras, nodes - {id}, id)
    ensures Within(was, cameras, nodes - {id}) && NoRoomFor(was, cameras, nodes - {id}, {})
  {
    forall c | c in was ensures c in cameras && (was[c].node != id ==> Seated(was, cameras, nodes - {id}, c)) {
      assert Seated(was, cameras, nodes, c);
    }
  }

  lemma RehomingStep(was: map<CamId, Placement>, placed: map<CamId, Placement>, rest: set<CamId>, homeless: set<CamId>,
          cameras: map<CamId, Camera>, nodes: map<NodeId, NodeSpec>, id: NodeId, c: CamId, r: Option<Placement>)
    requires Rehoming(was, placed, rest, homeless, cameras, nodes, id) && c in rest
    requires r.Some? ==> Reaches(cameras, nodes, c, r.value.node)
    ensures r.None? ==> Rehoming(was, placed - {c}, rest - {c}, homeless + {c}, cameras, nodes, id)
    ensures r.Some? ==> Rehoming(was, (placed - {c})[c := r.value], rest - {c}, homeless, cameras, nodes, id)
  {
    var after := if r.Some? then (placed - {c})[c := r.value] else placed - {c};
    forall d | d in after && d !in rest - {c} ensures Seated(after, cameras, nodes, d) {
      if d != c {
        assert Seated(placed, cameras, nodes, d);
      }
    }
  }

  /** Taking an orphan off a node that is gone changes no load; placing it adds
      to one. What had no room still has none. */
  lemma RehomingLoads(placed: map<CamId, Placement>, cameras: map<CamId, Camera>, nodes: map<NodeId, NodeSpec>,
          c: CamId, r: Option<Placement>, homeless: set<CamId>)
    requires PositiveLoads(cameras) && c in cameras && c in placed && placed[c].node !in nodes
    requires NoRoomFor(placed, cameras, nodes, homeless)
    ensures var after := if r.Some? then (placed - {c})[c := r.value] else placed - {c};
            && (forall n :: n in nodes ==> LoadOn(placed, cameras, n) <= LoadOn(after, cameras, n))
            && (forall n :: n in nodes ==> LoadOn(placed, cameras, n) == LoadOn(placed - {c}, cameras, n))
            && NoRoomFor(after, cameras, nodes, homeless)
  {
    var after := if r.Some? then (placed - {c})[c := r.value] else placed - {c};
    forall n | n in nodes
      ensures LoadOn(placed, cameras, n) <= LoadOn(after, cameras, n)
      ensures LoadOn(placed, cameras, n) == LoadOn(placed - {c}, cameras, n)
    {
      LoadWithout(placed, cameras, c, n);
      if r.Some? {
        LoadWith(placed - {c}, cameras, c, r.value, n);
      }
    }
    forall d, n | d in homeless ensures !HasRoom(after, cameras, nodes, d, n) {
      assert !HasRoom(placed, cameras, nodes, d, n);
    }
  }

  class Placer {
    var nodes: map<NodeId, NodeSpec>
    var order: seq<NodeId>               // the order the nodes were added in
    var placed: map<CamId, Placement>    // stored, never derived
    var rev: nat

    ghost predicate Valid()
      reads this
    {
      Distinct(order) && (forall n :: n in order <==> n in nodes)
    }

    constructor ()
      ensures Valid() && placed == map[] && nodes == map[]
    {
      nodes, order, placed, rev := map[], [], map[], 0;
    }

    method LoadOf(n: NodeId, cameras: map<CamId, Camera>) returns (load: real)
      ensures load == LoadOn(placed, cameras, n)
    {
      load := 0.0;
      var rest := On(placed, cameras, n);
      while rest != {}
        invariant rest <= On(placed, cameras, n)
        invariant load + Total(rest, cameras) == LoadOn(placed, cameras, n)
        decreases |rest|
      {
        var c :| c in rest;
        TotalSplits(rest, cameras, c);
        load := load + cameras[c].load;
        rest := rest - {c};
      }
    }

    /** A camera already placed is returned untouched. A new one goes to the
        eligible node with most free capacity among those that have room; it
        is refused exactly when no eligible node has room. */
    method Place(c: CamId, cameras: map<CamId, Camera>) returns (r: Option<Placement>)
      requires Valid() && PositiveLoads(cameras) && c in cameras
      modifies this`placed, this`rev
      ensures c in old(placed) ==> placed == old(placed) && rev == old(rev) && r == Some(placed[c])
      ensures c !in old(placed) ==>
                && rev == old(rev) + 1
                && (r.None? <==> forall n :: !HasRoom(old(placed), cameras, nodes, c, n))
                && (r.None? ==> placed == old(placed))
                && (r.Some? ==>
                      && placed == old(placed)[c := r.value] && r.value.at == rev
                      && HasRoom(old(placed), cameras, nodes, c, r.value.node)
                      && (forall n :: HasRoom(old(placed), cameras, nodes, c, n) ==>
                            nodes[n].capacity - LoadOn(old(placed), cameras, n)
                            <= nodes[r.value.node].capacity - LoadOn(old(placed), cameras, r.value.node)))
      ensures Within(old(placed), cameras, nodes) ==> Within(placed, cameras, nodes)
    {
      if c in placed {
        return Some(placed[c]);
      }
      hide HasRoom, LoadOn;
      var best := Roomiest(c, cameras);
      rev := rev + 1;
      if best.None? {
        return None;
      }
      var p := Placement(best.value, rev);
      PlacedWithin(placed, cameras, nodes, c, p);
      placed := placed[c := p];
      r := Some(p);
      assert HasRoom(old(placed), cameras, nodes, c, p.node);
    }

    /** The first eligible node with most free capacity, among those with room. */
    method Roomiest(c: CamId, cameras: map<CamId, Camera>) returns (best: Option<NodeId>)
      requires Valid() && PositiveLoads(cameras) && c in cameras
      ensures best.None? <==> forall n :: !HasRoom(placed, cameras, nodes, c, n)
      ensures best.Some? ==> HasRoom(placed, cameras, nodes, c, best.value)
      ensures best.Some? ==>
                forall n :: HasRoom(placed, cameras, nodes, c, n) ==>
                  nodes[n].capacity - LoadOn(placed, cameras, n)
                  <= nodes[best.value].capacity - LoadOn(placed, cameras, best.value)
    {
      best := None;
      var bestFree := 0.0;
      for i := 0 to |order|
        invariant bestFree >= 0.0
        invariant best.None? ==> bestFree == 0.0
        invariant best.Some? ==>
                    && HasRoom(placed, cameras, nodes, c, best.value)
                    && bestFree == nodes[best.value].capacity - LoadOn(placed, cameras, best.value)
        invariant forall j :: 0 <= j < i && HasRoom(placed, cameras, nodes, c, order[j]) ==>
                    best.Some? && nodes[order[j]].capacity - LoadOn(placed, cameras, order[j]) <= bestFree
      {
        var n := order[i];
        assert n in order;
        if cameras[c].labels <= nodes[n].labels {
          var load := LoadOf(n, cameras);
          var free := nodes[n].capacity - load;
          if free >= cameras[c].load && free > bestFree {
            best, bestFree := Some(n), free;
          }
        }
      }
      forall n | HasRoom(placed, cameras, nodes, c, n)
        ensures best.Some? && nodes[n].capacity - LoadOn(placed, cameras, n) <= bestFree
      {
        assert n in order;
        var j :| 0 <= j < |order| && order[j] == n;
      }
    }

    method Remove(c: CamId, ghost cameras: map<CamId, Camera>)
      requires PositiveLoads(cameras)
      modifies this`placed
      ensures placed == old(placed) - {c}
      ensures Sound(old(placed), cameras, nodes) ==> Sound(placed, cameras, nodes)
    {
      forall n ensures LoadOn(placed - {c}, cameras, n) <= LoadOn(placed, cameras, n) {
        if c in placed && c in cameras {
          LoadWithout(placed, cameras, c, n);
        } else {
          assert On(placed - {c}, cameras, n) == On(placed, cameras, n);
        }
      }
      placed := placed - {c};
    }

    /** A fresh node. Nothing moves. */
    method AddNode(id: NodeId, node: NodeSpec, ghost cameras: map<CamId, Camera>)
      requires Valid() && id !in nodes && node.capacity >= 0.0
      modifies this`nodes, this`order
      ensures Valid() && nodes == old(nodes)[id := node] && order == old(order) + [id]
      ensures Sound(placed, cameras, old(nodes)) ==> Sound(placed, cameras, nodes)
    {
      nodes := nodes[id := node];
      order := order + [id];
      if Sound(placed, cameras, old(nodes)) {
        forall c | c in placed ensures placed[c].node != id && Seated(placed, cameras, nodes, c) {
          assert Seated(placed, cameras, old(nodes), c);
        }
        assert On(placed, cameras, id) == {};
      }
    }

    /** A node retired on purpose. Its cameras are placed again; those that
        find no home are returned, and nothing has room for them. */
    method RemoveNode(id: NodeId, cameras: map<CamId, Camera>) returns (homeless: set<CamId>)
      requires Valid() && id in nodes && PositiveLoads(cameras) && Sound(placed, cameras, nodes)
      modifies this
      ensures Valid() && nodes == old(nodes) - {id}
      ensures Sound(placed, cameras, nodes)
      ensures placed.Keys == old(placed).Keys - homeless
      ensures forall c :: c in old(placed) && old(placed)[c].node != id ==> c in placed && placed[c] == old(placed)[c]
      ensures forall c :: c in homeless ==> c in old(placed) && old(placed)[c].node == id
      ensures NoRoomFor(placed, cameras, nodes, homeless)
    {
      ghost var was, left := placed, nodes - {id};
      RehomingStarts(was, cameras, nodes, id);
      DropNode(id);
      homeless := {};
      var rest := set c | c in placed && placed[c].node == id;
      while rest != {}
        invariant Valid() && nodes == left
        invariant Rehoming(was, placed, rest, homeless, cameras, left, id)
        invariant Within(placed, cameras, left)
        invariant NoRoomFor(placed, cameras, left, homeless)
        decreases |rest|
      {
        var c :| c in rest;
        var lost := Rehome(c, cameras, was, rest, homeless, id);
        homeless := homeless + lost;
        rest := rest - {c};
      }
    }

    /** One orphan: its row goes, then it is placed like a new camera. */
    method Rehome(c: CamId, cameras: map<CamId, Camera>, ghost was: map<CamId, Placement>, ghost rest: set<CamId>,
            ghost homeless: set<CamId>, ghost id: NodeId)
      returns (lost: set<CamId>)
      requires Valid() && PositiveLoads(cameras) && id !in nodes && c in rest
      requires Rehoming(was, placed, rest, homeless, cameras, nodes, id)
      requires Within(placed, cameras, nodes) && NoRoomFor(placed, cameras, nodes, homeless)
      modifies this`placed, this`rev
      ensures Rehoming(was, placed, rest - {c}, homeless + lost, cameras, nodes, id)
      ensures Within(placed, cameras, nodes) && NoRoomFor(placed, cameras, nodes, homeless + lost)
    {
      ghost var before := placed;
      RehomingLoads(before, cameras, nodes, c, None, homeless);
      placed := placed - {c};
      assert Within(placed, cameras, nodes);
      var r := Place(c, cameras);
      RehomingStep(was, before, rest, homeless, cameras, nodes, id, c, r);
      RehomingLoads(before, cameras, nodes, c, r, homeless);
      assert homeless + {} == homeless;
      lost := if r.None? then {c} else {};
    }

    method RatioOf(n: NodeId, cameras: map<CamId, Camera>) returns (r: real)
      requires n in nodes && nodes[n].capacity > 0.0
      ensures r == Ratio(placed, cameras, nodes, n)
    {
      var load := LoadOf(n, cameras);
      r := load / nodes[n].capacity;
    }

    method Extremes(cameras: map<CamId, Camera>) returns (hi: NodeId, lo: NodeId, spread: real)
      requires order != [] && Sized(nodes, order)
      ensures hi == Fullest(placed, cameras, nodes, order) && lo == Emptiest(placed, cameras, nodes, order)
      ensures spread == Ratio(placed, cameras, nodes, hi) - Ratio(placed, cameras, nodes, lo)
    {
      hi, lo := order[0], order[0];
      var top := RatioOf(order[0], cameras);
      var bottom := top;
      assert AreExtremes(placed, cameras, nodes, order[..1], hi, lo, top, bottom);
      hide Ratio, Fullest, Emptiest, Sized;
      for i := 1 to |order|
        invariant Sized(nodes, order[..i])
        invariant AreExtremes(placed, cameras, nodes, order[..i], hi, lo, top, bottom)
      {
        SizedPrefix(nodes, order, i + 1);
        assert order[..i + 1] == order[..i] + [order[i]];
        ExtremesPlus(placed, cameras, nodes, order[..i], order[i], hi, lo, top, bottom);
        var r := RatioOf(order[i], cameras);
        if r > top { hi, top := order[i], r; }
        if r < bottom { lo, bottom := order[i], r; }
      }
      assert order[..|order|] == order;
      spread := top - bottom;
    }

    /** `min(candidates, key=load)`. */
    method Lightest(cs: set<CamId>, cameras: map<CamId, Camera>) returns (c: CamId)
      requires cs != {} && cs <= cameras.Keys
      ensures c in cs && forall d :: d in cs ==> cameras[c].load <= cameras[d].load
    {
      c :| c in cs;
      var rest := cs - {c};
      while rest != {}
        invariant rest < cs && c in cs - rest
        invariant forall d :: d in cs - rest ==> cameras[c].load <= cameras[d].load
        decreases |rest|
      {
        var d :| d in rest;
        if cameras[d].load < cameras[c].load { c := d; }
        rest := rest - {d};
      }
    }

    /** The head of the rebalance loop: what to move next, if anything. */
    method PlanMove(cameras: map<CamId, Camera>) returns (m: Option<Move>)
      requires order != [] && Sized(nodes, order)
      ensures m.Some? ==> CanMove(placed, cameras, nodes, order, m.value)
      ensures m.None? ==> forall x :: !CanMove(placed, cameras, nodes, order, x)
    {
      var hi, lo, spread := Extremes(cameras);
      if spread < 0.10 {
        return None;
      }
      var candidates := Candidates(placed, cameras, nodes, hi, lo);
      if candidates == {} {
        return None;
      }
      var c := Lightest(candidates, cameras);
      var load := LoadOf(lo, cameras);
      if load + cameras[c].load > nodes[lo].capacity {
        return None;
      }
      return Some(Move(c, hi, lo));
    }

    /** At most `budget` moves; fewer only if there is nothing left to move. */
    method Rebalance(cameras: map<CamId, Camera>, budget: nat)
      returns (moves: seq<Move>, ghost trace: seq<map<CamId, Placement>>)
      requires order != [] && Sized(nodes, order) && PositiveLoads(cameras) && Sound(placed, cameras, nodes)
      modifies this`placed, this`rev
      ensures RebalanceRun(trace, moves, cameras, nodes, order, old(placed), placed)
      ensures |moves| <= budget
      ensures |moves| < budget ==> forall m :: !CanMove(placed, cameras, nodes, order, m)
    {
      moves := [];
      trace := [placed];
      ghost var was, ns, os := placed, nodes, order;
      var i := 0;
      while i < budget
        invariant 0 <= i <= budget && |moves| == i
        invariant RebalanceRun(trace, moves, cameras, ns, os, was, placed)
      {
        var m := PlanMove(cameras);
        if m.None? {
          return;
        }
        rev := rev + 1;
        RunExtends(trace, moves, cameras, ns, os, was, placed, m.value, rev);
        placed := placed[m.value.cam := Placement(m.value.to, rev)];
        trace := trace + [placed];
        moves := moves + [m.value];
        i := i + 1;
      }
    }

    /** Any sequence of operations, on the placer or on the caller's table of
        cameras: a placer that is sound stays sound. An operation its callers
        cannot make (a node added twice or retired twice, a camera nobody
        described, a description changed under a placed camera) is passed over. */
    method Perform(ops: seq<Op>, table: map<CamId, Camera>) returns (cameras: map<CamId, Camera>)
      requires Valid() && PositiveLoads(table) && Sound(placed, table, nodes) && Sized(nodes, order)
      requires forall i :: 0 <= i < |ops| && ops[i].Add? ==> ops[i].node.capacity > 0.0
      requires forall i :: 0 <= i < |ops| && ops[i].Describe? ==> ops[i].cam.load > 0.0
      modifies this
      ensures Valid() && PositiveLoads(cameras) && Sound(placed, cameras, nodes) && Sized(nodes, order)
    {
      cameras := table;
      for i := 0 to |ops|
        invariant Valid() && PositiveLoads(cameras) && Sound(placed, cameras, nodes) && Sized(nodes, order)
      {
        if ops[i].Describe? || ops[i].Forget? {
          cameras := Retable(ops[i], cameras);
        } else {
          PerformOne(ops[i], cameras);
        }
      }
    }

    /** A change of the table, where the camera is not placed. */
    method Retable(op: Op, cameras: map<CamId, Camera>) returns (after: map<CamId, Camera>)
      requires op.Describe? || op.Forget?
      requires PositiveLoads(cameras) && Sound(placed, cameras, nodes) && (op.Describe? ==> op.cam.load > 0.0)
      ensures PositiveLoads(after) && Sound(placed, after, nodes)
      ensures op.c in placed ==> after == cameras
      ensures op.c !in placed ==> after == if op.Describe? then cameras[op.c := op.cam] else cameras - {op.c}
    {
      if op.c in placed {
        return cameras;
      }
      after := if op.Describe? then cameras[op.c := op.cam] else cameras - {op.c};
      SoundUnder(placed, cameras, after, nodes);
    }

    method PerformOne(op: Op, cameras: map<CamId, Camera>)
      requires Valid() && PositiveLoads(cameras) && Sound(placed, cameras, nodes) && Sized(nodes, order)
      requires !op.Describe? && !op.Forget? && (op.Add? ==> op.node.capacity > 0.0)
      modifies this
      ensures Valid() && Sound(placed, cameras, nodes) && Sized(nodes, order)
    {
      match op
      case Put(c) =>
        if c in cameras {
          ghost var before := placed;
          var r := Place(c, cameras);
          if c !in before && r.Some? {
            PlaceSeats(before, cameras, nodes, c, r.value);
          }
        }
      case Take(c) =>
        Remove(c, cameras);
      case Add(id, node) =>
        if id !in nodes {
          AddNode(id, node, cameras);
        }
      case Retire(id) =>
        if id in nodes {
          var _ := RemoveNode(id, cameras);
          assert forall n :: n in order ==> n in nodes;
        }
      case Spread(budget) =>
        if order != [] {
          var moves, trace := Rebalance(cameras, budget);
          assert placed in trace;
        }
      case _ =>
    }

    method DropNode(id: NodeId)
      requires Valid() && id in nodes
      modifies this`nodes, this`order
      ensures Valid() && nodes == old(nodes) - {id}
    {
      var i :| 0 <= i < |order| && order[i] == id;
      ghost var was := order;
      order := order[..i] + order[i + 1..];
      nodes := nodes - {id};
      forall n | n in nodes ensures n in order {
        var j :| 0 <= j < |was| && was[j] == n;
        assert order[if j < i then j else j - 1] == n;
      }
      forall n | n in order ensures n in nodes {
        var j :| 0 <= j < |order| && order[j] == n;
        assert n == was[if j < i then j else j + 1];
      }
    }
  }

  lemma {:induction false} TotalUnder(cs: set<CamId>, cameras: map<CamId, Camera>, after: map<CamId, Camera>)
    requires cs <= cameras.Keys && cs <= after.Keys && forall c :: c in cs ==> after[c] == cameras[c]
    ensures Total(cs, after) == Total(cs, cameras)
    decreases |cs|
  {
    if cs != {} {
      TotalUnder(cs - {Least(cs)}, cameras, after);
    }
  }

  /** Only the descriptions of placed cameras matter. */
  lemma SoundUnder(placed: map<CamId, Placement>, cameras: map<CamId, Camera>, after: map<CamId, Camera>,
          nodes: map<NodeId, NodeSpec>)
    requires Sound(placed, cameras, nodes)
    requires forall c :: c in placed && c in cameras ==> c in after && after[c] == cameras[c]
    ensures Sound(placed, after, nodes)
  {
    forall c | c in placed ensures Seated(placed, after, nodes, c) {
      assert Seated(placed, cameras, nodes, c);
    }
    forall n | n in nodes ensures LoadOn(placed, after, n) <= nodes[n].capacity {
      assert On(placed, after, n) == On(placed, cameras, n);
      TotalUnder(On(placed, cameras, n), cameras, after);
    }
  }

  lemma PlaceSeats(placed: map<CamId, Placement>, cameras: map<CamId, Camera>, nodes: map<NodeId, NodeSpec>, c: CamId,
          p: Placement)
    requires Sound(placed, cameras, nodes) && c in cameras && c !in placed && HasRoom(placed, cameras, nodes, c, p.node)
    ensures Sound(placed[c := p], cameras, nodes)
  {
    PlacedWithin(placed, cameras, nodes, c, p);
    var after := placed[c := p];
    forall d | d in after ensures Seated(after, cameras, nodes, d) {
      if d != c {
        assert Seated(placed, cameras, nodes, d);
      }
    }
  }

  ghost predicate Steady(p: map<CamId, Placement>, cameras: map<CamId, Camera>, nodes: map<NodeId, NodeSpec>,
          was: map<CamId, Placement>)
  {
    Sound(p, cameras, nodes) && p.Keys == was.Keys
  }

  /** A run of the rebalance loop from `was` to `now`: every placement on the
      way is sound and places the same cameras. */
  ghost predicate RebalanceRun(trace: seq<map<CamId, Placement>>, moves: seq<Move>, cameras: map<CamId, Camera>,
          nodes: map<NodeId, NodeSpec>, order: seq<NodeId>, was: map<CamId, Placement>, now: map<CamId, Placement>)
    requires order != [] && Sized(nodes, order)
  {
    && Moves(trace, moves, cameras, nodes, order)
    && trace[0] == was && trace[|moves|] == now
    && AllSteady(trace, cameras, nodes, was)
  }

  ghost predicate AllSteady(trace: seq<map<CamId, Placement>>, cameras: map<CamId, Camera>,
          nodes: map<NodeId, NodeSpec>, was: map<CamId, Placement>)
  {
    forall p :: p in trace ==> Steady(p, cameras, nodes, was)
  }

  lemma SteadyMove(now: map<CamId, Placement>, cameras: map<CamId, Camera>, nodes: map<NodeId, NodeSpec>,
          order: seq<NodeId>, was: map<CamId, Placement>, m: Move, at: nat)
    requires order != [] && Sized(nodes, order) && PositiveLoads(cameras)
    requires Steady(now, cameras, nodes, was) && CanMove(now, cameras, nodes, order, m)
    ensures Steady(now[m.cam := Placement(m.to, at)], cameras, nodes, was)
  {
    MoveKeepsSound(now, cameras, nodes, order, m, at);
  }

  lemma RunExtends(trace: seq<map<CamId, Placement>>, moves: seq<Move>, cameras: map<CamId, Camera>,
          nodes: map<NodeId, NodeSpec>, order: seq<NodeId>, was: map<CamId, Placement>, now: map<CamId, Placement>,
          m: Move, at: nat)
    requires order != [] && Sized(nodes, order) && PositiveLoads(cameras)
    requires RebalanceRun(trace, moves, cameras, nodes, order, was, now)
    requires CanMove(now, cameras, nodes, order, m)
    ensures var next := now[m.cam := Placement(m.to, at)];
            RebalanceRun(trace + [next], moves + [m], cameras, nodes, order, was, next)
  {
    var next := now[m.cam := Placement(m.to, at)];
    assert now in trace;
    SteadyMove(now, cameras, nodes, order, was, m, at);
    MovesExtend(trace, moves, cameras, nodes, order, m, now, next);
  }

  lemma MovesExtend(trace: seq<map<CamId, Placement>>, moves: seq<Move>, cameras: map<CamId, Camera>,
          nodes: map<NodeId, NodeSpec>, order: seq<NodeId>, m: Move, now: map<CamId, Placement>,
          next: map<CamId, Placement>)
    requires order != [] && Sized(nodes, order) && Moves(trace, moves, cameras, nodes, order)
    requires now == trace[|moves|] && CanMove(now, cameras, nodes, order, m)
    requires exists at :: next == now[m.cam := Placement(m.to, at)]
    ensures Moves(trace + [next], moves + [m], cameras, nodes, order)
  {
    var t, ms := trace + [next], moves + [m];
    forall i | 0 <= i < |ms| ensures MovedAt(t, ms, cameras, nodes, order, i) {
      if i < |moves| {
        assert MovedAt(trace, moves, cameras, nodes, order, i);
      }
    }
  }

  // ----- why rebalancing stops

  function Where(placed: map<CamId, Placement>): map<CamId, NodeId> {
    map c | c in placed :: placed[c].node
  }

  /** Every load is strictly below a tenth of every capacity. */
  ghost predicate SmallLoads(cameras: map<CamId, Camera>, nodes: map<NodeId, NodeSpec>) {
    forall c, n :: c in cameras && n in nodes ==> cameras[c].load < nodes[n].capacity / 10.0
  }

  function Weights(placed: map<CamId, Placement>, cameras: map<CamId, Camera>, nodes: map<NodeId, NodeSpec>,
          order: seq<NodeId>): map<NodeId, real>
    requires forall n :: n in order ==> n in nodes && nodes[n].capacity > 0.0
  {
    map n | n in order :: Weight(LoadOn(placed, cameras, n), nodes[n].capacity)
  }

  /** The sum of load^2 / capacity over the nodes. */
  function Potential(placed: map<CamId, Placement>, cameras: map<CamId, Camera>, nodes: map<NodeId, NodeSpec>,
          order: seq<NodeId>): real
    requires forall n :: n in order ==> n in nodes && nodes[n].capacity > 0.0
  {
    Sum(Weights(placed, cameras, nodes, order), order)
  }

  lemma SmallMove(L: real, H: real, l: real, h: real, c: real)
    requires H > 0.0 && h > 0.0 && 0.0 < c < H / 10.0 && c < h / 10.0
    requires L / H - l / h >= 0.10
    ensures Weight(L - c, H) + Weight(l + c, h) < Weight(L, H) + Weight(l, h)
  {
    var d := MoveChange(L, H, l, h, c);
    BelowATenth(c, H);
    BelowATenth(c, h);
    Lowers(c, d);
  }

  /** A move changes two of the weights. */
  lemma WeightsAfterMove(placed: map<CamId, Placement>, cameras: map<CamId, Camera>, nodes: map<NodeId, NodeSpec>,
          order: seq<NodeId>, m: Move, at: nat)
    requires order != [] && Sized(nodes, order)
    requires CanMove(placed, cameras, nodes, order, m)
    ensures m.from in nodes && m.to in nodes && m.cam in cameras
    ensures var H, h, c := nodes[m.from].capacity, nodes[m.to].capacity, cameras[m.cam].load;
            Weights(placed[m.cam := Placement(m.to, at)], cameras, nodes, order) ==
            Weights(placed, cameras, nodes, order)
            [m.from := Weight(LoadOn(placed, cameras, m.from) - c, H)]
            [m.to := Weight(LoadOn(placed, cameras, m.to) + c, h)]
  {
    forall n | n in order
      ensures LoadOn(placed[m.cam := Placement(m.to, at)], cameras, n) ==
              LoadOn(placed, cameras, n) + (if n == m.to then cameras[m.cam].load else 0.0)
              - (if n == m.from then cameras[m.cam].load else 0.0)
    {
      MoveChangesLoads(placed, cameras, m, at, n);
    }
    hide LoadOn, Weight;
  }

  /** Each move strictly lowers the sum. */
  lemma {:induction false} MoveLowersPotential(placed: map<CamId, Placement>, cameras: map<CamId, Camera>,
          nodes: map<NodeId, NodeSpec>, order: seq<NodeId>, m: Move, at: nat)
    requires order != [] && Sized(nodes, order) && Distinct(order)
    requires PositiveLoads(cameras) && SmallLoads(cameras, nodes)
    requires CanMove(placed, cameras, nodes, order, m)
    ensures Potential(placed[m.cam := Placement(m.to, at)], cameras, nodes, order)
            < Potential(placed, cameras, nodes, order)
  {
    WeightsAfterMove(placed, cameras, nodes, order, m, at);
    var f := Weights(placed, cameras, nodes, order);
    var H, h, c := nodes[m.from].capacity, nodes[m.to].capacity, cameras[m.cam].load;
    var L, l := LoadOn(placed, cameras, m.from), LoadOn(placed, cameras, m.to);
    var x := Weight(L - c, H);
    assert f[m.from] == Weight(L, H) && f[m.to] == Weight(l, h);
    SmallMove(L, H, l, h, c);
    hide LoadOn, Weight, Weights;
    SumUpdate(f, order, m.from, x);
    SumUpdate(f[m.from := x], order, m.to, Weight(l + c, h));
  }

  lemma {:induction false} PotentialFalls(trace: seq<map<CamId, Placement>>, moves: seq<Move>,
          cameras: map<CamId, Camera>, nodes: map<NodeId, NodeSpec>, order: seq<NodeId>, i: nat, j: nat)
    requires order != [] && Sized(nodes, order) && Distinct(order)
    requires PositiveLoads(cameras) && SmallLoads(cameras, nodes)
    requires Moves(trace, moves, cameras, nodes, order) && i < j <= |moves|
    ensures Potential(trace[j], cameras, nodes, order) < Potential(trace[i], cameras, nodes, order)
  {
    hide Potential, CanMove;
    assert MovedAt(trace, moves, cameras, nodes, order, j - 1);
    var at :| trace[j - 1 + 1] == trace[j - 1][moves[j - 1].cam := Placement(moves[j - 1].to, at)];
    MoveLowersPotential(trace[j - 1], cameras, nodes, order, moves[j - 1], at);
    if i < j - 1 {
      PotentialFalls(trace, moves, cameras, nodes, order, i, j - 1);
    }
  }

  lemma SameWhereSamePotential(p: map<CamId, Placement>, q: map<CamId, Placement>, cameras: map<CamId, Camera>,
          nodes: map<NodeId, NodeSpec>, order: seq<NodeId>)
    requires Sized(nodes, order) && Where(p) == Where(q)
    ensures Potential(p, cameras, nodes, order) == Potential(q, cameras, nodes, order)
  {
    forall c ensures c in p <==> c in q {
      assert c in Where(p) <==> c in p;
      assert c in Where(q) <==> c in q;
    }
    forall n ensures On(p, cameras, n) == On(q, cameras, n) {
      assert forall c :: c in p ==> p[c].node == Where(p)[c] && q[c].node == Where(q)[c];
    }
    assert Weights(p, cameras, nodes, order) == Weights(q, cameras, nodes, order);
  }

  /** No camera-to-node assignment ever repeats in a rebalance. */
  lemma NeverRepeats(trace: seq<map<CamId, Placement>>, moves: seq<Move>, cameras: map<CamId, Camera>,
          nodes: map<NodeId, NodeSpec>, order: seq<NodeId>, i: nat, j: nat)
    requires order != [] && Sized(nodes, order) && Distinct(order)
    requires PositiveLoads(cameras) && SmallLoads(cameras, nodes)
    requires Moves(trace, moves, cameras, nodes, order) && i < j <= |moves|
    ensures Where(trace[i]) != Where(trace[j])
  {
    PotentialFalls(trace, moves, cameras, nodes, order, i, j);
    if Where(trace[i]) == Where(trace[j]) {
      SameWhereSamePotential(trace[i], trace[j], cameras, nodes, order);
    }
  }

  /** Every way to seat the cameras `cs` on the nodes `ns`. */
  ghost function AllSeats(cs: set<CamId>, ns: set<NodeId>): set<map<CamId, NodeId>>
    decreases |cs|
  {
    if cs == {} then {map[]}
    else
      var c := Least(cs);
      set s, n | s in AllSeats(cs - {c}, ns) && n in ns :: s[c := n]
  }

  lemma {:induction false} AllSeatsHasAll(cs: set<CamId>, ns: set<NodeId>, s: map<CamId, NodeId>)
    requires s.Keys == cs && forall c :: c in s ==> s[c] in ns
    ensures s in AllSeats(cs, ns)
    decreases |cs|
  {
    if cs == {} {
      assert s == map[];
    } else {
      var c := Least(cs);
      var t := s - {c};
      AllSeatsHasAll(cs - {c}, ns, t);
      assert s == t[c := s[c]];
    }
  }

  /** Rebalancing stops even with an unbounded budget: it makes fewer moves
      than there are ways to seat the placed cameras. */
  lemma RebalanceStops(trace: seq<map<CamId, Placement>>, moves: seq<Move>, cameras: map<CamId, Camera>,
          nodes: map<NodeId, NodeSpec>, order: seq<NodeId>, was: map<CamId, Placement>, now: map<CamId, Placement>)
    requires order != [] && Sized(nodes, order) && Distinct(order)
    requires PositiveLoads(cameras) && SmallLoads(cameras, nodes)
    requires RebalanceRun(trace, moves, cameras, nodes, order, was, now)
    ensures |moves| < |AllSeats(was.Keys, nodes.Keys)|
  {
    var seats := seq(|trace|, i requires 0 <= i < |trace| => Where(trace[i]));
    forall i, j | 0 <= i < j < |seats| ensures seats[i] != seats[j] {
      NeverRepeats(trace, moves, cameras, nodes, order, i, j);
    }
    forall s | s in seats ensures s in AllSeats(was.Keys, nodes.Keys) {
      var i :| 0 <= i < |seats| && seats[i] == s;
      assert trace[i] in trace;
      SteadyIsASeating(trace[i], cameras, nodes, was);
    }
    DistinctFits(seats, AllSeats(was.Keys, nodes.Keys));
  }

  lemma SteadyIsASeating(p: map<CamId, Placement>, cameras: map<CamId, Camera>, nodes: map<NodeId, NodeSpec>,
          was: map<CamId, Placement>)
    requires Steady(p, cameras, nodes, was)
    ensures Where(p) in AllSeats(was.Keys, nodes.Keys)
  {
    assert forall c :: c in p ==> Seated(p, cameras, nodes, c);
    AllSeatsHasAll(was.Keys, nodes.Keys, Where(p));
  }

  /** The hypothesis on loads is not idle: a camera of half a node's capacity
      is moved to the other node, and from there back. */
  lemma BigCameraNeverSettles(at: nat)
    ensures var cameras := map[0 := Camera(5.0, {})];
            var nodes := map["a" := NodeSpec(10.0, {}), "b" := NodeSpec(10.0, {})];
            && CanMove(map[0 := Placement("a", at)], cameras, nodes, ["a", "b"], Move(0, "a", "b"))
            && CanMove(map[0 := Placement("b", at)], cameras, nodes, ["a", "b"], Move(0, "b", "a"))
  {
    HalfLoads("a", "b", at);
    HalfLoads("b", "a", at);
    var order := ["a", "b"];
    assert order[..1] == ["a"];
    var cameras := map[0 := Camera(5.0, {})];
    var nodes := map["a" := NodeSpec(10.0, {}), "b" := NodeSpec(10.0, {})];
    assert Candidates(map[0 := Placement("a", at)], cameras, nodes, "a", "b") == {0};
    assert Candidates(map[0 := Placement("b", at)], cameras, nodes, "b", "a") == {0};
  }

  lemma HalfLoads(here: NodeId, there: NodeId, at: nat)
    requires here != there
    ensures var cameras := map[0 := Camera(5.0, {})];
            LoadOn(map[0 := Placement(here, at)], cameras, here) == 5.0
            && LoadOn(map[0 := Placement(here, at)], cameras, there) == 0.0
  {
    var cameras: map<CamId, Camera> := map[0 := Camera(5.0, {})];
    var placed: map<CamId, Placement> := map[0 := Placement(here, at)];
    assert On(placed, cameras, here) == {0} && On(placed, cameras, there) == {};
    TotalSplits({0}, cameras, 0);
    assert {0} - {0} == {};
  }
}
