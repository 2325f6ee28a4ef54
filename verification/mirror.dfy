/** Copies of closed buckets, left with the next live servers, and the way back. */
module Mirrors {
  import opened Paths
  import opened Peers

  type Tree = map<Path, string>

  /** A server's buckets, and the copies it keeps for others. */
  datatype Node = Node(own: Tree, copies: map<Server, Tree>)
  type Cluster = map<Server, Node>

  function CopiesAt(c: Cluster, peer: Server, owner: Server): Tree {
    if peer in c && owner in c[peer].copies then c[peer].copies[owner] else map[]
  }

  function OwnOf(c: Cluster, s: Server): Tree {
    if s in c then c[s].own else map[]
  }

  /** A bucket whose span is over. A directory with a leading dot is no subsystem. */
  predicate ClosedAt(p: Path, now: real, seconds: nat) {
    && ParseBucket(p).Some? && (p.dirs[0] == "" || p.dirs[0][0] != '.')
    && (ParseBucket(p).value.start + seconds) as real <= now
  }

  function ClosedOf(own: Tree, now: real, seconds: nat): Tree {
    map p | p in own && ClosedAt(p, now, seconds) :: own[p]
  }

  /** `put`: a copy appears whole or not at all. */
  function WithCopy(c: Cluster, peer: Server, owner: Server, p: Path, data: string): Cluster
    requires peer in c
  {
    c[peer := c[peer].(copies := c[peer].copies[owner := CopiesAt(c, peer, owner)[p := data]])]
  }

  /** The buckets `bs` offered to one peer that says it has `have`: the cluster,
      how many were sent, and whether every put went through. */
  function SentTo(c: Cluster, me: Server, own: Tree, peer: Server, have: set<Path>, bs: seq<Path>,
          fails: (Server, Path) -> bool): (r: (Cluster, nat, bool))
    requires peer in c && forall i :: 0 <= i < |bs| ==> bs[i] in own
    ensures peer in r.0
  {
    if bs == [] then (c, 0, true)
    else
      var (d, n, ok) := SentTo(c, me, own, peer, have, bs[..|bs| - 1], fails);
      var p := bs[|bs| - 1];
      if !ok || p in have then (d, n, ok)
      else if fails(peer, p) then (d, n, false)
      else (WithCopy(d, peer, me, p, own[p]), n + 1, true)
  }

  /** What a server lists as closed for each of its peers; the list is made
      anew each time, so a bucket may close between two of them. */
  type Lists = Server -> seq<Path>

  ghost predicate ListsOwn(lists: Lists, own: Tree) {
    forall q, i :: 0 <= i < |lists(q)| ==> lists(q)[i] in own
  }

  /** One peer more: it gets nothing once a peer has failed to answer. */
  ghost function SentOn(r: (Cluster, nat, bool), me: Server, own: Tree, peer: Server, lists: Lists,
          fails: (Server, Path) -> bool): (t: (Cluster, nat, bool))
    requires ListsOwn(lists, own)
    ensures r.0.Keys == t.0.Keys
  {
    if !r.2 || peer !in r.0 then (r.0, r.1, false)
    else
      SentToKeys(r.0, me, own, peer, CopiesAt(r.0, peer, me).Keys, lists(peer), fails);
      var (e, m, fine) := SentTo(r.0, me, own, peer, CopiesAt(r.0, peer, me).Keys, lists(peer), fails);
      (e, r.1 + m, fine)
  }

  ghost function SentToAll(c: Cluster, me: Server, own: Tree, peers: seq<Server>, lists: Lists,
          fails: (Server, Path) -> bool): (r: (Cluster, nat, bool))
    requires ListsOwn(lists, own)
    ensures c.Keys == r.0.Keys
  {
    if peers == [] then (c, 0, true)
    else
      SentOn(SentToAll(c, me, own, peers[..|peers| - 1], lists, fails), me, own, peers[|peers| - 1], lists, fails)
  }

  lemma {:induction false} SentToKeys(c: Cluster, me: Server, own: Tree, peer: Server, have: set<Path>, bs: seq<Path>,
          fails: (Server, Path) -> bool)
    requires peer in c && forall i :: 0 <= i < |bs| ==> bs[i] in own
    ensures SentTo(c, me, own, peer, have, bs, fails).0.Keys == c.Keys
  {
    if bs != [] {
      SentToKeys(c, me, own, peer, have, bs[..|bs| - 1], fails);
    }
  }

  lemma OnePeerMore(c: Cluster, me: Server, own: Tree, peers: seq<Server>, peer: Server, lists: Lists,
          fails: (Server, Path) -> bool)
    requires ListsOwn(lists, own)
    ensures SentToAll(c, me, own, peers + [peer], lists, fails) ==
            SentOn(SentToAll(c, me, own, peers, lists, fails), me, own, peer, lists, fails)
  {
    assert (peers + [peer])[..|peers + [peer]| - 1] == peers;
    hide SentOn;
  }

  /** What a restore pulls home: from each holder in turn, what is not there yet. */
  function Pulled(own: Tree, c: Cluster, me: Server, holders: seq<Server>): Tree {
    if holders == [] then own
    else CopiesAt(c, holders[|holders| - 1], me) + Pulled(own, c, me, holders[..|holders| - 1])
  }

  class Fleet {
    var nodes: Cluster

    constructor (nodes: Cluster)
      ensures this.nodes == nodes
    {
      this.nodes := nodes;
    }

    /** One server's mirror pass. */
    method Mirror(me: Server, live: seq<Server>, enabled: bool, copies: int, lists: Lists,
            fails: (Server, Path) -> bool)
      returns (n: nat, ok: bool)
      requires me in nodes && ListsOwn(lists, nodes[me].own)
      modifies this
      ensures !enabled ==> nodes == old(nodes) && n == 0 && ok
      ensures enabled ==>
                (nodes, n, ok) == SentToAll(old(nodes), me, old(nodes)[me].own, PeersOf(me, live, copies), lists, fails)
    {
      if !enabled {
        return 0, true;
      }
      n, ok := SendAll(me, nodes[me].own, PeersOf(me, live, copies), lists, fails);
    }

    method SendAll(me: Server, own: Tree, peers: seq<Server>, lists: Lists, fails: (Server, Path) -> bool)
      returns (n: nat, ok: bool)
      requires ListsOwn(lists, own)
      modifies this
      ensures (nodes, n, ok) == SentToAll(old(nodes), me, own, peers, lists, fails)
    {
      n, ok := 0, true;
      ghost var c := nodes;
      assert (c, 0, true) == SentToAll(c, me, own, peers[..0], lists, fails);
      hide *;
      for i := 0 to |peers|
        invariant ok && (nodes, n, true) == SentToAll(c, me, own, peers[..i], lists, fails)
      {
        assert peers[..i + 1] == peers[..i] + [peers[i]];
        OnePeerMore(c, me, own, peers[..i], peers[i], lists, fails);
        var m;
        m, ok := SendOn(n, me, own, peers[i], lists, fails);
        n := n + m;
        if !ok {
          AllStopShort(c, me, own, peers, lists, fails, i + 1);
          return;
        }
      }
      assert peers[..|peers|] == peers;
    }

    /** To one peer, after `n` copies to others; a server that is gone ends
        the pass. */
    method SendOn(ghost n: nat, me: Server, own: Tree, peer: Server, lists: Lists, fails: (Server, Path) -> bool)
      returns (m: nat, ok: bool)
      requires ListsOwn(lists, own)
      modifies this
      ensures (nodes, n + m, ok) == SentOn((old(nodes), n, true), me, own, peer, lists, fails)
    {
      if peer !in nodes {
        return 0, false;
      }
      m, ok := Send(me, own, peer, lists(peer), fails);
    }

    method Send(me: Server, own: Tree, peer: Server, bs: seq<Path>, fails: (Server, Path) -> bool)
      returns (n: nat, ok: bool)
      requires peer in nodes && forall i :: 0 <= i < |bs| ==> bs[i] in own
      modifies this
      ensures (nodes, n, ok) == SentTo(old(nodes), me, own, peer, CopiesAt(old(nodes), peer, me).Keys, bs, fails)
    {
      var have := CopiesAt(nodes, peer, me).Keys;
      ghost var c := nodes;
      n := 0;
      for i := 0 to |bs|
        invariant (nodes, n, true) == SentTo(c, me, own, peer, have, bs[..i], fails)
      {
        assert bs[..i + 1][..i] == bs[..i];
        if bs[i] !in have {
          if fails(peer, bs[i]) {
            StopShort(c, me, own, peer, have, bs, fails, i + 1);
            return n, false;
          }
          nodes := WithCopy(nodes, peer, me, bs[i], own[bs[i]]);
          n := n + 1;
        }
      }
      assert bs[..|bs|] == bs;
      ok := true;
    }

    /** Run by the owner: pull my buckets from whoever holds copies. */
    method Restore(me: Server, holders: seq<Server>) returns (pulled: nat)
      requires me in nodes && me !in holders
      modifies this
      ensures var own := old(nodes)[me].own;
              var home := Pulled(own, old(nodes), me, holders);
              && nodes == old(nodes)[me := old(nodes)[me].(own := home)]
              && |home| == |own| + pulled
    {
      pulled := 0;
      var own := nodes[me].own;
      ghost var was := own;
      for i := 0 to |holders|
        invariant nodes == old(nodes) && own == Pulled(was, nodes, me, holders[..i])
        invariant |own| == |was| + pulled
      {
        assert holders[..i + 1][..i] == holders[..i];
        var n;
        own, n := PullFrom(CopiesAt(nodes, holders[i], me), own);
        pulled := pulled + n;
      }
      assert holders[..|holders|] == holders;
      nodes := nodes[me := nodes[me].(own := own)];
    }
  }

  /** With `rest` still to look at, `own` is what was here and every copy
      looked at that was not. */
  ghost predicate PulledBut(copies: Tree, before: Tree, rest: set<Path>, own: Tree) {
    && rest <= copies.Keys
    && (forall p :: p in own <==> p in before || (p in copies && p !in rest))
    && (forall p :: p in own ==> own[p] == if p in before then before[p] else copies[p])
  }

  lemma OneMorePulled(copies: Tree, before: Tree, rest: set<Path>, own: Tree, p: Path)
    requires PulledBut(copies, before, rest, own) && p in rest
    ensures p in copies
    ensures PulledBut(copies, before, rest - {p}, if p in own then own else own[p := copies[p]])
  {}

  lemma AllPulled(copies: Tree, before: Tree, own: Tree)
    requires PulledBut(copies, before, {}, own)
    ensures own == copies + before
  {}

  /** From one holder, what is not here yet. */
  method PullFrom(copies: Tree, before: Tree) returns (own: Tree, pulled: nat)
    ensures own == copies + before && |own| == |before| + pulled
  {
    own, pulled := before, 0;
    var rest := copies.Keys;
    assert PulledBut(copies, before, rest, own);
    hide PulledBut;
    while rest != {}
      invariant PulledBut(copies, before, rest, own) && |own| == |before| + pulled
      decreases |rest|
    {
      var p :| p in rest;
      OneMorePulled(copies, before, rest, own, p);
      if p !in own {
        own, pulled := own[p := copies[p]], pulled + 1;
      }
      rest := rest - {p};
    }
    AllPulled(copies, before, own);
  }

  lemma {:induction false} StopShort(c: Cluster, me: Server, own: Tree, peer: Server, have: set<Path>, bs: seq<Path>,
          fails: (Server, Path) -> bool, n: nat)
    requires peer in c && forall i :: 0 <= i < |bs| ==> bs[i] in own
    requires n <= |bs| && !SentTo(c, me, own, peer, have, bs[..n], fails).2
    ensures SentTo(c, me, own, peer, have, bs, fails) == SentTo(c, me, own, peer, have, bs[..n], fails)
    decreases |bs|
  {
    if n < |bs| {
      assert bs[..|bs| - 1][..n] == bs[..n];
      StopShort(c, me, own, peer, have, bs[..|bs| - 1], fails, n);
    } else {
      assert bs[..n] == bs;
    }
  }

  lemma {:induction false} AllStopShort(c: Cluster, me: Server, own: Tree, peers: seq<Server>, lists: Lists,
          fails: (Server, Path) -> bool, n: nat)
    requires ListsOwn(lists, own)
    requires n <= |peers| && !SentToAll(c, me, own, peers[..n], lists, fails).2
    ensures SentToAll(c, me, own, peers, lists, fails) == SentToAll(c, me, own, peers[..n], lists, fails)
    decreases |peers|
  {
    if n < |peers| {
      assert peers[..|peers| - 1][..n] == peers[..n];
      AllStopShort(c, me, own, peers[..|peers| - 1], lists, fails, n);
    } else {
      assert peers[..n] == peers;
    }
  }
}
