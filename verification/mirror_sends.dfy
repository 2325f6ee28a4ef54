/** What a mirror pass sends, to whom, and exactly when it is complete. */
module MirrorSends {
  import opened FiniteSets
  import opened Mirrors
  import opened MirrorLaws
  import opened Paths
  import opened Peers

  type Fails = (Server, Path) -> bool

  /** Held already, or the put goes through. */
  predicate Goes(have: set<Path>, peer: Server, fails: Fails, p: Path) {
    p in have || !fails(peer, p)
  }

  ghost predicate AllGo(have: set<Path>, peer: Server, fails: Fails, bs: seq<Path>) {
    forall i :: 0 <= i < |bs| ==> Goes(have, peer, fails, bs[i])
  }

  /** The bucket is in the list, and no put up to it fails. */
  ghost predicate Arrives(have: set<Path>, peer: Server, fails: Fails, bs: seq<Path>, p: Path) {
    exists i :: 0 <= i < |bs| && bs[i] == p && AllGo(have, peer, fails, bs[..i + 1])
  }

  lemma ArrivesOneMore(have: set<Path>, peer: Server, fails: Fails, bs: seq<Path>, p: Path)
    requires bs != []
    ensures Arrives(have, peer, fails, bs, p) <==>
            Arrives(have, peer, fails, bs[..|bs| - 1], p) || (bs[|bs| - 1] == p && AllGo(have, peer, fails, bs))
    ensures AllGo(have, peer, fails, bs) <==>
            AllGo(have, peer, fails, bs[..|bs| - 1]) && Goes(have, peer, fails, bs[|bs| - 1])
  {
    var n := |bs| - 1;
    if Arrives(have, peer, fails, bs, p) {
      var i :| 0 <= i < |bs| && bs[i] == p && AllGo(have, peer, fails, bs[..i + 1]);
      if i < n {
        assert bs[..n][..i + 1] == bs[..i + 1];
      } else {
        assert bs[..i + 1] == bs;
      }
    }
    if Arrives(have, peer, fails, bs[..n], p) {
      var i :| 0 <= i < n && bs[..n][i] == p && AllGo(have, peer, fails, bs[..n][..i + 1]);
      assert bs[..n][..i + 1] == bs[..i + 1];
    }
    if bs[n] == p && AllGo(have, peer, fails, bs) {
      assert bs[..n + 1] == bs;
    }
    assert forall i :: 0 <= i < n ==> bs[..n][i] == bs[i];
  }

  /** What one peer has of this owner's after being sent a list: what it had,
      and the owner's bytes of each bucket that arrived. The sending is
      complete exactly when every put that was needed went through. */
  ghost predicate SentSays(was: Tree, now: Tree, own: Tree, peer: Server, fails: Fails, bs: seq<Path>, ok: bool) {
    && (ok <==> AllGo(was.Keys, peer, fails, bs))
    && (forall p :: p in now <==> p in was || Arrives(was.Keys, peer, fails, bs, p))
    && (forall p :: p in now ==> if p in was then now[p] == was[p] else p in own && now[p] == own[p])
  }

  lemma OneMoreSent(was: Tree, now: Tree, own: Tree, peer: Server, fails: Fails, bs: seq<Path>, ok: bool)
    requires bs != [] && bs[|bs| - 1] in own
    requires SentSays(was, now, own, peer, fails, bs[..|bs| - 1], ok)
    ensures var b := bs[|bs| - 1];
            && (ok && b !in was && !fails(peer, b) ==> SentSays(was, now[b := own[b]], own, peer, fails, bs, true))
            && (!ok || b in was || fails(peer, b) ==> SentSays(was, now, own, peer, fails, bs, ok && b in was))
  {
    var init, b := bs[..|bs| - 1], bs[|bs| - 1];
    ArrivesOneMore(was.Keys, peer, fails, bs, b);
    forall p ensures Arrives(was.Keys, peer, fails, bs, p) <==>
                       Arrives(was.Keys, peer, fails, init, p) || (b == p && AllGo(was.Keys, peer, fails, bs))
    {
      ArrivesOneMore(was.Keys, peer, fails, bs, p);
    }
    hide Arrives, AllGo;
  }

  lemma {:induction false} SentIs(c: Cluster, me: Server, own: Tree, peer: Server, bs: seq<Path>, fails: Fails)
    requires peer in c && forall i :: 0 <= i < |bs| ==> bs[i] in own
    ensures var was := CopiesAt(c, peer, me);
            var (d, n, ok) := SentTo(c, me, own, peer, was.Keys, bs, fails);
            SentSays(was, CopiesAt(d, peer, me), own, peer, fails, bs, ok)
  {
    if bs != [] {
      var init, b := bs[..|bs| - 1], bs[|bs| - 1];
      var was := CopiesAt(c, peer, me);
      SentIs(c, me, own, peer, init, fails);
      var (d, n, ok) := SentTo(c, me, own, peer, was.Keys, init, fails);
      CopyLands(d, peer, me, b, own[b]);
      OneMoreSent(was, CopiesAt(d, peer, me), own, peer, fails, bs, ok);
      hide SentSays, CopiesAt, WithCopy;
    }
  }

  lemma ArrivedIsListed(have: set<Path>, peer: Server, fails: Fails, bs: seq<Path>, p: Path)
    ensures Arrives(have, peer, fails, bs, p) ==> p in bs
  {}

  /** How many copies the peers keep for this owner. */
  function Kept(c: Cluster, me: Server, peers: seq<Server>): nat {
    if peers == [] then 0 else Kept(c, me, peers[..|peers| - 1]) + |CopiesAt(c, peers[|peers| - 1], me)|
  }

  /** Each copy sent is counted. */
  lemma {:induction false} SentCounts(c: Cluster, me: Server, own: Tree, peer: Server, bs: seq<Path>, fails: Fails)
    requires peer in c && (forall i :: 0 <= i < |bs| ==> bs[i] in own) && Distinct(bs)
    ensures var was := CopiesAt(c, peer, me);
            var (d, n, ok) := SentTo(c, me, own, peer, was.Keys, bs, fails);
            |CopiesAt(d, peer, me)| == |was| + n
  {
    if bs != [] {
      var init, b := bs[..|bs| - 1], bs[|bs| - 1];
      var was := CopiesAt(c, peer, me);
      SentCounts(c, me, own, peer, init, fails);
      SentIs(c, me, own, peer, init, fails);
      var (d, n, ok) := SentTo(c, me, own, peer, was.Keys, init, fails);
      CopyLands(d, peer, me, b, own[b]);
      assert b !in init;
      ArrivedIsListed(was.Keys, peer, fails, init, b);
      hide Arrives, AllGo, CopiesAt, WithCopy;
    }
  }

  /** A peer that is there and takes everything it is offered. */
  ghost predicate Takes(c: Cluster, me: Server, peer: Server, lists: Lists, fails: Fails) {
    peer in c && AllGo(CopiesAt(c, peer, me).Keys, peer, fails, lists(peer))
  }

  ghost predicate AllTake(c: Cluster, me: Server, peers: seq<Server>, lists: Lists, fails: Fails) {
    forall j :: 0 <= j < |peers| ==> Takes(c, me, peers[j], lists, fails)
  }

  /** A pass over the peers: it is complete exactly when every peer is there
      and every put that was needed goes through; the peers behind the first
      that fails are not reached. */
  lemma {:induction false} PassIs(c: Cluster, me: Server, own: Tree, peers: seq<Server>, lists: Lists, fails: Fails,
          j: nat)
    requires ListsOwn(lists, own) && Distinct(peers)
    ensures var (d, n, ok) := SentToAll(c, me, own, peers, lists, fails);
            && OnlyCopies(c, d, me, peers)
            && (ok <==> AllTake(c, me, peers, lists, fails))
            && (j < |peers| ==>
                  var q := peers[j];
                  var was, now := CopiesAt(c, q, me), CopiesAt(d, q, me);
                  if q in c && AllTake(c, me, peers[..j], lists, fails)
                  then SentSays(was, now, own, q, fails, lists(q), Takes(c, me, q, lists, fails))
                  else now == was)
  {
    if peers != [] {
      var k := |peers| - 1;
      var init, peer := peers[..k], peers[k];
      PassIs(c, me, own, init, lists, fails, j);
      var (d, n, ok) := SentToAll(c, me, own, init, lists, fails);
      assert peers == init + [peer] && peer !in init;
      OnePeerMore(c, me, own, init, peer, lists, fails);
      assert AllTake(c, me, peers, lists, fails) <==>
             AllTake(c, me, init, lists, fails) && Takes(c, me, peer, lists, fails) by {
        assert forall i :: 0 <= i < k ==> init[i] == peers[i];
      }
      assert j < k ==> init[..j] == peers[..j] && peers[j] != peer;
      if ok && peer in d {
        SentIs(d, me, own, peer, lists(peer), fails);
        SentToIs(d, me, own, peer, lists(peer), fails);
        var e := SentTo(d, me, own, peer, CopiesAt(d, peer, me).Keys, lists(peer), fails).0;
        OnlyCopiesTwice(c, d, e, me, init, peer);
      }
      hide SentToAll, SentTo, SentSays, AllGo, CopiesAt, AllTake;
    }
  }

  lemma {:induction false} KeptSame(c: Cluster, d: Cluster, me: Server, peers: seq<Server>)
    requires forall i :: 0 <= i < |peers| ==> CopiesAt(d, peers[i], me) == CopiesAt(c, peers[i], me)
    ensures Kept(d, me, peers) == Kept(c, me, peers)
  {
    if peers != [] {
      KeptSame(c, d, me, peers[..|peers| - 1]);
    }
  }

  /** The count a pass reports, complete or not, is of the copies there are more. */
  lemma {:induction false} PassCounts(c: Cluster, me: Server, own: Tree, peers: seq<Server>, lists: Lists, fails: Fails)
    requires ListsOwn(lists, own) && Distinct(peers) && forall q :: Distinct(lists(q))
    ensures var (d, n, _) := SentToAll(c, me, own, peers, lists, fails);
            Kept(d, me, peers) == Kept(c, me, peers) + n
  {
    if peers != [] {
      var k := |peers| - 1;
      var init, peer := peers[..k], peers[k];
      PassCounts(c, me, own, init, lists, fails);
      PassIs(c, me, own, init, lists, fails, |init|);
      var (d, n, ok) := SentToAll(c, me, own, init, lists, fails);
      assert peers == init + [peer] && peer !in init;
      OnePeerMore(c, me, own, init, peer, lists, fails);
      if ok && peer in d {
        SentCounts(d, me, own, peer, lists(peer), fails);
        SentToIs(d, me, own, peer, lists(peer), fails);
        var e := SentTo(d, me, own, peer, CopiesAt(d, peer, me).Keys, lists(peer), fails).0;
        KeptSame(d, e, me, init);
      }
      hide SentToAll, SentTo, AllTake, CopiesAt;
    }
  }

  // ----- which buckets may be listed

  /** A bucket may be copied once its span is over, except under a directory
      with a leading dot; and nothing else may. */
  lemma ClosedIs(subsystem: string, unit: string, epoch: nat, start: int, now: real, seconds: nat)
    ensures ClosedAt(BucketPath(subsystem, unit, epoch, start), now, seconds) <==>
            start as real + seconds as real <= now && (subsystem == "" || subsystem[0] != '.')
  {
    BucketPathReadsBack(subsystem, unit, epoch, start);
  }
}
