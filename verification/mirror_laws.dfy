/** What a mirror pass leaves, and what a restore brings home. */
module MirrorLaws {
  import opened Mirrors
  import opened Paths
  import opened Peers

  // ----- one pass

  /** Copies are only added, each with the bytes of the original. */
  ghost predicate Grew(was: Tree, now: Tree, own: Tree, bs: seq<Path>) {
    && (forall p :: p in was ==> p in now && now[p] == was[p])
    && (forall p :: p in now ==> p in was || (p in bs && p in own && now[p] == own[p]))
  }

  /** Nothing moved but the copies `peer` keeps for `me`. */
  ghost predicate OnlyCopies(c: Cluster, d: Cluster, me: Server, peers: seq<Server>) {
    && c.Keys == d.Keys
    && (forall s :: s in c ==> d[s].own == c[s].own)
    && (forall q, o :: q !in peers || o != me ==> CopiesAt(d, q, o) == CopiesAt(c, q, o))
  }

  lemma CopyLands(c: Cluster, peer: Server, owner: Server, p: Path, data: string)
    requires peer in c
    ensures var d := WithCopy(c, peer, owner, p, data);
            && OnlyCopies(c, d, owner, [peer])
            && CopiesAt(d, peer, owner) == CopiesAt(c, peer, owner)[p := data]
  {}

  lemma {:induction false} SentToIs(c: Cluster, me: Server, own: Tree, peer: Server, bs: seq<Path>,
          fails: (Server, Path) -> bool)
    requires peer in c && forall i :: 0 <= i < |bs| ==> bs[i] in own
    ensures var have := CopiesAt(c, peer, me).Keys;
            var (d, n, ok) := SentTo(c, me, own, peer, have, bs, fails);
            && OnlyCopies(c, d, me, [peer])
            && Grew(CopiesAt(c, peer, me), CopiesAt(d, peer, me), own, bs)
            && (ok ==> forall p :: p in bs ==> p in CopiesAt(d, peer, me))
  {
    if bs != [] {
      var init, p := bs[..|bs| - 1], bs[|bs| - 1];
      var have := CopiesAt(c, peer, me).Keys;
      SentToIs(c, me, own, peer, init, fails);
      var d := SentTo(c, me, own, peer, have, init, fails).0;
      CopyLands(d, peer, me, p, own[p]);
      assert bs == init + [p];
    }
  }

  lemma GrewTwice(a: Tree, b: Tree, c: Tree, own: Tree, bs: seq<Path>)
    requires Grew(a, b, own, bs) && Grew(b, c, own, bs)
    ensures Grew(a, c, own, bs)
  {}

  lemma OnlyCopiesTwice(c: Cluster, d: Cluster, e: Cluster, me: Server, peers: seq<Server>, peer: Server)
    requires OnlyCopies(c, d, me, peers) && OnlyCopies(d, e, me, [peer])
    ensures OnlyCopies(c, e, me, peers + [peer])
  {}

  lemma {:induction false} SentToAllIs(c: Cluster, me: Server, own: Tree, peers: seq<Server>, lists: Lists,
          fails: (Server, Path) -> bool)
    requires ListsOwn(lists, own)
    ensures var d := SentToAll(c, me, own, peers, lists, fails).0;
            && OnlyCopies(c, d, me, peers)
            && forall q :: Grew(CopiesAt(c, q, me), CopiesAt(d, q, me), own, lists(q))
  {
    hide SentTo, CopiesAt;
    if peers != [] {
      var init, peer := peers[..|peers| - 1], peers[|peers| - 1];
      SentToAllIs(c, me, own, init, lists, fails);
      var (d, n, ok) := SentToAll(c, me, own, init, lists, fails);
      assert peers == init + [peer];
      if ok && peer in d {
        SentToIs(d, me, own, peer, lists(peer), fails);
        var e := SentToAll(c, me, own, peers, lists, fails).0;
        OnlyCopiesTwice(c, d, e, me, init, peer);
        forall q ensures Grew(CopiesAt(c, q, me), CopiesAt(e, q, me), own, lists(q)) {
          if q == peer {
            GrewTwice(CopiesAt(c, q, me), CopiesAt(d, q, me), CopiesAt(e, q, me), own, lists(q));
          } else {
            assert CopiesAt(e, q, me) == CopiesAt(d, q, me);
          }
        }
      }
    }
  }

  lemma {:induction false} SentToAllComplete(c: Cluster, me: Server, own: Tree, peers: seq<Server>, lists: Lists,
          fails: (Server, Path) -> bool)
    requires ListsOwn(lists, own)
    requires SentToAll(c, me, own, peers, lists, fails).2
    ensures var d := SentToAll(c, me, own, peers, lists, fails).0;
            forall q :: q in peers ==> q in d && forall p :: p in lists(q) ==> p in CopiesAt(d, q, me)
  {
    hide SentTo, CopiesAt;
    if peers != [] {
      var init, peer := peers[..|peers| - 1], peers[|peers| - 1];
      SentToAllComplete(c, me, own, init, lists, fails);
      var d := SentToAll(c, me, own, init, lists, fails).0;
      assert peers == init + [peer];
      SentToIs(d, me, own, peer, lists(peer), fails);
      var e := SentToAll(c, me, own, peers, lists, fails).0;
      forall q, p | q in peers && p in lists(q) ensures p in CopiesAt(e, q, me) {
        assert q == peer || q in init;
        assert q != peer ==> CopiesAt(e, q, me) == CopiesAt(d, q, me);
      }
    }
  }

  lemma {:induction false} NothingToSend(c: Cluster, me: Server, own: Tree, peer: Server, have: set<Path>,
          bs: seq<Path>, fails: (Server, Path) -> bool)
    requires peer in c && forall i :: 0 <= i < |bs| ==> bs[i] in own && bs[i] in have
    ensures SentTo(c, me, own, peer, have, bs, fails) == (c, 0, true)
  {
    if bs != [] {
      NothingToSend(c, me, own, peer, have, bs[..|bs| - 1], fails);
    }
  }

  /** A pass whose peers hold everything copies nothing, whoever would answer. */
  lemma {:induction false} SecondPassCopiesNothing(c: Cluster, me: Server, own: Tree, peers: seq<Server>, lists: Lists,
          fails: (Server, Path) -> bool)
    requires ListsOwn(lists, own)
    requires forall q, p :: q in peers && p in lists(q) ==> p in CopiesAt(c, q, me)
    requires forall q :: q in peers ==> q in c
    ensures SentToAll(c, me, own, peers, lists, fails) == (c, 0, true)
  {
    if peers != [] {
      var init, peer := peers[..|peers| - 1], peers[|peers| - 1];
      assert peers == init + [peer];
      SecondPassCopiesNothing(c, me, own, init, lists, fails);
      assert forall i :: 0 <= i < |lists(peer)| ==> lists(peer)[i] in lists(peer);
      NothingToSend(c, me, own, peer, CopiesAt(c, peer, me).Keys, lists(peer), fails);
    }
  }

  // ----- every run

  datatype State = State(c: Cluster, now: real)

  /** A pass lists its closed buckets for peer `q` at `times(q)` and ends at
      `until`. A wiped disk is empty: its own buckets are gone, and so are the
      copies it kept for others. */
  datatype Op =
    | Tick(now: real)
    | Write(s: Server, p: Path, data: string)            // into a bucket that is still open
    | Pass(s: Server, live: seq<Server>, copies: int, lists: Lists, times: Server -> real, until: real,
        fails: (Server, Path) -> bool)
    | Retain(s: Server, gone: set<Path>)                 // the owner's retention
    | Wipe(s: Server)
    | Home(s: Server, holders: seq<Server>)              // restore

  ghost predicate ListsClosed(bs: seq<Path>, own: Tree, now: real, seconds: nat) {
    forall p :: p in bs <==> p in ClosedOf(own, now, seconds)
  }

  ghost predicate Possible(x: State, op: Op, seconds: nat) {
    match op
    case Tick(now) => x.now <= now
    case Write(s, p, _) => s in x.c && ParseBucket(p).Some? && !ClosedAt(p, x.now, seconds)
    case Pass(s, _, _, lists, times, until, _) =>
      && s in x.c && x.now <= until
      && forall q :: x.now <= times(q) <= until && ListsClosed(lists(q), x.c[s].own, times(q), seconds)
    case Retain(s, _) => s in x.c
    case Wipe(s) => s in x.c
    case Home(s, holders) => s in x.c && s !in holders
  }

  function WithOwn(c: Cluster, s: Server, own: Tree): Cluster
    requires s in c
  {
    c[s := c[s].(own := own)]
  }

  /** What `op`, a pass, leaves: the cluster, the number of copies sent, and
      whether every peer answered throughout. */
  ghost function Passed(x: State, op: Op, seconds: nat): (Cluster, nat, bool)
    requires op.Pass? && Possible(x, op, seconds)
  {
    ListedAreOwn(x, op, seconds);
    SentToAll(x.c, op.s, x.c[op.s].own, PeersOf(op.s, op.live, op.copies), op.lists, op.fails)
  }

  lemma ListedAreOwn(x: State, op: Op, seconds: nat)
    requires op.Pass? && Possible(x, op, seconds)
    ensures ListsOwn(op.lists, x.c[op.s].own)
  {
    forall q, i | 0 <= i < |op.lists(q)| ensures op.lists(q)[i] in x.c[op.s].own {
      assert ListsClosed(op.lists(q), x.c[op.s].own, op.times(q), seconds);
      assert op.lists(q)[i] in op.lists(q);
    }
  }

  ghost function Next(x: State, op: Op, seconds: nat): State
    requires Possible(x, op, seconds)
  {
    match op
    case Tick(now) => x.(now := now)
    case Write(s, p, data) => x.(c := WithOwn(x.c, s, x.c[s].own[p := data]))
    case Pass(_, _, _, _, _, until, _) => State(Passed(x, op, seconds).0, until)
    case Retain(s, gone) => x.(c := WithOwn(x.c, s, x.c[s].own - gone))
    case Wipe(s) => x.(c := x.c[s := Node(map[], map[])])
    case Home(s, holders) => x.(c := WithOwn(x.c, s, Pulled(x.c[s].own, x.c, s, holders)))
  }

  /** A copy is of a closed bucket, and has the bytes of the original where
      that is still there. */
  ghost predicate CopyTrue(x: State, seconds: nat, q: Server, o: Server, p: Path) {
    p in CopiesAt(x.c, q, o) ==>
      ClosedAt(p, x.now, seconds) && (p in OwnOf(x.c, o) ==> OwnOf(x.c, o)[p] == CopiesAt(x.c, q, o)[p])
  }

  /** Two copies of a bucket have the same bytes. */
  ghost predicate CopiesAlike(x: State, q: Server, q': Server, o: Server, p: Path) {
    p in CopiesAt(x.c, q, o) && p in CopiesAt(x.c, q', o) ==> CopiesAt(x.c, q, o)[p] == CopiesAt(x.c, q', o)[p]
  }

  ghost predicate CopiesTrue(x: State, seconds: nat) {
    && (forall q, o, p :: CopyTrue(x, seconds, q, o, p))
    && (forall q, q', o, p :: CopiesAlike(x, q, q', o, p))
  }

  lemma OwnChanged(c: Cluster, s: Server, own: Tree)
    requires s in c
    ensures forall q, o :: CopiesAt(WithOwn(c, s, own), q, o) == CopiesAt(c, q, o)
    ensures forall o :: OwnOf(WithOwn(c, s, own), o) == if o == s then own else OwnOf(c, o)
  {}

  lemma WipeLoses(c: Cluster, s: Server)
    requires s in c
    ensures var d := c[s := Node(map[], map[])];
            && (forall q, o :: CopiesAt(d, q, o) == if q == s then map[] else CopiesAt(c, q, o))
            && (forall o :: OwnOf(d, o) == if o == s then map[] else OwnOf(c, o))
  {}

  /** A pass changes no server's own buckets. */
  lemma PassKeepsOwn(x: State, op: Op, seconds: nat)
    requires op.Pass? && Possible(x, op, seconds)
    ensures var d := Passed(x, op, seconds).0; d.Keys == x.c.Keys && forall o :: OwnOf(d, o) == OwnOf(x.c, o)
  {
    ListedAreOwn(x, op, seconds);
    hide SentToAll, PeersOf;
    SentToAllIs(x.c, op.s, x.c[op.s].own, PeersOf(op.s, op.live, op.copies), op.lists, op.fails);
  }

  /** Copies stay; a new one is of the owner's bucket, closed by the end of the
      pass, with its bytes. */
  lemma PassCopies(x: State, op: Op, seconds: nat, q: Server, o: Server, p: Path)
    requires op.Pass? && Possible(x, op, seconds)
    ensures var d := Passed(x, op, seconds).0;
            && (p in CopiesAt(x.c, q, o) ==>
                  p in CopiesAt(d, q, o) && CopiesAt(d, q, o)[p] == CopiesAt(x.c, q, o)[p])
            && (p in CopiesAt(d, q, o) && p !in CopiesAt(x.c, q, o) ==>
                  && o == op.s && p in OwnOf(x.c, o) && CopiesAt(d, q, o)[p] == OwnOf(x.c, o)[p]
                  && ClosedAt(p, op.until, seconds))
  {
    var own, peers := x.c[op.s].own, PeersOf(op.s, op.live, op.copies);
    ListedAreOwn(x, op, seconds);
    OwnIs(x.c, op.s);
    hide SentToAll, PeersOf, CopiesAt;
    SentToAllIs(x.c, op.s, own, peers, op.lists, op.fails);
    if o == op.s {
      assert Grew(CopiesAt(x.c, q, o), CopiesAt(Passed(x, op, seconds).0, q, o), own, op.lists(q));
      assert ListsClosed(op.lists(q), own, op.times(q), seconds);
    }
  }

  lemma PassKeepsTrue(x: State, op: Op, seconds: nat)
    requires CopiesTrue(x, seconds) && op.Pass? && Possible(x, op, seconds)
    ensures CopiesTrue(Next(x, op, seconds), seconds)
  {
    var y := Next(x, op, seconds);
    assert y == State(Passed(x, op, seconds).0, op.until);
    PassKeepsOwn(x, op, seconds);
    assert x.now <= op.until;
    hide Passed, CopiesAt, OwnOf, Possible;
    forall q, o, p ensures CopyTrue(y, seconds, q, o, p) {
      assert CopyTrue(x, seconds, q, o, p);
      PassCopies(x, op, seconds, q, o, p);
    }
    forall q, q', o, p ensures CopiesAlike(y, q, q', o, p) {
      assert CopiesAlike(x, q, q', o, p) && CopyTrue(x, seconds, q, o, p) && CopyTrue(x, seconds, q', o, p);
      PassCopies(x, op, seconds, q, o, p);
      PassCopies(x, op, seconds, q', o, p);
    }
  }

  lemma WipeKeepsTrue(x: State, s: Server, seconds: nat)
    requires CopiesTrue(x, seconds) && s in x.c
    ensures CopiesTrue(x.(c := x.c[s := Node(map[], map[])]), seconds)
  {
    var y := x.(c := x.c[s := Node(map[], map[])]);
    WipeLoses(x.c, s);
    hide CopiesAt, OwnOf;
    forall q, o, p ensures CopyTrue(y, seconds, q, o, p) {
      assert CopyTrue(x, seconds, q, o, p);
    }
    forall q, q', o, p ensures CopiesAlike(y, q, q', o, p) {
      assert CopiesAlike(x, q, q', o, p);
    }
  }

  lemma {:induction false} PulledIs(own: Tree, c: Cluster, me: Server, holders: seq<Server>)
    ensures forall p :: p in own ==> p in Pulled(own, c, me, holders) && Pulled(own, c, me, holders)[p] == own[p]
    ensures forall p :: p in Pulled(own, c, me, holders) && p !in own ==>
              exists h :: h in holders && p in CopiesAt(c, h, me) &&
                  Pulled(own, c, me, holders)[p] == CopiesAt(c, h, me)[p]
    ensures forall h, p :: h in holders && p in CopiesAt(c, h, me) ==> p in Pulled(own, c, me, holders)
  {
    hide CopiesAt;
    if holders != [] {
      var init, h := holders[..|holders| - 1], holders[|holders| - 1];
      PulledIs(own, c, me, init);
      assert holders == init + [h];
      var before, after := Pulled(own, c, me, init), Pulled(own, c, me, holders);
      forall p | p in after && p !in own
        ensures exists h :: h in holders && p in CopiesAt(c, h, me) && after[p] == CopiesAt(c, h, me)[p]
      {
        if p in before {
          var g :| g in init && p in CopiesAt(c, g, me) && before[p] == CopiesAt(c, g, me)[p];
          assert g in holders;
        } else {
          assert h in holders;
        }
      }
    }
  }

  lemma HomeKeepsTrue(x: State, op: Op, seconds: nat)
    requires CopiesTrue(x, seconds) && op.Home? && Possible(x, op, seconds)
    ensures CopiesTrue(Next(x, op, seconds), seconds)
  {
    hide CopiesAt, Pulled;
    var own := x.c[op.s].own;
    var home := Pulled(own, x.c, op.s, op.holders);
    PulledIs(own, x.c, op.s, op.holders);
    assert OwnOf(x.c, op.s) == own;
    forall q, p | p in CopiesAt(x.c, q, op.s) && p in home ensures home[p] == CopiesAt(x.c, q, op.s)[p] {
      assert CopyTrue(x, seconds, q, op.s, p);
      if p !in own {
        var h :| h in op.holders && p in CopiesAt(x.c, h, op.s) && home[p] == CopiesAt(x.c, h, op.s)[p];
        assert CopiesAlike(x, q, h, op.s, p);
      }
    }
    OwnKeepsTrue(x, op.s, home, seconds);
  }

  /** A server's own tree may change as long as it contradicts no copy. */
  lemma OwnKeepsTrue(x: State, s: Server, own: Tree, seconds: nat)
    requires CopiesTrue(x, seconds) && s in x.c
    requires forall q, p :: p in CopiesAt(x.c, q, s) && p in own ==> own[p] == CopiesAt(x.c, q, s)[p]
    ensures CopiesTrue(x.(c := WithOwn(x.c, s, own)), seconds)
  {
    hide CopiesAt, ClosedAt;
    var y := x.(c := WithOwn(x.c, s, own));
    OwnChanged(x.c, s, own);
    forall q, o, p ensures CopyTrue(y, seconds, q, o, p) {
      assert CopyTrue(x, seconds, q, o, p);
    }
    forall q, q', o, p ensures CopiesAlike(y, q, q', o, p) {
      assert CopiesAlike(x, q, q', o, p);
    }
  }

  lemma TickKeepsTrue(x: State, now: real, seconds: nat)
    requires CopiesTrue(x, seconds) && x.now <= now
    ensures CopiesTrue(x.(now := now), seconds)
  {
    hide CopiesAt, OwnOf;
    forall q, o, p ensures CopyTrue(x.(now := now), seconds, q, o, p) {
      assert CopyTrue(x, seconds, q, o, p);
    }
    forall q, q', o, p ensures CopiesAlike(x.(now := now), q, q', o, p) {
      assert CopiesAlike(x, q, q', o, p);
    }
  }

  lemma StepKeepsTrue(x: State, op: Op, seconds: nat)
    requires CopiesTrue(x, seconds) && Possible(x, op, seconds)
    ensures CopiesTrue(Next(x, op, seconds), seconds)
  {
    hide CopiesTrue, CopiesAt, WithOwn;
    match op
    case Tick(now) =>
      TickKeepsTrue(x, now, seconds);
    case Write(s, p, data) =>
      OwnAgrees(x, s, seconds);
      NoCopyYet(x, s, p, seconds);
      OwnKeepsTrue(x, s, x.c[s].own[p := data], seconds);
    case Pass(_, _, _, _, _, _, _) =>
      PassKeepsTrue(x, op, seconds);
    case Retain(s, gone) =>
      OwnAgrees(x, s, seconds);
      OwnKeepsTrue(x, s, x.c[s].own - gone, seconds);
    case Wipe(s) =>
      WipeKeepsTrue(x, s, seconds);
    case Home(_, _) =>
      HomeKeepsTrue(x, op, seconds);
  }

  lemma OwnAgrees(x: State, s: Server, seconds: nat)
    requires CopiesTrue(x, seconds) && s in x.c
    ensures forall q, p :: p in CopiesAt(x.c, q, s) && p in x.c[s].own ==> x.c[s].own[p] == CopiesAt(x.c, q, s)[p]
  {
    hide CopiesAt;
    forall q, p | p in CopiesAt(x.c, q, s) && p in x.c[s].own ensures x.c[s].own[p] == CopiesAt(x.c, q, s)[p] {
      assert CopyTrue(x, seconds, q, s, p);
    }
  }

  /** Nobody keeps a copy of a bucket that is still open. */
  lemma NoCopyYet(x: State, s: Server, p: Path, seconds: nat)
    requires CopiesTrue(x, seconds) && !ClosedAt(p, x.now, seconds)
    ensures forall q :: p !in CopiesAt(x.c, q, s)
  {
    hide CopiesAt;
    forall q ensures p !in CopiesAt(x.c, q, s) {
      assert CopyTrue(x, seconds, q, s, p);
    }
  }

  lemma OwnIs(c: Cluster, s: Server)
    requires s in c
    ensures OwnOf(c, s) == c[s].own
  {}

  function Start(servers: set<Server>): State {
    State(map s | s in servers :: Node(map[], map[]), 0.0)
  }

  ghost predicate PossibleRun(servers: set<Server>, ops: seq<Op>, seconds: nat)
    decreases |ops|, 0
  {
    ops != [] ==>
      && PossibleRun(servers, ops[..|ops| - 1], seconds)
      && Possible(AfterAll(servers, ops[..|ops| - 1], seconds), ops[|ops| - 1], seconds)
  }

  ghost function AfterAll(servers: set<Server>, ops: seq<Op>, seconds: nat): State
    requires PossibleRun(servers, ops, seconds)
    decreases |ops|, 1
  {
    if ops == [] then Start(servers) else Next(AfterAll(servers, ops[..|ops| - 1], seconds), ops[|ops| - 1], seconds)
  }

  lemma {:induction false} EveryRunKeepsCopiesTrue(servers: set<Server>, ops: seq<Op>, seconds: nat)
    requires PossibleRun(servers, ops, seconds)
    ensures CopiesTrue(AfterAll(servers, ops, seconds), seconds)
  {
    if ops != [] {
      EveryRunKeepsCopiesTrue(servers, ops[..|ops| - 1], seconds);
      StepKeepsTrue(AfterAll(servers, ops[..|ops| - 1], seconds), ops[|ops| - 1], seconds);
    }
  }

  /** After any run, a mirror pass that completes leaves every bucket closed
      when the pass began, byte for byte, with every chosen peer; and a second
      pass that lists nothing new copies nothing, whoever would answer it. */
  lemma {:induction false} CompletePassHoldsEverything(servers: set<Server>, ops: seq<Op>, seconds: nat, op: Op,
          again: Lists, fails: (Server, Path) -> bool)
    requires PossibleRun(servers, ops, seconds) && op.Pass? && Possible(AfterAll(servers, ops, seconds), op, seconds)
    requires Passed(AfterAll(servers, ops, seconds), op, seconds).2
    requires ListsOwn(again, AfterAll(servers, ops, seconds).c[op.s].own)
    requires forall q, p :: p in again(q) ==> p in op.lists(q)
    ensures var x := AfterAll(servers, ops, seconds);
            var d, me, own := Passed(x, op, seconds).0, op.s, x.c[op.s].own;
            var peers := PeersOf(me, op.live, op.copies);
            && (forall q, p :: q in peers && p in ClosedOf(own, x.now, seconds) ==>
                  p in CopiesAt(d, q, me) && CopiesAt(d, q, me)[p] == own[p])
            && SentToAll(d, me, own, peers, again, fails) == (d, 0, true)
  {
    var x := AfterAll(servers, ops, seconds);
    EveryRunKeepsCopiesTrue(servers, ops, seconds);
    hide PossibleRun, AfterAll;
    var d, me, own := Passed(x, op, seconds).0, op.s, x.c[op.s].own;
    var peers := PeersOf(me, op.live, op.copies);
    ListedAreOwn(x, op, seconds);
    hide PeersOf, SentToAll, CopiesAt;
    SentToAllComplete(x.c, me, own, peers, op.lists, op.fails);
    SecondPassCopiesNothing(d, me, own, peers, again, fails);
    forall q, p | q in peers && p in ClosedOf(own, x.now, seconds)
      ensures p in CopiesAt(d, q, me) && CopiesAt(d, q, me)[p] == own[p]
    {
      assert ListsClosed(op.lists(q), own, op.times(q), seconds);
      PassHoldsEverything(x, seconds, me, peers, op.lists, op.fails, q, p);
    }
  }

  /** What a list offers to a peer, the peer holds after a complete pass. */
  lemma PassHoldsEverything(x: State, seconds: nat, me: Server, peers: seq<Server>, lists: Lists,
          fails: (Server, Path) -> bool, q: Server, p: Path)
    requires CopiesTrue(x, seconds) && me in x.c && ListsOwn(lists, x.c[me].own)
    requires SentToAll(x.c, me, x.c[me].own, peers, lists, fails).2
    requires q in peers && p in lists(q)
    ensures var d, own := SentToAll(x.c, me, x.c[me].own, peers, lists, fails).0, x.c[me].own;
            p in CopiesAt(d, q, me) && p in own && CopiesAt(d, q, me)[p] == own[p]
  {
    var own := x.c[me].own;
    OwnIs(x.c, me);
    assert exists i :: 0 <= i < |lists(q)| && lists(q)[i] == p;
    hide SentToAll, CopiesAt;
    SentToAllIs(x.c, me, own, peers, lists, fails);
    SentToAllComplete(x.c, me, own, peers, lists, fails);
    CopyIsTrue(x, seconds, q, me, p);
    assert Grew(CopiesAt(x.c, q, me), CopiesAt(SentToAll(x.c, me, own, peers, lists, fails).0, q, me), own, lists(q));
  }

  // ----- which copies outlive their originals

  /** The step brings the bucket back from a holder that has a copy. */
  predicate BringsHome(x: State, op: Op, me: Server, p: Path) {
    op.Home? && op.s == me && exists g :: g in op.holders && p in CopiesAt(x.c, g, me)
  }

  /** The step takes the bucket from its owner while `h` has a copy. */
  predicate TakenWithACopy(x: State, op: Op, h: Server, me: Server, p: Path) {
    && ((op.Retain? && p in op.gone) || op.Wipe?) && op.s == me
    && p in OwnOf(x.c, me) && p in CopiesAt(x.c, h, me)
  }

  /** Retention or a wipe on the owner removed the bucket while `h` had a copy;
      since then it has not come home, and `h` has kept its disk. */
  ghost predicate Outlived(servers: set<Server>, ops: seq<Op>, seconds: nat, h: Server, me: Server, p: Path)
    requires PossibleRun(servers, ops, seconds)
  {
    ops != [] &&
      var init, op := ops[..|ops| - 1], ops[|ops| - 1];
      var x := AfterAll(servers, init, seconds);
      || TakenWithACopy(x, op, h, me, p)
      || (Outlived(servers, init, seconds, h, me, p) && !BringsHome(x, op, me, p) && !(op.Wipe? && op.s == h))
  }

  /** The history of a copy without an original. */
  lemma {:induction false} OrphanExactlyWhenOutlived(servers: set<Server>, ops: seq<Op>, seconds: nat, h: Server,
          me: Server, p: Path)
    requires PossibleRun(servers, ops, seconds) && h != me
    ensures var x := AfterAll(servers, ops, seconds);
            p in CopiesAt(x.c, h, me) && p !in OwnOf(x.c, me) <==> Outlived(servers, ops, seconds, h, me, p)
  {
    if ops != [] {
      var init, op := ops[..|ops| - 1], ops[|ops| - 1];
      OrphanExactlyWhenOutlived(servers, init, seconds, h, me, p);
      EveryRunKeepsCopiesTrue(servers, init, seconds);
      OrphanStep(AfterAll(servers, init, seconds), op, seconds, h, me, p);
    }
  }

  ghost predicate Orphan(x: State, h: Server, me: Server, p: Path) {
    p in CopiesAt(x.c, h, me) && p !in OwnOf(x.c, me)
  }

  lemma OrphanStep(x: State, op: Op, seconds: nat, h: Server, me: Server, p: Path)
    requires CopiesTrue(x, seconds) && Possible(x, op, seconds) && h != me
    ensures Orphan(Next(x, op, seconds), h, me, p) <==>
            TakenWithACopy(x, op, h, me, p)
            || (Orphan(x, h, me, p) && !BringsHome(x, op, me, p) && !(op.Wipe? && op.s == h))
  {
    hide CopiesAt, OwnOf, WithOwn, Passed, Pulled, ClosedAt;
    assert CopyTrue(x, seconds, h, me, p);
    match op
    case Tick(now) =>
    case Write(s, p', data) =>
      OwnIs(x.c, s);
      OwnChanged(x.c, s, x.c[s].own[p' := data]);
    case Pass(_, _, _, _, _, _, _) =>
      PassKeepsOwn(x, op, seconds);
      PassCopies(x, op, seconds, h, me, p);
    case Retain(s, gone) =>
      OwnIs(x.c, s);
      OwnChanged(x.c, s, x.c[s].own - gone);
    case Wipe(s) =>
      WipeLoses(x.c, s);
    case Home(s, holders) =>
      OwnIs(x.c, s);
      PulledIs(x.c[s].own, x.c, s, holders);
      OwnChanged(x.c, s, Pulled(x.c[s].own, x.c, s, holders));
  }

  /** No holder has a copy that outlived its original. */
  ghost predicate NothingOutlived(servers: set<Server>, ops: seq<Op>, seconds: nat, holders: seq<Server>, me: Server)
    requires PossibleRun(servers, ops, seconds)
  {
    forall h, p :: h in holders ==> !Outlived(servers, ops, seconds, h, me, p)
  }

  ghost predicate NoOrphans(x: State, holders: seq<Server>, me: Server) {
    forall h, p :: h in holders ==> !Orphan(x, h, me, p)
  }

  lemma NoOrphansExactlyWhen(servers: set<Server>, ops: seq<Op>, seconds: nat, holders: seq<Server>, me: Server)
    requires PossibleRun(servers, ops, seconds) && me !in holders
    ensures NoOrphans(AfterAll(servers, ops, seconds), holders, me) <==>
            NothingOutlived(servers, ops, seconds, holders, me)
  {
    var x := AfterAll(servers, ops, seconds);
    forall h, p | h in holders ensures Outlived(servers, ops, seconds, h, me, p) <==> Orphan(x, h, me, p) {
      OrphanExactlyWhenOutlived(servers, ops, seconds, h, me, p);
    }
  }

  // ----- wiped and restored

  ghost predicate Within(a: Tree, b: Tree) {
    forall p :: p in a ==> p in b && a[p] == b[p]
  }

  /** What the owner has after its disk is wiped and restored from `holders`. */
  function Regained(c: Cluster, me: Server, holders: seq<Server>): Tree {
    Pulled(map[], c[me := Node(map[], map[])], me, holders)
  }

  lemma RegainedIsTheRun(x: State, me: Server, holders: seq<Server>, seconds: nat)
    requires me in x.c && me !in holders
    ensures OwnOf(Next(Next(x, Wipe(me), seconds), Home(me, holders), seconds).c, me) == Regained(x.c, me, holders)
  {}

  lemma RunPlus(servers: set<Server>, ops: seq<Op>, seconds: nat, op: Op)
    requires PossibleRun(servers, ops, seconds) && Possible(AfterAll(servers, ops, seconds), op, seconds)
    ensures PossibleRun(servers, ops + [op], seconds)
    ensures AfterAll(servers, ops + [op], seconds) == Next(AfterAll(servers, ops, seconds), op, seconds)
  {
    assert (ops + [op])[..|ops + [op]| - 1] == ops;
  }

  /** A pass of `op.s`, the loss of its disk, and the restore. */
  function WipedAndRestored(ops: seq<Op>, op: Op, holders: seq<Server>): seq<Op>
    requires op.Pass?
  {
    ops + [op] + [Wipe(op.s)] + [Home(op.s, holders)]
  }

  lemma RestoredRun(servers: set<Server>, ops: seq<Op>, seconds: nat, op: Op, holders: seq<Server>)
    requires PossibleRun(servers, ops, seconds) && op.Pass? && Possible(AfterAll(servers, ops, seconds), op, seconds)
    requires op.s !in holders
    ensures PossibleRun(servers, WipedAndRestored(ops, op, holders), seconds)
    ensures OwnOf(AfterAll(servers, WipedAndRestored(ops, op, holders), seconds).c, op.s) ==
            Regained(Passed(AfterAll(servers, ops, seconds), op, seconds).0, op.s, holders)
  {
    var x := AfterAll(servers, ops, seconds);
    PassKeepsOwn(x, op, seconds);
    var y := Next(x, op, seconds);
    assert y == State(Passed(x, op, seconds).0, op.until) && op.s in y.c;
    RegainedIsTheRun(y, op.s, holders, seconds);
    var z := Next(y, Wipe(op.s), seconds);
    assert op.s in z.c;
    hide PossibleRun, AfterAll, Passed, Regained, OwnOf;
    RunPlus(servers, ops, seconds, op);
    RunPlus(servers, ops + [op], seconds, Wipe(op.s));
    RunPlus(servers, ops + [op] + [Wipe(op.s)], seconds, Home(op.s, holders));
  }

  /** After any run and a complete pass, the owner's disk is wiped and restored.
      Every bucket that was closed comes back with its bytes. Nothing else does
      if and only if no listed holder has kept a copy of a bucket that
      retention or a wipe had taken from the owner for good. */
  lemma {:induction false} RestoreBringsBackExactlyWhen(servers: set<Server>, ops: seq<Op>, seconds: nat, op: Op,
          holders: seq<Server>)
    requires PossibleRun(servers, ops, seconds) && op.Pass? && Possible(AfterAll(servers, ops, seconds), op, seconds)
    requires Passed(AfterAll(servers, ops, seconds), op, seconds).2
    requires op.s !in holders && exists q :: q in PeersOf(op.s, op.live, op.copies) && q in holders
    ensures PossibleRun(servers, WipedAndRestored(ops, op, holders), seconds)
    ensures var x := AfterAll(servers, ops, seconds);
            var own := x.c[op.s].own;
            var closed, closedAfter := ClosedOf(own, x.now, seconds), ClosedOf(own, op.until, seconds);
            var home := OwnOf(AfterAll(servers, WipedAndRestored(ops, op, holders), seconds).c, op.s);
            && Within(closed, home)
            && (Within(home, closedAfter) <==> NothingOutlived(servers, ops, seconds, holders, op.s))
            && (closed == closedAfter ==> (home == closed <==> NothingOutlived(servers, ops, seconds, holders, op.s)))
  {
    var x := AfterAll(servers, ops, seconds);
    EveryRunKeepsCopiesTrue(servers, ops, seconds);
    RestoredRun(servers, ops, seconds, op, holders);
    hide PossibleRun, AfterAll, CopiesTrue, OwnOf, Possible, Passed, PeersOf, Regained, ClosedOf;
    hide NothingOutlived, NoOrphans;
    RestoreIs(x, seconds, op, holders);
    NoOrphansExactlyWhen(servers, ops, seconds, holders, op.s);
  }

  lemma RestoreIs(x: State, seconds: nat, op: Op, holders: seq<Server>)
    requires CopiesTrue(x, seconds) && op.Pass? && Possible(x, op, seconds) && Passed(x, op, seconds).2
    requires op.s !in holders && exists q :: q in PeersOf(op.s, op.live, op.copies) && q in holders
    ensures var own := x.c[op.s].own;
            var closed, closedAfter := ClosedOf(own, x.now, seconds), ClosedOf(own, op.until, seconds);
            var home := Regained(Passed(x, op, seconds).0, op.s, holders);
            && Within(closed, home)
            && (Within(home, closedAfter) <==> NoOrphans(x, holders, op.s))
            && (closed == closedAfter ==> (home == closed <==> NoOrphans(x, holders, op.s)))
  {
    var me, own, d := op.s, x.c[op.s].own, Passed(x, op, seconds).0;
    var closed, closedAfter := ClosedOf(own, x.now, seconds), ClosedOf(own, op.until, seconds);
    var peers := PeersOf(me, op.live, op.copies);
    var q :| q in peers && q in holders;
    ListedAreOwn(x, op, seconds);
    forall p | p in closed ensures p in CopiesAt(d, q, me) {
      hide SentToAll, PeersOf, CopiesAt;
      assert ListsClosed(op.lists(q), own, op.times(q), seconds);
      PassHoldsEverything(x, seconds, me, peers, op.lists, op.fails, q, p);
    }
    PassKeepsOwn(x, op, seconds);
    OwnIs(x.c, me);
    assert x.now <= op.until && me in x.c;
    hide PeersOf, CopiesAt, Regained, Passed, CopiesTrue, Possible;
    forall q, p
      ensures p in CopiesAt(x.c, q, me) ==> p in CopiesAt(d, q, me) && CopiesAt(d, q, me)[p] == CopiesAt(x.c, q, me)[p]
      ensures p in CopiesAt(d, q, me) && p !in CopiesAt(x.c, q, me) ==>
                p in own && CopiesAt(d, q, me)[p] == own[p] && p in closedAfter
      ensures p in CopiesAt(x.c, q, me) && p in own ==> p in closedAfter
    {
      PassCopies(x, op, seconds, q, me, p);
      CopyIsTrue(x, seconds, q, me, p);
    }
    HomeIs(x, d, me, own, closed, closedAfter, holders, seconds);
    var home := Regained(d, me, holders);
    if closed == closedAfter && NoOrphans(x, holders, me) {
      assert home.Keys == closed.Keys;
    }
  }

  lemma CopyIsTrue(x: State, seconds: nat, q: Server, o: Server, p: Path)
    requires CopiesTrue(x, seconds)
    ensures CopyTrue(x, seconds, q, o, p)
  {}

  /** What comes home: the closed buckets, and the copies without an original. */
  lemma HomeIs(x: State, d: Cluster, me: Server, own: Tree, closed: Tree, closedAfter: Tree, holders: seq<Server>,
          seconds: nat)
    requires CopiesTrue(x, seconds) && me !in holders && own == OwnOf(x.c, me) && closedAfter.Keys <= own.Keys
    requires forall p :: p in closedAfter ==> closedAfter[p] == own[p]
    requires forall p :: p in closed ==> p in own && closed[p] == own[p]
    requires forall q, p :: p in CopiesAt(x.c, q, me) ==>
               p in CopiesAt(d, q, me) && CopiesAt(d, q, me)[p] == CopiesAt(x.c, q, me)[p]
    requires forall q, p :: p in CopiesAt(d, q, me) && p !in CopiesAt(x.c, q, me) ==>
               p in own && CopiesAt(d, q, me)[p] == own[p] && p in closedAfter
    requires forall q, p :: p in CopiesAt(x.c, q, me) && p in own ==> p in closedAfter
    requires exists q :: q in holders && forall p :: p in closed ==> p in CopiesAt(d, q, me)
    requires me in d
    ensures var home := Regained(d, me, holders);
            && Within(closed, home)
            && (Within(home, closedAfter) <==> NoOrphans(x, holders, me))
  {
    hide CopiesAt, Pulled, OwnOf;
    var e := d[me := Node(map[], map[])];
    var home := Regained(d, me, holders);
    PulledIs(map[], e, me, holders);
    WipeLoses(d, me);
    assert forall h :: h in holders ==> CopiesAt(e, h, me) == CopiesAt(d, h, me);
    forall p | p in home
      ensures p in own ==> p in closedAfter && home[p] == own[p]
      ensures p !in own ==> exists h :: h in holders && Orphan(x, h, me, p)
    {
      var h :| h in holders && p in CopiesAt(e, h, me) && home[p] == CopiesAt(e, h, me)[p];
      assert CopyTrue(x, seconds, h, me, p);
      if p !in own {
        assert Orphan(x, h, me, p);
      }
    }
    if h, p :| h in holders && Orphan(x, h, me, p) {
      assert p in CopiesAt(e, h, me);
      assert p in home && p !in closedAfter;
    }
  }

  /** With neither retention nor a wipe on the owner so far, exactly the closed
      buckets come back. */
  lemma {:induction false} MirrorThenRestore(servers: set<Server>, ops: seq<Op>, seconds: nat, op: Op,
          holders: seq<Server>)
    requires PossibleRun(servers, ops, seconds) && op.Pass? && Possible(AfterAll(servers, ops, seconds), op, seconds)
    requires Passed(AfterAll(servers, ops, seconds), op, seconds).2
    requires op.s !in holders && exists q :: q in PeersOf(op.s, op.live, op.copies) && q in holders
    requires forall i :: 0 <= i < |ops| ==> !((ops[i].Retain? || ops[i].Wipe?) && ops[i].s == op.s)
    ensures PossibleRun(servers, WipedAndRestored(ops, op, holders), seconds)
    ensures var x := AfterAll(servers, ops, seconds);
            var own := x.c[op.s].own;
            var closed, closedAfter := ClosedOf(own, x.now, seconds), ClosedOf(own, op.until, seconds);
            var home := OwnOf(AfterAll(servers, WipedAndRestored(ops, op, holders), seconds).c, op.s);
            Within(closed, home) && Within(home, closedAfter) && (closed == closedAfter ==> home == closed)
  {
    forall h, p | h in holders ensures !Outlived(servers, ops, seconds, h, op.s, p) {
      UndisturbedOutlivesNothing(servers, ops, seconds, h, op.s, p);
    }
    assert NothingOutlived(servers, ops, seconds, holders, op.s);
    hide PossibleRun, AfterAll, OwnOf, Passed, PeersOf, Possible, ClosedOf, NothingOutlived, WipedAndRestored;
    RestoreBringsBackExactlyWhen(servers, ops, seconds, op, holders);
  }

  lemma {:induction false} UndisturbedOutlivesNothing(servers: set<Server>, ops: seq<Op>, seconds: nat, h: Server,
          me: Server, p: Path)
    requires PossibleRun(servers, ops, seconds)
    requires forall i :: 0 <= i < |ops| ==> !((ops[i].Retain? || ops[i].Wipe?) && ops[i].s == me)
    ensures !Outlived(servers, ops, seconds, h, me, p)
  {
    if ops != [] {
      UndisturbedOutlivesNothing(servers, ops[..|ops| - 1], seconds, h, me, p);
    }
  }

  // ----- retention undone

  lemma PeerOfTwo()
    ensures PeersOf(0, [0, 1], 1) == [1]
  {
    assert [0, 1][..1] == [0] && [0][..0] == [] && [1][..0] == [];
    assert Others([0], 0) == [] && Others([0, 1], 0) == [1];
    assert Sorted([1]) == [1];
    assert Above([1], 0) == [1] && Below([1], 0) == [];
  }

  /** The pass of server 0 that copies its one bucket to server 1. */
  function PassOf(p: Path): Op {
    Pass(0, [0, 1], 1, _ => [p], _ => 1000.0, 1000.0, (_, _) => false)
  }

  /** The two servers: 0 with its own buckets, 1 with the copies it keeps. */
  function Two(own: Tree, kept: map<Server, Tree>): Cluster {
    map[0 := Node(own, map[]), 1 := Node(map[], kept)]
  }

  lemma SendsOne(p: Path, data: string, lists: Lists, fails: (Server, Path) -> bool)
    requires lists(1) == [p] && !fails(1, p) && ListsOwn(lists, map[p := data])
    ensures SentToAll(Two(map[p := data], map[]), 0, map[p := data], [1], lists, fails).0 ==
            Two(map[p := data], map[0 := map[p := data]])
  {
    var own: Tree := map[p := data];
    var c := Two(own, map[]);
    assert SentToAll(c, 0, own, [1][..0], lists, fails) == (c, 0, true);
    assert CopiesAt(c, 1, 0).Keys == {};
    assert SentTo(c, 0, own, 1, {}, [p][..0], fails) == (c, 0, true);
    assert SentTo(c, 0, own, 1, {}, [p], fails).0 == WithCopy(c, 1, 0, p, data);
  }

  lemma PassCopiesOne(p: Path, data: string)
    requires ClosedAt(p, 1000.0, 600)
    ensures var x := State(Two(map[p := data], map[]), 1000.0);
            && Possible(x, PassOf(p), 600)
            && Next(x, PassOf(p), 600) == State(Two(map[p := data], map[0 := map[p := data]]), 1000.0)
  {
    var x, op := State(Two(map[p := data], map[]), 1000.0), PassOf(p);
    PeerOfTwo();
    hide PeersOf, SentToAll;
    ListedAreOwn(x, op, 600);
    SendsOne(p, data, op.lists, op.fails);
  }

  lemma MirroredRun(p: Path, data: string) returns (ops: seq<Op>)
    requires ClosedAt(p, 1000.0, 600) && !ClosedAt(p, 0.0, 600)
    ensures ops == [Write(0, p, data), Tick(1000.0), PassOf(p)]
    ensures PossibleRun({0, 1}, ops, 600)
    ensures AfterAll({0, 1}, ops, 600) == State(Two(map[p := data], map[0 := map[p := data]]), 1000.0)
  {
    WrittenRun(p, data);
    PassCopiesOne(p, data);
    hide *;
    var two := [Write(0, p, data), Tick(1000.0)];
    RunPlus({0, 1}, two, 600, PassOf(p));
    ops := two + [PassOf(p)];
  }

  lemma WrittenRun(p: Path, data: string)
    requires ClosedAt(p, 1000.0, 600) && !ClosedAt(p, 0.0, 600)
    ensures var ops := [Write(0, p, data), Tick(1000.0)];
            && PossibleRun({0, 1}, ops, 600)
            && AfterAll({0, 1}, ops, 600) == State(Two(map[p := data], map[]), 1000.0)
  {
    var start := State(Two(map[], map[]), 0.0);
    var written := State(Two(map[p := data], map[]), 0.0);
    assert PossibleRun({0, 1}, [], 600) && AfterAll({0, 1}, [], 600) == start;
    assert Possible(start, Write(0, p, data), 600) && Next(start, Write(0, p, data), 600).c == written.c;
    assert Possible(written, Tick(1000.0), 600);
    assert Next(written, Tick(1000.0), 600) == State(written.c, 1000.0);
    hide *;
    RunPlus({0, 1}, [], 600, Write(0, p, data));
    var one := [] + [Write(0, p, data)];
    RunPlus({0, 1}, one, 600, Tick(1000.0));
    assert one + [Tick(1000.0)] == [Write(0, p, data), Tick(1000.0)];
  }

  /** A bucket is written, closed, mirrored and deleted by retention; the disk
      is then replaced and restored, and the deleted bucket is back. */
  lemma RetainedBucketComesBack(p: Path, data: string) returns (ops: seq<Op>)
    requires ClosedAt(p, 1000.0, 600) && !ClosedAt(p, 0.0, 600)
    ensures ops == [Write(0, p, data), Tick(1000.0), PassOf(p), Retain(0, {p}), Wipe(0), Home(0, [1])]
    ensures PossibleRun({0, 1}, ops, 600) && PossibleRun({0, 1}, ops[..4], 600)
    ensures OwnOf(AfterAll({0, 1}, ops[..4], 600).c, 0) == map[]
    ensures OwnOf(AfterAll({0, 1}, ops, 600).c, 0) == map[p := data]
  {
    var three := MirroredRun(p, data);
    RetainedAndRegained(p, data);
    hide PossibleRun, AfterAll, ClosedAt, Possible, Next, PassOf;
    RunPlus({0, 1}, three, 600, Retain(0, {p}));
    var four := three + [Retain(0, {p})];
    RunPlus({0, 1}, four, 600, Wipe(0));
    var five := four + [Wipe(0)];
    RunPlus({0, 1}, five, 600, Home(0, [1]));
    ops := five + [Home(0, [1])];
    assert ops[..4] == four;
  }

  lemma RetainedAndRegained(p: Path, data: string)
    ensures var kept: map<Server, Tree> := map[0 := map[p := data]];
            var full, bare := State(Two(map[p := data], kept), 1000.0), State(Two(map[], kept), 1000.0);
            && Possible(full, Retain(0, {p}), 600) && Next(full, Retain(0, {p}), 600) == bare
            && Possible(bare, Wipe(0), 600) && Next(bare, Wipe(0), 600) == bare
            && Possible(bare, Home(0, [1]), 600) && Next(bare, Home(0, [1]), 600) == full
  {
    RegainedFromOne(p, data);
    hide Pulled;
  }

  lemma RegainedFromOne(p: Path, data: string)
    ensures Pulled(map[], Two(map[], map[0 := map[p := data]]), 0, [1]) == map[p := data]
  {
    var c := Two(map[], map[0 := map[p := data]]);
    var none: Tree := map[];
    assert Pulled(none, c, 0, [1][..0]) == none;
  }
}
