/** The event index over every run: it is the union of the buckets it has seen,
    and when that is what a rebuild would give. */
module EventIndexLaws {
  import opened EventIndexes
  import opened Paths
  import opened Variables

  // ----- what is seen stays, as it was read

  ghost predicate Keeps(t: Table, u: Table) {
    forall k :: k in t ==> k in u && u[k] == t[k]
  }

  lemma {:induction false} ListedKeeps(t: Table, server: Server, unit: Option<Unit>, bs: seq<Bucket>,
          read: Path -> Option<seq<Event>>)
    ensures Keeps(t, Listed(t, server, unit, bs, read).0)
  {
    if bs != [] {
      ListedKeeps(t, server, unit, bs[..|bs| - 1], read);
    }
  }

  lemma {:induction false} ByUnitsKeeps(t: Table, server: Server, units: seq<Unit>, w: World)
    ensures Keeps(t, ByUnits(t, server, units, w).0)
  {
    if units != [] {
      ByUnitsKeeps(t, server, units[..|units| - 1], w);
      var u, unit := ByUnits(t, server, units[..|units| - 1], w).0, units[|units| - 1];
      if w.lists(server, unit).Some? {
        ListedKeeps(u, server, Some(unit), w.lists(server, unit).value, p => w.contents(server, p));
      }
    }
  }

  lemma {:induction false} FromHoldersKeeps(t: Table, server: Server, holders: seq<Server>, w: World)
    ensures Keeps(t, FromHolders(t, server, holders, w))
  {
    if holders != [] {
      FromHoldersKeeps(t, server, holders[..|holders| - 1], w);
      var u, peer := FromHolders(t, server, holders[..|holders| - 1], w), holders[|holders| - 1];
      if w.mirrored(peer, server).Some? {
        ListedKeeps(u, server, None, w.mirrored(peer, server).value, p => w.copies(peer, server, p));
      }
    }
  }

  /** Once seen, a bucket is never read again: its rows stay as first read. */
  lemma {:induction false} TailedKeeps(t: Table, servers: seq<Server>, w: World)
    requires forall i :: 0 <= i < |servers| ==> servers[i] in w.heartbeats
    ensures Keeps(t, Tailed(t, servers, w).0)
  {
    if servers != [] {
      var init, s := servers[..|servers| - 1], servers[|servers| - 1];
      TailedKeeps(t, init, w);
      var u := Tailed(t, init, w).0;
      ByUnitsKeeps(u, s, w.heartbeats[s].units, w);
      FromHoldersKeeps(u, s, Holders(w, s, w.found), w);
    }
  }

  // ----- the union of the buckets seen

  type Truth = Key -> seq<EventRow>

  /** Whoever answers for a bucket, its server or a holder of its copy, answers
      with the one content a closed bucket has. */
  ghost predicate Agrees(w: World, truth: Truth) {
    && (forall s, u, b, es ::
          w.lists(s, u).Some? && b in w.lists(s, u).value && w.contents(s, b.path) == Some(es) ==>
            RowsOf(s, u, b, es) == truth((s, b.path)))
    && (forall peer, s, b, es ::
          w.mirrored(peer, s).Some? && b in w.mirrored(peer, s).value && w.copies(peer, s, b.path) == Some(es) ==>
            RowsOf(s, b.unit, b, es) == truth((s, b.path)))
  }

  /** Whatever was not in `known` has the content it has. */
  ghost predicate TrueBeyond(t: Table, known: set<Key>, truth: Truth) {
    forall k :: k in t ==> k in known || t[k] == truth(k)
  }

  ghost predicate True(t: Table, truth: Truth) {
    TrueBeyond(t, {}, truth)
  }

  lemma {:induction false} ListedTrue(t: Table, known: set<Key>, server: Server, unit: Option<Unit>, bs: seq<Bucket>,
          read: Path -> Option<seq<Event>>, truth: Truth)
    requires TrueBeyond(t, known, truth)
    requires forall b, es :: b in bs && read(b.path) == Some(es) ==>
               RowsOf(server, FiledUnder(unit, b), b, es) == truth((server, b.path))
    ensures TrueBeyond(Listed(t, server, unit, bs, read).0, known, truth)
  {
    if bs != [] {
      var init, b := bs[..|bs| - 1], bs[|bs| - 1];
      forall c, es | c in init && read(c.path) == Some(es)
        ensures RowsOf(server, FiledUnder(unit, c), c, es) == truth((server, c.path))
      {
        assert c in bs;
      }
      ListedTrue(t, known, server, unit, init, read, truth);
      assert b in bs;
    }
  }

  lemma {:induction false} ByUnitsTrue(t: Table, known: set<Key>, server: Server, units: seq<Unit>, w: World,
          truth: Truth)
    requires TrueBeyond(t, known, truth) && Agrees(w, truth)
    ensures TrueBeyond(ByUnits(t, server, units, w).0, known, truth)
  {
    if units != [] {
      ByUnitsTrue(t, known, server, units[..|units| - 1], w, truth);
      var u, unit := ByUnits(t, server, units[..|units| - 1], w).0, units[|units| - 1];
      if w.lists(server, unit).Some? {
        ListedTrue(u, known, server, Some(unit), w.lists(server, unit).value, p => w.contents(server, p), truth);
      }
    }
  }

  lemma {:induction false} FromHoldersTrue(t: Table, known: set<Key>, server: Server, holders: seq<Server>, w: World,
          truth: Truth)
    requires TrueBeyond(t, known, truth) && Agrees(w, truth)
    ensures TrueBeyond(FromHolders(t, server, holders, w), known, truth)
  {
    if holders != [] {
      FromHoldersTrue(t, known, server, holders[..|holders| - 1], w, truth);
      var u, peer := FromHolders(t, server, holders[..|holders| - 1], w), holders[|holders| - 1];
      if w.mirrored(peer, server).Some? {
        ListedTrue(u, known, server, None, w.mirrored(peer, server).value, p => w.copies(peer, server, p), truth);
      }
    }
  }

  /** What a pass adds is the content at that pass, whatever was there before. */
  lemma {:induction false} TailedTrue(t: Table, known: set<Key>, servers: seq<Server>, w: World, truth: Truth)
    requires forall i :: 0 <= i < |servers| ==> servers[i] in w.heartbeats
    requires TrueBeyond(t, known, truth) && Agrees(w, truth)
    ensures TrueBeyond(Tailed(t, servers, w).0, known, truth)
  {
    if servers != [] {
      var init, s := servers[..|servers| - 1], servers[|servers| - 1];
      TailedTrue(t, known, init, w, truth);
      var u := Tailed(t, init, w).0;
      ByUnitsTrue(u, known, s, w.heartbeats[s].units, w, truth);
      FromHoldersTrue(u, known, s, Holders(w, s, w.found), w, truth);
    }
  }

  datatype Pass = Tail(w: World) | Rebuild(w: World) | Forget(server: Server, paths: seq<Path>)

  ghost predicate WellFormed(p: Pass) {
    !p.Forget? ==> forall i :: 0 <= i < |p.w.order| ==> p.w.order[i] in p.w.heartbeats
  }

  ghost function After(t: Table, p: Pass): Table
    requires WellFormed(p)
  {
    match p
    case Tail(w) => Tailed(t, w.order, w).0
    case Rebuild(w) => Tailed(map[], w.order, w).0
    case Forget(server, paths) => t - set p | p in paths :: (server, p)
  }

  ghost function AfterAll(ps: seq<Pass>): Table
    requires forall i :: 0 <= i < |ps| ==> WellFormed(ps[i])
  {
    if ps == [] then map[] else After(AfterAll(ps[..|ps| - 1]), ps[|ps| - 1])
  }

  lemma {:induction false} EveryRunIsTrue(ps: seq<Pass>, truth: Truth)
    requires forall i :: 0 <= i < |ps| ==> WellFormed(ps[i]) && (!ps[i].Forget? ==> Agrees(ps[i].w, truth))
    ensures True(AfterAll(ps), truth)
  {
    if ps != [] {
      EveryRunIsTrue(ps[..|ps| - 1], truth);
      var t, p := AfterAll(ps[..|ps| - 1]), ps[|ps| - 1];
      if !p.Forget? {
        TailedTrue(if p.Tail? then t else map[], {}, p.w.order, p.w, truth);
      }
    }
  }

  /** After any run of passes, with any servers silent, failing midway or
      answered for by mirrors: the rows are exactly those of the buckets seen,
      each once, under the server that owns them. */
  lemma {:induction false} RowsAreTheUnionOfTheSeen(ps: seq<Pass>, truth: Truth, seen: set<Key>, events: seq<EventRow>,
          r: EventRow)
    requires forall i :: 0 <= i < |ps| ==> WellFormed(ps[i]) && (!ps[i].Forget? ==> Agrees(ps[i].w, truth))
    requires Holds(seen, events, AfterAll(ps))
    ensures multiset(events)[r] == if KeyOf(r) in seen then multiset(truth(KeyOf(r)))[r] else 0
  {
    EveryRunIsTrue(ps, truth);
  }

  /** The rows are exactly those the buckets seen hold now. */
  ghost predicate IsUnion(seen: set<Key>, events: seq<EventRow>, now: Truth) {
    forall r: EventRow :: multiset(events)[r] == if KeyOf(r) in seen then multiset(now(KeyOf(r)))[r] else 0
  }

  /** The index is current exactly when it is bucket by bucket. */
  lemma {:induction false} CurrentExactlyWhen(seen: set<Key>, events: seq<EventRow>, t: Table, now: Truth)
    requires Holds(seen, events, t)
    requires forall k, r :: k in t && r in now(k) ==> (r.server, r.path) == k
    ensures IsUnion(seen, events, now) <==> forall k :: k in t ==> multiset(t[k]) == multiset(now(k))
  {
    if IsUnion(seen, events, now) {
      forall k | k in t ensures multiset(t[k]) == multiset(now(k)) {
        forall r ensures multiset(t[k])[r] == multiset(now(k))[r] {
          assert r in multiset(t[k]) <==> r in t[k];
          assert r in multiset(now(k)) <==> r in now(k);
          if (r.server, r.path) == k {
            assert multiset(events)[r] == multiset(now(k))[r];
          }
        }
      }
    }
  }

  // ----- a clean pass and a rebuild

  /** A list read without a miss adds to what was seen exactly what it adds to
      nothing; what was seen stays as it was. */
  lemma {:induction false} ListedOnto(f: Table, t: Table, server: Server, unit: Option<Unit>, bs: seq<Bucket>,
          read: Path -> Option<seq<Event>>)
    requires Listed(f, server, unit, bs, read).1
    ensures Listed(f + t, server, unit, bs, read) == (Listed(f, server, unit, bs, read).0 + t, true)
  {
    if bs != [] {
      var init, b := bs[..|bs| - 1], bs[|bs| - 1];
      ListedOnto(f, t, server, unit, init, read);
      OneMoreOnto(Listed(f, server, unit, init, read).0, t, server, unit, b, read);
    }
  }

  lemma OneMoreOnto(f: Table, t: Table, server: Server, unit: Option<Unit>, b: Bucket, read: Path -> Option<seq<Event>>)
    requires OneMore(f, server, unit, b, read).1
    ensures OneMore(f + t, server, unit, b, read) == (OneMore(f, server, unit, b, read).0 + t, true)
  {
    var k := (server, b.path);
    if b.events != 0 && k !in f {
      var rows := RowsOf(server, FiledUnder(unit, b), b, read(b.path).value);
      if k in t {
        assert f[k := rows] + t == f + t;
      } else {
        assert f[k := rows] + t == (f + t)[k := rows];
      }
    }
  }

  lemma {:induction false} ByUnitsOnto(f: Table, t: Table, server: Server, units: seq<Unit>, w: World)
    requires ByUnits(f, server, units, w).1
    ensures ByUnits(f + t, server, units, w) == (ByUnits(f, server, units, w).0 + t, true)
  {
    if units != [] {
      var init, unit := units[..|units| - 1], units[|units| - 1];
      ByUnitsOnto(f, t, server, init, w);
      ListedOnto(ByUnits(f, server, init, w).0, t, server, Some(unit), w.lists(server, unit).value,
                 p => w.contents(server, p));
    }
  }

  predicate Clean(rep: Report) {
    rep.unreachable == [] && rep.fromMirror == []
  }

  lemma {:induction false} TailedOnto(f: Table, t: Table, servers: seq<Server>, w: World)
    requires forall i :: 0 <= i < |servers| ==> servers[i] in w.heartbeats
    requires Clean(Tailed(f, servers, w).1)
    ensures Clean(Tailed(f + t, servers, w).1)
    ensures Tailed(f + t, servers, w).0 == Tailed(f, servers, w).0 + t
  {
    if servers != [] {
      var init, s := servers[..|servers| - 1], servers[|servers| - 1];
      TailedOnto(f, t, init, w);
      ByUnitsOnto(Tailed(f, init, w).0, t, s, w.heartbeats[s].units, w);
    }
  }

  /** A pass reporting nothing unreachable and nothing from a mirror leaves the
      index as a rebuild would, exactly when every bucket seen before it is
      still listed and reads as it did. */
  lemma {:induction false} TailEqualsRebuildExactlyWhen(t: Table, w: World)
    requires forall i :: 0 <= i < |w.order| ==> w.order[i] in w.heartbeats
    requires Clean(Tailed(map[], w.order, w).1)
    ensures var rebuilt := Tailed(map[], w.order, w).0;
            && Clean(Tailed(t, w.order, w).1)
            && (Tailed(t, w.order, w).0 == rebuilt <==> forall k :: k in t ==> k in rebuilt && rebuilt[k] == t[k])
  {
    var none: Table := map[];
    TailedOnto(none, t, w.order, w);
    assert none + t == t;
    var rebuilt := Tailed(none, w.order, w).0;
    if forall k :: k in t ==> k in rebuilt && rebuilt[k] == t[k] {
      assert rebuilt + t == rebuilt;
    }
  }

  /** A failing input: a bucket was seen and its server no longer lists it. A
      clean pass keeps its rows; a rebuild would not have them. */
  lemma UnlistedBucketStays(t: Table, s: Server)
    requires t != map[]
    ensures var w := World([s], [s], map[s := Heartbeat(0.0, [], {})], 45.0, (_, _) => None, (_, _) => None,
                           (_, _) => None, (_, _, _) => None);
            && Clean(Tailed(t, w.order, w).1) && Clean(Tailed(map[], w.order, w).1)
            && Tailed(t, w.order, w).0 == t && Tailed(map[], w.order, w).0 == map[]
  {
    var w := World([s], [s], map[s := Heartbeat(0.0, [], {})], 45.0, (_, _) => None, (_, _) => None,
                   (_, _) => None, (_, _, _) => None);
    var none: Table := map[];
    assert Tailed(t, [s][..0], w) == (t, Report([], [])) && Tailed(none, [s][..0], w) == (none, Report([], []));
  }

  // ----- what a pass reports

  /** Silent servers: "from mirror" exactly when a live server says it holds
      copies, unreachable exactly when none does. A live server is never
      answered for by a mirror. */
  lemma {:induction false} ReportIs(t: Table, servers: seq<Server>, w: World, s: Server)
    requires forall i :: 0 <= i < |servers| ==> servers[i] in w.heartbeats
    ensures var rep := Tailed(t, servers, w).1;
            && (s in rep.fromMirror <==> s in servers && !Live(w, s) && Holders(w, s, w.found) != [])
            && (!Live(w, s) ==> (s in rep.unreachable <==> s in servers && Holders(w, s, w.found) == []))
            && (s in rep.unreachable ==> s in servers)
  {
    hide Holders, ByUnits, FromHolders, Live;
    if servers != [] {
      ReportIs(t, servers[..|servers| - 1], w, s);
      assert servers == servers[..|servers| - 1] + [servers[|servers| - 1]];
    }
  }

  lemma {:induction false} HoldersAre(w: World, server: Server, found: seq<Server>, s: Server)
    ensures s in Holders(w, server, found) <==> s in found && Live(w, s) && server in w.heartbeats[s].mirrors
  {
    if found != [] {
      HoldersAre(w, server, found[..|found| - 1], s);
      assert found == found[..|found| - 1] + [found[|found| - 1]];
    }
  }

  // ----- which buckets a clean rebuild sees

  ghost predicate ListedIn(bs: seq<Bucket>, p: Path) {
    exists b :: b in bs && b.events > 0 && b.path == p
  }

  /** A live server's heartbeat names a unit that lists the bucket, with events. */
  ghost predicate StillListed(w: World, k: Key) {
    && Live(w, k.0) && k.0 in w.order
    && exists u :: u in w.heartbeats[k.0].units && w.lists(k.0, u).Some? && ListedIn(w.lists(k.0, u).value, k.1)
  }

  lemma {:induction false} ListedKeys(t: Table, server: Server, unit: Option<Unit>, bs: seq<Bucket>,
          read: Path -> Option<seq<Event>>, k: Key)
    requires Listed(t, server, unit, bs, read).1
    ensures k in Listed(t, server, unit, bs, read).0 <==> k in t || (k.0 == server && ListedIn(bs, k.1))
  {
    if bs != [] {
      var init, b := bs[..|bs| - 1], bs[|bs| - 1];
      ListedKeys(t, server, unit, init, read, k);
      assert forall c :: c in bs <==> c in init || c == b;
      assert ListedIn(bs, k.1) <==> ListedIn(init, k.1) || (b.events > 0 && b.path == k.1);
    }
  }

  ghost predicate UnitLists(w: World, server: Server, units: seq<Unit>, p: Path) {
    exists u :: u in units && w.lists(server, u).Some? && ListedIn(w.lists(server, u).value, p)
  }

  lemma {:induction false} ByUnitsKeys(t: Table, server: Server, units: seq<Unit>, w: World, k: Key)
    requires ByUnits(t, server, units, w).1
    ensures k in ByUnits(t, server, units, w).0 <==> k in t || (k.0 == server && UnitLists(w, server, units, k.1))
  {
    if units != [] {
      var init, unit := units[..|units| - 1], units[|units| - 1];
      ByUnitsKeys(t, server, init, w, k);
      ListedKeys(ByUnits(t, server, init, w).0, server, Some(unit), w.lists(server, unit).value,
          p => w.contents(server, p), k);
      assert forall u :: u in units <==> u in init || u == unit;
      assert UnitLists(w, server, units, k.1) <==>
             UnitLists(w, server, init, k.1) || ListedIn(w.lists(server, unit).value, k.1);
    }
  }

  lemma {:induction false} TailedKeys(t: Table, servers: seq<Server>, w: World, k: Key)
    requires forall i :: 0 <= i < |servers| ==> servers[i] in w.heartbeats
    requires Clean(Tailed(t, servers, w).1)
    ensures k in Tailed(t, servers, w).0 <==>
            k in t || (k.0 in servers && UnitLists(w, k.0, w.heartbeats[k.0].units, k.1))
  {
    if servers != [] {
      var init, s := servers[..|servers| - 1], servers[|servers| - 1];
      TailedKeys(t, init, w, k);
      ByUnitsKeys(Tailed(t, init, w).0, s, w.heartbeats[s].units, w, k);
      assert servers == init + [s];
    }
  }

  lemma {:induction false} CleanMeansLive(t: Table, servers: seq<Server>, w: World)
    requires forall i :: 0 <= i < |servers| ==> servers[i] in w.heartbeats
    requires Clean(Tailed(t, servers, w).1)
    ensures forall i :: 0 <= i < |servers| ==> Live(w, servers[i])
  {
    if servers != [] {
      CleanMeansLive(t, servers[..|servers| - 1], w);
    }
  }

  /** With buckets that do not change, a clean pass equals a rebuild exactly
      when every bucket seen before it is still listed by its server. */
  lemma {:induction false} CleanTailEqualsRebuildExactlyWhen(t: Table, w: World, truth: Truth)
    requires forall i :: 0 <= i < |w.order| ==> w.order[i] in w.heartbeats
    requires Clean(Tailed(map[], w.order, w).1)
    requires True(t, truth) && Agrees(w, truth)
    ensures Tailed(t, w.order, w).0 == Tailed(map[], w.order, w).0 <==> forall k :: k in t ==> StillListed(w, k)
  {
    var none: Table := map[];
    var rebuilt := Tailed(none, w.order, w).0;
    TailEqualsRebuildExactlyWhen(t, w);
    TailedTrue(none, {}, w.order, w, truth);
    CleanMeansLive(none, w.order, w);
    forall k ensures k in rebuilt <==> StillListed(w, k) {
      TailedKeys(none, w.order, w, k);
    }
  }
}
