/** Which buckets a pass of the event index reaches, whoever fails to answer,
    and what its rows say. */
module EventIndexReach {
  import opened Decimals
  import opened EventIndexes
  import opened EventIndexLaws
  import opened FiniteSets
  import opened Paths
  import opened Variables

  type Read = Path -> Option<seq<Event>>

  // ----- one list

  /** Nothing to ask, nothing new to ask for, or an answer. */
  predicate Passable(seen: set<Path>, b: Bucket, read: Read) {
    b.events == 0 || b.path in seen || read(b.path).Some?
  }

  /** Some bucket of the list, with events, is at `p`, and nothing up to it
      goes without an answer. */
  ghost predicate Reaches(seen: set<Path>, bs: seq<Bucket>, read: Read, p: Path) {
    exists i :: 0 <= i < |bs| && ReachedAt(seen, bs, read, p, i)
  }

  ghost predicate ReachedAt(seen: set<Path>, bs: seq<Bucket>, read: Read, p: Path, i: nat)
    requires i < |bs|
  {
    bs[i].events > 0 && bs[i].path == p && forall j :: 0 <= j <= i ==> Passable(seen, bs[j], read)
  }

  function PathsOf(t: Table, server: Server): set<Path> {
    set k | k in t && k.0 == server :: k.1
  }

  lemma PathsOfIs(t: Table, server: Server, p: Path)
    ensures p in PathsOf(t, server) <==> (server, p) in t
  {
    if p in PathsOf(t, server) {
      var k :| k in t && k.0 == server && k.1 == p;
      assert k == (server, p);
    }
  }

  lemma ReachesOneMore(seen: set<Path>, bs: seq<Bucket>, read: Read, p: Path)
    requires bs != []
    ensures var init, b := bs[..|bs| - 1], bs[|bs| - 1];
            Reaches(seen, bs, read, p) <==>
            || Reaches(seen, init, read, p)
            || (b.events > 0 && b.path == p && forall j :: 0 <= j < |bs| ==> Passable(seen, bs[j], read))
  {
    var n := |bs| - 1;
    if Reaches(seen, bs, read, p) {
      var i :| 0 <= i < |bs| && ReachedAt(seen, bs, read, p, i);
      if i < n {
        assert ReachedAt(seen, bs[..n], read, p, i);
      }
    }
    if Reaches(seen, bs[..n], read, p) {
      var i :| 0 <= i < n && ReachedAt(seen, bs[..n], read, p, i);
      assert forall j :: 0 <= j <= i ==> bs[..n][j] == bs[j];
      assert ReachedAt(seen, bs, read, p, i);
    }
    if bs[n].events > 0 && bs[n].path == p && forall j :: 0 <= j < |bs| ==> Passable(seen, bs[j], read) {
      assert ReachedAt(seen, bs, read, p, n);
    }
  }

  lemma {:induction false} ListedReaches(t: Table, server: Server, unit: Option<Unit>, bs: seq<Bucket>, read: Read,
          k: Key)
    ensures var (u, ok) := Listed(t, server, unit, bs, read);
            var seen := PathsOf(t, server);
            && (ok <==> forall j :: 0 <= j < |bs| ==> Passable(seen, bs[j], read))
            && (k in u <==> k in t || (k.0 == server && Reaches(seen, bs, read, k.1)))
  {
    if bs != [] {
      var n := |bs| - 1;
      var seen, b := PathsOf(t, server), bs[n];
      ListedReaches(t, server, unit, bs[..n], read, k);
      ListedReaches(t, server, unit, bs[..n], read, (server, b.path));
      ReachesOneMore(seen, bs, read, k.1);
      PathsOfIs(t, server, b.path);
      var (u, ok) := Listed(t, server, unit, bs[..n], read);
      assert (forall j :: 0 <= j < |bs| ==> Passable(seen, bs[j], read)) <==>
             (forall j :: 0 <= j < n ==> Passable(seen, bs[..n][j], read)) && Passable(seen, b, read);
      if ok && (server, b.path) in u && (server, b.path) !in t {
        var i :| 0 <= i < n && ReachedAt(seen, bs[..n], read, b.path, i);
        assert Passable(seen, bs[..n][i], read);
      }
      hide Reaches, Listed;
      assert Listed(t, server, unit, bs, read) == if ok then OneMore(u, server, unit, b, read) else (u, false) by {
        ListedLast(t, server, unit, bs, read);
      }
    }
  }

  lemma ListedLast(t: Table, server: Server, unit: Option<Unit>, bs: seq<Bucket>, read: Read)
    requires bs != []
    ensures var (u, ok) := Listed(t, server, unit, bs[..|bs| - 1], read);
            Listed(t, server, unit, bs, read) == if ok then OneMore(u, server, unit, bs[|bs| - 1], read) else (u, false)
  {}

  // ----- a silent server

  /** A live server whose heartbeat says that it mirrors `server`. */
  predicate Mirrors(w: World, peer: Server, server: Server) {
    peer in w.heartbeats && w.heartbeats[peer].age <= w.lostAfter && server in w.heartbeats[peer].mirrors
  }

  /** What asking one holder adds to the paths known of the silent server. */
  ghost predicate AskedOne(w: World, server: Server, peer: Server, before: set<Path>, after: set<Path>) {
    if Mirrors(w, peer, server) && w.mirrored(peer, server).Some?
    then
      forall p :: p in after <==>
        p in before || Reaches(before, w.mirrored(peer, server).value, q => w.copies(peer, server, q), p)
    else after == before
  }

  /** `seen[m]` is what is known before the m-th server found is asked. */
  ghost predicate AskedEach(w: World, server: Server, found: seq<Server>, seen: seq<set<Path>>) {
    && |seen| == |found| + 1
    && forall m :: 0 <= m < |found| ==> AskedOne(w, server, found[m], seen[m], seen[m + 1])
  }

  lemma {:induction false} HoldersReach(t: Table, server: Server, found: seq<Server>, w: World)
    returns (seen: seq<set<Path>>)
    ensures AskedEach(w, server, found, seen) && seen[0] == PathsOf(t, server)
    ensures seen[|found|] == PathsOf(FromHolders(t, server, Holders(w, server, found), w), server)
  {
    if found == [] {
      seen := [PathsOf(t, server)];
    } else {
      var n := |found| - 1;
      var before := HoldersReach(t, server, found[..n], w);
      var holders, peer := Holders(w, server, found[..n]), found[n];
      var u := FromHolders(t, server, holders, w);
      var v := FromHolders(t, server, Holders(w, server, found), w);
      seen := before + [PathsOf(v, server)];
      assert AskedOne(w, server, peer, PathsOf(u, server), PathsOf(v, server)) by {
        OneHolder(t, server, holders, peer, w);
      }
      forall m | 0 <= m < |found| ensures AskedOne(w, server, found[m], seen[m], seen[m + 1]) {
        if m < n {
          assert AskedOne(w, server, found[..n][m], before[m], before[m + 1]);
        }
      }
    }
  }

  lemma OneHolder(t: Table, server: Server, holders: seq<Server>, peer: Server, w: World)
    ensures var u := FromHolders(t, server, holders, w);
            var v := FromHolders(t, server, if Mirrors(w, peer, server) then holders + [peer] else holders, w);
            AskedOne(w, server, peer, PathsOf(u, server), PathsOf(v, server))
  {
    var u := FromHolders(t, server, holders, w);
    assert (holders + [peer])[..|holders + [peer]| - 1] == holders;
    if Mirrors(w, peer, server) && w.mirrored(peer, server).Some? {
      OneList(u, server, None, w.mirrored(peer, server).value, q => w.copies(peer, server, q));
    }
  }

  // ----- a live server

  /** What reading one unit's list adds, and whether the next unit is reached. */
  ghost predicate ReadOne(w: World, server: Server, unit: Unit, ok: bool, before: set<Path>, goes: bool,
          after: set<Path>)
  {
    if ok && w.lists(server, unit).Some?
    then
      var bs, read := w.lists(server, unit).value, q => w.contents(server, q);
      && (goes <==> forall j :: 0 <= j < |bs| ==> Passable(before, bs[j], read))
      && (forall p :: p in after <==> p in before || Reaches(before, bs, read, p))
    else !goes && after == before
  }

  ghost predicate ReadEach(w: World, server: Server, units: seq<Unit>, ok: seq<bool>, seen: seq<set<Path>>) {
    && |ok| == |seen| == |units| + 1 && ok[0]
    && forall m :: 0 <= m < |units| ==> ReadOne(w, server, units[m], ok[m], seen[m], ok[m + 1], seen[m + 1])
  }

  lemma {:induction false} UnitsReach(t: Table, server: Server, units: seq<Unit>, w: World)
    returns (ok: seq<bool>, seen: seq<set<Path>>)
    ensures ReadEach(w, server, units, ok, seen) && seen[0] == PathsOf(t, server)
    ensures seen[|units|] == PathsOf(ByUnits(t, server, units, w).0, server)
    ensures ok[|units|] == ByUnits(t, server, units, w).1
  {
    if units == [] {
      ok, seen := [true], [PathsOf(t, server)];
    } else {
      var n := |units| - 1;
      var goes, before := UnitsReach(t, server, units[..n], w);
      var (u, fine) := ByUnits(t, server, units[..n], w);
      var (v, more) := ByUnits(t, server, units, w);
      ok, seen := goes + [more], before + [PathsOf(v, server)];
      assert ReadOne(w, server, units[n], fine, PathsOf(u, server), more, PathsOf(v, server)) by {
        if fine && w.lists(server, units[n]).Some? {
          OneList(u, server, Some(units[n]), w.lists(server, units[n]).value, q => w.contents(server, q));
        }
      }
      forall m | 0 <= m < |units| ensures ReadOne(w, server, units[m], ok[m], seen[m], ok[m + 1], seen[m + 1]) {
        if m < n {
          assert ReadOne(w, server, units[..n][m], goes[m], before[m], goes[m + 1], before[m + 1]);
        }
      }
    }
  }

  lemma OneList(t: Table, server: Server, unit: Option<Unit>, bs: seq<Bucket>, read: Read)
    ensures var (u, ok) := Listed(t, server, unit, bs, read);
            var seen := PathsOf(t, server);
            && (ok <==> forall j :: 0 <= j < |bs| ==> Passable(seen, bs[j], read))
            && (forall p :: p in PathsOf(u, server) <==> p in seen || Reaches(seen, bs, read, p))
  {
    var (u, ok) := Listed(t, server, unit, bs, read);
    var seen := PathsOf(t, server);
    forall p ensures p in PathsOf(u, server) <==> p in seen || Reaches(seen, bs, read, p)
             ensures ok <==> forall j :: 0 <= j < |bs| ==> Passable(seen, bs[j], read)
    {
      ListedReaches(t, server, unit, bs, read, (server, p));
      PathsOfIs(t, server, p);
      PathsOfIs(u, server, p);
    }
  }

  // ----- a pass

  lemma {:induction false} ListedElsewhere(t: Table, server: Server, unit: Option<Unit>, bs: seq<Bucket>, read: Read,
          s: Server)
    requires s != server
    ensures PathsOf(Listed(t, server, unit, bs, read).0, s) == PathsOf(t, s)
  {
    var u := Listed(t, server, unit, bs, read).0;
    forall p ensures p in PathsOf(u, s) <==> p in PathsOf(t, s) {
      ListedReaches(t, server, unit, bs, read, (s, p));
      PathsOfIs(t, s, p);
      PathsOfIs(u, s, p);
    }
  }

  lemma {:induction false} UnitsElsewhere(t: Table, server: Server, units: seq<Unit>, w: World, s: Server)
    requires s != server
    ensures PathsOf(ByUnits(t, server, units, w).0, s) == PathsOf(t, s)
  {
    if units != [] {
      var n := |units| - 1;
      UnitsElsewhere(t, server, units[..n], w, s);
      var (u, ok) := ByUnits(t, server, units[..n], w);
      if ok && w.lists(server, units[n]).Some? {
        ListedElsewhere(u, server, Some(units[n]), w.lists(server, units[n]).value, q => w.contents(server, q), s);
      }
    }
  }

  lemma {:induction false} HoldersElsewhere(t: Table, server: Server, holders: seq<Server>, w: World, s: Server)
    requires s != server
    ensures PathsOf(FromHolders(t, server, holders, w), s) == PathsOf(t, s)
  {
    if holders != [] {
      var n := |holders| - 1;
      HoldersElsewhere(t, server, holders[..n], w, s);
      var u, peer := FromHolders(t, server, holders[..n], w), holders[n];
      if w.mirrored(peer, server).Some? {
        ListedElsewhere(u, server, None, w.mirrored(peer, server).value, q => w.copies(peer, server, q), s);
      }
    }
  }

  lemma OneServerElsewhere(t: Table, server: Server, w: World, s: Server)
    requires server in w.heartbeats && s != server
    ensures PathsOf(OneServer(t, server, w).0, s) == PathsOf(t, s)
  {
    UnitsElsewhere(t, server, w.heartbeats[server].units, w, s);
    HoldersElsewhere(t, server, Holders(w, server, w.found), w, s);
  }

  /** A server has one turn in a pass; the others' turns leave its paths alone. */
  lemma {:induction false} OwnTurn(t: Table, servers: seq<Server>, w: World, s: Server) returns (u: Table)
    requires forall i :: 0 <= i < |servers| ==> servers[i] in w.heartbeats
    requires Distinct(servers) && s in servers
    ensures PathsOf(u, s) == PathsOf(t, s)
    ensures var (v, rep) := Tailed(t, servers, w);
            && PathsOf(v, s) == PathsOf(OneServer(u, s, w).0, s)
            && (s in rep.unreachable <==> !OneServer(u, s, w).1)
  {
    var n := |servers| - 1;
    var init, last := servers[..n], servers[n];
    assert servers == init + [last];
    if last == s {
      u := Tailed(t, init, w).0;
      assert s !in init;
      TailedElsewhere(t, init, w, s);
    } else {
      u := OwnTurn(t, init, w, s);
      OneServerElsewhere(Tailed(t, init, w).0, last, w, s);
    }
  }

  lemma {:induction false} TailedElsewhere(t: Table, servers: seq<Server>, w: World, s: Server)
    requires forall i :: 0 <= i < |servers| ==> servers[i] in w.heartbeats
    requires s !in servers
    ensures PathsOf(Tailed(t, servers, w).0, s) == PathsOf(t, s) && s !in Tailed(t, servers, w).1.unreachable
  {
    if servers != [] {
      var n := |servers| - 1;
      assert servers == servers[..n] + [servers[n]];
      TailedElsewhere(t, servers[..n], w, s);
      OneServerElsewhere(Tailed(t, servers[..n], w).0, servers[n], w, s);
    }
  }

  /** After a pass, a bucket of a silent server is known if and only if it was
      before, or the list of some server that mirrors it, asked in its turn,
      reached it: nothing in that list up to it, and not known by then, went
      without an answer. */
  lemma SilentServerIs(t: Table, w: World, s: Server) returns (seen: seq<set<Path>>)
    requires forall i :: 0 <= i < |w.order| ==> w.order[i] in w.heartbeats
    requires Distinct(w.order) && s in w.order && w.heartbeats[s].age > w.lostAfter
    ensures AskedEach(w, s, w.found, seen)
    ensures forall p :: p in seen[0] <==> (s, p) in t
    ensures forall p :: p in seen[|w.found|] <==> (s, p) in Tailed(t, w.order, w).0
  {
    var u := OwnTurn(t, w.order, w, s);
    seen := HoldersReach(u, s, w.found, w);
    SamePaths(t, s, seen[0]);
    SamePaths(Tailed(t, w.order, w).0, s, seen[|w.found|]);
  }

  /** And of a live one, if and only if it was, or its own lists reached it,
      unit by unit up to the first that went without an answer; it is reported
      unreachable exactly when one did. */
  lemma LiveServerIs(t: Table, w: World, s: Server) returns (ok: seq<bool>, seen: seq<set<Path>>)
    requires forall i :: 0 <= i < |w.order| ==> w.order[i] in w.heartbeats
    requires Distinct(w.order) && s in w.order && w.heartbeats[s].age <= w.lostAfter
    ensures var units := w.heartbeats[s].units;
            && ReadEach(w, s, units, ok, seen)
            && (forall p :: p in seen[0] <==> (s, p) in t)
            && (forall p :: p in seen[|units|] <==> (s, p) in Tailed(t, w.order, w).0)
            && (s in Tailed(t, w.order, w).1.unreachable <==> !ok[|units|])
  {
    var u := OwnTurn(t, w.order, w, s);
    ok, seen := UnitsReach(u, s, w.heartbeats[s].units, w);
    SamePaths(t, s, seen[0]);
    SamePaths(Tailed(t, w.order, w).0, s, seen[|w.heartbeats[s].units|]);
  }

  lemma SamePaths(t: Table, s: Server, paths: set<Path>)
    requires paths == PathsOf(t, s)
    ensures forall p :: p in paths <==> (s, p) in t
  {
    forall p ensures p in paths <==> (s, p) in t {
      PathsOfIs(t, s, p);
    }
  }

  ghost predicate ListedByHolder(w: World, s: Server, m: nat, p: Path)
    requires m < |w.found|
  {
    && Mirrors(w, w.found[m], s) && w.mirrored(w.found[m], s).Some?
    && ListedIn(w.mirrored(w.found[m], s).value, p)
  }

  /** With every copy that is asked for answered, a pass adds of a silent server
      exactly what the lists of those that mirror it name. */
  lemma AnsweredListsAreAdded(t: Table, w: World, s: Server, p: Path)
    requires forall i :: 0 <= i < |w.order| ==> w.order[i] in w.heartbeats
    requires Distinct(w.order) && s in w.order && w.heartbeats[s].age > w.lostAfter
    requires forall peer, q :: w.copies(peer, s, q).Some?
    ensures (s, p) in Tailed(t, w.order, w).0 <==>
            (s, p) in t || exists m :: 0 <= m < |w.found| && ListedByHolder(w, s, m, p)
  {
    var seen := SilentServerIs(t, w, s);
    AskedAll(w, s, seen, p, |w.found|);
  }

  lemma {:induction false} AskedAll(w: World, s: Server, seen: seq<set<Path>>, p: Path, n: nat)
    requires AskedEach(w, s, w.found, seen) && n <= |w.found| && forall peer, q :: w.copies(peer, s, q).Some?
    ensures p in seen[n] <==> p in seen[0] || exists m :: 0 <= m < n && ListedByHolder(w, s, m, p)
  {
    if n > 0 {
      AskedAll(w, s, seen, p, n - 1);
      var peer := w.found[n - 1];
      assert AskedOne(w, s, w.found[n - 1], seen[n - 1], seen[n - 1 + 1]);
      if Mirrors(w, peer, s) && w.mirrored(peer, s).Some? {
        AllReached(seen[n - 1], w.mirrored(peer, s).value, q => w.copies(peer, s, q), p);
      }
      assert p in seen[n] <==> p in seen[n - 1] || ListedByHolder(w, s, n - 1, p);
    }
  }

  lemma AllReached(seen: set<Path>, bs: seq<Bucket>, read: Read, p: Path)
    requires forall q :: read(q).Some?
    ensures Reaches(seen, bs, read, p) <==> ListedIn(bs, p)
  {
    if ListedIn(bs, p) {
      var b :| b in bs && b.events > 0 && b.path == p;
      var i :| 0 <= i < |bs| && bs[i] == b;
      assert ReachedAt(seen, bs, read, p, i);
    }
  }

  // ----- what the rows say

  /** An event as a row: filed under the server that owns the bucket. Its camera
      is the one it names, or else the number that its unit's name is. */
  ghost predicate RowSays(r: EventRow, server: Server, unit: Unit, b: Bucket, e: Event) {
    && r.server == server && r.path == b.path && r.epoch == b.epoch && r.unit == unit
    && r.t == e.t && r.kind == e.kind && r.fields == e.fields
    && (e.cam.Some? ==> r.cam == e.cam)
    && (e.cam.None? ==> (forall n: nat :: unit.name == Decimal(n) ==> r.cam == Some(n))
                        && (!IsDecimal(unit.name) ==> r.cam == None))
  }

  ghost predicate RowsSay(rows: seq<EventRow>, server: Server, unit: Unit, b: Bucket, es: seq<Event>) {
    |rows| == |es| && forall i :: 0 <= i < |es| ==> RowSays(rows[i], server, unit, b, es[i])
  }

  lemma RowSaysIt(server: Server, unit: Unit, b: Bucket, e: Event)
    ensures RowSays(RowOf(server, unit, b, e), server, unit, b, e)
  {
    forall n: nat | unit.name == Decimal(n) && e.cam.None? ensures RowOf(server, unit, b, e).cam == Some(n) {
      DecimalReadsBack(n);
    }
  }

  lemma RowsSayIt(server: Server, unit: Unit, b: Bucket, es: seq<Event>)
    ensures RowsSay(RowsOf(server, unit, b, es), server, unit, b, es)
  {
    RowsAreFiled(server, unit, b, es);
    forall i | 0 <= i < |es| ensures RowSays(RowsOf(server, unit, b, es)[i], server, unit, b, es[i]) {
      RowSaysIt(server, unit, b, es[i]);
    }
  }

  /** A bucket of the list, with events, that was read at `p`: its rows, under
      the unit asked for or else under its own. */
  ghost predicate FiledFrom(rows: seq<EventRow>, server: Server, unit: Option<Unit>, bs: seq<Bucket>, read: Read,
          p: Path)
  {
    exists b :: b in bs && b.events > 0 && b.path == p && read(p).Some?
                && RowsSay(rows, server, if unit.Some? then unit.value else b.unit, b, read(p).value)
  }

  lemma {:induction false} ListedFiles(t: Table, server: Server, unit: Option<Unit>, bs: seq<Bucket>, read: Read,
          k: Key)
    requires k in Listed(t, server, unit, bs, read).0
    requires k !in t
    ensures k.0 == server && FiledFrom(Listed(t, server, unit, bs, read).0[k], server, unit, bs, read, k.1)
  {
    if bs != [] {
      var n := |bs| - 1;
      var b := bs[n];
      ListedLast(t, server, unit, bs, read);
      ListedKeeps(t, server, unit, bs[..n], read);
      var u := Listed(t, server, unit, bs[..n], read).0;
      if k in u {
        ListedFiles(t, server, unit, bs[..n], read, k);
        var c :| c in bs[..n] && c.events > 0 && c.path == k.1 && read(k.1).Some?
                 && RowsSay(u[k], server, if unit.Some? then unit.value else c.unit, c, read(k.1).value);
        assert c in bs;
      } else {
        RowsSayIt(server, FiledUnder(unit, b), b, read(b.path).value);
        assert b in bs;
      }
      hide Listed, RowsSay;
    }
  }

  /** Read from its own live server, under the unit asked for. */
  ghost predicate FromServer(w: World, units: seq<Unit>, rows: seq<EventRow>, k: Key) {
    exists u :: u in units && w.lists(k.0, u).Some?
                && FiledFrom(rows, k.0, Some(u), w.lists(k.0, u).value, q => w.contents(k.0, q), k.1)
  }

  /** Read from a copy that a live server keeps, under the bucket's own unit. */
  ghost predicate FromCopy(w: World, peers: seq<Server>, rows: seq<EventRow>, k: Key) {
    exists peer :: peer in peers && Mirrors(w, peer, k.0) && w.mirrored(peer, k.0).Some?
                   && FiledFrom(rows, k.0, None, w.mirrored(peer, k.0).value, q => w.copies(peer, k.0, q), k.1)
  }

  lemma {:induction false} UnitsFile(t: Table, server: Server, units: seq<Unit>, w: World, k: Key)
    requires k in ByUnits(t, server, units, w).0
    requires k !in t
    ensures k.0 == server && FromServer(w, units, ByUnits(t, server, units, w).0[k], k)
  {
    if units != [] {
      var n := |units| - 1;
      var (u, ok) := ByUnits(t, server, units[..n], w);
      assert forall x :: x in units[..n] ==> x in units;
      if k in u {
        UnitsFile(t, server, units[..n], w, k);
      }
      if ok && w.lists(server, units[n]).Some? {
        ListedKeeps(u, server, Some(units[n]), w.lists(server, units[n]).value, q => w.contents(server, q));
        if k !in u && k in ByUnits(t, server, units, w).0 {
          ListedFiles(u, server, Some(units[n]), w.lists(server, units[n]).value, q => w.contents(server, q), k);
        }
      }
      assert units[n] in units;
      hide FiledFrom, Listed;
    }
  }

  lemma {:induction false} HoldersFile(t: Table, server: Server, found: seq<Server>, w: World, k: Key)
    requires k in FromHolders(t, server, Holders(w, server, found), w)
    requires k !in t
    ensures k.0 == server && FromCopy(w, found, FromHolders(t, server, Holders(w, server, found), w)[k], k)
  {
    if found != [] {
      var n := |found| - 1;
      var holders, peer := Holders(w, server, found[..n]), found[n];
      var u := FromHolders(t, server, holders, w);
      assert forall x :: x in found[..n] ==> x in found;
      assert (holders + [peer])[..|holders + [peer]| - 1] == holders;
      if k in u {
        HoldersFile(t, server, found[..n], w, k);
      }
      if Mirrors(w, peer, server) && w.mirrored(peer, server).Some? {
        ListedKeeps(u, server, None, w.mirrored(peer, server).value, q => w.copies(peer, server, q));
        if k !in u {
          ListedFiles(u, server, None, w.mirrored(peer, server).value, q => w.copies(peer, server, q), k);
        }
      }
      assert peer in found;
      hide FiledFrom, Listed;
    }
  }

  /** What a pass adds: of a live server, the events it was read to hold; of a
      silent one, those of a copy, as that server's own. */
  lemma {:induction false} AddedRowsSay(t: Table, servers: seq<Server>, w: World, k: Key)
    requires forall i :: 0 <= i < |servers| ==> servers[i] in w.heartbeats
    requires k in Tailed(t, servers, w).0 && k !in t
    ensures k.0 in servers && k.0 in w.heartbeats
    ensures var rows := Tailed(t, servers, w).0[k];
            if w.heartbeats[k.0].age <= w.lostAfter then FromServer(w, w.heartbeats[k.0].units, rows, k)
            else FromCopy(w, w.found, rows, k)
  {
    var n := |servers| - 1;
    var s := servers[n];
    var u := Tailed(t, servers[..n], w).0;
    assert servers == servers[..n] + [s];
    ByUnitsKeeps(u, s, w.heartbeats[s].units, w);
    FromHoldersKeeps(u, s, Holders(w, s, w.found), w);
    if k in u {
      AddedRowsSay(t, servers[..n], w, k);
    } else if Live(w, s) {
      UnitsFile(u, s, w.heartbeats[s].units, w, k);
    } else {
      HoldersFile(u, s, w.found, w, k);
    }
    hide FromServer, FromCopy, ByUnits, FromHolders;
  }
}
