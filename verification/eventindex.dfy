/** The event index: a cache of every server's buckets, by (server, path). */
module EventIndexes {
  import opened Decimals
  import opened Paths
  import opened Variables

  type Server = string

  datatype Unit = Unit(subsystem: string, name: string)
  datatype Event = Event(t: real, kind: string, cam: Option<nat>, fields: string)
  datatype Bucket = Bucket(unit: Unit, epoch: nat, path: Path, events: nat)
  datatype EventRow = EventRow(unit: Unit, cam: Option<nat>, epoch: nat, t: real, kind: string, server: Server,
      path: Path, fields: string)
  datatype Heartbeat = Heartbeat(age: real, units: seq<Unit>, mirrors: set<Server>)

  /** What one pass is told: the heartbeats, in name order and in dictionary
      order, and how each server would answer (`None`: it raises). */
  datatype World = World(
    order: seq<Server>,
    found: seq<Server>,
    heartbeats: map<Server, Heartbeat>,
    lostAfter: real,
    lists: (Server, Unit) -> Option<seq<Bucket>>,
    contents: (Server, Path) -> Option<seq<Event>>,
    mirrored: (Server, Server) -> Option<seq<Bucket>>,
    copies: (Server, Server, Path) -> Option<seq<Event>>)

  predicate Live(w: World, s: Server) {
    s in w.heartbeats && w.heartbeats[s].age <= w.lostAfter
  }

  /** A numeric unit is its own `cam`; others may name one. */
  function RowOf(server: Server, u: Unit, b: Bucket, e: Event): EventRow {
    var cam := if e.cam.Some? then e.cam else if IsDecimal(u.name) then Some(Value(u.name)) else None;
    EventRow(u, cam, b.epoch, e.t, e.kind, server, b.path, e.fields)
  }

  function RowsOf(server: Server, u: Unit, b: Bucket, es: seq<Event>): seq<EventRow> {
    if es == [] then [] else RowsOf(server, u, b, es[..|es| - 1]) + [RowOf(server, u, b, es[|es| - 1])]
  }

  // ----- what the index stands for: the rows of each bucket seen, as read

  type Key = (Server, Path)
  type Table = map<Key, seq<EventRow>>

  /** One list of buckets. The second part is false when an answer was missing:
      the rest of the list is not reached. */
  function Listed(t: Table, server: Server, unit: Option<Unit>, bs: seq<Bucket>,
          read: Path -> Option<seq<Event>>): (Table, bool)
  {
    if bs == [] then (t, true)
    else
      var (u, ok) := Listed(t, server, unit, bs[..|bs| - 1], read);
      if ok then OneMore(u, server, unit, bs[|bs| - 1], read) else (u, false)
  }

  /** The unit a row is filed under: the one asked for, or the bucket's own. */
  function FiledUnder(unit: Option<Unit>, b: Bucket): Unit {
    if unit.Some? then unit.value else b.unit
  }

  function OneMore(t: Table, server: Server, unit: Option<Unit>, b: Bucket,
          read: Path -> Option<seq<Event>>): (Table, bool)
  {
    if b.events == 0 || (server, b.path) in t then (t, true)
    else match read(b.path)
      case None => (t, false)
      case Some(es) => (t[(server, b.path) := RowsOf(server, FiledUnder(unit, b), b, es)], true)
  }

  function ByUnits(t: Table, server: Server, units: seq<Unit>, w: World): (Table, bool) {
    if units == [] then (t, true)
    else
      var (u, ok) := ByUnits(t, server, units[..|units| - 1], w);
      var unit := units[|units| - 1];
      if !ok || w.lists(server, unit).None? then (u, false)
      else Listed(u, server, Some(unit), w.lists(server, unit).value, p => w.contents(server, p))
  }

  /** A silent server's buckets, from each live holder of copies in turn. */
  function FromHolders(t: Table, server: Server, holders: seq<Server>, w: World): Table {
    if holders == [] then t
    else
      var u := FromHolders(t, server, holders[..|holders| - 1], w);
      var peer := holders[|holders| - 1];
      if w.mirrored(peer, server).None? then u
      else Listed(u, server, None, w.mirrored(peer, server).value, p => w.copies(peer, server, p)).0
  }

  function Holders(w: World, server: Server, found: seq<Server>): seq<Server> {
    if found == [] then []
    else
      var s := found[|found| - 1];
      var before := Holders(w, server, found[..|found| - 1]);
      if Live(w, s) && server in w.heartbeats[s].mirrors then before + [s] else before
  }

  datatype Report = Report(unreachable: seq<Server>, fromMirror: seq<Server>)

  function OneServer(t: Table, s: Server, w: World): (Table, bool)
    requires s in w.heartbeats
  {
    if Live(w, s) then ByUnits(t, s, w.heartbeats[s].units, w)
    else (FromHolders(t, s, Holders(w, s, w.found), w), Holders(w, s, w.found) != [])
  }

  function Tailed(t: Table, servers: seq<Server>, w: World): (Table, Report)
    requires forall i :: 0 <= i < |servers| ==> servers[i] in w.heartbeats
  {
    if servers == [] then (t, Report([], []))
    else
      var s := servers[|servers| - 1];
      var (u, rep) := Tailed(t, servers[..|servers| - 1], w);
      var (v, ok) := OneServer(u, s, w);
      (v, if !ok then rep.(unreachable := rep.unreachable + [s])
          else if Live(w, s) then rep
          else rep.(fromMirror := rep.fromMirror + [s]))
  }

  // ----- the tables `seen` and `events`

  function KeyOf(r: EventRow): Key {
    (r.server, r.path)
  }

  /** The rows are those of the buckets seen, each bucket's once, under its own
      server and path. */
  ghost predicate Holds(seen: set<Key>, events: seq<EventRow>, t: Table) {
    && seen == t.Keys
    && (forall k, i :: k in t && 0 <= i < |t[k]| ==> (t[k][i].server, t[k][i].path) == k)
    && (forall r: EventRow ::
          multiset(events)[r] == if KeyOf(r) in t then multiset(t[KeyOf(r)])[r] else 0)
  }

  lemma {:induction false} RowsAreFiled(server: Server, u: Unit, b: Bucket, es: seq<Event>)
    ensures |RowsOf(server, u, b, es)| == |es|
    ensures forall i :: 0 <= i < |es| ==> RowsOf(server, u, b, es)[i] == RowOf(server, u, b, es[i])
  {
    if es != [] {
      RowsAreFiled(server, u, b, es[..|es| - 1]);
    }
  }

  /** A bucket's rows go in together with its key. */
  lemma InsertHolds(seen: set<Key>, events: seq<EventRow>, t: Table, k: Key, rows: seq<EventRow>)
    requires Holds(seen, events, t) && k !in t
    requires forall i :: 0 <= i < |rows| ==> (rows[i].server, rows[i].path) == k
    ensures Holds(seen + {k}, events + rows, t[k := rows])
  {
    forall r: EventRow ensures (r.server, r.path) != k ==> multiset(rows)[r] == 0 {
      assert r in multiset(rows) <==> r in rows;
    }
  }

  /** `DELETE ... WHERE server=? AND path=?`. */
  function Without(events: seq<EventRow>, k: Key): seq<EventRow> {
    if events == [] then []
    else
      var r := events[|events| - 1];
      var before := Without(events[..|events| - 1], k);
      if (r.server, r.path) == k then before else before + [r]
  }

  lemma {:induction false} WithoutIs(events: seq<EventRow>, k: Key, r: EventRow)
    ensures multiset(Without(events, k))[r] == if (r.server, r.path) == k then 0 else multiset(events)[r]
  {
    if events != [] {
      WithoutIs(events[..|events| - 1], k, r);
      assert events == events[..|events| - 1] + [events[|events| - 1]];
    }
  }

  lemma DeleteHolds(seen: set<Key>, events: seq<EventRow>, t: Table, k: Key)
    requires Holds(seen, events, t)
    ensures Holds(seen - {k}, Without(events, k), t - {k})
  {
    forall r: EventRow ensures multiset(Without(events, k))[r] ==
        if (r.server, r.path) == k then 0 else multiset(events)[r] {
      WithoutIs(events, k, r);
    }
  }

  class EventIndex {
    var seen: set<Key>
    var events: seq<EventRow>
    var indexed: nat
    ghost var table: Table

    ghost predicate Valid()
      reads this
    {
      Holds(seen, events, table)
    }

    constructor ()
      ensures Valid() && table == map[]
    {
      seen, events, indexed, table := {}, [], 0, map[];
    }

    /** The rows and the key of one bucket, or neither. */
    method AddBucket(server: Server, u: Unit, b: Bucket, es: seq<Event>) returns (added: nat)
      requires Valid() && (server, b.path) !in seen
      modifies this
      ensures Valid() && table == old(table)[(server, b.path) := RowsOf(server, u, b, es)]
      ensures |events| == |old(events)| + added
    {
      var rows := ReadRows(server, u, b, es);
      RowsAreFiled(server, u, b, es);
      assert (server, b.path) !in table;
      hide Holds, RowsOf;
      InsertHolds(seen, events, table, (server, b.path), rows);
      events := events + rows;
      seen := seen + {(server, b.path)};
      table := table[(server, b.path) := rows];
      indexed := indexed + 1;
      added := |rows|;
    }

    method ReadRows(server: Server, u: Unit, b: Bucket, es: seq<Event>) returns (rows: seq<EventRow>)
      ensures rows == RowsOf(server, u, b, es)
    {
      rows := [];
      for i := 0 to |es|
        invariant rows == RowsOf(server, u, b, es[..i])
      {
        assert es[..i + 1][..i] == es[..i];
        rows := rows + [RowOf(server, u, b, es[i])];
      }
      assert es[..|es|] == es;
    }

    method AddList(server: Server, unit: Option<Unit>, bs: seq<Bucket>, read: Path -> Option<seq<Event>>)
      returns (ok: bool, added: nat)
      requires Valid()
      modifies this
      ensures Valid() && (table, ok) == Listed(old(table), server, unit, bs, read)
      ensures |events| == |old(events)| + added
    {
      added := 0;
      ghost var t := table;
      for i := 0 to |bs|
        invariant Valid() && |events| == |old(events)| + added
        invariant (table, true) == Listed(t, server, unit, bs[..i], read)
      {
        assert bs[..i + 1][..i] == bs[..i];
        var b := bs[i];
        if b.events == 0 || (server, b.path) in seen {
        } else {
          var es := read(b.path);
          if es.None? {
            StopsShort(t, server, unit, bs, read, i + 1);
            return false, added;
          }
          var n := AddBucket(server, FiledUnder(unit, b), b, es.value);
          added := added + n;
        }
      }
      assert bs[..|bs|] == bs;
      ok := true;
    }

    method AddServer(server: Server, w: World) returns (ok: bool, added: nat)
      requires Valid() && server in w.heartbeats
      modifies this
      ensures Valid() && (table, ok) == ByUnits(old(table), server, w.heartbeats[server].units, w)
      ensures |events| == |old(events)| + added
    {
      added := 0;
      ghost var t := table;
      var units := w.heartbeats[server].units;
      for i := 0 to |units|
        invariant Valid() && |events| == |old(events)| + added
        invariant (table, true) == ByUnits(t, server, units[..i], w)
      {
        assert units[..i + 1][..i] == units[..i];
        var bs := w.lists(server, units[i]);
        if bs.None? {
          UnitsStopShort(t, server, units, w, i + 1);
          return false, added;
        }
        var fine, n := AddList(server, Some(units[i]), bs.value, p => w.contents(server, p));
        added := added + n;
        if !fine {
          UnitsStopShort(t, server, units, w, i + 1);
          return false, added;
        }
      }
      assert units[..|units|] == units;
      ok := true;
    }

    /** `_from_mirror`: true when there was a holder to ask, whatever it said. */
    method AddFromMirror(server: Server, w: World) returns (ok: bool, added: nat)
      requires Valid()
      modifies this
      ensures Valid() && table == FromHolders(old(table), server, Holders(w, server, w.found), w)
      ensures ok == (Holders(w, server, w.found) != [])
      ensures |events| == |old(events)| + added
    {
      added := 0;
      ghost var t := table;
      var holders := Holders(w, server, w.found);
      for i := 0 to |holders|
        invariant Valid() && |events| == |old(events)| + added
        invariant table == FromHolders(t, server, holders[..i], w)
      {
        assert holders[..i + 1][..i] == holders[..i];
        var peer := holders[i];
        var bs := w.mirrored(peer, server);
        if bs.Some? {
          var _, n := AddList(server, None, bs.value, p => w.copies(peer, server, p));
          added := added + n;
        }
      }
      assert holders[..|holders|] == holders;
      ok := holders != [];
    }

    method Tail(w: World) returns (added: nat, rep: Report)
      requires Valid() && forall i :: 0 <= i < |w.order| ==> w.order[i] in w.heartbeats
      modifies this
      ensures Valid() && (table, rep) == Tailed(old(table), w.order, w)
      ensures |events| == |old(events)| + added
    {
      hide ByUnits, FromHolders, Holders, Holds;
      added, rep := 0, Report([], []);
      ghost var t := table;
      for i := 0 to |w.order|
        invariant Valid() && |events| == |old(events)| + added
        invariant (table, rep) == Tailed(t, w.order[..i], w)
      {
        assert w.order[..i + 1][..i] == w.order[..i];
        var s := w.order[i];
        var ok, n;
        if Live(w, s) {
          ok, n := AddServer(s, w);
        } else {
          ok, n := AddFromMirror(s, w);
        }
        added := added + n;
        if !ok {
          rep := rep.(unreachable := rep.unreachable + [s]);
        } else if !Live(w, s) {
          rep := rep.(fromMirror := rep.fromMirror + [s]);
        }
      }
      assert w.order[..|w.order|] == w.order;
    }

    method Rebuild(w: World) returns (added: nat, rep: Report)
      requires Valid() && forall i :: 0 <= i < |w.order| ==> w.order[i] in w.heartbeats
      modifies this
      ensures Valid() && (table, rep) == Tailed(map[], w.order, w)
      ensures |events| == added
    {
      seen, events, indexed, table := {}, [], 0, map[];
      added, rep := Tail(w);
    }

    method Forget(server: Server, paths: seq<Path>)
      requires Valid()
      modifies this
      ensures Valid() && table == old(table) - set p | p in paths :: (server, p)
    {
      ghost var t := table;
      hide Holds;
      for i := 0 to |paths|
        invariant Valid() && table == t - set p | p in paths[..i] :: (server, p)
      {
        var k := (server, paths[i]);
        DeleteHolds(seen, events, table, k);
        assert paths[..i + 1] == paths[..i] + [paths[i]];
        events := Without(events, k);
        seen := seen - {k};
        table := table - {k};
      }
      assert paths[..|paths|] == paths;
    }
  }

  lemma {:induction false} StopsShort(t: Table, server: Server, unit: Option<Unit>, bs: seq<Bucket>,
          read: Path -> Option<seq<Event>>, n: nat)
    requires n <= |bs| && !Listed(t, server, unit, bs[..n], read).1
    ensures Listed(t, server, unit, bs, read) == Listed(t, server, unit, bs[..n], read)
    decreases |bs|
  {
    if n < |bs| {
      assert bs[..|bs| - 1][..n] == bs[..n];
      StopsShort(t, server, unit, bs[..|bs| - 1], read, n);
    } else {
      assert bs[..n] == bs;
    }
  }

  lemma {:induction false} UnitsStopShort(t: Table, server: Server, units: seq<Unit>, w: World, n: nat)
    requires n <= |units| && !ByUnits(t, server, units[..n], w).1
    ensures ByUnits(t, server, units, w) == ByUnits(t, server, units[..n], w)
    decreases |units|
  {
    if n < |units| {
      assert units[..|units| - 1][..n] == units[..n];
      UnitsStopShort(t, server, units[..|units| - 1], w, n);
    } else {
      assert units[..n] == units;
    }
  }
}
