/** What holds of a worker over every run of its passes, whatever its actuator,
    its clocks and its store answer. */
module WorkerLaws {
  import opened Variables
  import opened FiniteSets
  import Leases
  import opened VmsWorker

  /** Camera by camera: what runs is believed to run, and what is believed to
      run has an epoch with its lease; a running pipeline carries the epoch
      and the revision the worker records for it; a fenced worker runs nothing. */
  ghost predicate CamInv(s: State, c: CamId) {
    && (c in s.running ==> c in s.actual && c in s.epochs && s.running[c] == Pipeline(s.epochs[c], s.actual[c]))
    && (c in s.actual ==> c in s.epochs)
    && (c in s.epochs <==> c in s.leases)
    && (c in s.leases ==> s.leases[c].epoch == s.epochs[c])
    && (!s.allowed ==> c !in s.running && c !in s.actual)
  }

  ghost predicate Inv(s: State) {
    forall c :: CamInv(s, c)
  }

  ghost predicate SameIn<V>(m: map<CamId, V>, n: map<CamId, V>, c: CamId) {
    (c in m <==> c in n) && (c in m ==> m[c] == n[c])
  }

  lemma SameAfterPut<V>(m: map<CamId, V>, c: CamId, v: V, d: CamId)
    requires d != c
    ensures SameIn(m, m[c := v], d)
  {}

  lemma SameAfterDrop<V>(m: map<CamId, V>, c: CamId, d: CamId)
    requires d != c
    ensures SameIn(m, m - {c}, d)
  {}

  /** Nothing about camera `c` changed. */
  ghost predicate SameAt(s: State, t: State, c: CamId) {
    && SameIn(s.actual, t.actual, c) && SameIn(s.failures, t.failures, c) && SameIn(s.running, t.running, c)
    && SameIn(s.epochs, t.epochs, c) && SameIn(s.leases, t.leases, c)
  }

  lemma ActuatedAtOwn(cfg: Settings, s: State, verb: Verb, cam: Camera, a: Answer)
    requires (verb.Start? || verb.Restart?) && CamInv(s, cam.id) && (verb.Start? ==> cam.id !in s.actual)
    ensures var (t, ok) := Actuated(cfg, s, verb, cam, a);
            && (ok == Some(true) ==> s.allowed && cam.id in t.epochs && cam.id in t.running
                                     && t.running[cam.id] == Pipeline(t.epochs[cam.id], cam.revision))
            && (ok != Some(true) ==> CamInv(t, cam.id))
            && (cam.id in t.epochs <==> cam.id in t.leases)
            && (cam.id in t.leases ==> t.leases[cam.id].epoch == t.epochs[cam.id])
  {}

  lemma ActuatedElsewhere(cfg: Settings, s: State, verb: Verb, cam: Camera, a: Answer, d: CamId)
    requires (verb.Start? || verb.Restart?) && d != cam.id
    ensures var t := Actuated(cfg, s, verb, cam, a).0;
            && SameIn(s.running, t.running, d) && SameIn(s.epochs, t.epochs, d) && SameIn(s.leases, t.leases, d)
  {
    var c := cam.id;
    if s.allowed && (NeedsEpoch(s, verb, c) ==> a.epoch.Some?) {
      var u := WithEpoch(cfg, s, verb, c, a);
      if NeedsEpoch(s, verb, c) {
        SameAfterPut(s.epochs, c, a.epoch.value, d);
        SameAfterPut(s.leases, c, Leases.NewLease(a.epoch.value, cfg.ttl, cfg.margin, a.stamp), d);
      }
      if MayWrite(u, c, a.check) {
        SameAfterDrop(u.running, c, d);
        SameAfterPut(u.running, c, Pipeline(u.epochs[c], cam.revision), d);
      }
    }
  }

  lemma ActuatedKeeps(cfg: Settings, s: State, verb: Verb, cam: Camera, a: Answer)
    requires verb.Start? || verb.Restart?
    ensures var t := Actuated(cfg, s, verb, cam, a).0;
            && t.allowed == s.allowed && t.observed == s.observed && t.rows == s.rows && t.actual == s.actual
            && t.failures == s.failures
  {}

  lemma FailingElsewhere(cfg: Settings, s: State, c: CamId, now: real, jitter: real, d: CamId)
    requires d != c
    ensures var t := Failing(cfg, s, c, now, jitter);
            SameIn(s.failures, t.failures, d) && t == s.(failures := t.failures)
  {}

  /** A turn is about its own camera only. */
  lemma TurnElsewhere(cfg: Settings, s: State, cam: Camera, now: real, a: Answer, d: CamId)
    requires d != cam.id
    ensures SameAt(s, Turn(cfg, s, cam, now, a).0, d)
  {
    hide Actuated, Failing;
    if !Skipped(s, cam, now) {
      var verb := if cam.id in s.actual then Restart else Start;
      ActuatedElsewhere(cfg, s, verb, cam, a, d);
      ActuatedKeeps(cfg, s, verb, cam, a);
      var (t, ok) := Actuated(cfg, s, verb, cam, a);
      SameAfterPut(t.actual, cam.id, cam.revision, d);
      SameAfterDrop(t.failures, cam.id, d);
      FailingElsewhere(cfg, t, cam.id, now, a.jitter, d);
    }
  }

  lemma TurnOwnCamera(cfg: Settings, s: State, cam: Camera, now: real, a: Answer)
    requires CamInv(s, cam.id)
    ensures CamInv(Turn(cfg, s, cam, now, a).0, cam.id)
  {
    if !Skipped(s, cam, now) {
      var verb := if cam.id in s.actual then Restart else Start;
      ActuatedAtOwn(cfg, s, verb, cam, a);
      ActuatedKeeps(cfg, s, verb, cam, a);
    }
  }

  lemma TurnKeeps(cfg: Settings, s: State, cam: Camera, now: real, a: Answer)
    ensures var t := Turn(cfg, s, cam, now, a).0;
            t.allowed == s.allowed && t.observed == s.observed && t.rows == s.rows
  {
    if !Skipped(s, cam, now) {
      ActuatedKeeps(cfg, s, if cam.id in s.actual then Restart else Start, cam, a);
    }
  }

  lemma TurnKeepsInv(cfg: Settings, s: State, cam: Camera, now: real, a: Answer)
    requires Inv(s)
    ensures Inv(Turn(cfg, s, cam, now, a).0)
  {
    var t := Turn(cfg, s, cam, now, a).0;
    TurnKeeps(cfg, s, cam, now, a);
    forall d ensures CamInv(t, d) {
      assert CamInv(s, d);
      if d == cam.id {
        TurnOwnCamera(cfg, s, cam, now, a);
      } else {
        TurnElsewhere(cfg, s, cam, now, a, d);
      }
    }
  }

  lemma {:induction false} StartLoopKeepsInv(cfg: Settings, s: State, cams: seq<Camera>, w: World)
    requires Inv(s)
    ensures Inv(StartLoop(cfg, s, cams, w).0)
    ensures StartLoop(cfg, s, cams, w).0.allowed == s.allowed
    ensures StartLoop(cfg, s, cams, w).0.observed == s.observed
  {
    if cams != [] {
      StartLoopKeepsInv(cfg, s, cams[..|cams| - 1], w);
      var t, cam := StartLoop(cfg, s, cams[..|cams| - 1], w).0, cams[|cams| - 1];
      TurnKeepsInv(cfg, t, cam, w.now, w.at(cam.id));
      TurnKeeps(cfg, t, cam, w.now, w.at(cam.id));
    }
  }

  lemma DroppedKeepsInv(s: State, cs: set<CamId>)
    requires Inv(s)
    ensures Inv(Dropped(s, cs))
  {
    forall c ensures CamInv(Dropped(s, cs), c) {
      assert CamInv(s, c);
    }
  }

  lemma {:induction false} PostedAllKeepsInv(s: State, posted: seq<(CamId, string)>)
    requires Inv(s)
    ensures Inv(PostedAll(s, posted)) && PostedAll(s, posted).(observed := s.observed) == s
    ensures !s.allowed ==> PostedAll(s, posted) == s
  {
    if posted != [] {
      PostedAllKeepsInv(s, posted[..|posted| - 1]);
    }
    forall c ensures CamInv(PostedAll(s, posted), c) {
      assert CamInv(s, c);
    }
  }

  lemma LostElsewhere(cfg: Settings, s: State, c: CamId, now: real, jitter: real, d: CamId)
    ensures var t := Observed(LostPipeline(cfg, s, c, now, jitter), c, "silent");
            && t == s.(actual := s.actual - {c}, failures := t.failures, observed := t.observed)
            && (d != c ==> SameIn(s.actual, t.actual, d))
            && (!s.allowed ==> t.observed == s.observed)
  {}

  /** The pipelines of `dead` are already off when their loss is handled. */
  lemma {:induction false} LostAllKeepsInv(cfg: Settings, s: State, dead: seq<CamId>, now: real, jitter: CamId -> real)
    requires Inv(s) && forall c :: c in dead ==> c !in s.running
    ensures Inv(LostAll(cfg, s, dead, now, jitter))
    ensures LostAll(cfg, s, dead, now, jitter).running == s.running
    ensures LostAll(cfg, s, dead, now, jitter).allowed == s.allowed
    ensures !s.allowed ==> LostAll(cfg, s, dead, now, jitter).observed == s.observed
  {
    if dead != [] {
      var init, c := dead[..|dead| - 1], dead[|dead| - 1];
      LostAllKeepsInv(cfg, s, init, now, jitter);
      var t := LostAll(cfg, s, init, now, jitter);
      forall d ensures CamInv(LostAll(cfg, s, dead, now, jitter), d) {
        assert CamInv(t, d);
        if d != c {
          LostElsewhere(cfg, t, c, now, jitter(c), d);
        }
      }
    }
  }

  lemma PumpedKeepsInv(cfg: Settings, s: State, dead: seq<CamId>, posted: seq<(CamId, string)>, now: real,
          jitter: CamId -> real)
    requires Inv(s)
    ensures Inv(Pumped(cfg, s, dead, posted, now, jitter))
    ensures Pumped(cfg, s, dead, posted, now, jitter).allowed == s.allowed
    ensures !s.allowed ==> Pumped(cfg, s, dead, posted, now, jitter).observed == s.observed
  {
    var off := set c | c in dead;
    var t := s.(running := s.running - off);
    forall c ensures CamInv(t, c) {
      assert CamInv(s, c);
    }
    PostedAllKeepsInv(t, posted);
    LostAllKeepsInv(cfg, PostedAll(t, posted), dead, now, jitter);
  }

  lemma {:induction false} RenewedKeep(ls: map<CamId, Leases.LeaseState>, order: seq<CamId>, live: CamId -> Option<nat>,
          clock: CamId -> real)
    ensures RenewedAll(ls, order, live, clock).0.Keys == ls.Keys
    ensures forall c :: c in ls ==> RenewedAll(ls, order, live, clock).0[c].epoch == ls[c].epoch
  {
    if order != [] {
      RenewedKeep(ls, order[..|order| - 1], live, clock);
    }
  }

  lemma FencedKeepsInv(s: State)
    requires Inv(s)
    ensures Inv(Fenced(s)) && Fenced(s).observed == s.observed && !Fenced(s).allowed
  {
    forall c ensures CamInv(Fenced(s), c) {
      assert CamInv(s, c);
    }
  }

  lemma RowsKeepInv(s: State, rows: seq<Camera>)
    requires Inv(s)
    ensures Inv(s.(rows := rows))
  {
    forall c ensures CamInv(s.(rows := rows), c) {
      assert CamInv(s, c);
    }
  }

  lemma RenewedKeepsInv(s: State, order: seq<CamId>, live: CamId -> Option<nat>, clock: CamId -> real)
    requires Inv(s)
    ensures Inv(s.(leases := RenewedAll(s.leases, order, live, clock).0))
  {
    RenewedKeep(s.leases, order, live, clock);
    var t := s.(leases := RenewedAll(s.leases, order, live, clock).0);
    forall c ensures CamInv(t, c) {
      assert CamInv(s, c);
      assert c in t.leases <==> c in s.leases;
    }
  }

  lemma {:induction false} HandleLostKeepsInv(s: State, lost: seq<CamId>, mine: set<CamId>)
    requires Inv(s)
    ensures Inv(HandleLost(s, lost, mine))
    ensures !s.allowed ==> !HandleLost(s, lost, mine).allowed
    ensures HandleLost(s, lost, mine).observed == s.observed
    decreases |lost|
  {
    if lost == [] {
    } else if lost[0] in mine {
      FencedKeepsInv(s);
    } else {
      DroppedKeepsInv(s, {lost[0]});
      HandleLostKeepsInv(Dropped(s, {lost[0]}), lost[1..], mine);
    }
  }

  lemma PassKeepsInv(cfg: Settings, s: State, p: Pass)
    requires Inv(s)
    ensures Inv(After(cfg, s, p))
    ensures !s.allowed ==> !After(cfg, s, p).allowed && After(cfg, s, p).observed == s.observed
  {
    match p
    case Reconcile(rows, w) =>
      if rows.Some? {
        var t := s.(rows := rows.value);
        RowsKeepInv(s, rows.value);
        StartLoopKeepsInv(cfg, t, Enabled(rows.value), w);
        var u := StartLoop(cfg, t, Enabled(rows.value), w).0;
        DroppedKeepsInv(u, u.actual.Keys - Ids(Enabled(rows.value)));
      }
    case Pump(dead, posted, now, jitter) =>
      PumpedKeepsInv(cfg, s, dead, posted, now, jitter);
    case LeasePass(slot, order, live, clock, mine) =>
      FencedKeepsInv(s);
      RenewedKeepsInv(s, order, live, clock);
      var (ls, lost) := RenewedAll(s.leases, order, live, clock);
      if mine.Some? {
        HandleLostKeepsInv(s.(leases := ls), lost, mine.value);
      }
  }

  /** The worker's invariant, over every run of passes from a fresh start. */
  lemma {:induction false} EveryRunKeepsInv(cfg: Settings, ps: seq<Pass>)
    ensures Inv(AfterAll(cfg, Fresh, ps))
  {
    if ps != [] {
      EveryRunKeepsInv(cfg, ps[..|ps| - 1]);
      PassKeepsInv(cfg, AfterAll(cfg, Fresh, ps[..|ps| - 1]), ps[|ps| - 1]);
    }
  }

  /** Once fenced, the worker runs nothing and observes nothing, for ever. */
  lemma {:induction false} FencedForEver(cfg: Settings, s: State, ps: seq<Pass>)
    requires Inv(s) && !s.allowed
    ensures var t := AfterAll(cfg, s, ps);
            Inv(t) && !t.allowed && t.running == map[] && t.observed == s.observed
  {
    assert s.running == map[] by {
      assert forall c :: CamInv(s, c) ==> c !in s.running;
    }
    if ps != [] {
      FencedForEver(cfg, s, ps[..|ps| - 1]);
      PassKeepsInv(cfg, AfterAll(cfg, s, ps[..|ps| - 1]), ps[|ps| - 1]);
      var t := AfterAll(cfg, s, ps);
      assert forall c :: CamInv(t, c) ==> c !in t.running;
    }
  }

  // ----- what a lease pass lets go

  function AsSet(cs: seq<CamId>): set<CamId> {
    set c | c in cs
  }

  lemma {:induction false} LossesDropped(s: State, lost: seq<CamId>, mine: set<CamId>)
    requires forall c :: c in lost ==> c !in mine
    ensures HandleLost(s, lost, mine) == Dropped(s, AsSet(lost))
    decreases |lost|
  {
    if lost == [] {
      DropNothing(s);
    } else {
      hide Dropped;
      assert lost == [lost[0]] + lost[1..];
      LossesDropped(Dropped(s, {lost[0]}), lost[1..], mine);
      assert AsSet(lost) == {lost[0]} + AsSet(lost[1..]);
      DropTwo(s, {lost[0]}, AsSet(lost[1..]));
    }
  }

  lemma DropTwo(s: State, a: set<CamId>, b: set<CamId>)
    ensures Dropped(Dropped(s, a), b) == Dropped(s, a + b)
  {
    assert s.running - a - b == s.running - (a + b) && s.epochs - a - b == s.epochs - (a + b);
    assert s.leases - a - b == s.leases - (a + b) && s.actual - a - b == s.actual - (a + b);
  }

  // ----- converged means running, and not behind

  /** The highest revision of each camera that any pass so far has been asked for. */
  function Asked(asked: map<CamId, nat>, rows: seq<Camera>): map<CamId, nat> {
    if rows == [] then asked
    else Asked(asked, rows[..|rows| - 1])[rows[|rows| - 1].id := rows[|rows| - 1].revision]
  }

  ghost predicate UniqueIds(rows: seq<Camera>) {
    forall i, j :: 0 <= i < j < |rows| ==> rows[i].id != rows[j].id
  }

  /** The rows of a pass: one per camera, revisions start at 1 and never decrease. */
  ghost predicate Orderly(asked: map<CamId, nat>, rows: seq<Camera>) {
    && UniqueIds(rows)
    && forall k :: 0 <= k < |rows| ==>
         rows[k].revision >= 1 && (rows[k].id in asked ==> asked[rows[k].id] <= rows[k].revision)
  }

  function AskedAfter(asked: map<CamId, nat>, p: Pass): map<CamId, nat> {
    if p.Reconcile? && p.rows.Some? then Asked(asked, p.rows.value) else asked
  }

  function AskedAll(ps: seq<Pass>): map<CamId, nat> {
    if ps == [] then map[] else AskedAfter(AskedAll(ps[..|ps| - 1]), ps[|ps| - 1])
  }

  ghost predicate OrderlyRun(ps: seq<Pass>) {
    ps != [] ==>
      && OrderlyRun(ps[..|ps| - 1])
      && var p := ps[|ps| - 1];
         p.Reconcile? && p.rows.Some? ==> Orderly(AskedAll(ps[..|ps| - 1]), p.rows.value)
  }

  /** A camera believed to run but not running is believed at an older revision
      than it was last asked for: a restart has failed. */
  ghost predicate CamBehind(s: State, asked: map<CamId, nat>, c: CamId) {
    c in s.actual ==> c in asked && s.actual[c] <= asked[c] && (c !in s.running ==> s.actual[c] < asked[c])
  }

  ghost predicate Behind(s: State, asked: map<CamId, nat>) {
    forall c :: CamBehind(s, asked, c)
  }

  /** The current rows are the latest asked. */
  ghost predicate RowsAsked(s: State, asked: map<CamId, nat>) {
    forall k :: 0 <= k < |s.rows| ==>
      s.rows[k].revision >= 1 && s.rows[k].id in asked && asked[s.rows[k].id] <= s.rows[k].revision
  }

  lemma {:induction false} AskedHas(asked: map<CamId, nat>, rows: seq<Camera>)
    requires UniqueIds(rows)
    ensures forall k :: 0 <= k < |rows| ==>
        rows[k].id in Asked(asked, rows) && Asked(asked, rows)[rows[k].id] == rows[k].revision
    ensures forall c :: c in asked ==> c in Asked(asked, rows)
    ensures forall c :: c in Asked(asked, rows) && c !in Ids(rows) ==> c in asked && Asked(asked, rows)[c] == asked[c]
  {
    if rows != [] {
      var init := rows[..|rows| - 1];
      AskedHas(asked, init);
      forall c | c in Asked(asked, rows) && c !in Ids(rows) ensures c in asked && Asked(asked, rows)[c] == asked[c] {
        assert rows[|rows| - 1].id in Ids(rows);
        assert forall k :: 0 <= k < |init| ==> rows[k].id in Ids(rows);
      }
    }
  }

  lemma AskedGrows(asked: map<CamId, nat>, rows: seq<Camera>)
    requires Orderly(asked, rows)
    ensures forall c :: c in asked ==> c in Asked(asked, rows) && asked[c] <= Asked(asked, rows)[c]
  {
    AskedHas(asked, rows);
    forall c | c in asked ensures asked[c] <= Asked(asked, rows)[c] {
      if c in Ids(rows) {
        var k :| 0 <= k < |rows| && rows[k].id == c;
      }
    }
  }

  lemma TurnOwnBehind(cfg: Settings, s: State, cam: Camera, now: real, a: Answer, asked: map<CamId, nat>)
    requires CamInv(s, cam.id) && CamBehind(s, asked, cam.id)
    requires cam.id in asked && asked[cam.id] == cam.revision
    ensures CamBehind(Turn(cfg, s, cam, now, a).0, asked, cam.id)
  {
    hide Actuated;
    if !Skipped(s, cam, now) {
      var verb := if cam.id in s.actual then Restart else Start;
      ActuatedAtOwn(cfg, s, verb, cam, a);
      ActuatedKeeps(cfg, s, verb, cam, a);
    }
  }

  lemma TurnKeepsBehind(cfg: Settings, s: State, cam: Camera, now: real, a: Answer, asked: map<CamId, nat>)
    requires Inv(s) && Behind(s, asked)
    requires cam.id in asked && asked[cam.id] == cam.revision
    ensures Behind(Turn(cfg, s, cam, now, a).0, asked)
  {
    forall d ensures CamBehind(Turn(cfg, s, cam, now, a).0, asked, d) {
      assert CamBehind(s, asked, d) && CamInv(s, d);
      if d == cam.id {
        TurnOwnBehind(cfg, s, cam, now, a, asked);
      } else {
        TurnElsewhere(cfg, s, cam, now, a, d);
      }
    }
  }

  lemma {:induction false} StartLoopKeepsBehind(cfg: Settings, s: State, cams: seq<Camera>, w: World,
          asked: map<CamId, nat>)
    requires Inv(s) && Behind(s, asked)
    requires forall k :: 0 <= k < |cams| ==> cams[k].id in asked && asked[cams[k].id] == cams[k].revision
    ensures Behind(StartLoop(cfg, s, cams, w).0, asked)
  {
    if cams != [] {
      StartLoopKeepsBehind(cfg, s, cams[..|cams| - 1], w, asked);
      StartLoopKeepsInv(cfg, s, cams[..|cams| - 1], w);
      var t, cam := StartLoop(cfg, s, cams[..|cams| - 1], w).0, cams[|cams| - 1];
      TurnKeepsBehind(cfg, t, cam, w.now, w.at(cam.id), asked);
    }
  }

  lemma {:induction false} EnabledAre(rows: seq<Camera>)
    ensures forall x :: x in Enabled(rows) <==> x in rows && x.enabled
  {
    if rows != [] {
      EnabledAre(rows[..|rows| - 1]);
      assert rows == rows[..|rows| - 1] + [rows[|rows| - 1]];
    }
  }

  lemma {:induction false} LostAllKeepsBehind(cfg: Settings, s: State, dead: seq<CamId>, now: real,
          jitter: CamId -> real, asked: map<CamId, nat>)
    requires forall c :: c !in dead ==> CamBehind(s, asked, c)
    ensures Behind(LostAll(cfg, s, dead, now, jitter), asked)
    ensures LostAll(cfg, s, dead, now, jitter).rows == s.rows
  {
    LostAllElsewhere(cfg, s, dead, now, jitter);
    forall c ensures CamBehind(LostAll(cfg, s, dead, now, jitter), asked, c) {
      assert c !in dead ==> CamBehind(s, asked, c);
    }
  }

  lemma {:induction false} LostAllElsewhere(cfg: Settings, s: State, dead: seq<CamId>, now: real, jitter: CamId -> real)
    ensures var t := LostAll(cfg, s, dead, now, jitter);
            && t.running == s.running && t.rows == s.rows
            && forall c :: if c in dead then c !in t.actual else SameIn(s.actual, t.actual, c)
  {
    if dead != [] {
      var init, c := dead[..|dead| - 1], dead[|dead| - 1];
      LostAllElsewhere(cfg, s, init, now, jitter);
      var t := LostAll(cfg, s, init, now, jitter);
      assert dead == init + [c];
      LostElsewhere(cfg, t, c, now, jitter(c), c);
      forall d ensures d in dead ==> d !in LostAll(cfg, s, dead, now, jitter).actual
               ensures d !in dead ==> SameIn(s.actual, LostAll(cfg, s, dead, now, jitter).actual, d)
      {
        LostElsewhere(cfg, t, c, now, jitter(c), d);
      }
    }
  }

  lemma {:induction false} HandleLostKeepsBehind(s: State, lost: seq<CamId>, mine: set<CamId>, asked: map<CamId, nat>)
    requires Behind(s, asked)
    ensures Behind(HandleLost(s, lost, mine), asked) && HandleLost(s, lost, mine).rows == s.rows
    decreases |lost|
  {
    if lost == [] {
    } else if lost[0] in mine {
      FencedKeepsBehind(s, asked);
    } else {
      DroppedKeepsBehind(s, {lost[0]}, asked);
      HandleLostKeepsBehind(Dropped(s, {lost[0]}), lost[1..], mine, asked);
    }
  }

  lemma FencedKeepsBehind(s: State, asked: map<CamId, nat>)
    requires Behind(s, asked)
    ensures Behind(Fenced(s), asked)
  {
    forall c ensures CamBehind(Fenced(s), asked, c) {
      assert CamBehind(s, asked, c);
    }
  }

  lemma DroppedKeepsBehind(s: State, cs: set<CamId>, asked: map<CamId, nat>)
    requires Behind(s, asked)
    ensures Behind(Dropped(s, cs), asked)
  {
    forall c ensures CamBehind(Dropped(s, cs), asked, c) {
      assert CamBehind(s, asked, c);
    }
  }

  lemma PumpKeepsBehind(cfg: Settings, s: State, dead: seq<CamId>, posted: seq<(CamId, string)>, now: real,
          jitter: CamId -> real, asked: map<CamId, nat>)
    requires Behind(s, asked)
    ensures Behind(Pumped(cfg, s, dead, posted, now, jitter), asked)
    ensures Pumped(cfg, s, dead, posted, now, jitter).rows == s.rows
  {
    var off := set c | c in dead;
    var t := s.(running := s.running - off);
    PostedRunningSame(t, posted);
    forall c | c !in dead ensures CamBehind(PostedAll(t, posted), asked, c) {
      assert CamBehind(s, asked, c);
    }
    LostAllKeepsBehind(cfg, PostedAll(t, posted), dead, now, jitter, asked);
  }

  lemma LeasePassKeepsBehind(s: State, slot: Option<bool>, order: seq<CamId>, live: CamId -> Option<nat>,
          clock: CamId -> real, mine: Option<set<CamId>>, asked: map<CamId, nat>)
    requires Behind(s, asked)
    ensures var t := AfterLeasePass(s, slot, order, live, clock, mine); Behind(t, asked) && t.rows == s.rows
  {
    FencedKeepsBehind(s, asked);
    var (ls, lost) := RenewedAll(s.leases, order, live, clock);
    var t := s.(leases := ls);
    forall c ensures CamBehind(t, asked, c) {
      assert CamBehind(s, asked, c);
    }
    if mine.Some? {
      HandleLostKeepsBehind(t, lost, mine.value, asked);
    }
  }

  lemma PassKeepsBehind(cfg: Settings, s: State, p: Pass, asked: map<CamId, nat>)
    requires Inv(s) && Behind(s, asked) && RowsAsked(s, asked)
    requires p.Reconcile? && p.rows.Some? ==> Orderly(asked, p.rows.value)
    ensures Behind(After(cfg, s, p), AskedAfter(asked, p)) && RowsAsked(After(cfg, s, p), AskedAfter(asked, p))
  {
    match p
    case Reconcile(rows, w) =>
      if rows.Some? {
        ReconcileKeepsBehind(cfg, s, rows.value, w, asked);
      }
    case Pump(dead, posted, now, jitter) =>
      PumpKeepsBehind(cfg, s, dead, posted, now, jitter, asked);
    case LeasePass(slot, order, live, clock, mine) =>
      LeasePassKeepsBehind(s, slot, order, live, clock, mine, asked);
  }

  lemma {:induction false} PostedRunningSame(s: State, posted: seq<(CamId, string)>)
    ensures PostedAll(s, posted).(observed := s.observed) == s
  {
    if posted != [] {
      PostedRunningSame(s, posted[..|posted| - 1]);
    }
  }

  lemma ReconcileKeepsBehind(cfg: Settings, s: State, rows: seq<Camera>, w: World, asked: map<CamId, nat>)
    requires Inv(s) && Behind(s, asked) && Orderly(asked, rows)
    ensures var t := Reconciled(cfg, s.(rows := rows), w).0;
            Behind(t, Asked(asked, rows)) && RowsAsked(t, Asked(asked, rows))
  {
    var a, t := Asked(asked, rows), s.(rows := rows);
    AskedHas(asked, rows);
    AskedGrows(asked, rows);
    EnabledAre(rows);
    var cams := Enabled(rows);
    forall k | 0 <= k < |cams| ensures cams[k].id in a && a[cams[k].id] == cams[k].revision {
      assert cams[k] in rows;
      var j :| 0 <= j < |rows| && rows[j] == cams[k];
    }
    RowsKeepInv(s, rows);
    forall c ensures CamBehind(t, a, c) {
      assert CamBehind(s, asked, c);
    }
    StartLoopKeepsBehind(cfg, t, cams, w, a);
    StartLoopKeepsRows(cfg, t, cams, w);
    var u := StartLoop(cfg, t, cams, w).0;
    DroppedKeepsBehind(u, u.actual.Keys - Ids(cams), a);
  }

  lemma {:induction false} StartLoopKeepsRows(cfg: Settings, s: State, cams: seq<Camera>, w: World)
    ensures StartLoop(cfg, s, cams, w).0.rows == s.rows
  {
    if cams != [] {
      StartLoopKeepsRows(cfg, s, cams[..|cams| - 1], w);
      TurnKeeps(cfg, StartLoop(cfg, s, cams[..|cams| - 1], w).0, cams[|cams| - 1], w.now, w.at(cams[|cams| - 1].id));
    }
  }

  lemma {:induction false} EveryRunKeepsBehind(cfg: Settings, ps: seq<Pass>)
    requires OrderlyRun(ps)
    ensures Behind(AfterAll(cfg, Fresh, ps), AskedAll(ps)) && RowsAsked(AfterAll(cfg, Fresh, ps), AskedAll(ps))
  {
    if ps != [] {
      var init := ps[..|ps| - 1];
      EveryRunKeepsBehind(cfg, init);
      EveryRunKeepsInv(cfg, init);
      PassKeepsBehind(cfg, AfterAll(cfg, Fresh, init), ps[|ps| - 1], AskedAll(init));
    }
  }

  /** `Reconciler.status`: a camera is converged when it does not lag. */
  predicate Converged(s: State, cam: Camera) {
    cam.enabled && (if cam.id in s.actual then s.actual[cam.id] else 0) >= cam.revision
  }

  /** A camera the status calls converged has a running pipeline, at a revision
      no older than the one desired, under the epoch the worker holds for it:
      after failed restarts, lost pipelines, disables and reassignments. */
  lemma {:induction false} ConvergedMeansRunning(cfg: Settings, ps: seq<Pass>, cam: Camera)
    requires OrderlyRun(ps)
    requires cam in AfterAll(cfg, Fresh, ps).rows && Converged(AfterAll(cfg, Fresh, ps), cam)
    ensures var s := AfterAll(cfg, Fresh, ps);
            && cam.id in s.running && cam.id in s.epochs
            && s.running[cam.id].revision >= cam.revision
            && s.running[cam.id].epoch == s.epochs[cam.id]
            && s.allowed
  {
    var s := AfterAll(cfg, Fresh, ps);
    EveryRunKeepsInv(cfg, ps);
    EveryRunKeepsBehind(cfg, ps);
    assert CamInv(s, cam.id) && CamBehind(s, AskedAll(ps), cam.id);
    var k :| 0 <= k < |s.rows| && s.rows[k] == cam;
  }

  // ----- with an actuator that always succeeds

  /** Nothing stands in the way of a start or a restart of camera `c`: no
      backoff is pending, an epoch can be had, its lease is young enough when
      checked, and the pipeline starts. */
  ghost predicate Goes(cfg: Settings, s: State, c: CamId, now: real, a: Answer) {
    && (c in s.failures ==> s.failures[c].retryAt <= now)
    && a.starts && a.epoch.Some?
    && a.check - a.stamp < cfg.ttl - cfg.margin
    && (c in s.leases ==> Leases.MayWriteAt(s.leases[c], a.check))
  }

  lemma ActuatedGoes(cfg: Settings, s: State, verb: Verb, cam: Camera, now: real, a: Answer)
    requires verb.Start? || verb.Restart?
    requires s.allowed && CamInv(s, cam.id) && Goes(cfg, s, cam.id, now, a)
    ensures Actuated(cfg, s, verb, cam, a).1 == Some(true)
  {}

  lemma TurnGoes(cfg: Settings, s: State, cam: Camera, now: real, a: Answer)
    requires s.allowed && CamInv(s, cam.id) && Goes(cfg, s, cam.id, now, a)
    ensures !Turn(cfg, s, cam, now, a).2
    ensures var t := Turn(cfg, s, cam, now, a).0;
            t.actual.Keys == s.actual.Keys + {cam.id} && t.actual[cam.id] >= cam.revision
  {
    if !Skipped(s, cam, now) {
      var verb := if cam.id in s.actual then Restart else Start;
      ActuatedGoes(cfg, s, verb, cam, now, a);
      ActuatedKeeps(cfg, s, verb, cam, a);
    }
  }

  lemma {:induction false} StartLoopElsewhere(cfg: Settings, s: State, cams: seq<Camera>, w: World, c: CamId)
    requires forall k :: 0 <= k < |cams| ==> cams[k].id != c
    ensures SameAt(s, StartLoop(cfg, s, cams, w).0, c)
  {
    if cams != [] {
      var init, cam := cams[..|cams| - 1], cams[|cams| - 1];
      StartLoopElsewhere(cfg, s, init, w, c);
      TurnElsewhere(cfg, StartLoop(cfg, s, init, w).0, cam, w.now, w.at(cam.id), c);
    }
  }

  lemma InIds(cams: seq<Camera>, k: nat)
    requires k < |cams|
    ensures cams[k].id in Ids(cams)
  {}

  lemma IdsOfAppend(cams: seq<Camera>, cam: Camera)
    ensures Ids(cams + [cam]) == Ids(cams) + {cam.id}
  {
    var all := cams + [cam];
    forall c ensures c in Ids(all) <==> c in Ids(cams) + {cam.id} {
      if c in Ids(cams) {
        var k :| 0 <= k < |cams| && cams[k].id == c;
        assert all[k].id == c;
      }
      assert all[|cams|] == cam;
    }
  }

  /** Started, and no older than asked. */
  ghost predicate Up(s: State, cam: Camera) {
    cam.id in s.actual && s.actual[cam.id] >= cam.revision
  }

  lemma {:induction false} StartLoopStartsAll(cfg: Settings, s: State, cams: seq<Camera>, w: World)
    requires Inv(s) && s.allowed && UniqueIds(cams)
    requires forall k :: 0 <= k < |cams| ==> Goes(cfg, s, cams[k].id, w.now, w.at(cams[k].id))
    ensures !StartLoop(cfg, s, cams, w).2
    ensures StartLoop(cfg, s, cams, w).0.actual.Keys == s.actual.Keys + Ids(cams)
    ensures forall k :: 0 <= k < |cams| ==> Up(StartLoop(cfg, s, cams, w).0, cams[k])
  {
    hide Turn;
    if cams != [] {
      var n := |cams| - 1;
      var init, cam := cams[..n], cams[n];
      StartLoopStartsAll(cfg, s, init, w);
      var t := StartLoop(cfg, s, init, w).0;
      LoopLeavesGoing(cfg, s, init, cam, w);
      TurnGoes(cfg, t, cam, w.now, w.at(cam.id));
      assert cams == init + [cam];
      IdsOfAppend(init, cam);
      forall k | 0 <= k < n ensures Up(StartLoop(cfg, s, cams, w).0, cams[k]) {
        assert Up(t, init[k]);
        TurnElsewhere(cfg, t, cam, w.now, w.at(cam.id), cams[k].id);
      }
    }
  }

  lemma LoopLeavesGoing(cfg: Settings, s: State, init: seq<Camera>, cam: Camera, w: World)
    requires Inv(s) && s.allowed && forall k :: 0 <= k < |init| ==> init[k].id != cam.id
    requires Goes(cfg, s, cam.id, w.now, w.at(cam.id))
    ensures var t := StartLoop(cfg, s, init, w).0;
            t.allowed && CamInv(t, cam.id) && Goes(cfg, t, cam.id, w.now, w.at(cam.id))
  {
    StartLoopKeepsInv(cfg, s, init, w);
    StartLoopElsewhere(cfg, s, init, w, cam.id);
    assert CamInv(StartLoop(cfg, s, init, w).0, cam.id);
  }

  lemma {:induction false} EnabledUnique(rows: seq<Camera>)
    requires UniqueIds(rows)
    ensures UniqueIds(Enabled(rows))
  {
    if rows != [] {
      var init, last := rows[..|rows| - 1], rows[|rows| - 1];
      EnabledUnique(init);
      EnabledAre(init);
      forall i | 0 <= i < |Enabled(init)| ensures Enabled(init)[i].id != last.id {
        assert Enabled(init)[i] in init;
        var j :| 0 <= j < |init| && init[j] == Enabled(init)[i];
        assert rows[j].id != last.id;
      }
    }
  }

  ghost predicate AllGo(cfg: Settings, s: State, rows: seq<Camera>, w: World) {
    s.allowed && forall x :: x in rows && x.enabled ==> Goes(cfg, s, x.id, w.now, w.at(x.id))
  }

  /** With everything succeeding and no backoff pending, one pass makes what
      the worker believes running exactly the enabled rows, each really running
      and none behind. `Inv` and `Behind` hold after every orderly run. */
  lemma {:induction false} OnePassConverges(cfg: Settings, s: State, rows: seq<Camera>, w: World,
          asked: map<CamId, nat>)
    requires Inv(s) && Behind(s, asked) && Orderly(asked, rows) && AllGo(cfg, s, rows, w)
    ensures !Reconciled(cfg, s.(rows := rows), w).2
    ensures var t := Reconciled(cfg, s.(rows := rows), w).0;
            && t.actual.Keys == Ids(Enabled(rows))
            && forall x :: x in rows && x.enabled ==>
                 && x.id in t.actual && t.actual[x.id] >= x.revision
                 && x.id in t.running && t.running[x.id].revision >= x.revision
  {
    hide StartLoop, Enabled, Asked, Ids;
    var s1, cams := s.(rows := rows), Enabled(rows);
    EnabledAre(rows);
    EnabledUnique(rows);
    RowsKeepInv(s, rows);
    forall k | 0 <= k < |cams| ensures Goes(cfg, s1, cams[k].id, w.now, w.at(cams[k].id)) {
      assert cams[k] in cams;
      assert Goes(cfg, s, cams[k].id, w.now, w.at(cams[k].id));
    }
    StartLoopStartsAll(cfg, s1, cams, w);
    StartLoopKeepsInv(cfg, s1, cams, w);
    var u := StartLoop(cfg, s1, cams, w).0;
    var t := Reconciled(cfg, s1, w).0;
    DroppedKeepsInv(u, u.actual.Keys - Ids(cams));
    ReconcileKeepsBehind(cfg, s, rows, w, asked);
    AskedHas(asked, rows);
    forall x | x in rows && x.enabled
      ensures x.id in t.actual && t.actual[x.id] >= x.revision
      ensures x.id in t.running && t.running[x.id].revision >= x.revision
    {
      var k :| 0 <= k < |cams| && cams[k] == x;
      InIds(cams, k);
      var j :| 0 <= j < |rows| && rows[j] == x;
      assert CamInv(t, x.id) && CamBehind(t, Asked(asked, rows), x.id);
    }
  }

  lemma {:induction false} StartLoopIdle(cfg: Settings, s: State, cams: seq<Camera>, w: World)
    requires forall k :: 0 <= k < |cams| ==> cams[k].id in s.actual && s.actual[cams[k].id] >= cams[k].revision
    ensures StartLoop(cfg, s, cams, w) == (s, {}, false)
  {
    if cams != [] {
      StartLoopIdle(cfg, s, cams[..|cams| - 1], w);
      var cam := cams[|cams| - 1];
      assert Skipped(s, cam, w.now);
      var none: set<Action> := {};
      assert none + none == none;
    }
  }

  /** And the next pass over the same rows does nothing, whatever the world
      would answer. */
  lemma {:induction false} NextPassDoesNothing(cfg: Settings, s: State, rows: seq<Camera>, w: World,
          asked: map<CamId, nat>, w': World)
    requires Inv(s) && Behind(s, asked) && Orderly(asked, rows) && AllGo(cfg, s, rows, w)
    ensures var t := Reconciled(cfg, s.(rows := rows), w).0;
            t.rows == rows && Reconciled(cfg, t, w') == (t, {}, false)
  {
    OnePassConverges(cfg, s, rows, w, asked);
    var cams := Enabled(rows);
    StartLoopKeepsRows(cfg, s.(rows := rows), cams, w);
    EnabledAre(rows);
    var t := Reconciled(cfg, s.(rows := rows), w).0;
    assert forall k :: 0 <= k < |cams| ==> cams[k] in cams;
    StartLoopIdle(cfg, t, cams, w');
    assert Enabled(t.rows) == cams && t.actual.Keys - Ids(cams) == {};
    DropNothing(t);
    var none: set<Action> := {};
    assert none + none == none;
  }

  lemma DropNothing(s: State)
    ensures Dropped(s, {}) == s && Stops({}) == {}
  {
    assert s.running - {} == s.running && s.epochs - {} == s.epochs;
    assert s.leases - {} == s.leases && s.actual - {} == s.actual;
  }
}
