/** One worker process: the reconcile loop, the epochs and leases it takes for
    its cameras, its pipelines, and the passes that drive them. */
module VmsWorker {
  import opened Variables
  import opened Leases

  type CamId = nat

  datatype Camera = Camera(id: CamId, revision: nat, enabled: bool)
  datatype Pipeline = Pipeline(epoch: nat, revision: nat)
  datatype Failure = Failure(n: nat, retryAt: real)
  datatype Verb = Start | Restart | Failed | Stop
  datatype Action = Action(verb: Verb, cam: CamId)
  datatype Observation = Observation(cam: CamId, epoch: nat, kind: string)

  datatype Settings = Settings(ttl: real, margin: real, maxBackoff: real)

  /** What a worker holds. `running` is the actuator's: what is really on. */
  datatype State = State(
    rows: seq<Camera>,
    actual: map<CamId, nat>,           // camera -> revision the reconciler believes is running
    failures: map<CamId, Failure>,
    running: map<CamId, Pipeline>,
    epochs: map<CamId, nat>,
    leases: map<CamId, LeaseState>,
    allowed: bool,                     // recording_allowed
    observed: seq<Observation>)

  /** What the world answers when one camera has its turn: the epoch issued
      (`None`: the call raised), the two clock readings around the lease,
      whether the pipeline starts, and the jitter. */
  datatype Answer = Answer(epoch: Option<nat>, stamp: real, check: real, starts: bool, jitter: real)

  datatype World = World(now: real, at: CamId -> Answer)

  const Fresh := State([], map[], map[], map[], map[], map[], true, [])

  // ----- the reconciler

  function Pow2(n: nat): nat {
    if n == 0 then 1 else 2 * Pow2(n - 1)
  }

  function BaseDelay(cfg: Settings, n: nat): real {
    if Pow2(n) as real < cfg.maxBackoff then Pow2(n) as real else cfg.maxBackoff
  }

  function Jittered(base: real, jitter: real): real {
    base * (0.5 + jitter * 0.5)
  }

  function Delay(cfg: Settings, n: nat, jitter: real): real {
    Jittered(BaseDelay(cfg, n), jitter)
  }

  function Failing(cfg: Settings, s: State, c: CamId, now: real, jitter: real): State {
    var n := (if c in s.failures then s.failures[c].n else 0) + 1;
    s.(failures := s.failures[c := Failure(n, now + Delay(cfg, n, jitter))])
  }

  function TakeEpoch(cfg: Settings, s: State, c: CamId, e: nat, stamp: real): State {
    s.(epochs := s.epochs[c := e], leases := s.leases[c := NewLease(e, cfg.ttl, cfg.margin, stamp)])
  }

  predicate MayWrite(s: State, c: CamId, now: real) {
    c in s.leases && MayWriteAt(s.leases[c], now)
  }

  /** A start takes a new epoch; a restart only where none is held. */
  predicate NeedsEpoch(s: State, verb: Verb, c: CamId) {
    verb.Start? || c !in s.epochs
  }

  function WithEpoch(cfg: Settings, s: State, verb: Verb, c: CamId, a: Answer): State
    requires NeedsEpoch(s, verb, c) ==> a.epoch.Some?
  {
    if NeedsEpoch(s, verb, c) then TakeEpoch(cfg, s, c, a.epoch.value, a.stamp) else s
  }

  /** The gate, for start and restart. `None`: an exception came out of it. */
  function Actuated(cfg: Settings, s: State, verb: Verb, cam: Camera, a: Answer): (State, Option<bool>)
    requires verb.Start? || verb.Restart?
  {
    if !s.allowed then (s, Some(false))
    else if NeedsEpoch(s, verb, cam.id) && a.epoch.None? then (s, None)
    else
      var t := WithEpoch(cfg, s, verb, cam.id, a);
      if !MayWrite(t, cam.id, a.check) then (t, Some(false))
      else if a.starts then (t.(running := t.running[cam.id := Pipeline(t.epochs[cam.id], cam.revision)]), Some(true))
      else (t.(running := t.running - {cam.id}), Some(false))
  }

  /** Nothing to do for this camera in this pass. */
  predicate Skipped(s: State, cam: Camera, now: real) {
    || (cam.id in s.actual && s.actual[cam.id] >= cam.revision)
    || (cam.id in s.failures && now < s.failures[cam.id].retryAt)
  }

  /** One turn of the start loop: new state, what was done, whether it raised. */
  function Turn(cfg: Settings, s: State, cam: Camera, now: real, a: Answer): (State, set<Action>, bool) {
    if Skipped(s, cam, now) then (s, {}, false)
    else
      var verb := if cam.id in s.actual then Restart else Start;
      var (t, ok) := Actuated(cfg, s, verb, cam, a);
      match ok
      case None => (t, {}, true)
      case Some(true) =>
        (t.(actual := t.actual[cam.id := cam.revision], failures := t.failures - {cam.id}), {Action(verb, cam.id)},
            false)
      case Some(false) =>
        (Failing(cfg, t, cam.id, now, a.jitter), {Action(Failed, cam.id)}, false)
  }

  function StartLoop(cfg: Settings, s: State, cams: seq<Camera>, w: World): (State, set<Action>, bool) {
    if cams == [] then (s, {}, false)
    else
      var (t, acts, raised) := StartLoop(cfg, s, cams[..|cams| - 1], w);
      if raised then (t, acts, true)
      else
        var (u, more, r) := Turn(cfg, t, cams[|cams| - 1], w.now, w.at(cams[|cams| - 1].id));
        (u, acts + more, r)
  }

  /** `stop` on an actuator, then the release of the epoch and its lease. */
  function Dropped(s: State, cs: set<CamId>): State {
    s.(running := s.running - cs, epochs := s.epochs - cs, leases := s.leases - cs, actual := s.actual - cs)
  }

  function Enabled(rows: seq<Camera>): seq<Camera> {
    if rows == [] then []
    else if rows[|rows| - 1].enabled then Enabled(rows[..|rows| - 1]) + [rows[|rows| - 1]]
    else Enabled(rows[..|rows| - 1])
  }

  function Ids(cams: seq<Camera>): set<CamId> {
    set k | 0 <= k < |cams| :: cams[k].id
  }

  function Reconciled(cfg: Settings, s: State, w: World): (State, set<Action>, bool) {
    var cams := Enabled(s.rows);
    var (t, acts, raised) := StartLoop(cfg, s, cams, w);
    if raised then (t, acts, true)
    else
      var gone := t.actual.Keys - Ids(cams);
      (Dropped(t, gone), acts + Stops(gone), false)
  }

  function Stops(cs: set<CamId>): set<Action> {
    set c | c in cs :: Action(Stop, c)
  }

  function LostPipeline(cfg: Settings, s: State, c: CamId, now: real, jitter: real): State {
    Failing(cfg, s.(actual := s.actual - {c}), c, now, jitter)
  }

  function Fenced(s: State): State {
    if !s.allowed then s else s.(allowed := false, running := map[], actual := map[])
  }

  function Observed(s: State, c: CamId, kind: string): State {
    if c in s.epochs && s.allowed then s.(observed := s.observed + [Observation(c, s.epochs[c], kind)]) else s
  }

  // ----- the passes

  datatype Pass =
    | Reconcile(rows: Option<seq<Camera>>, w: World)     // `None`: reading the rows raised
    | Pump(dead: seq<CamId>, posted: seq<(CamId, string)>, now: real, jitter: CamId -> real)
    | LeasePass(slot: Option<bool>,                      // renew_slot; `None`: it raised
                order: seq<CamId>,                       // the leases, in dictionary order
                live: CamId -> Option<nat>,              // each key as read; `None`: no answer
                clock: CamId -> real,
                mine: Option<set<CamId>>)            // `None`: reading the assignment raised

  function PostedAll(s: State, posted: seq<(CamId, string)>): State {
    if posted == [] then s
    else Observed(PostedAll(s, posted[..|posted| - 1]), posted[|posted| - 1].0, posted[|posted| - 1].1)
  }

  function LostAll(cfg: Settings, s: State, dead: seq<CamId>, now: real, jitter: CamId -> real): State {
    if dead == [] then s
    else
      var c := dead[|dead| - 1];
      Observed(LostPipeline(cfg, LostAll(cfg, s, dead[..|dead| - 1], now, jitter), c, now, jitter(c)), c, "silent")
  }

  function Pumped(cfg: Settings, s: State, dead: seq<CamId>, posted: seq<(CamId, string)>, now: real,
          jitter: CamId -> real): State
  {
    var t := s.(running := s.running - set c | c in dead);
    LostAll(cfg, PostedAll(t, posted), dead, now, jitter)
  }

  /** `renew_leases`: the leases in dictionary order, and those that did not renew. */
  function RenewedAll(ls: map<CamId, LeaseState>, order: seq<CamId>, live: CamId -> Option<nat>,
          clock: CamId -> real): (map<CamId, LeaseState>, seq<CamId>)
  {
    if order == [] then (ls, [])
    else
      var (m, lost) := RenewedAll(ls, order[..|order| - 1], live, clock);
      var c := order[|order| - 1];
      if c !in m then (m, lost)
      else (m[c := Renewed(m[c], live(c), clock(c))],
            if RenewOk(m[c], live(c), clock(c)) then lost else lost + [c])
  }

  /** A lost lease on a camera no longer assigned is let go; one on a camera
      still assigned fences the whole instance, and ends the pass. */
  function HandleLost(s: State, lost: seq<CamId>, mine: set<CamId>): State
    decreases |lost|
  {
    if lost == [] then s
    else if lost[0] in mine then Fenced(s)
    else HandleLost(Dropped(s, {lost[0]}), lost[1..], mine)
  }

  function AfterLeasePass(s: State, slot: Option<bool>, order: seq<CamId>, live: CamId -> Option<nat>,
          clock: CamId -> real, mine: Option<set<CamId>>): State
  {
    if slot.None? then s
    else if !slot.value then Fenced(s)
    else
      var (ls, lost) := RenewedAll(s.leases, order, live, clock);
      var t := s.(leases := ls);
      if lost == [] || mine.None? then t else HandleLost(t, lost, mine.value)
  }

  function After(cfg: Settings, s: State, p: Pass): State {
    match p
    case Reconcile(rows, w) => if rows.None? then s else Reconciled(cfg, s.(rows := rows.value), w).0
    case Pump(dead, posted, now, jitter) => Pumped(cfg, s, dead, posted, now, jitter)
    case LeasePass(slot, order, live, clock, mine) => AfterLeasePass(s, slot, order, live, clock, mine)
  }

  function AfterAll(cfg: Settings, s: State, ps: seq<Pass>): State {
    if ps == [] then s else After(cfg, AfterAll(cfg, s, ps[..|ps| - 1]), ps[|ps| - 1])
  }

  // ----- the worker itself

  class Worker {
    const cfg: Settings
    var rows: seq<Camera>
    var actual: map<CamId, nat>
    var failures: map<CamId, Failure>
    var running: map<CamId, Pipeline>
    var epochs: map<CamId, nat>
    var leases: map<CamId, LeaseState>
    var allowed: bool
    var observed: seq<Observation>

    ghost function S(): State
      reads this
    {
      State(rows, actual, failures, running, epochs, leases, allowed, observed)
    }

    constructor (cfg: Settings)
      ensures S() == Fresh && this.cfg == cfg
    {
      this.cfg := cfg;
      rows, actual, failures, running := [], map[], map[], map[];
      epochs, leases, allowed, observed := map[], map[], true, [];
    }

    method Fail(c: CamId, now: real, jitter: real)
      modifies this`failures
      ensures S() == Failing(cfg, old(S()), c, now, jitter)
    {
      var n := (if c in failures then failures[c].n else 0) + 1;
      failures := failures[c := Failure(n, now + Delay(cfg, n, jitter))];
    }

    method Actuate(verb: Verb, cam: Camera, a: Answer) returns (ok: Option<bool>)
      requires verb.Start? || verb.Restart?
      modifies this`epochs, this`leases, this`running
      ensures (S(), ok) == Actuated(cfg, old(S()), verb, cam, a)
    {
      var c := cam.id;
      if !allowed {
        return Some(false);
      }
      if verb.Start? || c !in epochs {
        if a.epoch.None? {
          return None;
        }
        epochs := epochs[c := a.epoch.value];
        leases := leases[c := NewLease(a.epoch.value, cfg.ttl, cfg.margin, a.stamp)];
      }
      if c !in leases || !MayWriteAt(leases[c], a.check) {
        return Some(false);
      }
      if a.starts {
        running := running[c := Pipeline(epochs[c], cam.revision)];
        return Some(true);
      }
      running := running - {c};
      return Some(false);
    }

    method StopAndRelease(c: CamId)
      modifies this`running, this`epochs, this`leases, this`actual
      ensures S() == Dropped(old(S()), {c})
    {
      running := running - {c};
      epochs := epochs - {c};
      leases := leases - {c};
      actual := actual - {c};
    }

    method ReconcileOnce(read: Option<seq<Camera>>, w: World) returns (acts: set<Action>, raised: bool)
      modifies this
      ensures S() == After(cfg, old(S()), Reconcile(read, w))
      ensures read.None? ==> raised && acts == {}
      ensures read.Some? ==>
                (acts, raised) == (Reconciled(cfg, old(S()).(rows := read.value), w).1,
                                   Reconciled(cfg, old(S()).(rows := read.value), w).2)
    {
      if read.None? {
        return {}, true;
      }
      rows := read.value;
      var desired := EnabledRows();
      acts, raised := StartEach(desired, w);
      if !raised {
        var stops := StopAll(actual.Keys - Ids(desired));
        acts := acts + stops;
      }
    }

    /** The start loop. An exception ends it, and the pass. */
    method StartEach(desired: seq<Camera>, w: World) returns (acts: set<Action>, raised: bool)
      modifies this
      ensures (S(), acts, raised) == StartLoop(cfg, old(S()), desired, w)
      ensures rows == old(rows)
    {
      hide Turn;
      acts := {};
      ghost var s := S();
      for i := 0 to |desired|
        invariant (S(), acts, false) == StartLoop(cfg, s, desired[..i], w) && rows == s.rows
      {
        assert desired[..i + 1][..i] == desired[..i];
        var more, r := TurnOnce(desired[i], w.now, w.at(desired[i].id));
        acts := acts + more;
        if r {
          RaisedStays(cfg, s, desired[..i + 1], desired[i + 1..], w);
          assert desired[..i + 1] + desired[i + 1..] == desired;
          return acts, true;
        }
      }
      assert desired[..|desired|] == desired;
      raised := false;
    }

    method EnabledRows() returns (cams: seq<Camera>)
      ensures cams == Enabled(rows)
    {
      cams := [];
      for i := 0 to |rows|
        invariant cams == Enabled(rows[..i])
      {
        assert rows[..i + 1][..i] == rows[..i];
        if rows[i].enabled {
          cams := cams + [rows[i]];
        }
      }
      assert rows[..|rows|] == rows;
    }

    method TurnOnce(cam: Camera, now: real, a: Answer) returns (acts: set<Action>, raised: bool)
      modifies this
      ensures (S(), acts, raised) == Turn(cfg, old(S()), cam, now, a)
      ensures rows == old(rows)
    {
      var c := cam.id;
      if c in actual && actual[c] >= cam.revision {
        return {}, false;
      }
      if c in failures && now < failures[c].retryAt {
        return {}, false;
      }
      var verb := if c in actual then Restart else Start;
      var ok := Actuate(verb, cam, a);
      match ok
      case None =>
        return {}, true;
      case Some(true) =>
        actual := actual[c := cam.revision];
        failures := failures - {c};
        return {Action(verb, c)}, false;
      case Some(false) =>
        Fail(c, now, a.jitter);
        return {Action(Failed, c)}, false;
    }

    /** The stop loop, over what is running and not wanted. */
    method StopAll(gone: set<CamId>) returns (acts: set<Action>)
      modifies this`running, this`epochs, this`leases, this`actual
      ensures S() == Dropped(old(S()), gone)
      ensures acts == Stops(gone)
    {
      acts := {};
      ghost var s := S();
      var rest := gone;
      ghost var done: set<CamId> := {};
      assert Dropped(s, {}) == s && Stops({}) == {};
      while rest != {}
        invariant rest !! done && rest + done == gone
        invariant S() == Dropped(s, done) && acts == Stops(done)
        decreases |rest|
      {
        var c :| c in rest;
        StopAndRelease(c);
        DroppedTwice(s, done, c);
        acts := acts + {Action(Stop, c)};
        rest, done := rest - {c}, done + {c};
      }
      assert done == gone;
    }

    method Fence()
      modifies this`allowed, this`running, this`actual
      ensures S() == Fenced(old(S()))
    {
      if allowed {
        allowed := false;
        running := map[];
        actual := map[];
      }
    }

    method Observe(c: CamId, kind: string)
      modifies this`observed
      ensures S() == Observed(old(S()), c, kind)
    {
      if c in epochs && allowed {
        observed := observed + [Observation(c, epochs[c], kind)];
      }
    }

    method PumpOnce(dead: seq<CamId>, posted: seq<(CamId, string)>, now: real, jitter: CamId -> real)
      modifies this
      ensures S() == Pumped(cfg, old(S()), dead, posted, now, jitter)
    {
      running := running - set c | c in dead;
      ghost var t := S();
      for i := 0 to |posted|
        invariant S() == PostedAll(t, posted[..i])
      {
        assert posted[..i + 1][..i] == posted[..i];
        Observe(posted[i].0, posted[i].1);
      }
      assert posted[..|posted|] == posted;
      ghost var u := S();
      for i := 0 to |dead|
        invariant S() == LostAll(cfg, u, dead[..i], now, jitter)
      {
        assert dead[..i + 1][..i] == dead[..i];
        actual := actual - {dead[i]};
        Fail(dead[i], now, jitter(dead[i]));
        Observe(dead[i], "silent");
      }
      assert dead[..|dead|] == dead;
    }

    method RenewLeases(order: seq<CamId>, live: CamId -> Option<nat>, clock: CamId -> real) returns (lost: seq<CamId>)
      modifies this`leases
      ensures (leases, lost) == RenewedAll(old(leases), order, live, clock)
    {
      lost := [];
      ghost var was := leases;
      for i := 0 to |order|
        invariant (leases, lost) == RenewedAll(was, order[..i], live, clock)
      {
        assert order[..i + 1][..i] == order[..i];
        var c := order[i];
        if c in leases {
          if !RenewOk(leases[c], live(c), clock(c)) {
            lost := lost + [c];
          }
          leases := leases[c := Renewed(leases[c], live(c), clock(c))];
        }
      }
      assert order[..|order|] == order;
    }

    method LeasePassOnce(slot: Option<bool>, order: seq<CamId>, live: CamId -> Option<nat>, clock: CamId -> real,
            mine: Option<set<CamId>>)
      modifies this
      ensures S() == AfterLeasePass(old(S()), slot, order, live, clock, mine)
    {
      if slot.None? {
        return;
      }
      if !slot.value {
        Fence();
        return;
      }
      var lost := RenewLeases(order, live, clock);
      if lost == [] || mine.None? {
        return;
      }
      ghost var t := S();
      for i := 0 to |lost|
        invariant HandleLost(S(), lost[i..], mine.value) == HandleLost(t, lost, mine.value)
      {
        assert lost[i..][0] == lost[i] && lost[i..][1..] == lost[i + 1..];
        if lost[i] in mine.value {
          Fence();
          return;
        }
        StopAndRelease(lost[i]);
      }
    }
  }

  lemma {:induction false} RaisedStays(cfg: Settings, s: State, cams: seq<Camera>, more: seq<Camera>, w: World)
    requires StartLoop(cfg, s, cams, w).2
    ensures StartLoop(cfg, s, cams + more, w) == StartLoop(cfg, s, cams, w)
  {
    if more == [] {
      assert cams + more == cams;
    } else {
      var all := cams + more;
      assert all[..|all| - 1] == cams + more[..|more| - 1];
      RaisedStays(cfg, s, cams, more[..|more| - 1], w);
    }
  }

  lemma DroppedTwice(s: State, a: set<CamId>, c: CamId)
    ensures Dropped(Dropped(s, a), {c}) == Dropped(s, a + {c})
    ensures Stops(a + {c}) == Stops(a) + {Action(Stop, c)}
  {
    var t, u := Dropped(Dropped(s, a), {c}), Dropped(s, a + {c});
    assert t.running == u.running && t.epochs == u.epochs && t.leases == u.leases && t.actual == u.actual;
  }
}
