/** What each pass of the worker does to each camera, in terms of its fields. */
module PassLaws {
  import opened Variables
  import Leases
  import opened VmsWorker
  import opened WorkerLaws

  // ----- backoff

  /** The longest wait after the n-th failure in a row: 2 seconds, then twice
      the last one each time, up to the maximum. */
  function Wait(cfg: Settings, n: nat): real
    requires n > 0
  {
    var twice := if n == 1 then 2.0 else 2.0 * Wait(cfg, n - 1);
    if twice < cfg.maxBackoff then twice else cfg.maxBackoff
  }

  lemma {:induction false} WaitIsBaseDelay(cfg: Settings, n: nat)
    requires n > 0 && cfg.maxBackoff >= 0.0
    ensures BaseDelay(cfg, n) == Wait(cfg, n)
  {
    if n == 1 {
      assert Pow2(1) == 2 * Pow2(0) == 2;
    } else {
      WaitIsBaseDelay(cfg, n - 1);
      assert Pow2(n) as real == 2.0 * Pow2(n - 1) as real;
    }
  }

  /** The jitter takes off up to half. */
  function Shortened(wait: real, jitter: real): real {
    wait * (0.5 + jitter * 0.5)
  }

  function Failures(s: State, c: CamId): nat {
    if c in s.failures then s.failures[c].n else 0
  }

  /** One failure more, and the next try put off. */
  ghost predicate FailedOnce(cfg: Settings, s: State, t: State, c: CamId, now: real, jitter: real) {
    var n := Failures(s, c) + 1;
    c in t.failures && t.failures[c] == Failure(n, now + Shortened(Wait(cfg, n), jitter))
  }

  lemma FailingIs(cfg: Settings, s: State, c: CamId, now: real, jitter: real)
    requires cfg.maxBackoff >= 0.0
    ensures FailedOnce(cfg, s, Failing(cfg, s, c, now, jitter), c, now, jitter)
  {
    WaitIsBaseDelay(cfg, Failures(s, c) + 1);
  }

  lemma Between(base: real, f: real)
    requires base > 0.0 && 0.5 <= f <= 1.0
    ensures base / 2.0 <= base * f <= base
  {
    assert base * (f - 0.5) >= 0.0;
    assert base * (1.0 - f) >= 0.0;
  }

  lemma {:induction false} WaitIsPositive(cfg: Settings, n: nat)
    requires n > 0 && cfg.maxBackoff > 0.0
    ensures 0.0 < Wait(cfg, n) <= cfg.maxBackoff
  {
    if n > 1 {
      WaitIsPositive(cfg, n - 1);
    }
  }

  lemma ShortenedIs(wait: real, jitter: real)
    requires wait > 0.0 && 0.0 <= jitter <= 1.0
    ensures wait / 2.0 <= Shortened(wait, jitter) <= wait
  {
    Between(wait, 0.5 + jitter * 0.5);
  }

  /** Each failure counts one more, and puts the next try at least half of the
      wait away and at most all of it. */
  lemma BackoffIsBounded(cfg: Settings, s: State, c: CamId, now: real, jitter: real)
    requires 0.0 <= jitter <= 1.0 && cfg.maxBackoff > 0.0
    ensures var t, n := Failing(cfg, s, c, now, jitter), Failures(s, c) + 1;
            && t.failures[c].n == n && 0.0 < Wait(cfg, n) <= cfg.maxBackoff
            && now + Wait(cfg, n) / 2.0 <= t.failures[c].retryAt <= now + Wait(cfg, n)
  {
    var n := Failures(s, c) + 1;
    FailingIs(cfg, s, c, now, jitter);
    WaitIsPositive(cfg, n);
    hide Shortened, Wait, Failing;
    ShortenedIs(Wait(cfg, n), jitter);
  }

  /** Two failures in a row, without jitter: the second wait is the smaller of
      twice the first and the maximum; the first of all is at most 2 seconds. */
  lemma DelayDoubles(cfg: Settings, s: State, c: CamId, now: real, later: real)
    requires cfg.maxBackoff >= 0.0
    ensures var t := Failing(cfg, s, c, now, 1.0);
            var u := Failing(cfg, t, c, later, 1.0);
            var first, second := t.failures[c].retryAt - now, u.failures[c].retryAt - later;
            && second == (if 2.0 * first < cfg.maxBackoff then 2.0 * first else cfg.maxBackoff)
            && (c !in s.failures ==> first == if 2.0 < cfg.maxBackoff then 2.0 else cfg.maxBackoff)
  {
    FailingIs(cfg, s, c, now, 1.0);
    FailingIs(cfg, Failing(cfg, s, c, now, 1.0), c, later, 1.0);
  }

  // ----- the reconcile pass

  /** Up to date, or put off. */
  predicate Waits(s: State, cam: Camera, now: real) {
    || (cam.id in s.actual && cam.revision <= s.actual[cam.id])
    || (cam.id in s.failures && now < s.failures[cam.id].retryAt)
  }

  predicate TakesEpoch(s: State, c: CamId) {
    c !in s.actual || c !in s.epochs
  }

  /** The call for an epoch gets no answer. */
  predicate Raises(s: State, cam: Camera, w: World) {
    && cam.enabled && s.allowed && !Waits(s, cam, w.now)
    && TakesEpoch(s, cam.id) && w.at(cam.id).epoch.None?
  }

  /** The lease is young enough when it is checked: the new one, stamped before
      the check, or the one held. */
  predicate MayStart(cfg: Settings, s: State, c: CamId, a: Answer) {
    s.allowed &&
    if TakesEpoch(s, c) then a.check - a.stamp < cfg.ttl - cfg.margin
    else
      && c in s.leases && !s.leases[c].fenced
      && a.check - s.leases[c].lastRenewal < s.leases[c].ttl - s.leases[c].margin
  }

  /** The epoch and its lease after the gate: new ones, or those held. */
  ghost predicate EpochSays(cfg: Settings, s: State, t: State, c: CamId, a: Answer) {
    if s.allowed && TakesEpoch(s, c)
    then
      && c in t.epochs && a.epoch == Some(t.epochs[c])
      && c in t.leases && t.leases[c] == Leases.LeaseState(t.epochs[c], cfg.ttl, cfg.margin, a.stamp, false, 0)
    else SameIn(s.epochs, t.epochs, c) && SameIn(s.leases, t.leases, c)
  }

  /** The pipeline, and whether it was tried at all. */
  ghost predicate PipelineSays(cfg: Settings, s: State, t: State, cam: Camera, a: Answer) {
    var c := cam.id;
    if !MayStart(cfg, s, c, a) then SameIn(s.running, t.running, c)
    else if !a.starts then c !in t.running
    else c in t.epochs && c in t.running && t.running[c] == Pipeline(t.epochs[c], cam.revision)
  }

  /** After a turn that was not put off. A success ends the row of failures, a
      failure is one more. */
  ghost predicate TurnSays(cfg: Settings, s: State, t: State, cam: Camera, w: World) {
    var c, a := cam.id, w.at(cam.id);
    && EpochSays(cfg, s, t, c, a) && PipelineSays(cfg, s, t, cam, a)
    && if MayStart(cfg, s, c, a) && a.starts
       then c in t.actual && t.actual[c] == cam.revision && c !in t.failures
       else SameIn(s.actual, t.actual, c) && FailedOnce(cfg, s, t, c, w.now, a.jitter)
  }

  /** What is reported of that turn. */
  function VerbOf(cfg: Settings, s: State, cam: Camera, a: Answer): Verb {
    if !(MayStart(cfg, s, cam.id, a) && a.starts) then Failed
    else if cam.id in s.actual then Restart else Start
  }

  lemma ActuatedIs(cfg: Settings, s: State, cam: Camera, a: Answer)
    requires CamInv(s, cam.id)
    ensures var verb := if cam.id in s.actual then Restart else Start;
            var (t, ok) := Actuated(cfg, s, verb, cam, a);
            && (ok.None? <==> s.allowed && TakesEpoch(s, cam.id) && a.epoch.None?)
            && (ok.None? ==> t == s)
            && (ok.Some? ==>
                  && (ok.value <==> MayStart(cfg, s, cam.id, a) && a.starts)
                  && EpochSays(cfg, s, t, cam.id, a) && PipelineSays(cfg, s, t, cam, a))
  {}

  lemma SaysStill(cfg: Settings, s: State, t: State, u: State, cam: Camera, a: Answer)
    ensures u.epochs == t.epochs && u.leases == t.leases && u.running == t.running ==>
              && EpochSays(cfg, s, u, cam.id, a) == EpochSays(cfg, s, t, cam.id, a)
              && PipelineSays(cfg, s, u, cam, a) == PipelineSays(cfg, s, t, cam, a)
  {
    hide MayStart, TakesEpoch;
  }

  lemma TurnIs(cfg: Settings, s: State, cam: Camera, w: World)
    requires CamInv(s, cam.id) && cfg.maxBackoff >= 0.0 && cam.enabled
    ensures var (t, acts, raised) := Turn(cfg, s, cam, w.now, w.at(cam.id));
            && (raised <==> Raises(s, cam, w))
            && (raised || Waits(s, cam, w.now) ==> t == s && acts == {})
            && (!raised && !Waits(s, cam, w.now) ==>
                  TurnSays(cfg, s, t, cam, w) && acts == {Action(VerbOf(cfg, s, cam, w.at(cam.id)), cam.id)})
  {
    var a := w.at(cam.id);
    assert Skipped(s, cam, w.now) <==> Waits(s, cam, w.now);
    if !Waits(s, cam, w.now) {
      var verb := if cam.id in s.actual then Restart else Start;
      ActuatedIs(cfg, s, cam, a);
      ActuatedKeeps(cfg, s, verb, cam, a);
      var t := Actuated(cfg, s, verb, cam, a).0;
      FailingIs(cfg, t, cam.id, w.now, a.jitter);
      FailingKeeps(cfg, t, cam.id, w.now, a.jitter);
      SaysStill(cfg, s, t, Turn(cfg, s, cam, w.now, a).0, cam, a);
      hide Failing, Wait, Shortened, Actuated, Skipped, Waits, MayStart, TakesEpoch, EpochSays, PipelineSays;
    }
  }

  lemma FailingKeeps(cfg: Settings, s: State, c: CamId, now: real, jitter: real)
    ensures var t := Failing(cfg, s, c, now, jitter); t == s.(failures := t.failures)
  {}

  predicate RaisedBy(s: State, rows: seq<Camera>, w: World, i: nat) {
    exists j :: 0 <= j < |rows| && j < i && Raises(s, rows[j], w)
  }

  /** What the start loop does to the camera of one row, and what it reports. */
  ghost predicate RowSays(cfg: Settings, s: State, t: State, acts: set<Action>, rows: seq<Camera>, w: World, i: nat)
    requires i < |rows|
  {
    var cam := rows[i];
    if RaisedBy(s, rows, w, i + 1) || Waits(s, cam, w.now)
    then SameAt(s, t, cam.id) && forall v :: Action(v, cam.id) !in acts
    else
      && TurnSays(cfg, s, t, cam, w)
      && forall v :: Action(v, cam.id) in acts <==> v == VerbOf(cfg, s, cam, w.at(cam.id))
  }

  lemma GateSame(cfg: Settings, s: State, u: State, cam: Camera, w: World)
    requires SameAt(s, u, cam.id) && s.allowed == u.allowed
    ensures MayStart(cfg, u, cam.id, w.at(cam.id)) == MayStart(cfg, s, cam.id, w.at(cam.id))
    ensures TakesEpoch(u, cam.id) == TakesEpoch(s, cam.id) && Failures(u, cam.id) == Failures(s, cam.id)
    ensures Waits(u, cam, w.now) == Waits(s, cam, w.now) && Raises(u, cam, w) == Raises(s, cam, w)
    ensures VerbOf(cfg, u, cam, w.at(cam.id)) == VerbOf(cfg, s, cam, w.at(cam.id))
  {}

  lemma TurnSaysSame(cfg: Settings, s: State, u: State, t: State, cam: Camera, w: World)
    requires SameAt(s, u, cam.id) && s.allowed == u.allowed
    ensures TurnSays(cfg, u, t, cam, w) <==> TurnSays(cfg, s, t, cam, w)
    ensures Waits(u, cam, w.now) == Waits(s, cam, w.now) && Raises(u, cam, w) == Raises(s, cam, w)
    ensures VerbOf(cfg, u, cam, w.at(cam.id)) == VerbOf(cfg, s, cam, w.at(cam.id))
  {
    GateSame(cfg, s, u, cam, w);
    hide MayStart, TakesEpoch, Failures, Waits, Raises, VerbOf, Wait, Shortened;
  }

  lemma TurnSaysStill(cfg: Settings, s: State, t: State, u: State, cam: Camera, w: World)
    requires SameAt(t, u, cam.id) && TurnSays(cfg, s, t, cam, w)
    ensures TurnSays(cfg, s, u, cam, w)
  {
    hide Wait, MayStart, TakesEpoch;
  }

  lemma {:induction false} ActsElsewhere(cfg: Settings, s: State, cams: seq<Camera>, w: World, c: CamId)
    requires forall k :: 0 <= k < |cams| ==> cams[k].id != c
    ensures forall v :: Action(v, c) !in StartLoop(cfg, s, cams, w).1
  {
    hide Actuated, Failing, Skipped;
    if cams != [] {
      ActsElsewhere(cfg, s, cams[..|cams| - 1], w, c);
    }
  }

  /** The last row's turn, after those before it. */
  lemma LastTurn(cfg: Settings, s: State, rows: seq<Camera>, w: World)
    requires Inv(s) && UniqueIds(rows) && cfg.maxBackoff >= 0.0 && rows != [] && rows[|rows| - 1].enabled
    ensures var init, cam := rows[..|rows| - 1], rows[|rows| - 1];
            var (t, acts, raised) := StartLoop(cfg, s, Enabled(init), w);
            var (u, more, r) := Turn(cfg, t, cam, w.now, w.at(cam.id));
            && StartLoop(cfg, s, Enabled(rows), w) == (if raised then (t, acts, true) else (u, acts + more, r))
            && SameAt(s, t, cam.id) && (forall v :: Action(v, cam.id) !in acts)
            && (r <==> Raises(s, cam, w))
            && (r || Waits(s, cam, w.now) ==> u == t && more == {})
            && (!r && !Waits(s, cam, w.now) ==>
                  TurnSays(cfg, s, u, cam, w) && more == {Action(VerbOf(cfg, s, cam, w.at(cam.id)), cam.id)})
            && (forall d :: d != cam.id ==> SameAt(t, u, d))
  {
    var init, cam := rows[..|rows| - 1], rows[|rows| - 1];
    var cams, t := Enabled(init), StartLoop(cfg, s, Enabled(init), w).0;
    assert Enabled(rows)[..|Enabled(rows)| - 1] == cams;
    EnabledAre(init);
    forall k | 0 <= k < |cams| ensures cams[k].id != cam.id {
      assert cams[k] in init;
      var j :| 0 <= j < |init| && init[j] == cams[k];
      assert rows[j].id != cam.id;
    }
    StartLoopElsewhere(cfg, s, cams, w, cam.id);
    StartLoopKeepsInv(cfg, s, cams, w);
    ActsElsewhere(cfg, s, cams, w, cam.id);
    assert CamInv(t, cam.id);
    TurnIs(cfg, t, cam, w);
    var u := Turn(cfg, t, cam, w.now, w.at(cam.id)).0;
    TurnSaysSame(cfg, s, t, u, cam, w);
    forall d | d != cam.id ensures SameAt(t, u, d) {
      TurnElsewhere(cfg, t, cam, w.now, w.at(cam.id), d);
    }
    hide Turn, TurnSays, Raises, Waits, SameAt, CamInv, VerbOf;
  }

  lemma RaisedByOneMore(s: State, rows: seq<Camera>, w: World)
    requires rows != []
    ensures RaisedBy(s, rows, w, |rows|) <==>
            RaisedBy(s, rows[..|rows| - 1], w, |rows| - 1) || Raises(s, rows[|rows| - 1], w)
  {
    hide Raises;
    var n := |rows| - 1;
    if RaisedBy(s, rows[..n], w, n) {
      var j :| 0 <= j < n && Raises(s, rows[..n][j], w);
      assert Raises(s, rows[j], w);
    }
    if RaisedBy(s, rows, w, |rows|) && !Raises(s, rows[n], w) {
      var j :| 0 <= j < |rows| && Raises(s, rows[j], w);
      assert Raises(s, rows[..n][j], w);
    }
  }

  lemma RaisedByPrefix(s: State, rows: seq<Camera>, w: World, i: nat)
    requires rows != [] && i <= |rows| - 1
    ensures RaisedBy(s, rows, w, i) == RaisedBy(s, rows[..|rows| - 1], w, i)
  {
    hide Raises;
    var n := |rows| - 1;
    if RaisedBy(s, rows, w, i) {
      var j :| 0 <= j < i && Raises(s, rows[j], w);
      assert Raises(s, rows[..n][j], w);
    }
    if RaisedBy(s, rows[..n], w, i) {
      var j :| 0 <= j < i && j < n && Raises(s, rows[..n][j], w);
      assert Raises(s, rows[j], w);
    }
  }

  lemma {:induction false} LoopRaises(cfg: Settings, s: State, rows: seq<Camera>, w: World)
    requires Inv(s) && UniqueIds(rows) && cfg.maxBackoff >= 0.0
    ensures StartLoop(cfg, s, Enabled(rows), w).2 <==> RaisedBy(s, rows, w, |rows|)
  {
    if rows != [] {
      LoopRaises(cfg, s, rows[..|rows| - 1], w);
      RaisedByOneMore(s, rows, w);
      if rows[|rows| - 1].enabled {
        LastTurn(cfg, s, rows, w);
      }
    }
  }

  /** What is said of a row stays said as long as its camera is left alone. */
  lemma RowStays(cfg: Settings, s: State, t: State, u: State, acts: set<Action>, more: set<Action>, rows: seq<Camera>,
          w: World, i: nat)
    requires i < |rows| - 1 && RowSays(cfg, s, t, acts, rows[..|rows| - 1], w, i)
    requires SameAt(t, u, rows[i].id) && forall v :: Action(v, rows[i].id) !in more
    ensures RowSays(cfg, s, u, acts + more, rows, w, i)
  {
    RaisedByPrefix(s, rows, w, i + 1);
    if TurnSays(cfg, s, t, rows[i], w) {
      TurnSaysStill(cfg, s, t, u, rows[i], w);
    }
    hide TurnSays, Raises, RaisedBy, VerbOf, Waits;
  }

  lemma {:induction false} LoopSays(cfg: Settings, s: State, rows: seq<Camera>, w: World, i: nat)
    requires Inv(s) && UniqueIds(rows) && cfg.maxBackoff >= 0.0 && i < |rows| && rows[i].enabled
    ensures var (t, acts, _) := StartLoop(cfg, s, Enabled(rows), w);
            RowSays(cfg, s, t, acts, rows, w, i)
  {
    var n := |rows| - 1;
    var init := rows[..n];
    LoopRaises(cfg, s, init, w);
    if rows[n].enabled {
      LastTurn(cfg, s, rows, w);
    }
    if i < n {
      LoopSays(cfg, s, init, w, i);
      LoopLeaves(cfg, s, rows, w, i);
    } else {
      RaisedByOneMore(s, rows, w);
      hide Turn, StartLoop, TurnSays, Raises, VerbOf, RaisedBy, Waits;
    }
  }

  lemma LoopLeaves(cfg: Settings, s: State, rows: seq<Camera>, w: World, i: nat)
    requires Inv(s) && UniqueIds(rows) && cfg.maxBackoff >= 0.0 && i < |rows| - 1
    requires var (t, acts, _) := StartLoop(cfg, s, Enabled(rows[..|rows| - 1]), w);
             RowSays(cfg, s, t, acts, rows[..|rows| - 1], w, i)
    ensures var (t, acts, _) := StartLoop(cfg, s, Enabled(rows), w);
            RowSays(cfg, s, t, acts, rows, w, i)
  {
    var (t, acts, raised) := StartLoop(cfg, s, Enabled(rows[..|rows| - 1]), w);
    var none: set<Action> := {};
    if !rows[|rows| - 1].enabled || raised {
      LoopSkips(cfg, s, rows, w);
      SameAtSelf(t, rows[i].id);
      hide *;
      assert acts + none == acts;
      RowStays(cfg, s, t, t, acts, none, rows, w, i);
    } else {
      var more := LoopTurns(cfg, s, rows, w, rows[i].id);
      hide *;
      RowStays(cfg, s, t, StartLoop(cfg, s, Enabled(rows), w).0, acts, more, rows, w, i);
    }
  }

  lemma LoopSkips(cfg: Settings, s: State, rows: seq<Camera>, w: World)
    requires rows != []
    ensures var (t, acts, raised) := StartLoop(cfg, s, Enabled(rows[..|rows| - 1]), w);
            !rows[|rows| - 1].enabled || raised ==>
              StartLoop(cfg, s, Enabled(rows), w).0 == t && StartLoop(cfg, s, Enabled(rows), w).1 == acts
  {
    var cams := Enabled(rows);
    assert rows[|rows| - 1].enabled ==> cams[..|cams| - 1] == Enabled(rows[..|rows| - 1]);
    hide Turn;
  }

  /** The last row's turn touches no other camera. */
  lemma LoopTurns(cfg: Settings, s: State, rows: seq<Camera>, w: World, c: CamId) returns (more: set<Action>)
    requires Inv(s) && UniqueIds(rows) && cfg.maxBackoff >= 0.0 && rows != []
    requires rows[|rows| - 1].enabled && !StartLoop(cfg, s, Enabled(rows[..|rows| - 1]), w).2
    requires c != rows[|rows| - 1].id
    ensures var (t, acts, _) := StartLoop(cfg, s, Enabled(rows[..|rows| - 1]), w);
            && StartLoop(cfg, s, Enabled(rows), w).1 == acts + more && (forall v :: Action(v, c) !in more)
            && SameAt(t, StartLoop(cfg, s, Enabled(rows), w).0, c)
  {
    LastTurn(cfg, s, rows, w);
    hide StartLoop, Enabled, Turn, SameAt, TurnSays, Waits, Raises, VerbOf;
    var cam := rows[|rows| - 1];
    more := Turn(cfg, StartLoop(cfg, s, Enabled(rows[..|rows| - 1]), w).0, cam, w.now, w.at(cam.id)).1;
  }

  lemma SameAtSelf(s: State, c: CamId)
    ensures SameAt(s, s, c)
  {}

  /** A camera that runs and that no enabled row names. */
  ghost predicate StopSays(s: State, t: State, acts: set<Action>, c: CamId) {
    && c !in t.actual && c !in t.running && c !in t.epochs && c !in t.leases && SameIn(s.failures, t.failures, c)
    && forall v :: Action(v, c) in acts <==> v == Stop
  }

  lemma DropSays(s: State, gone: set<CamId>, acts: set<Action>, c: CamId)
    ensures c !in gone ==> SameAt(s, Dropped(s, gone), c)
    ensures c !in gone ==> forall v :: Action(v, c) in acts + Stops(gone) <==> Action(v, c) in acts
    ensures c in gone && (forall v :: Action(v, c) !in acts) ==> StopSays(s, Dropped(s, gone), acts + Stops(gone), c)
  {}

  /** A reconcile pass, camera by camera. It raises exactly when the call for
      some camera's epoch gets no answer, and is over then: no row after that
      is looked at and nothing is stopped. A row that is up to date or put off
      is left alone, and each other enabled row has its turn. */
  lemma ReconcileIs(cfg: Settings, before: State, rows: seq<Camera>, w: World, i: nat)
    requires Inv(before) && UniqueIds(rows) && cfg.maxBackoff >= 0.0
    ensures var s := before.(rows := rows);
            var (t, acts, raised) := Reconciled(cfg, s, w);
            && t.allowed == s.allowed && t.observed == s.observed && t.rows == rows
            && (raised <==> RaisedBy(s, rows, w, |rows|))
            && (i < |rows| && rows[i].enabled ==> RowSays(cfg, s, t, acts, rows, w, i))
  {
    var s := before.(rows := rows);
    RowsKeepInv(before, rows);
    StartLoopKeepsInv(cfg, s, Enabled(rows), w);
    StartLoopKeepsRows(cfg, s, Enabled(rows), w);
    LoopRaises(cfg, s, rows, w);
    if i < |rows| && rows[i].enabled {
      LoopSays(cfg, s, rows, w, i);
      var (u, acts, raised) := StartLoop(cfg, s, Enabled(rows), w);
      var gone, c := u.actual.Keys - Ids(Enabled(rows)), rows[i].id;
      EnabledAre(rows);
      assert c !in gone by {
        var k :| 0 <= k < |Enabled(rows)| && Enabled(rows)[k] == rows[i];
        InIds(Enabled(rows), k);
      }
      DropSays(u, gone, acts, c);
      hide StartLoop, Dropped, Stops, Enabled, RaisedBy, TurnSays, VerbOf, Waits;
      if !raised {
        StillSays(cfg, s, u, Dropped(u, gone), acts, acts + Stops(gone), rows, w, i);
      }
    }
  }

  lemma StillSays(cfg: Settings, s: State, t: State, u: State, acts: set<Action>, all: set<Action>, rows: seq<Camera>,
          w: World, i: nat)
    requires i < |rows| && RowSays(cfg, s, t, acts, rows, w, i)
    requires SameAt(t, u, rows[i].id) && forall v :: Action(v, rows[i].id) in all <==> Action(v, rows[i].id) in acts
    ensures RowSays(cfg, s, u, all, rows, w, i)
  {
    if TurnSays(cfg, s, t, rows[i], w) {
      TurnSaysStill(cfg, s, t, u, rows[i], w);
    }
    hide TurnSays, RaisedBy, VerbOf, Waits;
  }

  /** A camera that no enabled row names is stopped and let go, unless the pass
      has raised or it was not running. */
  lemma ReconcileStops(cfg: Settings, before: State, rows: seq<Camera>, w: World, c: CamId)
    requires Inv(before) && UniqueIds(rows) && cfg.maxBackoff >= 0.0
    requires forall i :: 0 <= i < |rows| && rows[i].enabled ==> rows[i].id != c
    ensures var s := before.(rows := rows);
            var (t, acts, raised) := Reconciled(cfg, s, w);
            if raised || c !in s.actual then SameAt(s, t, c) && forall v :: Action(v, c) !in acts
            else StopSays(s, t, acts, c)
  {
    var s, cams := before.(rows := rows), Enabled(rows);
    EnabledAre(rows);
    forall k | 0 <= k < |cams| ensures cams[k].id != c {
      assert cams[k] in rows;
      var j :| 0 <= j < |rows| && rows[j] == cams[k];
    }
    StartLoopElsewhere(cfg, s, cams, w, c);
    ActsElsewhere(cfg, s, cams, w, c);
    var (u, acts, _) := StartLoop(cfg, s, cams, w);
    assert c !in Ids(cams);
    DropSays(u, u.actual.Keys - Ids(cams), acts, c);
    hide StartLoop, Dropped, Stops, Enabled;
  }

  // ----- the lease pass

  /** The renewal fails: fenced already, a newer epoch read, or no answer and
      the lease run out. */
  predicate NotRenewed(l: Leases.LeaseState, live: Option<nat>, now: real) {
    || l.fenced
    || match live {
         case None => now - l.lastRenewal >= l.ttl - l.margin
         case Some(e) => e != l.epoch
       }
  }

  predicate Loses(s: State, order: seq<CamId>, live: CamId -> Option<nat>, clock: CamId -> real, c: CamId) {
    c in order && c in s.leases && NotRenewed(s.leases[c], live(c), clock(c))
  }

  /** A lease asked about: stamped where its own epoch was read, fenced where
      another was, and left alone where nothing was read. */
  ghost predicate LeaseSays(l: Leases.LeaseState, m: Leases.LeaseState, live: Option<nat>, now: real) {
    if l.fenced || live.None? then m == l
    else if live.value == l.epoch then m == l.(lastRenewal := now)
    else m == l.(fenced := true, conflicts := l.conflicts + 1)
  }

  lemma {:induction false} RenewedAre(ls: map<CamId, Leases.LeaseState>, order: seq<CamId>, live: CamId -> Option<nat>,
          clock: CamId -> real, c: CamId)
    ensures var (renewed, lost) := RenewedAll(ls, order, live, clock);
            && renewed.Keys == ls.Keys
            && (c in ls ==> if c in order then LeaseSays(ls[c], renewed[c], live(c), clock(c)) else renewed[c] == ls[c])
            && (c in lost <==> c in order && c in ls && NotRenewed(ls[c], live(c), clock(c)))
  {
    RenewedKeep(ls, order, live, clock);
    if order != [] {
      var init, last := order[..|order| - 1], order[|order| - 1];
      RenewedAre(ls, init, live, clock, c);
      RenewedKeep(ls, init, live, clock);
      assert order == init + [last];
    }
  }

  /** A lease pass fences the worker if and only if its slot is another's, or
      its assignment was read and a camera still in it has a lease that did
      not renew; nothing runs then. With no answer about the slot nothing
      happens at all. */
  lemma LeasePassFences(cfg: Settings, s: State, p: Pass)
    requires s.allowed && p.LeasePass?
    ensures var t := After(cfg, s, p);
            && (!t.allowed <==>
                  || p.slot == Some(false)
                  || (p.slot == Some(true) && p.mine.Some?
                      && exists c :: c in p.mine.value && Loses(s, p.order, p.live, p.clock, c)))
            && (!t.allowed ==> t.running == map[] && t.actual == map[])
            && (p.slot == None ==> t == s)
            && t.observed == s.observed && t.failures == s.failures && t.rows == s.rows
  {
    if p.slot == Some(true) {
      var (ls, lost) := RenewedAll(s.leases, p.order, p.live, p.clock);
      forall c ensures c in lost <==> Loses(s, p.order, p.live, p.clock, c) {
        RenewedAre(s.leases, p.order, p.live, p.clock, c);
      }
      if p.mine.Some? {
        HandledSays(s.(leases := ls), lost, p.mine.value);
      }
    }
  }

  lemma {:induction false} HandledSays(s: State, lost: seq<CamId>, mine: set<CamId>)
    requires s.allowed
    ensures var t := HandleLost(s, lost, mine);
            && (!t.allowed <==> exists c :: c in lost && c in mine)
            && (!t.allowed ==> t.running == map[] && t.actual == map[])
            && t.observed == s.observed && t.failures == s.failures && t.rows == s.rows
    decreases |lost|
  {
    if lost != [] {
      assert lost == [lost[0]] + lost[1..];
      if lost[0] !in mine {
        HandledSays(Dropped(s, {lost[0]}), lost[1..], mine);
      }
    }
  }

  /** A pass that does not fence: exactly the cameras lost are let go, every
      other lease asked about is renewed or left, and what runs goes on. With
      the assignment unread nothing is let go. */
  lemma LeasePassLetsGo(cfg: Settings, s: State, p: Pass, c: CamId)
    requires s.allowed && p.LeasePass? && p.slot == Some(true) && After(cfg, s, p).allowed
    ensures var t := After(cfg, s, p);
            if p.mine.Some? && Loses(s, p.order, p.live, p.clock, c)
            then c !in t.running && c !in t.actual && c !in t.epochs && c !in t.leases
            else
              && SameIn(s.running, t.running, c) && SameIn(s.actual, t.actual, c) && SameIn(s.epochs, t.epochs, c)
              && (c in t.leases <==> c in s.leases)
              && (c in s.leases ==>
                    if c in p.order then LeaseSays(s.leases[c], t.leases[c], p.live(c), p.clock(c))
                    else t.leases[c] == s.leases[c])
  {
    var (ls, lost) := RenewedAll(s.leases, p.order, p.live, p.clock);
    var t := s.(leases := ls);
    RenewedAre(s.leases, p.order, p.live, p.clock, c);
    if p.mine.Some? {
      HandledSays(t, lost, p.mine.value);
      assert After(cfg, s, p) == HandleLost(t, lost, p.mine.value) by {
        if lost == [] {
          assert HandleLost(t, lost, p.mine.value) == t;
        }
      }
      LossesDropped(t, lost, p.mine.value);
      assert c in AsSet(lost) <==> c in lost;
      hide LeaseSays, NotRenewed, RenewedAll, HandleLost, After, AsSet;
    }
  }

  // ----- the pump pass

  /** How many of the first `k` are cameras whose epoch is held. */
  function HeldAmong(cs: seq<CamId>, epochs: map<CamId, nat>, k: nat): nat
    requires k <= |cs|
  {
    if k == 0 then 0 else HeldAmong(cs, epochs, k - 1) + if cs[k - 1] in epochs then 1 else 0
  }

  /** The cameras of the posted events, in order, and then the dead ones. */
  function Told(posted: seq<(CamId, string)>, dead: seq<CamId>): seq<CamId> {
    seq(|posted|, k requires 0 <= k < |posted| => posted[k].0) + dead
  }

  function KindTold(posted: seq<(CamId, string)>, k: nat): string {
    if k < |posted| then posted[k].1 else "silent"
  }

  /** Of the first `k` told, each with its epoch held is observed under it, in
      order, after what was observed before, and nothing else is. */
  ghost predicate ToldUpTo(s: State, observed: seq<Observation>, posted: seq<(CamId, string)>, cs: seq<CamId>, k: nat)
    requires k <= |cs|
  {
    && s.observed <= observed
    && |observed| == |s.observed| + HeldAmong(cs, s.epochs, k)
    && forall j :: 0 <= j < k && cs[j] in s.epochs ==>
         var at := |s.observed| + HeldAmong(cs, s.epochs, j);
         at < |observed| && observed[at] == Observation(cs[j], s.epochs[cs[j]], KindTold(posted, j))
  }

  lemma {:induction false} HeldGrows(cs: seq<CamId>, epochs: map<CamId, nat>, j: nat, k: nat)
    requires j <= k <= |cs|
    ensures HeldAmong(cs, epochs, j) <= HeldAmong(cs, epochs, k)
    ensures j < k && cs[j] in epochs ==> HeldAmong(cs, epochs, j) < HeldAmong(cs, epochs, k)
    decreases k
  {
    if j < k {
      HeldGrows(cs, epochs, j, k - 1);
    }
  }

  lemma OneTold(s: State, t: State, posted: seq<(CamId, string)>, cs: seq<CamId>, k: nat)
    requires k < |cs| && s.allowed && t.allowed && t.epochs == s.epochs
    requires ToldUpTo(s, t.observed, posted, cs, k)
    ensures ToldUpTo(s, Observed(t, cs[k], KindTold(posted, k)).observed, posted, cs, k + 1)
  {
    var o := KindTold(posted, k);
    if cs[k] in s.epochs {
      OneSeen(s, t.observed, Observation(cs[k], s.epochs[cs[k]], o), posted, cs, k);
    } else {
      NoneSeen(s, t.observed, posted, cs, k);
    }
    hide ToldUpTo;
  }

  lemma OneSeen(s: State, observed: seq<Observation>, o: Observation, posted: seq<(CamId, string)>, cs: seq<CamId>,
          k: nat)
    requires k < |cs| && ToldUpTo(s, observed, posted, cs, k) && cs[k] in s.epochs
    requires o == Observation(cs[k], s.epochs[cs[k]], KindTold(posted, k))
    ensures ToldUpTo(s, observed + [o], posted, cs, k + 1)
  {
    assert HeldAmong(cs, s.epochs, k + 1) == HeldAmong(cs, s.epochs, k) + 1;
    hide HeldAmong, KindTold;
    assert s.observed <= observed + [o];
    assert (observed + [o])[|s.observed| + HeldAmong(cs, s.epochs, k)] == o;
  }

  lemma NoneSeen(s: State, observed: seq<Observation>, posted: seq<(CamId, string)>, cs: seq<CamId>, k: nat)
    requires k < |cs| && ToldUpTo(s, observed, posted, cs, k) && cs[k] !in s.epochs
    ensures ToldUpTo(s, observed, posted, cs, k + 1)
  {
    assert HeldAmong(cs, s.epochs, k + 1) == HeldAmong(cs, s.epochs, k);
    hide HeldAmong, KindTold;
  }

  /** All but what is observed and what is told of the dead. */
  ghost predicate SamePump(s: State, t: State) {
    t.epochs == s.epochs && t.leases == s.leases && t.allowed == s.allowed && t.rows == s.rows
  }

  lemma {:induction false} PostedTold(s: State, t: State, posted: seq<(CamId, string)>, dead: seq<CamId>, k: nat)
    requires SamePump(s, t) && t.observed == s.observed && k <= |posted|
    ensures var u := PostedAll(t, posted[..k]);
            && u == t.(observed := u.observed)
            && if s.allowed then ToldUpTo(s, u.observed, posted, Told(posted, dead), k) else u.observed == s.observed
  {
    if k > 0 {
      PostedTold(s, t, posted, dead, k - 1);
      assert posted[..k][..k - 1] == posted[..k - 1];
      var u := PostedAll(t, posted[..k - 1]);
      if s.allowed {
        OneTold(s, u, posted, Told(posted, dead), k - 1);
      }
    }
  }

  lemma {:induction false} LostTold(cfg: Settings, s: State, t: State, posted: seq<(CamId, string)>, dead: seq<CamId>,
          now: real, jitter: CamId -> real, k: nat)
    requires SamePump(s, t) && k <= |dead|
    requires if s.allowed then ToldUpTo(s, t.observed, posted, Told(posted, dead), |posted|)
             else t.observed == s.observed
    ensures var u := LostAll(cfg, t, dead[..k], now, jitter);
            && SamePump(s, u) && u.running == t.running
            && if s.allowed then ToldUpTo(s, u.observed, posted, Told(posted, dead), |posted| + k)
               else u.observed == s.observed
  {
    if k > 0 {
      LostTold(cfg, s, t, posted, dead, now, jitter, k - 1);
      assert dead[..k][..k - 1] == dead[..k - 1];
      var u, c := LostAll(cfg, t, dead[..k - 1], now, jitter), dead[k - 1];
      var v := LostPipeline(cfg, u, c, now, jitter(c));
      FailingKeeps(cfg, u.(actual := u.actual - {c}), c, now, jitter(c));
      assert LostAll(cfg, t, dead[..k], now, jitter) == Observed(v, c, "silent");
      assert SamePump(s, v) && v.running == u.running && v.observed == u.observed;
      assert Told(posted, dead)[|posted| + k - 1] == c && KindTold(posted, |posted| + k - 1) == "silent";
      hide LostAll, LostPipeline, ToldUpTo, Told, KindTold;
      if s.allowed {
        OneTold(s, v, posted, Told(posted, dead), |posted| + k - 1);
      }
    }
  }

  /** A pump pass: while recording is allowed, what is observed is what was
      posted and then the silence of each dead camera, in order, each camera
      under the epoch held for it and none without one; a fenced worker
      observes nothing. */
  lemma PumpTells(cfg: Settings, s: State, p: Pass)
    requires p.Pump?
    ensures var t, cs := After(cfg, s, p), Told(p.posted, p.dead);
            && SamePump(s, t)
            && if s.allowed then ToldUpTo(s, t.observed, p.posted, cs, |cs|) else t.observed == s.observed
  {
    var t := s.(running := s.running - set c | c in p.dead);
    assert p.posted[..|p.posted|] == p.posted && p.dead[..|p.dead|] == p.dead;
    assert After(cfg, s, p) == LostAll(cfg, PostedAll(t, p.posted), p.dead, p.now, p.jitter);
    assert SamePump(s, t);
    PostedTold(s, t, p.posted, p.dead, |p.posted|);
    hide PostedAll, LostAll, ToldUpTo, After;
    LostTold(cfg, s, PostedAll(t, p.posted), p.posted, p.dead, p.now, p.jitter, |p.dead|);
  }

  function Times(cs: seq<CamId>, c: CamId): (n: nat)
    ensures n > 0 <==> c in cs
  {
    if cs == [] then 0 else Times(cs[..|cs| - 1], c) + if cs[|cs| - 1] == c then 1 else 0
  }

  /** `k` failures more, the last of which put the next try off; none, and it
      is as it was. */
  ghost predicate FailedTimes(cfg: Settings, s: State, t: State, c: CamId, now: real, jitter: real, k: nat) {
    if k == 0 then SameIn(s.failures, t.failures, c)
    else
      var n := Failures(s, c) + k;
      c in t.failures && t.failures[c] == Failure(n, now + Shortened(Wait(cfg, n), jitter))
  }

  /** A dead camera is off, and each time it is named is one failure more; the
      others are as they were. */
  lemma PumpLoses(cfg: Settings, s: State, p: Pass, c: CamId)
    requires p.Pump? && cfg.maxBackoff >= 0.0
    ensures var t := After(cfg, s, p);
            && FailedTimes(cfg, s, t, c, p.now, p.jitter(c), Times(p.dead, c))
            && if c in p.dead then c !in t.running && c !in t.actual
               else SameIn(s.running, t.running, c) && SameIn(s.actual, t.actual, c)
  {
    var u := PostedAll(s.(running := s.running - set d | d in p.dead), p.posted);
    assert After(cfg, s, p) == LostAll(cfg, u, p.dead, p.now, p.jitter);
    PostedRunningSame(s.(running := s.running - set d | d in p.dead), p.posted);
    PostedOff(s, u, LostAll(cfg, u, p.dead, p.now, p.jitter), p.dead, c) by {
      LostAllElsewhere(cfg, u, p.dead, p.now, p.jitter);
    }
    hide *;
    LostCounts(cfg, u, p.dead, p.now, p.jitter, c);
    SameFailures(cfg, s, u, LostAll(cfg, u, p.dead, p.now, p.jitter), c, p.now, p.jitter(c), Times(p.dead, c));
  }

  lemma PostedOff(s: State, u: State, t: State, dead: seq<CamId>, c: CamId)
    requires u.running == s.running - (set d | d in dead) && u.actual == s.actual && t.running == u.running
    requires if c in dead then c !in t.actual else SameIn(u.actual, t.actual, c)
    ensures if c in dead then c !in t.running && c !in t.actual
            else SameIn(s.running, t.running, c) && SameIn(s.actual, t.actual, c)
  {}

  lemma SameFailures(cfg: Settings, s: State, u: State, t: State, c: CamId, now: real, jitter: real, k: nat)
    requires u.failures == s.failures && FailedTimes(cfg, u, t, c, now, jitter, k)
    ensures FailedTimes(cfg, s, t, c, now, jitter, k)
  {}

  lemma {:induction false} LostCounts(cfg: Settings, s: State, dead: seq<CamId>, now: real, jitter: CamId -> real,
          c: CamId)
    requires cfg.maxBackoff >= 0.0
    ensures FailedTimes(cfg, s, LostAll(cfg, s, dead, now, jitter), c, now, jitter(c), Times(dead, c))
  {
    if dead != [] {
      var init, d := dead[..|dead| - 1], dead[|dead| - 1];
      LostCounts(cfg, s, init, now, jitter, c);
      var t, u := LostAll(cfg, s, init, now, jitter), LostAll(cfg, s, dead, now, jitter);
      assert u == Observed(LostPipeline(cfg, t, d, now, jitter(d)), d, "silent");
      assert Times(dead, c) == Times(init, c) + if d == c then 1 else 0;
      hide LostAll, LostPipeline, Observed, Times;
      LossCounts(cfg, t, d, now, jitter(d), c);
      OneTimeMore(cfg, s, t, u, c, now, jitter(c), Times(init, c));
    }
  }

  lemma OneTimeMore(cfg: Settings, s: State, t: State, u: State, c: CamId, now: real, jitter: real, k: nat)
    requires FailedTimes(cfg, s, t, c, now, jitter, k)
    ensures FailedOnce(cfg, t, u, c, now, jitter) ==> FailedTimes(cfg, s, u, c, now, jitter, k + 1)
    ensures SameIn(t.failures, u.failures, c) ==> FailedTimes(cfg, s, u, c, now, jitter, k)
  {
    hide Wait;
  }

  lemma LossCounts(cfg: Settings, s: State, d: CamId, now: real, jitter: real, c: CamId)
    requires cfg.maxBackoff >= 0.0
    ensures var t := Observed(LostPipeline(cfg, s, d, now, jitter), d, "silent");
            if c == d then FailedOnce(cfg, s, t, c, now, jitter) else SameIn(s.failures, t.failures, c)
  {
    var u := s.(actual := s.actual - {d});
    FailingIs(cfg, u, d, now, jitter);
    if d != c {
      FailingElsewhere(cfg, u, d, now, jitter, c);
    }
    hide Failing, Wait;
  }

  // ----- a run that records

  /** One camera, an epoch for it, a start, and an event: the pipeline runs and
      the event is observed, under that epoch. */
  lemma LiveRun(cfg: Settings, c: CamId, e: nat, kind: string)
    requires cfg.ttl > cfg.margin && cfg.maxBackoff >= 0.0
    ensures var rows, w := [Camera(c, 1, true)], World(0.0, _ => Answer(Some(e), 0.0, 0.0, true, 1.0));
            var t := AfterAll(cfg, Fresh, [Reconcile(Some(rows), w), Pump([], [(c, kind)], 1.0, _ => 1.0)]);
            && c in t.running && t.running[c] == Pipeline(e, 1) && c in t.actual && t.actual[c] == 1
            && t.observed == [Observation(c, e, kind)] && t.allowed
  {
    var rows, w := [Camera(c, 1, true)], World(0.0, _ => Answer(Some(e), 0.0, 0.0, true, 1.0));
    var p, q := Reconcile(Some(rows), w), Pump([], [(c, kind)], 1.0, _ => 1.0);
    assert [p, q][..1] == [p] && [p][..0] == [];
    var t := After(cfg, Fresh, p);
    assert AfterAll(cfg, Fresh, [p]) == t && AfterAll(cfg, Fresh, [p, q]) == After(cfg, t, q);
    Recorded(cfg, c, e, rows, w);
    hide After, AfterAll, Wait;
    PumpTells(cfg, t, q);
    PumpLoses(cfg, t, q, c);
    OneHeld(t, c, kind);
  }

  lemma Recorded(cfg: Settings, c: CamId, e: nat, rows: seq<Camera>, w: World)
    requires cfg.ttl > cfg.margin && cfg.maxBackoff >= 0.0 && rows == [Camera(c, 1, true)]
    requires w.now == 0.0 && w.at(c) == Answer(Some(e), 0.0, 0.0, true, 1.0)
    ensures var t := After(cfg, Fresh, Reconcile(Some(rows), w));
            && c in t.running && t.running[c] == Pipeline(e, 1) && c in t.actual && t.actual[c] == 1
            && c in t.epochs && t.epochs[c] == e && t.observed == [] && t.allowed
  {
    var s := Fresh.(rows := rows);
    assert Inv(Fresh);
    assert !Waits(s, rows[0], w.now) && !RaisedBy(s, rows, w, 1) && MayStart(cfg, s, c, w.at(c));
    ReconcileIs(cfg, Fresh, rows, w, 0);
    hide Reconciled, Waits, RaisedBy, MayStart, Wait;
  }

  lemma OneHeld(t: State, c: CamId, kind: string)
    requires c in t.epochs
    ensures var cs := Told([(c, kind)], []);
            && cs == [c] && HeldAmong(cs, t.epochs, 0) == 0 && HeldAmong(cs, t.epochs, 1) == 1
            && KindTold([(c, kind)], 0) == kind
  {}
}
