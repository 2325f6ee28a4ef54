/** The passes of the worker joined to the epoch protocol: what many workers
    hold, run and observe, each taking its epochs from one key store. */
module WorkerFleet {
  import opened Variables
  import opened Decimals
  import opened Paths
  import Records
  import Epochs
  import Leases
  import opened VmsWorker
  import opened WorkerLaws

  function UnitOf(c: CamId): Epochs.Unit {
    Decimal(c)
  }

  // ----- pipelines change only under a lease

  /** What a reconcile pass that began in `s0` may have made of camera `c` by
      the time it is in `t`. */
  ghost predicate Gated(s0: State, t: State, c: CamId, a: Answer) {
    && CamInv(t, c)
    && (c in s0.actual ==> c in t.actual && c in t.epochs && c in s0.epochs && t.epochs[c] == s0.epochs[c])
    && (c in t.actual && c !in s0.actual ==> c in t.epochs && a.epoch == Some(t.epochs[c]))
    && (c in t.running && !(c in s0.running && s0.running[c] == t.running[c]) ==>
          s0.allowed && a.starts && c in t.leases && Leases.MayWriteAt(t.leases[c], a.check))
  }

  lemma TurnGated(cfg: Settings, s0: State, s: State, cam: Camera, now: real, a: Answer)
    requires Gated(s0, s, cam.id, a) && s.allowed == s0.allowed
    ensures Gated(s0, Turn(cfg, s, cam, now, a).0, cam.id, a)
  {
    TurnOwnCamera(cfg, s, cam, now, a);
  }

  lemma {:induction false} StartLoopGated(cfg: Settings, s: State, cams: seq<Camera>, w: World, c: CamId)
    requires Inv(s)
    ensures Gated(s, StartLoop(cfg, s, cams, w).0, c, w.at(c))
  {
    hide Turn;
    if cams == [] {
      assert CamInv(s, c);
    } else {
      var init, cam := cams[..|cams| - 1], cams[|cams| - 1];
      StartLoopGated(cfg, s, init, w, c);
      StartLoopKeepsInv(cfg, s, init, w);
      var t := StartLoop(cfg, s, init, w).0;
      if cam.id == c {
        TurnGated(cfg, s, t, cam, w.now, w.at(c));
      } else {
        TurnElsewhere(cfg, t, cam, w.now, w.at(cam.id), c);
        TurnKeepsInv(cfg, t, cam, w.now, w.at(cam.id));
        assert CamInv(t, c) && CamInv(StartLoop(cfg, s, cams, w).0, c);
      }
    }
  }

  lemma {:induction false} PumpStartsNothing(cfg: Settings, s: State, dead: seq<CamId>, posted: seq<(CamId, string)>,
          now: real, jitter: CamId -> real, c: CamId)
    requires Inv(s) && c in Pumped(cfg, s, dead, posted, now, jitter).running
    ensures c in s.running && s.running[c] == Pumped(cfg, s, dead, posted, now, jitter).running[c]
  {
    var off := set d | d in dead;
    var t := s.(running := s.running - off);
    forall d ensures CamInv(t, d) {
      assert CamInv(s, d);
    }
    PostedAllKeepsInv(t, posted);
    LostAllKeepsInv(cfg, PostedAll(t, posted), dead, now, jitter);
  }

  lemma {:induction false} LossesStartNothing(s: State, lost: seq<CamId>, mine: set<CamId>, c: CamId)
    requires c in HandleLost(s, lost, mine).running
    ensures c in s.running && s.running[c] == HandleLost(s, lost, mine).running[c]
    decreases |lost|
  {
    if lost != [] && lost[0] !in mine {
      LossesStartNothing(Dropped(s, {lost[0]}), lost[1..], mine, c);
    }
  }

  /** Over every run of passes: a pipeline that was not running so before is the
      work of a reconcile pass on a worker that is not fenced, checked against
      a lease still young enough, and it runs under the epoch the worker held
      for it, or, where it held the camera stopped, under the epoch that pass
      was issued. */
  lemma {:induction false} PipelinesChangeOnlyUnderALease(cfg: Settings, ps: seq<Pass>, p: Pass, c: CamId)
    requires var s := AfterAll(cfg, Fresh, ps);
             var t := After(cfg, s, p);
             c in t.running && !(c in s.running && s.running[c] == t.running[c])
    ensures var s := AfterAll(cfg, Fresh, ps);
            var t := After(cfg, s, p);
            && s.allowed && p.Reconcile? && p.w.at(c).starts
            && c in t.leases && Leases.MayWriteAt(t.leases[c], p.w.at(c).check)
            && c in t.epochs && t.running[c].epoch == t.leases[c].epoch == t.epochs[c]
            && (c in s.actual ==> c in s.epochs && t.epochs[c] == s.epochs[c])
            && (c !in s.actual ==> p.w.at(c).epoch == Some(t.epochs[c]))
  {
    EveryRunKeepsInv(cfg, ps);
    var s := AfterAll(cfg, Fresh, ps);
    PassKeepsInv(cfg, s, p);
    assert CamInv(After(cfg, s, p), c);
    match p
    case Reconcile(rows, w) =>
      if rows.Some? {
        RowsKeepInv(s, rows.value);
        StartLoopGated(cfg, s.(rows := rows.value), Enabled(rows.value), w, c);
      }
    case Pump(dead, posted, now, jitter) =>
      PumpStartsNothing(cfg, s, dead, posted, now, jitter, c);
    case LeasePass(slot, order, live, clock, mine) =>
      var (ls, lost) := RenewedAll(s.leases, order, live, clock);
      if slot == Some(true) && mine.Some? {
        LossesStartNothing(s.(leases := ls), lost, mine.value, c);
      }
  }

  // ----- what a worker holds was issued to it

  /** Every epoch the passes were answered was issued to worker `i`; a call for
      an epoch that was not made has no answer. */
  ghost predicate Answered(issues: seq<Epochs.Issue>, i: Epochs.Inst, p: Pass) {
    p.Reconcile? ==>
      forall c :: p.w.at(c).epoch.Some? ==> Epochs.Issue(UnitOf(c), p.w.at(c).epoch.value, i) in issues
  }

  ghost predicate AllAnswered(issues: seq<Epochs.Issue>, i: Epochs.Inst, ps: seq<Pass>) {
    forall k :: 0 <= k < |ps| ==> Answered(issues, i, ps[k])
  }

  ghost predicate Issued(issues: seq<Epochs.Issue>, i: Epochs.Inst, c: CamId, e: nat) {
    Epochs.Issue(UnitOf(c), e, i) in issues
  }

  ghost predicate EpochsIssued(s: State, issues: seq<Epochs.Issue>, i: Epochs.Inst) {
    forall c :: c in s.epochs ==> Issued(issues, i, c, s.epochs[c])
  }

  ghost predicate ObservedIssued(s: State, issues: seq<Epochs.Issue>, i: Epochs.Inst) {
    forall o :: o in s.observed ==> Issued(issues, i, o.cam, o.epoch)
  }

  lemma TurnIssued(cfg: Settings, s: State, cam: Camera, now: real, a: Answer, issues: seq<Epochs.Issue>,
          i: Epochs.Inst)
    requires EpochsIssued(s, issues, i)
    requires a.epoch.Some? ==> Issued(issues, i, cam.id, a.epoch.value)
    ensures EpochsIssued(Turn(cfg, s, cam, now, a).0, issues, i)
  {
    var t := Turn(cfg, s, cam, now, a).0;
    forall d | d in t.epochs ensures Issued(issues, i, d, t.epochs[d]) {
      if d != cam.id {
        TurnElsewhere(cfg, s, cam, now, a, d);
      }
    }
  }

  lemma {:induction false} StartLoopIssued(cfg: Settings, s: State, cams: seq<Camera>, w: World,
          issues: seq<Epochs.Issue>, i: Epochs.Inst)
    requires EpochsIssued(s, issues, i)
    requires forall c :: w.at(c).epoch.Some? ==> Issued(issues, i, c, w.at(c).epoch.value)
    ensures EpochsIssued(StartLoop(cfg, s, cams, w).0, issues, i)
    ensures StartLoop(cfg, s, cams, w).0.observed == s.observed
  {
    hide Turn;
    if cams != [] {
      var init, cam := cams[..|cams| - 1], cams[|cams| - 1];
      StartLoopIssued(cfg, s, init, w, issues, i);
      TurnIssued(cfg, StartLoop(cfg, s, init, w).0, cam, w.now, w.at(cam.id), issues, i);
      TurnKeeps(cfg, StartLoop(cfg, s, init, w).0, cam, w.now, w.at(cam.id));
    }
  }

  /** An event is observed under the epoch held. */
  lemma ObserveIssued(s: State, c: CamId, kind: string, issues: seq<Epochs.Issue>, i: Epochs.Inst)
    requires EpochsIssued(s, issues, i) && ObservedIssued(s, issues, i)
    ensures EpochsIssued(Observed(s, c, kind), issues, i) && ObservedIssued(Observed(s, c, kind), issues, i)
  {}

  lemma {:induction false} PostedIssued(s: State, posted: seq<(CamId, string)>, issues: seq<Epochs.Issue>,
          i: Epochs.Inst)
    requires EpochsIssued(s, issues, i) && ObservedIssued(s, issues, i)
    ensures EpochsIssued(PostedAll(s, posted), issues, i) && ObservedIssued(PostedAll(s, posted), issues, i)
  {
    if posted != [] {
      var n := |posted| - 1;
      PostedIssued(s, posted[..n], issues, i);
      ObserveIssued(PostedAll(s, posted[..n]), posted[n].0, posted[n].1, issues, i);
    }
  }

  lemma {:induction false} LostAllIssued(cfg: Settings, s: State, dead: seq<CamId>, now: real, jitter: CamId -> real,
          issues: seq<Epochs.Issue>, i: Epochs.Inst)
    requires EpochsIssued(s, issues, i) && ObservedIssued(s, issues, i)
    ensures EpochsIssued(LostAll(cfg, s, dead, now, jitter), issues, i)
    ensures ObservedIssued(LostAll(cfg, s, dead, now, jitter), issues, i)
  {
    if dead != [] {
      var init, c := dead[..|dead| - 1], dead[|dead| - 1];
      LostAllIssued(cfg, s, init, now, jitter, issues, i);
      ObserveIssued(LostPipeline(cfg, LostAll(cfg, s, init, now, jitter), c, now, jitter(c)), c, "silent", issues, i);
    }
  }

  lemma {:induction false} HandleLostIssued(s: State, lost: seq<CamId>, mine: set<CamId>, issues: seq<Epochs.Issue>,
          i: Epochs.Inst)
    requires EpochsIssued(s, issues, i)
    ensures EpochsIssued(HandleLost(s, lost, mine), issues, i)
    ensures HandleLost(s, lost, mine).observed == s.observed
    decreases |lost|
  {
    if lost != [] && lost[0] !in mine {
      HandleLostIssued(Dropped(s, {lost[0]}), lost[1..], mine, issues, i);
    }
  }

  lemma ReconciledIssued(cfg: Settings, s: State, rows: seq<Camera>, w: World, issues: seq<Epochs.Issue>,
          i: Epochs.Inst)
    requires EpochsIssued(s, issues, i) && ObservedIssued(s, issues, i)
    requires forall c :: w.at(c).epoch.Some? ==> Issued(issues, i, c, w.at(c).epoch.value)
    ensures var t := Reconciled(cfg, s.(rows := rows), w).0; EpochsIssued(t, issues, i) && ObservedIssued(t, issues, i)
  {
    hide StartLoop, Enabled, Issued;
    StartLoopIssued(cfg, s.(rows := rows), Enabled(rows), w, issues, i);
  }

  lemma LeasePassIssued(s: State, slot: Option<bool>, order: seq<CamId>, live: CamId -> Option<nat>,
          clock: CamId -> real, mine: Option<set<CamId>>, issues: seq<Epochs.Issue>, i: Epochs.Inst)
    requires EpochsIssued(s, issues, i) && ObservedIssued(s, issues, i)
    ensures var t := AfterLeasePass(s, slot, order, live, clock, mine);
            EpochsIssued(t, issues, i) && ObservedIssued(t, issues, i)
  {
    hide HandleLost, RenewedAll, Issued;
    var (ls, lost) := RenewedAll(s.leases, order, live, clock);
    if mine.Some? {
      HandleLostIssued(s.(leases := ls), lost, mine.value, issues, i);
    }
  }

  lemma PassIssued(cfg: Settings, s: State, p: Pass, issues: seq<Epochs.Issue>, i: Epochs.Inst)
    requires EpochsIssued(s, issues, i) && ObservedIssued(s, issues, i) && Answered(issues, i, p)
    ensures EpochsIssued(After(cfg, s, p), issues, i) && ObservedIssued(After(cfg, s, p), issues, i)
  {
    match p
    case Reconcile(rows, w) =>
      if rows.Some? {
        ReconciledIssued(cfg, s, rows.value, w, issues, i);
      }
    case Pump(dead, posted, now, jitter) =>
      hide PostedAll, LostAll, Issued;
      var t := s.(running := s.running - set c | c in dead);
      PostedIssued(t, posted, issues, i);
      LostAllIssued(cfg, PostedAll(t, posted), dead, now, jitter, issues, i);
    case LeasePass(slot, order, live, clock, mine) =>
      LeasePassIssued(s, slot, order, live, clock, mine, issues, i);
  }

  lemma {:induction false} EveryRunIsIssued(cfg: Settings, ps: seq<Pass>, issues: seq<Epochs.Issue>, i: Epochs.Inst)
    requires AllAnswered(issues, i, ps)
    ensures var s := AfterAll(cfg, Fresh, ps); EpochsIssued(s, issues, i) && ObservedIssued(s, issues, i)
  {
    if ps != [] {
      EveryRunIsIssued(cfg, ps[..|ps| - 1], issues, i);
      PassIssued(cfg, AfterAll(cfg, Fresh, ps[..|ps| - 1]), ps[|ps| - 1], issues, i);
    }
  }

  // ----- two workers

  lemma UnitsDiffer(c: CamId, d: CamId)
    requires UnitOf(c) == UnitOf(d)
    ensures c == d
  {
    DecimalReadsBack(c);
    DecimalReadsBack(d);
  }

  /** What one worker, in some state of its life, can be found with for a
      camera: an epoch it holds, a pipeline on it, an event observed under it. */
  ghost predicate Uses(s: State, c: CamId, e: nat) {
    || (c in s.epochs && s.epochs[c] == e)
    || (c in s.running && s.running[c].epoch == e)
    || (exists o :: o in s.observed && o.cam == c && o.epoch == e)
  }

  lemma UsesIssued(cfg: Settings, ps: seq<Pass>, issues: seq<Epochs.Issue>, i: Epochs.Inst, c: CamId, e: nat)
    requires AllAnswered(issues, i, ps) && Uses(AfterAll(cfg, Fresh, ps), c, e)
    ensures Issued(issues, i, c, e)
  {
    EveryRunIsIssued(cfg, ps, issues, i);
    EveryRunKeepsInv(cfg, ps);
    assert CamInv(AfterAll(cfg, Fresh, ps), c);
  }

  /** Two workers, each with its own settings, passes, clocks, actuator and failures,
      taking their epochs from one store under any interleaving: nothing one of
      them ever holds, runs or observes under an epoch of a camera is the
      other's, whenever one looks at each. */
  lemma {:induction false} WorkersNeverShareAnEpoch(evs: seq<Epochs.Event>, i: Epochs.Inst, j: Epochs.Inst,
          cfg: Settings, cfg': Settings, ps: seq<Pass>, qs: seq<Pass>, c: CamId, e: nat)
    requires i != j
    requires AllAnswered(Epochs.Run(evs).issues, i, ps) && AllAnswered(Epochs.Run(evs).issues, j, qs)
    ensures !(Uses(AfterAll(cfg, Fresh, ps), c, e) && Uses(AfterAll(cfg', Fresh, qs), c, e))
  {
    var r := Epochs.Run(evs);
    if Uses(AfterAll(cfg, Fresh, ps), c, e) && Uses(AfterAll(cfg', Fresh, qs), c, e) {
      UsesIssued(cfg, ps, r.issues, i, c, e);
      UsesIssued(cfg', qs, r.issues, j, c, e);
      Epochs.RunKeepsInv(evs);
      Epochs.OneOwner(r.issues, Records.Current(r.store, UnitOf(c)), Epochs.Issue(UnitOf(c), e, i),
          Epochs.Issue(UnitOf(c), e, j));
    }
  }

  /** So their pipelines and their events never write one path. */
  lemma {:induction false} WorkersWriteApart(evs: seq<Epochs.Event>, i: Epochs.Inst, j: Epochs.Inst, cfg: Settings,
          cfg': Settings, ps: seq<Pass>, qs: seq<Pass>, c: CamId, d: CamId, e: nat, f: nat, x: Leaf, y: Leaf)
    requires i != j
    requires AllAnswered(Epochs.Run(evs).issues, i, ps) && AllAnswered(Epochs.Run(evs).issues, j, qs)
    requires Uses(AfterAll(cfg, Fresh, ps), c, e) && Uses(AfterAll(cfg', Fresh, qs), d, f)
    ensures SpanPath(SUB, UnitOf(c), e, x) != SpanPath(SUB, UnitOf(d), f, y)
  {
    if SpanPath(SUB, UnitOf(c), e, x) == SpanPath(SUB, UnitOf(d), f, y) {
      SpanPathInjective(SUB, UnitOf(c), e, x, SUB, UnitOf(d), f, y);
      UnitsDiffer(c, d);
      WorkersNeverShareAnEpoch(evs, i, j, cfg, cfg', ps, qs, c, e);
    }
  }
}
