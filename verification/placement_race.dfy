/** Several controllers running `place` at once on one store, with no lock:
    the placement row decides by compare-and-set, the assignment row follows,
    and a controller may stop for ever between any two of its actions. */
module PlacementRace {
  import opened Records
  import opened Variables

  type Cam = nat
  type Worker = string
  type Label = string
  type CallId = nat

  datatype Placed = Placed(worker: Worker, rev: nat)          // worker "" : not placed

  /** What the heartbeats say, and what the cameras need. */
  datatype Fleet = Fleet(labels: map<Cam, set<Label>>, reach: map<Worker, set<Label>>, capacity: map<Worker, nat>)

  /** One call of `place`, between its store accesses. */
  datatype Call =
    | Deciding(cam: Cam)                                        // no placement found
    | Chosen(cam: Cam, worker: Worker)                          // in `write`, before the get
    | RowRead(cam: Cam, worker: Worker, rev: nat, index: nat)   // between get and put of the row
    | Adding(cam: Cam, worker: Worker)                          // in `assign_add`, before the get
    | UnitsRead(cam: Cam, worker: Worker, cur: Assignment<Cam>, index: nat)
    | Returned(cam: Cam, result: Option<Worker>, early: bool)   // early: on a row that was there at the start
    | Failed(cam: Cam, settled: bool)                           // crashed, or raised; settled: after the row

  datatype State = State(
    rows: Store<Cam, Placed>,
    assignments: Store<Worker, Assignment<Cam>>,
    calls: map<CallId, Call>)

  datatype Event =
    | Begin(c: CallId, cam: Cam)
    | GiveUp(c: CallId)
    | Choose(c: CallId, worker: Worker)
    | Advance(c: CallId)              // the call's next get or put
    | Crash(c: CallId)

  function RowOf(s: State, k: Cam): Placed {
    if k in s.rows.rows then s.rows.rows[k].items else Placed("", 0)
  }

  function UnitsOf(s: State, w: Worker): Assignment<Cam> {
    if w in s.assignments.rows then s.assignments.rows[w].items else Assignment({}, 0)
  }

  predicate IsPlaced(s: State, k: Cam) {
    RowOf(s, k).worker != ""
  }

  predicate Listed(s: State, k: Cam, w: Worker) {
    k in UnitsOf(s, w).units
  }

  /** `eligible`: the worker's server reaches everything the camera needs. */
  predicate Eligible(g: Fleet, k: Cam, w: Worker) {
    (if k in g.labels then g.labels[k] else {}) <= (if w in g.reach then g.reach[w] else {})
  }

  function CapacityOf(g: Fleet, w: Worker): nat {
    if w in g.capacity then g.capacity[w] else 0
  }

  predicate HasRoom(g: Fleet, s: State, w: Worker) {
    |UnitsOf(s, w).units| < CapacityOf(g, w)
  }

  function With(s: State, c: CallId, x: Call): State {
    s.(calls := s.calls[c := x])
  }

  function Next(s: State, c: CallId, x: Call): State {
    match x
    case Chosen(k, w) =>
      if IsPlaced(s, k) then With(s, c, Adding(k, RowOf(s, k).worker))      // the other instance placed it
      else With(s, c, RowRead(k, w, RowOf(s, k).rev, Index(s.rows, k)))
    case RowRead(k, w, rev, i) =>
      if Accepts(s.rows, k, Some(i))
      then With(s.(rows := PutRow(s.rows, k, Placed(w, rev + 1))), c, Adding(k, w))
      else With(s, c, Chosen(k, w))
    case Adding(k, w) =>
      if Listed(s, k, w) then With(s, c, Returned(k, Some(w), false))
      else With(s, c, UnitsRead(k, w, UnitsOf(s, w), Index(s.assignments, w)))
    case UnitsRead(k, w, cur, i) =>
      if Accepts(s.assignments, w, Some(i))
      then With(s.(assignments := PutRow(s.assignments, w, Assignment(cur.units + {k}, cur.rev + 1))),
                c, Returned(k, Some(w), false))
      else With(s, c, Adding(k, w))
    case _ => s
  }

  predicate Over(x: Call) {
    x.Returned? || x.Failed?
  }

  /** Past the row, before the assignment. */
  predicate Settled(x: Call) {
    x.Adding? || x.UnitsRead?
  }

  /** A choice is any eligible worker: each load was read at a moment of its
      own, so what the call saw of the loads says nothing about now. */
  function Step(g: Fleet, s: State, e: Event): State {
    match e
    case Begin(c, k) =>
      if c in s.calls then s
      else if IsPlaced(s, k) then With(s, c, Returned(k, Some(RowOf(s, k).worker), true))
      else With(s, c, Deciding(k))
    case GiveUp(c) =>
      if c in s.calls && s.calls[c].Deciding? then With(s, c, Returned(s.calls[c].cam, None, false)) else s
    case Choose(c, w) =>
      if c in s.calls && s.calls[c].Deciding? && w != "" && Eligible(g, s.calls[c].cam, w)
      then With(s, c, Chosen(s.calls[c].cam, w)) else s
    case Advance(c) => if c in s.calls then Next(s, c, s.calls[c]) else s
    case Crash(c) =>
      if c in s.calls && !Over(s.calls[c]) then With(s, c, Failed(s.calls[c].cam, Settled(s.calls[c]))) else s
  }

  function Run(g: Fleet, s: State, evs: seq<Event>): State {
    if evs == [] then s else Step(g, Run(g, s, evs[..|evs| - 1]), evs[|evs| - 1])
  }

  // ----- the invariant

  ghost predicate CallOk(g: Fleet, s: State, x: Call) {
    match x
    case Chosen(k, w) => w != "" && Eligible(g, k, w)
    case RowRead(k, w, rev, i) =>
      && w != "" && Eligible(g, k, w) && i <= s.rows.raft
      && (Index(s.rows, k) == i ==> !IsPlaced(s, k))
    case Adding(k, w) => RowOf(s, k).worker == w != ""
    case UnitsRead(k, w, cur, i) =>
      && RowOf(s, k).worker == w != ""
      && i <= s.assignments.raft && (Index(s.assignments, w) == i ==> UnitsOf(s, w) == cur)
    case Returned(k, r, early) =>
      r.Some? ==> RowOf(s, k).worker == r.value != "" && (!early ==> Listed(s, k, r.value))
    case _ => true
  }

  predicate BeforeAssignment(x: Call) {
    Settled(x) || (x.Failed? && x.settled)
  }

  /** Some call has settled the row and not yet the assignment, or died there. */
  ghost predicate Pending(s: State, k: Cam) {
    exists c :: c in s.calls && s.calls[c].cam == k && BeforeAssignment(s.calls[c])
  }

  ghost predicate CamOk(g: Fleet, s: State, k: Cam) {
    && (IsPlaced(s, k) ==> Eligible(g, k, RowOf(s, k).worker))
    && (IsPlaced(s, k) ==> Listed(s, k, RowOf(s, k).worker) || Pending(s, k))
    && (forall w :: Listed(s, k, w) ==> w == RowOf(s, k).worker != "")
  }

  ghost predicate Inv(g: Fleet, s: State) {
    && Valid(s.rows) && Valid(s.assignments)
    && (forall c :: c in s.calls ==> CallOk(g, s, s.calls[c]))
    && (forall k :: CamOk(g, s, k))
  }

  /** Where concurrent placing may begin: nobody is placing, and rows and
      assignments agree. */
  ghost predicate Quiet(g: Fleet, s: State) {
    Inv(g, s) && s.calls == map[]
  }

  /** What no step undoes, and that a changed row has a fresh index. */
  ghost predicate Extends(s: State, t: State) {
    && (forall k :: IsPlaced(s, k) ==> RowOf(t, k) == RowOf(s, k))
    && (forall k, w :: Listed(s, k, w) ==> Listed(t, k, w))
    && (forall k :: RowOf(t, k) != RowOf(s, k) ==> Index(t.rows, k) > s.rows.raft)
    && (forall w :: UnitsOf(t, w) != UnitsOf(s, w) ==> Index(t.assignments, w) > s.assignments.raft)
    && s.rows.raft <= t.rows.raft && s.assignments.raft <= t.assignments.raft
    && (forall k :: Index(t.rows, k) == Index(s.rows, k) || Index(t.rows, k) > s.rows.raft)
    && (forall w :: Index(t.assignments, w) == Index(s.assignments, w) || Index(t.assignments, w) > s.assignments.raft)
  }

  lemma CallSurvives(g: Fleet, s: State, t: State, x: Call)
    requires Extends(s, t) && CallOk(g, s, x)
    ensures CallOk(g, t, x)
  {}

  lemma WithKeepsInv(g: Fleet, s: State, c: CallId, x: Call)
    requires Inv(g, s) && CallOk(g, s, x)
    requires c in s.calls ==> s.calls[c].cam == x.cam
    requires c in s.calls && BeforeAssignment(s.calls[c]) && IsPlaced(s, x.cam) ==>
      BeforeAssignment(x) || Listed(s, x.cam, RowOf(s, x.cam).worker)
    ensures Inv(g, With(s, c, x)) && Extends(s, With(s, c, x))
  {
    var t := With(s, c, x);
    forall d | d in t.calls ensures CallOk(g, t, t.calls[d]) {
      CallSurvives(g, s, t, t.calls[d]);
    }
    forall k ensures CamOk(g, t, k) {
      assert CamOk(g, s, k);
      WithKeepsCam(g, s, c, x, k);
    }
  }

  lemma WithKeepsCam(g: Fleet, s: State, c: CallId, x: Call, k: Cam)
    requires CamOk(g, s, k)
    requires c in s.calls ==> s.calls[c].cam == x.cam
    requires c in s.calls && BeforeAssignment(s.calls[c]) && IsPlaced(s, x.cam) ==>
      BeforeAssignment(x) || Listed(s, x.cam, RowOf(s, x.cam).worker)
    ensures CamOk(g, With(s, c, x), k)
  {
    var t := With(s, c, x);
    assert RowOf(t, k) == RowOf(s, k);
    assert forall w :: Listed(t, k, w) <==> Listed(s, k, w);
    if IsPlaced(s, k) && !Listed(s, k, RowOf(s, k).worker) {
      var d :| d in s.calls && s.calls[d].cam == k && BeforeAssignment(s.calls[d]);
      assert d in t.calls && t.calls[d].cam == k && BeforeAssignment(t.calls[d]);
    }
  }

  /** A camera the step is not about keeps its row, its listings and the call
      that still owes it. */
  lemma CamSurvives(g: Fleet, s: State, t: State, c: CallId, k: Cam)
    requires CamOk(g, s, k)
    requires RowOf(t, k) == RowOf(s, k)
    requires forall w :: Listed(t, k, w) <==> Listed(s, k, w)
    requires forall d :: d in s.calls && d != c ==> d in t.calls && t.calls[d] == s.calls[d]
    requires c in s.calls ==> s.calls[c].cam != k
    ensures CamOk(g, t, k)
  {
    if Pending(s, k) {
      var d :| d in s.calls && s.calls[d].cam == k && BeforeAssignment(s.calls[d]);
      assert d in t.calls && t.calls[d] == s.calls[d];
    }
    assert forall w :: Listed(t, k, w) ==> Listed(s, k, w);
  }

  lemma CallsSurvive(g: Fleet, s: State, t: State, c: CallId)
    requires Inv(g, s) && Extends(s, t)
    requires c in t.calls && CallOk(g, t, t.calls[c])
    requires forall d :: d in t.calls && d != c ==> d in s.calls && t.calls[d] == s.calls[d]
    ensures forall d :: d in t.calls ==> CallOk(g, t, t.calls[d])
  {
    forall d | d in t.calls ensures CallOk(g, t, t.calls[d]) {
      if d != c {
        CallSurvives(g, s, t, s.calls[d]);
      }
    }
  }

  /** The row put: the call that wins still owes the assignment. */
  lemma RowPutKeepsInv(g: Fleet, s: State, c: CallId, x: Call)
    requires Inv(g, s) && c in s.calls && s.calls[c] == x && x.RowRead?
    requires Accepts(s.rows, x.cam, Some(x.index))
    ensures Inv(g, Next(s, c, x)) && Extends(s, Next(s, c, x))
  {
    var t := Next(s, c, x);
    assert CallOk(g, s, x);
    assert CamOk(g, s, x.cam);
    PutKeepsValid(s.rows, x.cam, Placed(x.worker, x.rev + 1));
    assert Extends(s, t);
    CallsSurvive(g, s, t, c);
    forall k ensures CamOk(g, t, k) {
      assert CamOk(g, s, k);
      if k == x.cam {
        assert c in t.calls && BeforeAssignment(t.calls[c]);
        assert forall w :: Listed(t, k, w) ==> Listed(s, k, w);
      } else {
        CamSurvives(g, s, t, c, k);
      }
    }
  }

  /** The assignment put: nothing another controller added is overwritten. */
  lemma UnitsPutKeepsInv(g: Fleet, s: State, c: CallId, x: Call)
    requires Inv(g, s) && c in s.calls && s.calls[c] == x && x.UnitsRead?
    requires Accepts(s.assignments, x.worker, Some(x.index))
    ensures Inv(g, Next(s, c, x)) && Extends(s, Next(s, c, x))
  {
    var t := Next(s, c, x);
    assert CallOk(g, s, x);
    PutKeepsValid(s.assignments, x.worker, Assignment(x.cur.units + {x.cam}, x.cur.rev + 1));
    assert Extends(s, t);
    CallsSurvive(g, s, t, c);
    forall k ensures CamOk(g, t, k) {
      assert CamOk(g, s, k);
      if k == x.cam {
        assert Listed(t, k, x.worker);
        assert forall w :: Listed(t, k, w) ==> Listed(s, k, w) || w == x.worker;
      } else {
        CamSurvives(g, s, t, c, k);
      }
    }
  }

  lemma StepKeepsInv(g: Fleet, s: State, e: Event)
    requires Inv(g, s)
    ensures Inv(g, Step(g, s, e)) && Extends(s, Step(g, s, e))
  {
    match e
    case Begin(c, k) =>
      if c !in s.calls {
        WithKeepsInv(g, s, c, if IsPlaced(s, k) then Returned(k, Some(RowOf(s, k).worker), true) else Deciding(k));
      }
    case GiveUp(c) =>
      if c in s.calls && s.calls[c].Deciding? { WithKeepsInv(g, s, c, Returned(s.calls[c].cam, None, false)); }
    case Choose(c, w) =>
      if c in s.calls && s.calls[c].Deciding? && w != "" && Eligible(g, s.calls[c].cam, w) {
        WithKeepsInv(g, s, c, Chosen(s.calls[c].cam, w));
      }
    case Crash(c) =>
      if c in s.calls && !Over(s.calls[c]) {
        WithKeepsInv(g, s, c, Failed(s.calls[c].cam, Settled(s.calls[c])));
      }
    case Advance(c) =>
      if c in s.calls { NextKeepsInv(g, s, c, s.calls[c]); }
  }

  lemma NextKeepsInv(g: Fleet, s: State, c: CallId, x: Call)
    requires Inv(g, s) && c in s.calls && s.calls[c] == x
    ensures Inv(g, Next(s, c, x)) && Extends(s, Next(s, c, x))
  {
    assert CallOk(g, s, x);
    match x
    case Chosen(k, w) =>
      WithKeepsInv(g, s, c, if IsPlaced(s, k) then Adding(k, RowOf(s, k).worker)
                            else RowRead(k, w, RowOf(s, k).rev, Index(s.rows, k)));
    case RowRead(k, w, rev, i) =>
      if Accepts(s.rows, k, Some(i)) { RowPutKeepsInv(g, s, c, x); }
      else { WithKeepsInv(g, s, c, Chosen(k, w)); }
    case Adding(k, w) =>
      WithKeepsInv(g, s, c, if Listed(s, k, w) then Returned(k, Some(w), false)
                            else UnitsRead(k, w, UnitsOf(s, w), Index(s.assignments, w)));
    case UnitsRead(k, w, cur, i) =>
      if Accepts(s.assignments, w, Some(i)) { UnitsPutKeepsInv(g, s, c, x); }
      else { WithKeepsInv(g, s, c, Adding(k, w)); }
    case _ =>
  }

  lemma {:induction false} RunKeepsInv(g: Fleet, s: State, evs: seq<Event>)
    requires Inv(g, s)
    ensures Inv(g, Run(g, s, evs))
  {
    if evs != [] {
      RunKeepsInv(g, s, evs[..|evs| - 1]);
      StepKeepsInv(g, Run(g, s, evs[..|evs| - 1]), evs[|evs| - 1]);
    }
  }

  // ----- what holds of every run

  /** A placement row never changes once set, and no addition to an assignment
      is ever lost. */
  lemma {:induction false} RowsAndListingsAreStable(g: Fleet, s: State, evs: seq<Event>, k: Cam, w: Worker)
    requires Inv(g, s)
    ensures IsPlaced(s, k) ==> RowOf(Run(g, s, evs), k) == RowOf(s, k)
    ensures Listed(s, k, w) ==> Listed(Run(g, s, evs), k, w)
  {
    if evs != [] {
      var init := evs[..|evs| - 1];
      RowsAndListingsAreStable(g, s, init, k, w);
      RunKeepsInv(g, s, init);
      StepKeepsInv(g, Run(g, s, init), evs[|evs| - 1]);
    }
  }

  /** A camera is listed only on the worker its row names, and that worker can
      reach it. */
  lemma ListedOnlyWhereTheRowSays(g: Fleet, s: State, evs: seq<Event>, k: Cam, w: Worker)
    requires Quiet(g, s)
    ensures var t := Run(g, s, evs);
            Listed(t, k, w) ==>
              && RowOf(t, k).worker == w
              && forall l :: k in g.labels && l in g.labels[k] ==> w in g.reach && l in g.reach[w]
  {
    RunKeepsInv(g, s, evs);
    assert CamOk(g, Run(g, s, evs), k);
    assert Listed(Run(g, s, evs), k, w) ==> Eligible(g, k, w);
  }

  /** Once every call has returned normally, every placed camera is listed on
      exactly one worker, the one its row names. */
  lemma EveryPlacedCameraIsListedOnce(g: Fleet, s: State, evs: seq<Event>, k: Cam)
    requires Quiet(g, s)
    requires forall c :: c in Run(g, s, evs).calls ==> Run(g, s, evs).calls[c].Returned?
    requires IsPlaced(Run(g, s, evs), k)
    ensures var t := Run(g, s, evs);
            && Eligible(g, k, RowOf(t, k).worker)
            && (forall w :: Listed(t, k, w) <==> w == RowOf(t, k).worker)
  {
    RunKeepsInv(g, s, evs);
    assert CamOk(g, Run(g, s, evs), k);
  }

  /** Every call that returns a worker returns the one the row names. */
  lemma CallersAgree(g: Fleet, s: State, evs: seq<Event>, c: CallId, d: CallId)
    requires Quiet(g, s)
    requires var t := Run(g, s, evs);
             && c in t.calls && d in t.calls && t.calls[c].cam == t.calls[d].cam
             && t.calls[c].Returned? && t.calls[c].result.Some? && t.calls[d].Returned? && t.calls[d].result.Some?
    ensures Run(g, s, evs).calls[c].result == Run(g, s, evs).calls[d].result
  {
    RunKeepsInv(g, s, evs);
    var t := Run(g, s, evs);
    assert CallOk(g, t, t.calls[c]) && CallOk(g, t, t.calls[d]);
  }

  // ----- what a crash between row and assignment leaves behind

  ghost predicate Stranded(s: State, k: Cam) {
    && IsPlaced(s, k) && !Listed(s, k, RowOf(s, k).worker)
    && (forall c :: c in s.calls && s.calls[c].cam == k ==> Over(s.calls[c]))
  }

  /** A placed, unlisted camera that no call is working on stays unlisted
      whatever calls of `place` follow: each returns early, on the row. */
  lemma {:induction false} StrandedStaysStranded(g: Fleet, s: State, evs: seq<Event>, k: Cam)
    requires Inv(g, s) && Stranded(s, k)
    ensures Stranded(Run(g, s, evs), k)
  {
    if evs != [] {
      var init := evs[..|evs| - 1];
      StrandedStaysStranded(g, s, init, k);
      RunKeepsInv(g, s, init);
      StrandedStep(g, Run(g, s, init), evs[|evs| - 1], k);
    }
  }

  lemma StrandedStep(g: Fleet, s: State, e: Event, k: Cam)
    requires Inv(g, s) && Stranded(s, k)
    ensures Stranded(Step(g, s, e), k)
  {
    StepKeepsInv(g, s, e);
    OverStaysOver(g, s, e, k);
    ListedOnlyByItsCall(g, s, e, k, RowOf(s, k).worker);
  }

  lemma OverStaysOver(g: Fleet, s: State, e: Event, k: Cam)
    requires IsPlaced(s, k)
    requires forall c :: c in s.calls && s.calls[c].cam == k ==> Over(s.calls[c])
    ensures var t := Step(g, s, e); forall c :: c in t.calls && t.calls[c].cam == k ==> Over(t.calls[c])
  {}

  lemma ListedOnlyByItsCall(g: Fleet, s: State, e: Event, k: Cam, w: Worker)
    requires Inv(g, s)
    requires !Listed(s, k, w)
    requires forall c :: c in s.calls && s.calls[c].cam == k ==> Over(s.calls[c])
    ensures !Listed(Step(g, s, e), k, w)
  {
    if e.Advance? && e.c in s.calls {
      assert CallOk(g, s, s.calls[e.c]);
    }
  }

  lemma RunPlus(g: Fleet, s: State, evs: seq<Event>, e: Event)
    ensures Run(g, s, evs + [e]) == Step(g, Run(g, s, evs), e)
  {
    assert (evs + [e])[..|evs + [e]| - 1] == evs;
  }

  const Empty := State(Store(map[], 1000), Store(map[], 1000), map[])

  /** A controller that dies after the row strands its camera. */
  lemma CrashStrands(g: Fleet, w: Worker)
    requires w != "" && Eligible(g, 1, w)
    ensures Quiet(g, Empty)
    ensures Stranded(Run(g, Empty, [Begin(0, 1), Choose(0, w), Advance(0), Advance(0), Crash(0)]), 1)
  {
    forall k ensures CamOk(g, Empty, k) {
      assert forall v :: !Listed(Empty, k, v);
    }
    RunPlus(g, Empty, [], Begin(0, 1));
    RunPlus(g, Empty, [Begin(0, 1)], Choose(0, w));
    assert [] + [Begin(0, 1)] == [Begin(0, 1)];
    assert [Begin(0, 1)] + [Choose(0, w)] == [Begin(0, 1), Choose(0, w)];
    DiesAfterTheRow(g, w);
  }

  lemma DiesAfterTheRow(g: Fleet, w: Worker)
    requires w != ""
    requires Run(g, Empty, [Begin(0, 1), Choose(0, w)]) == Empty.(calls := map[0 := Chosen(1, w)])
    ensures Stranded(Run(g, Empty, [Begin(0, 1), Choose(0, w), Advance(0), Advance(0), Crash(0)]), 1)
  {
    hide Run;
    var p2 := [Begin(0, 1), Choose(0, w)];
    RunPlus(g, Empty, p2, Advance(0));
    var s3 := Run(g, Empty, p2 + [Advance(0)]);
    assert s3 == Empty.(calls := map[0 := RowRead(1, w, 0, 0)]);
    RunPlus(g, Empty, p2 + [Advance(0)], Advance(0));
    var s4 := Run(g, Empty, p2 + [Advance(0)] + [Advance(0)]);
    assert s4 == State(Store(map[1 := Row(Placed(w, 1), 1001)], 1001), Store(map[], 1000), map[0 := Adding(1, w)]);
    RunPlus(g, Empty, p2 + [Advance(0)] + [Advance(0)], Crash(0));
    var p5 := [Begin(0, 1), Choose(0, w), Advance(0), Advance(0), Crash(0)];
    assert p2 + [Advance(0)] + [Advance(0)] + [Crash(0)] == p5;
  }

  /** Two controllers look at the same free place before either fills it:
      each choice finds room. */
  lemma BothChoose(g: Fleet, w: Worker) returns (evs: seq<Event>)
    requires w != "" && Eligible(g, 1, w) && Eligible(g, 2, w) && w in g.capacity && g.capacity[w] == 1
    ensures Run(g, Empty, evs) == Empty.(calls := map[0 := Chosen(1, w), 1 := Chosen(2, w)])
    ensures evs == [Begin(0, 1), Begin(1, 2), Choose(0, w), Choose(1, w)]
    ensures HasRoom(g, Run(g, Empty, evs[..2]), w) && HasRoom(g, Run(g, Empty, evs[..3]), w)
  {
    var p1 := [] + [Begin(0, 1)];
    var p2 := p1 + [Begin(1, 2)];
    var p3 := p2 + [Choose(0, w)];
    RunPlus(g, Empty, [], Begin(0, 1));
    RunPlus(g, Empty, p1, Begin(1, 2));
    RunPlus(g, Empty, p2, Choose(0, w));
    RunPlus(g, Empty, p3, Choose(1, w));
    assert Run(g, Empty, p2) == Empty.(calls := map[0 := Deciding(1), 1 := Deciding(2)]);
    assert Run(g, Empty, p3) == Empty.(calls := map[0 := Chosen(1, w), 1 := Deciding(2)]);
    evs := p3 + [Choose(1, w)];
    assert evs[..3] == p3 && evs[..2] == p2;
  }

  /** The capacity check is check-then-act: there is a run in which two
      controllers put two cameras on a worker with one place, and both calls
      return normally. */
  lemma TwoControllersOvercommit(g: Fleet, w: Worker) returns (evs: seq<Event>)
    requires w != "" && Eligible(g, 1, w) && Eligible(g, 2, w) && w in g.capacity && g.capacity[w] == 1
    ensures Run(g, Empty, evs).calls == map[0 := Returned(1, Some(w), false), 1 := Returned(2, Some(w), false)]
    ensures UnitsOf(Run(g, Empty, evs), w).units == {1, 2}
  {
    hide Run, HasRoom, Eligible;
    var both := BothChoose(g, w);
    assert UnitsOf(Run(g, Empty, both), w).units == {} && !IsPlaced(Run(g, Empty, both), 2);
    var one := CallCompletes(g, both, 0, 1, w);
    assert !IsPlaced(Run(g, Empty, one), 2);
    assert !Listed(Run(g, Empty, one), 2, w);
    assert Run(g, Empty, one).calls == map[0 := Returned(1, Some(w), false), 1 := Chosen(2, w)];
    evs := CallCompletes(g, one, 1, 2, w);
  }

  /** A call that has chosen and is not disturbed places and lists its camera,
      whatever the load has become meanwhile. */
  lemma CallCompletes(g: Fleet, evs: seq<Event>, c: CallId, k: Cam, w: Worker) returns (more: seq<Event>)
    requires var s := Run(g, Empty, evs);
             c in s.calls && s.calls[c] == Chosen(k, w) && w != "" && !IsPlaced(s, k) && !Listed(s, k, w)
    ensures var s, t := Run(g, Empty, evs), Run(g, Empty, more);
            && t.calls == s.calls[c := Returned(k, Some(w), false)]
            && t.rows.rows.Keys == s.rows.rows.Keys + {k} && RowOf(t, k).worker == w
            && UnitsOf(t, w).units == UnitsOf(s, w).units + {k}
  {
    more := evs + [Advance(c)];
    RunPlus(g, Empty, evs, Advance(c));
    RunPlus(g, Empty, more, Advance(c));
    more := more + [Advance(c)];
    RunPlus(g, Empty, more, Advance(c));
    more := more + [Advance(c)];
    RunPlus(g, Empty, more, Advance(c));
    more := more + [Advance(c)];
  }
}
