/** When capacity holds among racing controllers, and when a camera is left
    placed and unlisted. */
module PlacementLaws {
  import opened Variables
  import opened PlacementRace
  import opened FiniteSets

  // ----- what a worker is committed to

  /** A call that has chosen, and will list its camera unless it fails. */
  predicate InFlight(x: Call) {
    x.Chosen? || x.RowRead? || x.Adding? || x.UnitsRead?
  }

  /** Where it will list it: a row that is set outranks the call's own choice,
      whoever set it and whether or not that controller is still alive. */
  function Dest(s: State, x: Call): Worker
    requires InFlight(x)
  {
    if IsPlaced(s, x.cam) then RowOf(s, x.cam).worker else x.worker
  }

  predicate Owes(s: State, c: CallId, w: Worker) {
    c in s.calls && InFlight(s.calls[c]) && Dest(s, s.calls[c]) == w
  }

  function Owed(s: State, w: Worker): set<Cam> {
    set c | c in s.calls && Owes(s, c, w) :: s.calls[c].cam
  }

  function Committed(s: State, w: Worker): set<Cam> {
    UnitsOf(s, w).units + Owed(s, w)
  }

  lemma OwedIs(s: State, w: Worker, k: Cam)
    ensures k in Owed(s, w) <==> exists c :: Owes(s, c, w) && s.calls[c].cam == k
  {}

  /** A choice that takes effect. */
  predicate Chooses(g: Fleet, s: State, e: Event) {
    e.Choose? && e.c in s.calls && s.calls[e.c].Deciding? && e.worker != "" && Eligible(g, s.calls[e.c].cam, e.worker)
  }

  function Target(s: State, e: Event): Worker
    requires e.Choose? && e.c in s.calls
  {
    var k := s.calls[e.c].cam;
    if IsPlaced(s, k) then RowOf(s, k).worker else e.worker
  }

  // ----- only a choice commits

  lemma {:induction false} OnlyChoicesCommit(g: Fleet, s: State, e: Event, w: Worker, k: Cam)
    requires Inv(g, s) && k in Committed(Step(g, s, e), w)
    ensures k in Committed(s, w) || (Chooses(g, s, e) && Target(s, e) == w && s.calls[e.c].cam == k)
  {
    var t := Step(g, s, e);
    if k in Owed(t, w) {
      OwedIs(t, w, k);
      var d :| Owes(t, d, w) && t.calls[d].cam == k;
      OwedBefore(g, s, e, w, d);
    } else {
      ListedBefore(g, s, e, w, k);
    }
  }

  lemma OwedBefore(g: Fleet, s: State, e: Event, w: Worker, d: CallId)
    requires Inv(g, s) && Owes(Step(g, s, e), d, w)
    ensures var k := Step(g, s, e).calls[d].cam;
            k in Committed(s, w) || (Chooses(g, s, e) && Target(s, e) == w && s.calls[e.c].cam == k)
  {
    if e.Advance? {
      OwedBeforeAdvance(g, s, e.c, w, d);
    } else if d in s.calls && InFlight(s.calls[d]) {
      assert Owes(s, d, w);
    }
  }

  /** A call's step leaves the other calls alone; a row it sets is its own
      camera's, set to the worker it was bound for. */
  lemma AdvanceSets(g: Fleet, s: State, c: CallId, k: Cam)
    requires Inv(g, s)
    ensures var t := Step(g, s, Advance(c));
            && (IsPlaced(s, k) ==> RowOf(t, k) == RowOf(s, k))
            && (!IsPlaced(s, k) && IsPlaced(t, k) ==>
                  && c in s.calls && InFlight(s.calls[c]) && s.calls[c].cam == k
                  && RowOf(t, k).worker == s.calls[c].worker)
    ensures forall d :: d != c && d in Step(g, s, Advance(c)).calls ==>
                         d in s.calls && Step(g, s, Advance(c)).calls[d] == s.calls[d]
  {
    if c in s.calls {
      assert CallOk(g, s, s.calls[c]);
    }
  }

  lemma OwedBeforeAdvance(g: Fleet, s: State, c: CallId, w: Worker, d: CallId)
    requires Inv(g, s) && Owes(Step(g, s, Advance(c)), d, w)
    ensures Step(g, s, Advance(c)).calls[d].cam in Committed(s, w)
  {
    if d == c {
      assert CallOk(g, s, s.calls[d]);
      assert Owes(s, d, w);
    } else {
      AdvanceSets(g, s, c, s.calls[d].cam);
      hide Step, Inv;
      if !Owes(s, d, w) {
        assert Owes(s, c, w) && s.calls[c].cam == s.calls[d].cam;
      }
    }
  }

  lemma ListedBefore(g: Fleet, s: State, e: Event, w: Worker, k: Cam)
    requires Inv(g, s) && Listed(Step(g, s, e), k, w)
    ensures k in Committed(s, w)
  {
    if e.Advance? && e.c in s.calls {
      assert CallOk(g, s, s.calls[e.c]);
      if !Listed(s, k, w) {
        assert Owes(s, e.c, w) && s.calls[e.c].cam == k;
      }
    }
  }

  // ----- capacity, over a whole run

  /** The choice leaves its worker within capacity, counting what is already
      on its way there. */
  predicate Fits(g: Fleet, s: State, e: Event) {
    Chooses(g, s, e) ==> |Committed(s, Target(s, e)) + {s.calls[e.c].cam}| <= CapacityOf(g, Target(s, e))
  }

  lemma StepWithinCapacity(g: Fleet, s: State, e: Event, w: Worker)
    requires Inv(g, s) && Fits(g, s, e) && |Committed(s, w)| <= CapacityOf(g, w)
    ensures |Committed(Step(g, s, e), w)| <= CapacityOf(g, w)
  {
    var t := Step(g, s, e);
    forall k | k in Committed(t, w)
      ensures k in Committed(s, w) || (Chooses(g, s, e) && Target(s, e) == w && s.calls[e.c].cam == k)
    {
      OnlyChoicesCommit(g, s, e, w, k);
    }
    if Chooses(g, s, e) && Target(s, e) == w {
      SubsetSize(Committed(t, w), Committed(s, w) + {s.calls[e.c].cam});
    } else {
      SubsetSize(Committed(t, w), Committed(s, w));
    }
  }

  ghost predicate AllFit(g: Fleet, s: State, evs: seq<Event>) {
    evs != [] ==> AllFit(g, s, evs[..|evs| - 1]) && Fits(g, Run(g, s, evs[..|evs| - 1]), evs[|evs| - 1])
  }

  lemma {:induction false} CommitmentStaysWithin(g: Fleet, s: State, evs: seq<Event>, w: Worker)
    requires Inv(g, s) && |Committed(s, w)| <= CapacityOf(g, w)
    requires AllFit(g, s, evs)
    ensures |Committed(Run(g, s, evs), w)| <= CapacityOf(g, w)
  {
    if evs != [] {
      var init := evs[..|evs| - 1];
      CommitmentStaysWithin(g, s, init, w);
      RunKeepsInv(g, s, init);
      StepWithinCapacity(g, Run(g, s, init), evs[|evs| - 1], w);
    }
  }

  /** If every choice of a run fits its worker counting what is on its way
      there, no state of the run has more on the worker than its capacity. */
  lemma {:induction false} CapacityHoldsInARace(g: Fleet, s: State, evs: seq<Event>, w: Worker)
    requires Inv(g, s) && |Committed(s, w)| <= CapacityOf(g, w)
    requires AllFit(g, s, evs)
    ensures |UnitsOf(Run(g, s, evs), w).units| <= CapacityOf(g, w)
  {
    CommitmentStaysWithin(g, s, evs, w);
    SubsetSize(UnitsOf(Run(g, s, evs), w).units, Committed(Run(g, s, evs), w));
  }

  // ----- the worst that calls in flight can do

  ghost predicate Advances(evs: seq<Event>) {
    forall i :: 0 <= i < |evs| ==> evs[i].Advance?
  }

  lemma {:induction false} RunConcat(g: Fleet, s: State, a: seq<Event>, b: seq<Event>)
    ensures Run(g, s, a + b) == Run(g, Run(g, s, a), b)
  {
    if b == [] {
      assert a + b == a;
    } else {
      var n := |b| - 1;
      assert (a + b)[..|a + b| - 1] == a + b[..n];
      RunConcat(g, s, a, b[..n]);
    }
  }

  lemma {:induction false} AdvancesStayWithin(g: Fleet, s: State, evs: seq<Event>, w: Worker)
    requires Inv(g, s) && Advances(evs)
    ensures Committed(Run(g, s, evs), w) <= Committed(s, w)
  {
    if evs != [] {
      var init := evs[..|evs| - 1];
      AdvancesStayWithin(g, s, init, w);
      RunKeepsInv(g, s, init);
      forall k | k in Committed(Run(g, s, evs), w) ensures k in Committed(Run(g, s, init), w) {
        OnlyChoicesCommit(g, Run(g, s, init), evs[|evs| - 1], w, k);
      }
    }
  }

  lemma OwnStays(g: Fleet, s: State, c: CallId, w: Worker)
    requires Inv(g, s) && Owes(s, c, w)
    ensures var t := Step(g, s, Advance(c));
            && (Owes(t, c, w) || Listed(t, s.calls[c].cam, w))
            && c in t.calls && t.calls[c].cam == s.calls[c].cam
  {
    assert CallOk(g, s, s.calls[c]);
  }

  lemma OthersStay(g: Fleet, s: State, c: CallId, d: CallId, w: Worker)
    requires Inv(g, s) && Owes(s, c, w) && Owes(s, d, w) && c != d
    ensures var t := Step(g, s, Advance(c)); Owes(t, d, w) && t.calls[d] == s.calls[d]
  {
    assert CallOk(g, s, s.calls[c]);
  }

  /** The next action of a call takes nothing from the worker it is bound for. */
  lemma AdvanceKeeps(g: Fleet, s: State, c: CallId, w: Worker)
    requires Inv(g, s) && Owes(s, c, w)
    ensures var t := Step(g, s, Advance(c)); Inv(g, t) && Committed(t, w) == Committed(s, w)
    ensures UnitsOf(s, w).units <= UnitsOf(Step(g, s, Advance(c)), w).units
  {
    var t := Step(g, s, Advance(c));
    StepKeepsInv(g, s, Advance(c));
    assert forall k :: Listed(s, k, w) ==> Listed(t, k, w);
    hide Step, Inv, Owes;
    forall k | k in Committed(s, w) ensures k in Committed(t, w) {
      if k !in UnitsOf(s, w).units {
        OwedIs(s, w, k);
        var d :| Owes(s, d, w) && s.calls[d].cam == k;
        if d == c { OwnStays(g, s, c, w); } else { OthersStay(g, s, c, d, w); }
        OwedIs(t, w, k);
      }
    }
    forall k | k in Committed(t, w) ensures k in Committed(s, w) {
      OnlyChoicesCommit(g, s, Advance(c), w, k);
    }
  }

  /** How many more actions of its own a call needs, at most. */
  function Left(s: State, x: Call): nat {
    match x
    case Chosen(k, _) => if IsPlaced(s, k) then 4 else 5
    case RowRead(k, _, _, i) => if Accepts(s.rows, k, Some(i)) then 4 else 6
    case Adding(_, _) => 2
    case UnitsRead(_, w, _, i) => if Accepts(s.assignments, w, Some(i)) then 1 else 3
    case _ => 0
  }

  lemma AdvanceProgresses(g: Fleet, s: State, c: CallId, w: Worker)
    requires Inv(g, s) && Owes(s, c, w)
    ensures var t := Step(g, s, Advance(c)); Owes(t, c, w) ==> Left(t, t.calls[c]) < Left(s, s.calls[c])
  {
    assert CallOk(g, s, s.calls[c]);
  }

  /** Left alone, a call in flight lists its camera where it is bound for. */
  lemma {:induction false} CallLands(g: Fleet, s: State, c: CallId, w: Worker) returns (evs: seq<Event>)
    requires Inv(g, s) && Owes(s, c, w)
    ensures Advances(evs) && Inv(g, Run(g, s, evs)) && Committed(Run(g, s, evs), w) == Committed(s, w)
    ensures Listed(Run(g, s, evs), s.calls[c].cam, w) && UnitsOf(s, w).units <= UnitsOf(Run(g, s, evs), w).units
    decreases Left(s, s.calls[c])
  {
    var t := Step(g, s, Advance(c));
    AdvanceKeeps(g, s, c, w);
    AdvanceProgresses(g, s, c, w);
    OwnStays(g, s, c, w);
    assert [] + [Advance(c)] == [Advance(c)];
    RunPlus(g, s, [], Advance(c));
    assert Run(g, s, [Advance(c)]) == t;
    hide Step, Inv, Run, Committed, Left;
    if Listed(t, s.calls[c].cam, w) {
      evs := [Advance(c)];
    } else {
      var rest := CallLands(g, t, c, w);
      evs := [Advance(c)] + rest;
      RunConcat(g, s, [Advance(c)], rest);
    }
  }

  /** The calls in flight can bring a worker everything it is committed to,
      and with no further choice nothing else. */
  lemma {:induction false} EverythingOwedCanLand(g: Fleet, s: State, w: Worker) returns (evs: seq<Event>)
    requires Inv(g, s)
    ensures Advances(evs) && UnitsOf(Run(g, s, evs), w).units == Committed(s, w)
    decreases Committed(s, w) - UnitsOf(s, w).units
  {
    if Committed(s, w) <= UnitsOf(s, w).units {
      evs := [];
    } else {
      var k :| k in Committed(s, w) && k !in UnitsOf(s, w).units;
      OwedIs(s, w, k);
      var c :| Owes(s, c, w) && s.calls[c].cam == k;
      var one := CallLands(g, s, c, w);
      var t := Run(g, s, one);
      assert k !in Committed(t, w) - UnitsOf(t, w).units;
      var rest := EverythingOwedCanLand(g, t, w);
      evs := one + rest;
      RunConcat(g, s, one, rest);
    }
  }

  ghost predicate CanOverfill(g: Fleet, s: State, w: Worker) {
    exists evs :: Advances(evs) && |UnitsOf(Run(g, s, evs), w).units| > CapacityOf(g, w)
  }

  /** The calls in flight can overfill a worker, nobody choosing it any more,
      if and only if it is committed to more than it can carry. */
  lemma {:induction false} OverfillsExactlyWhen(g: Fleet, s: State, w: Worker)
    requires Inv(g, s)
    ensures CanOverfill(g, s, w) <==> |Committed(s, w)| > CapacityOf(g, w)
  {
    if |Committed(s, w)| > CapacityOf(g, w) {
      var evs := EverythingOwedCanLand(g, s, w);
      assert |UnitsOf(Run(g, s, evs), w).units| > CapacityOf(g, w);
    }
    forall evs | Advances(evs) ensures |UnitsOf(Run(g, s, evs), w).units| <= |Committed(s, w)| {
      AdvancesStayWithin(g, s, evs, w);
      SubsetSize(UnitsOf(Run(g, s, evs), w).units, Committed(s, w));
    }
  }

  // ----- how far over, when each choice looks at the load

  /** A running call that bears on `w`: bound for it, or not yet decided on a
      camera whose row has meanwhile been set to it. */
  predicate Bears(s: State, c: CallId, w: Worker) {
    && c in s.calls && !Over(s.calls[c])
    && (Owes(s, c, w) || (s.calls[c].Deciding? && IsPlaced(s, s.calls[c].cam) && RowOf(s, s.calls[c].cam).worker == w))
  }

  function Running(s: State): set<CallId> {
    set c | c in s.calls && !Over(s.calls[c])
  }

  function Coming(s: State, w: Worker): set<Cam> {
    set c | c in s.calls && Bears(s, c, w) :: s.calls[c].cam
  }

  lemma {:induction false} ImageIsSmaller(ids: set<CallId>, calls: map<CallId, Call>)
    requires ids <= calls.Keys
    ensures |set c | c in ids :: calls[c].cam| <= |ids|
    decreases |ids|
  {
    if ids != {} {
      var c :| c in ids;
      ImageIsSmaller(ids - {c}, calls);
      assert (set d | d in ids :: calls[d].cam) == (set d | d in ids - {c} :: calls[d].cam) + {calls[c].cam};
    }
  }

  lemma ComingIsSmall(s: State, w: Worker)
    ensures |Coming(s, w)| <= |Running(s)|
  {
    ImageIsSmaller(Running(s), s.calls);
    SubsetSize(Coming(s, w), set c | c in Running(s) :: s.calls[c].cam);
  }

  lemma ComingIs(s: State, w: Worker, k: Cam)
    ensures k in Coming(s, w) <==> exists c :: Bears(s, c, w) && s.calls[c].cam == k
  {}

  /** A step that is not a first choice of `w` brings nothing new towards it. */
  lemma OnlyFreshChoicesBring(g: Fleet, s: State, e: Event, w: Worker, k: Cam)
    requires Inv(g, s)
    requires !(Chooses(g, s, e) && !IsPlaced(s, s.calls[e.c].cam) && e.worker == w)
    requires var t := Step(g, s, e); k in UnitsOf(t, w).units + Coming(t, w)
    ensures k in UnitsOf(s, w).units + Coming(s, w)
  {
    var t := Step(g, s, e);
    if k in Coming(t, w) {
      ComingIs(t, w, k);
      var d :| Bears(t, d, w) && t.calls[d].cam == k;
      BearsBefore(g, s, e, w, d);
    } else {
      ListedBefore(g, s, e, w, k);
      if k !in UnitsOf(s, w).units {
        OwedIs(s, w, k);
        var c :| Owes(s, c, w) && s.calls[c].cam == k;
        assert Bears(s, c, w);
      }
    }
  }

  lemma BearsBefore(g: Fleet, s: State, e: Event, w: Worker, d: CallId)
    requires Inv(g, s)
    requires !(Chooses(g, s, e) && !IsPlaced(s, s.calls[e.c].cam) && e.worker == w)
    requires Bears(Step(g, s, e), d, w)
    ensures Step(g, s, e).calls[d].cam in UnitsOf(s, w).units + Coming(s, w)
  {
    if e.Advance? {
      BearsBeforeAdvance(g, s, e.c, w, d);
    } else {
      assert Bears(s, d, w) && Step(g, s, e).calls[d].cam == s.calls[d].cam;
    }
  }

  lemma BearsBeforeAdvance(g: Fleet, s: State, c: CallId, w: Worker, d: CallId)
    requires Inv(g, s) && Bears(Step(g, s, Advance(c)), d, w)
    ensures Step(g, s, Advance(c)).calls[d].cam in UnitsOf(s, w).units + Coming(s, w)
  {
    if d == c {
      assert CallOk(g, s, s.calls[d]);
      assert Bears(s, d, w);
    } else {
      AdvanceSets(g, s, c, s.calls[d].cam);
      hide Step, Inv;
      if !Bears(s, d, w) {
        assert Bears(s, c, w) && s.calls[c].cam == s.calls[d].cam;
      }
    }
  }

  /** Each choice in the run finds room on the worker it chooses, and at most
      `m` calls run at any moment. */
  ghost predicate Watched(g: Fleet, s: State, evs: seq<Event>, m: nat) {
    && |Running(Run(g, s, evs))| <= m
    && (evs != [] ==>
          var init := evs[..|evs| - 1];
          && Watched(g, s, init, m)
          && (Chooses(g, Run(g, s, init), evs[|evs| - 1]) ==> HasRoom(g, Run(g, s, init), evs[|evs| - 1].worker)))
  }

  /** With at most `m` calls running at once, each choosing a worker with room,
      no worker ever carries more than `m - 1` cameras over its capacity,
      crashes included. */
  lemma {:induction false} OvercommitIsBounded(g: Fleet, s: State, evs: seq<Event>, w: Worker, m: nat)
    requires Quiet(g, s) && |UnitsOf(s, w).units| <= CapacityOf(g, w)
    requires 1 <= m && Watched(g, s, evs, m)
    ensures |UnitsOf(Run(g, s, evs), w).units| <= CapacityOf(g, w) + m - 1
  {
    ComingStaysBounded(g, s, evs, w, m);
    var t := Run(g, s, evs);
    SubsetSize(UnitsOf(t, w).units, UnitsOf(t, w).units + Coming(t, w));
  }

  /** One step: only a first choice of `w` brings more, and it found room. */
  lemma ComingStep(g: Fleet, a: State, e: Event, w: Worker, m: nat, bound: int)
    requires Inv(g, a) && |Running(Step(g, a, e))| <= m && bound == CapacityOf(g, w) + m - 1
    requires |UnitsOf(a, w).units + Coming(a, w)| <= bound
    requires Chooses(g, a, e) ==> HasRoom(g, a, e.worker)
    ensures var t := Step(g, a, e); |UnitsOf(t, w).units + Coming(t, w)| <= bound
  {
    var t := Step(g, a, e);
    if Chooses(g, a, e) && !IsPlaced(a, a.calls[e.c].cam) && e.worker == w {
      assert UnitsOf(t, w) == UnitsOf(a, w);
      hide Step, Inv, Coming, Running, UnitsOf;
      ComingIsSmall(t, w);
      SubsetSize(Coming(t, w) - UnitsOf(t, w).units, Coming(t, w));
      assert UnitsOf(t, w).units + Coming(t, w) == UnitsOf(t, w).units + (Coming(t, w) - UnitsOf(t, w).units);
    } else {
      hide Step, Inv, Coming, Running, UnitsOf;
      forall k | k in UnitsOf(t, w).units + Coming(t, w) ensures k in UnitsOf(a, w).units + Coming(a, w) {
        OnlyFreshChoicesBring(g, a, e, w, k);
      }
      SubsetSize(UnitsOf(t, w).units + Coming(t, w), UnitsOf(a, w).units + Coming(a, w));
    }
  }

  lemma {:induction false} ComingStaysBounded(g: Fleet, s: State, evs: seq<Event>, w: Worker, m: nat)
    requires Quiet(g, s) && |UnitsOf(s, w).units| <= CapacityOf(g, w)
    requires 1 <= m && Watched(g, s, evs, m)
    ensures var t := Run(g, s, evs); |UnitsOf(t, w).units + Coming(t, w)| <= CapacityOf(g, w) + m - 1
  {
    if evs == [] {
      assert Coming(s, w) == {};
      assert UnitsOf(s, w).units + Coming(s, w) == UnitsOf(s, w).units;
    } else {
      var init, e := evs[..|evs| - 1], evs[|evs| - 1];
      ComingStaysBounded(g, s, init, w, m);
      RunKeepsInv(g, s, init);
      ComingStep(g, Run(g, s, init), e, w, m, CapacityOf(g, w) + m - 1);
    }
  }
}
