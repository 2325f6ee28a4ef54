/** Exactly when a controller's failure between row and assignment leaves a
    camera placed and unlisted. */
module PlacementCrash {
  import opened PlacementRace

  // ----- what a finished call remembers

  /** The call set the row or found it set after its own start, and went on
      to the assignment. */
  predicate GotToTheRow(x: Call) {
    (x.Returned? && x.result.Some? && !x.early) || (x.Failed? && x.settled)
  }

  ghost predicate WasSettled(g: Fleet, s: State, evs: seq<Event>, c: CallId) {
    || (c in Run(g, s, evs).calls && Settled(Run(g, s, evs).calls[c]))
    || (evs != [] && WasSettled(g, s, evs[..|evs| - 1], c))
  }

  /** A call's stage and what it has been through agree. */
  ghost predicate StageTells(x: Call, settled: bool) {
    && (Over(x) ==> (GotToTheRow(x) <==> settled))
    && (x.Deciding? || x.Chosen? || x.RowRead? ==> !settled)
    && (Settled(x) ==> settled)
  }

  lemma StageStep(g: Fleet, s: State, e: Event, c: CallId, settled: bool)
    requires c in s.calls && StageTells(s.calls[c], settled)
    ensures var y := Step(g, s, e).calls[c]; StageTells(y, settled || Settled(y))
  {}

  /** What is recorded of a finished call is what happened: it got to the row
      if and only if some state of the run had it between row and assignment. */
  lemma {:induction false} GotToTheRowMeans(g: Fleet, s: State, evs: seq<Event>, c: CallId)
    requires Quiet(g, s)
    requires c in Run(g, s, evs).calls
    ensures StageTells(Run(g, s, evs).calls[c], WasSettled(g, s, evs, c))
    ensures Over(Run(g, s, evs).calls[c]) ==>
              (GotToTheRow(Run(g, s, evs).calls[c]) <==> WasSettled(g, s, evs, c))
  {
    var init := evs[..|evs| - 1];
    if c in Run(g, s, init).calls {
      GotToTheRowMeans(g, s, init, c);
      StageStep(g, Run(g, s, init), evs[|evs| - 1], c, WasSettled(g, s, init, c));
    } else {
      NotYetSettled(g, s, init, c);
    }
  }

  lemma {:induction false} NotYetSettled(g: Fleet, s: State, evs: seq<Event>, c: CallId)
    requires c !in Run(g, s, evs).calls
    ensures !WasSettled(g, s, evs, c)
  {
    if evs != [] {
      assert c !in Run(g, s, evs[..|evs| - 1]).calls;
      NotYetSettled(g, s, evs[..|evs| - 1], c);
    }
  }

  // ----- who listed a camera

  ghost predicate Lister(t: State, k: Cam) {
    exists c :: c in t.calls && t.calls[c].cam == k && Finished(t.calls[c])
  }

  /** Returned after its own assignment, or after finding the camera listed. */
  predicate Finished(x: Call) {
    x.Returned? && x.result.Some? && !x.early
  }

  /** A camera is newly listed only by a call that then returned. */
  lemma {:induction false} ListedBySomeCall(g: Fleet, s: State, evs: seq<Event>, k: Cam, w: Worker)
    requires Quiet(g, s) && Listed(Run(g, s, evs), k, w)
    ensures Listed(s, k, w) || Lister(Run(g, s, evs), k)
  {
    if evs != [] {
      var init := evs[..|evs| - 1];
      RunKeepsInv(g, s, init);
      if Listed(Run(g, s, init), k, w) {
        ListedBySomeCall(g, s, init, k, w);
      }
      ListerStep(g, Run(g, s, init), evs[|evs| - 1], k, w);
    }
  }

  lemma ListerStep(g: Fleet, s: State, e: Event, k: Cam, w: Worker)
    requires Inv(g, s)
    ensures Lister(s, k) ==> Lister(Step(g, s, e), k)
    ensures Listed(Step(g, s, e), k, w) && !Listed(s, k, w) ==> Lister(Step(g, s, e), k)
  {
    var t := Step(g, s, e);
    if Lister(s, k) {
      var c :| c in s.calls && s.calls[c].cam == k && Finished(s.calls[c]);
      assert t.calls[c] == s.calls[c];
    }
    if e.Advance? && e.c in s.calls && Listed(t, k, w) && !Listed(s, k, w) {
      assert CallOk(g, s, s.calls[e.c]);
      assert t.calls[e.c].cam == k && Finished(t.calls[e.c]);
    }
  }

  // ----- exactly when a camera is stranded

  /** Every call that got to the camera's row failed there. */
  ghost predicate AllFailedAtTheRow(t: State, k: Cam) {
    forall c :: c in t.calls && t.calls[c].cam == k && GotToTheRow(t.calls[c]) ==> t.calls[c].Failed?
  }

  /** With no call for it in flight, a camera is placed and unlisted if and
      only if its row was set since the quiet start and every call that set or
      adopted the row failed before its assignment. */
  lemma {:induction false} StrandedExactlyWhen(g: Fleet, s: State, evs: seq<Event>, k: Cam)
    requires Quiet(g, s)
    requires var t := Run(g, s, evs); forall c :: c in t.calls && t.calls[c].cam == k ==> Over(t.calls[c])
    ensures var t := Run(g, s, evs);
            Stranded(t, k) <==> !IsPlaced(s, k) && IsPlaced(t, k) && AllFailedAtTheRow(t, k)
  {
    var t := Run(g, s, evs);
    RunKeepsInv(g, s, evs);
    assert CamOk(g, s, k) && CamOk(g, t, k);
    RowsAndListingsAreStable(g, s, evs, k, RowOf(s, k).worker);
    if Stranded(t, k) {
      forall c | c in t.calls && t.calls[c].cam == k && GotToTheRow(t.calls[c]) ensures t.calls[c].Failed? {
        assert CallOk(g, t, t.calls[c]);
      }
    } else if IsPlaced(t, k) && !IsPlaced(s, k) {
      ListedBySomeCall(g, s, evs, k, RowOf(t, k).worker);
      var c :| c in t.calls && t.calls[c].cam == k && Finished(t.calls[c]);
      assert GotToTheRow(t.calls[c]);
    }
  }

  // ----- what a caller can tell

  /** The state in which call `c` began. */
  function AtBegin(g: Fleet, s: State, evs: seq<Event>, c: CallId): State
    requires c !in s.calls && c in Run(g, s, evs).calls
  {
    var init := evs[..|evs| - 1];
    if c in Run(g, s, init).calls then AtBegin(g, s, init, c) else Run(g, s, init)
  }

  predicate Early(x: Call) {
    x.Returned? && x.early
  }

  /** Only a call's first step can return early. */
  lemma EarlyStep(g: Fleet, s: State, e: Event, c: CallId)
    requires c in Step(g, s, e).calls
    ensures var x := Step(g, s, e).calls[c];
            if c in s.calls then x.cam == s.calls[c].cam && (Early(x) <==> Early(s.calls[c]))
            else Early(x) <==> IsPlaced(s, x.cam)
  {}

  /** A call returns early if and only if the row was set when it began. */
  lemma {:induction false} EarlyExactlyWhenPlaced(g: Fleet, s: State, evs: seq<Event>, c: CallId)
    requires c !in s.calls && c in Run(g, s, evs).calls
    ensures var x := Run(g, s, evs).calls[c];
            IsPlaced(AtBegin(g, s, evs, c), x.cam) <==> Early(x)
  {
    var init := evs[..|evs| - 1];
    hide Step, IsPlaced, Early;
    EarlyStep(g, Run(g, s, init), evs[|evs| - 1], c);
    if c in Run(g, s, init).calls {
      EarlyExactlyWhenPlaced(g, s, init, c);
    }
  }

  /** What a returned call has done: at once, on a row that was there, or after
      its own assignment. */
  lemma ReturnedHow(g: Fleet, s: State, e: Event, c: CallId)
    requires Inv(g, Step(g, s, e)) && c in Step(g, s, e).calls && Step(g, s, e).calls[c].Returned?
    requires Step(g, s, e).calls[c].result.Some? && (c in s.calls ==> !s.calls[c].Returned?)
    ensures var t := Step(g, s, e);
            var x := t.calls[c];
            && (x.early ==> c !in s.calls && x.result.value == RowOf(s, x.cam).worker && IsPlaced(s, x.cam)
                            && (Listed(t, x.cam, x.result.value) <==> Listed(s, x.cam, x.result.value)))
            && (!x.early ==> Listed(t, x.cam, x.result.value))
  {
    assert CallOk(g, Step(g, s, e), Step(g, s, e).calls[c]);
  }

  /** When a call returns a worker, its camera is listed there if and only if
      the row was unset when the call began, or the camera was listed then. */
  lemma {:induction false} ReturnedAndListedExactlyWhen(g: Fleet, s: State, evs: seq<Event>, e: Event, c: CallId)
    requires Quiet(g, s)
    requires var a, t := Run(g, s, evs), Run(g, s, evs + [e]);
             && c in t.calls && t.calls[c].Returned? && t.calls[c].result.Some?
             && (c in a.calls ==> !a.calls[c].Returned?)
    ensures var t, b := Run(g, s, evs + [e]), AtBegin(g, s, evs + [e], c);
            var k, w := t.calls[c].cam, t.calls[c].result.value;
            Listed(t, k, w) <==> !IsPlaced(b, k) || Listed(b, k, RowOf(b, k).worker)
  {
    RunKeepsInv(g, s, evs + [e]);
    var a := Run(g, s, evs);
    assert (evs + [e])[..|evs + [e]| - 1] == evs;
    assert c !in a.calls ==> AtBegin(g, s, evs + [e], c) == a;
    hide Run, Step, Inv, AtBegin, Listed, IsPlaced;
    RunPlus(g, s, evs, e);
    EarlyExactlyWhenPlaced(g, s, evs + [e], c);
    ReturnedHow(g, a, e, c);
  }
}
