/** Each row that racing controllers write says how often it was written. */
module PlacementCounts {
  import opened PlacementRace
  import opened Records
  import opened Variables

  /** What a call has read is as old as its index, and what it is about to add
      was not there. */
  ghost predicate ReadOk(s: State, x: Call) {
    match x
    case RowRead(k, _, rev, i) => Index(s.rows, k) == i ==> RowOf(s, k).rev == rev
    case UnitsRead(k, _, cur, _) => k !in cur.units
    case _ => true
  }

  ghost predicate AllReadOk(s: State) {
    forall c :: c in s.calls ==> ReadOk(s, s.calls[c])
  }

  /** From `s` on: a row is a revision on if it was set since, and a list by as
      many as it has cameras more. */
  ghost predicate Counts(s: State, t: State) {
    && (forall k :: RowOf(t, k).rev == RowOf(s, k).rev + if IsPlaced(t, k) && !IsPlaced(s, k) then 1 else 0)
    && (forall w :: UnitsOf(t, w).rev + |UnitsOf(s, w).units| == UnitsOf(s, w).rev + |UnitsOf(t, w).units|)
  }

  lemma RowPutCounts(g: Fleet, s: State, c: CallId, x: Call)
    requires Inv(g, s) && c in s.calls && s.calls[c] == x && x.RowRead? && ReadOk(s, x)
    requires Accepts(s.rows, x.cam, Some(x.index))
    ensures var t := Next(s, c, x);
            && Counts(s, t) && IsPlaced(t, x.cam) && !IsPlaced(s, x.cam)
            && (forall k :: k != x.cam ==> RowOf(t, k) == RowOf(s, k))
  {
    assert CallOk(g, s, x);
  }

  lemma UnitsPutCounts(g: Fleet, s: State, c: CallId, x: Call)
    requires Inv(g, s) && c in s.calls && s.calls[c] == x && x.UnitsRead? && ReadOk(s, x)
    requires Accepts(s.assignments, x.worker, Some(x.index))
    ensures Counts(s, Next(s, c, x)) && Next(s, c, x).rows == s.rows
  {
    assert CallOk(g, s, x);
    assert UnitsOf(s, x.worker) == x.cur;
    assert |x.cur.units + {x.cam}| == |x.cur.units| + 1;
  }

  lemma StepCounts(g: Fleet, s: State, e: Event)
    requires Inv(g, s) && AllReadOk(s)
    ensures Counts(s, Step(g, s, e)) && AllReadOk(Step(g, s, e))
  {
    var t := Step(g, s, e);
    StepKeepsInv(g, s, e);
    if e.Advance? && e.c in s.calls {
      var x := s.calls[e.c];
      assert ReadOk(s, x);
      if x.RowRead? && Accepts(s.rows, x.cam, Some(x.index)) {
        RowPutCounts(g, s, e.c, x);
      } else if x.UnitsRead? && Accepts(s.assignments, x.worker, Some(x.index)) {
        UnitsPutCounts(g, s, e.c, x);
      }
    }
    forall c | c in t.calls ensures ReadOk(t, t.calls[c]) {
      StaysReadOk(g, s, e, c);
    }
  }

  lemma StaysReadOk(g: Fleet, s: State, e: Event, c: CallId)
    requires Inv(g, s) && AllReadOk(s) && c in Step(g, s, e).calls
    ensures ReadOk(Step(g, s, e), Step(g, s, e).calls[c])
  {
    if c in s.calls {
      assert ReadOk(s, s.calls[c]) && CallOk(g, s, s.calls[c]);
    }
  }

  lemma CountsOn(s: State, t: State, u: State)
    requires Counts(s, t) && Counts(t, u) && forall k :: IsPlaced(s, k) ==> IsPlaced(t, k)
    requires forall k :: IsPlaced(t, k) ==> IsPlaced(u, k)
    ensures Counts(s, u)
  {}

  /** Over every run from quiet: a placement row that was set is exactly one
      revision on, and an assignment row as many as it has cameras more. */
  lemma {:induction false} RevisionsCount(g: Fleet, s: State, evs: seq<Event>)
    requires Quiet(g, s)
    ensures AllReadOk(Run(g, s, evs)) && Counts(s, Run(g, s, evs))
  {
    if evs != [] {
      var init, e := evs[..|evs| - 1], evs[|evs| - 1];
      var t := Run(g, s, init);
      RevisionsCount(g, s, init);
      RunKeepsInv(g, s, init);
      StepCounts(g, t, e);
      forall k ensures IsPlaced(s, k) ==> IsPlaced(t, k) {
        RowsAndListingsAreStable(g, s, init, k, "");
      }
      assert [e][..0] == [] && Run(g, t, [e]) == Step(g, t, e);
      forall k ensures IsPlaced(t, k) ==> IsPlaced(Step(g, t, e), k) {
        RowsAndListingsAreStable(g, t, [e], k, "");
      }
      hide Step, Counts, AllReadOk, Inv;
      CountsOn(s, t, Step(g, t, e));
    }
  }

  /** A call that finds no worker with room returns nobody, and has written
      nothing. */
  lemma GivenUp(g: Fleet, s: State, c: CallId, k: Cam)
    requires c !in s.calls && !IsPlaced(s, k)
    ensures var t := Run(g, s, [Begin(c, k), GiveUp(c)]);
            t.rows == s.rows && t.assignments == s.assignments && t.calls == s.calls[c := Returned(k, None, false)]
  {
    var b := Begin(c, k);
    assert [b, GiveUp(c)][..1] == [b] && [b][..0] == [];
    assert Run(g, s, [b]) == With(s, c, Deciding(k));
    assert Run(g, s, [b, GiveUp(c)]) == Step(g, Run(g, s, [b]), GiveUp(c));
  }
}
