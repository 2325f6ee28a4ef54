/** What placing, moving, redistributing and rebalancing promise, for one
    controller working alone. */
module ControllerLaws {
  import opened Variables
  import opened FiniteSets
  import opened Spread
  import opened VmsController
  import Slots

  predicate Lists(t: Tables, w: Worker, k: Cam) {
    k in UnitsOf(t, w)
  }

  ghost predicate Listed(t: Tables, k: Cam) {
    exists w :: Lists(t, w, k)
  }

  /** No camera is listed on two workers. */
  ghost predicate ListedOnce(t: Tables) {
    forall k, v, w :: Lists(t, v, k) && Lists(t, w, k) ==> v == w
  }

  lemma MovedLists(t: Tables, k: Cam, to: Worker)
    ensures forall w, l :: Lists(Moved(t, k, to), w, l) <==> (if l == k then w == to else Lists(t, w, l))
    ensures forall w :: CapacityOf(Moved(t, k, to), w) == CapacityOf(t, w)
    ensures WorkerOf(Moved(t, k, to), k) == to
    ensures forall l :: l != k ==> WorkerOf(Moved(t, k, to), l) == WorkerOf(t, l)
  {
    var c := Cleared(t, k, to);
    assert forall w :: w in c.assignments <==> w in t.assignments;
    forall w, l ensures Lists(Moved(t, k, to), w, l) <==> (if l == k then w == to else Lists(t, w, l)) {
      assert Lists(c, w, l) <==> (if l == k && w != to then false else Lists(t, w, l));
    }
  }

  lemma MovedUnits(t: Tables, k: Cam, to: Worker, w: Worker)
    ensures UnitsOf(Moved(t, k, to), w) == if w == to then UnitsOf(t, w) + {k} else UnitsOf(t, w) - {k}
  {
    MovedLists(t, k, to);
    forall l ensures l in UnitsOf(Moved(t, k, to), w)
                     <==> l in if w == to then UnitsOf(t, w) + {k} else UnitsOf(t, w) - {k} {
      assert Lists(Moved(t, k, to), w, l) <==> (if l == k then w == to else Lists(t, w, l));
    }
  }

  // ----- which worker is best

  ghost predicate FirstMaximum(t: Tables, ws: seq<Worker>, i: nat) {
    && i < |ws|
    && (forall j :: 0 <= j < |ws| ==> Free(t, ws[j]) <= Free(t, ws[i]))
    && (forall j :: 0 <= j < i ==> Free(t, ws[j]) < Free(t, ws[i]))
  }

  /** `Best` is a worker of the list with the most free capacity, and the
      first such in the list's order. */
  lemma {:induction false} BestIsFirstMaximum(t: Tables, ws: seq<Worker>) returns (i: nat)
    requires ws != []
    ensures FirstMaximum(t, ws, i) && Best(t, ws) == Some(ws[i])
  {
    var init, n := ws[..|ws| - 1], |ws| - 1;
    if n == 0 {
      assert Best(t, init).None?;
      i := 0;
    } else {
      i := BestIsFirstMaximum(t, init);
      assert forall j :: 0 <= j < n ==> init[j] == ws[j];
      if Free(t, ws[n]) > Free(t, ws[i]) {
        i := n;
      }
    }
  }

  lemma BestMember(t: Tables, ws: seq<Worker>)
    ensures Best(t, ws).Some? <==> ws != []
    ensures Best(t, ws).Some? ==> Best(t, ws).value in ws
    ensures forall w :: w in ws ==> Free(t, w) <= Free(t, Best(t, ws).value)
  {
    if ws != [] {
      var i := BestIsFirstMaximum(t, ws);
      forall w | w in ws ensures Free(t, w) <= Free(t, Best(t, ws).value) {
        var j :| 0 <= j < |ws| && ws[j] == w;
      }
    }
  }

  // ----- place

  /** A placed camera is not moved; an unplaced one is refused exactly when no
      given worker has room, and otherwise goes where there is most; no
      worker is ever pushed over its capacity. */
  lemma PlaceRespectsCapacity(t: Tables, k: Cam, ws: seq<Worker>)
    requires "" !in ws
    ensures var u := Placed(t, k, ws);
            && (WorkerOf(t, k) != "" ==> u == t)
            && (WorkerOf(t, k) == "" ==> (u == t <==> forall w :: w in ws ==> Free(t, w) <= 0))
            && (WorkerOf(u, k) != "" && u != t ==>
                  var w := WorkerOf(u, k);
                  && w in ws && Free(t, w) > 0 && (forall v :: v in ws ==> Free(t, v) <= Free(t, w))
                  && UnitsOf(u, w) == UnitsOf(t, w) + {k})
            && (forall w :: UnitsOf(u, w) == UnitsOf(t, w) || |UnitsOf(u, w)| <= CapacityOf(u, w))
            && (forall l :: l != k ==> WorkerOf(u, l) == WorkerOf(t, l))
  {
    BestMember(t, ws);
    var u := Placed(t, k, ws);
    if WorkerOf(t, k) == "" && !Full(t, ws) {
      var b := Best(t, ws).value;
      assert WorkerOf(u, k) == b != "";
      assert UnitsOf(u, b) == UnitsOf(t, b) + {k};
      assert forall w :: w != b ==> UnitsOf(u, w) == UnitsOf(t, w);
    }
  }

  // ----- redistribute

  lemma {:induction false} OthersAre(ws: seq<Worker>, gone: Worker)
    ensures forall w :: w in Others(ws, gone) <==> w in ws && w != gone
  {
    if ws != [] {
      OthersAre(ws[..|ws| - 1], gone);
      assert ws == ws[..|ws| - 1] + [ws[|ws| - 1]];
    }
  }

  /** Where the last move of `k` in the log went. */
  function LastMove(moves: seq<Move>, k: Cam): Option<Worker> {
    if moves == [] then None
    else if LastMove(moves[1..], k).Some? then LastMove(moves[1..], k)
    else if moves[0].cam == k then Some(moves[0].to) else None
  }

  lemma {:induction false} LastMoveConcat(a: seq<Move>, b: seq<Move>, k: Cam)
    ensures LastMove(a + b, k) == if LastMove(b, k).Some? then LastMove(b, k) else LastMove(a, k)
  {
    if a == [] {
      assert a + b == b;
    } else {
      assert (a + b)[1..] == a[1..] + b;
      LastMoveConcat(a[1..], b, k);
    }
  }

  /** What a log of moves has done to the tables: each moved camera is listed
      only at its last destination and its row says so, every other camera is
      where it was, and whoever received a camera is within capacity. */
  ghost predicate Follows(t: Tables, u: Tables, moves: seq<Move>) {
    && (forall k, w :: Lists(u, w, k) <==>
          (match LastMove(moves, k) case Some(to) => w == to case None => Lists(t, w, k)))
    && (forall k :: WorkerOf(u, k) == (match LastMove(moves, k) case Some(to) => to case None => WorkerOf(t, k)))
    && (forall w :: CapacityOf(u, w) == CapacityOf(t, w))
    && (forall w :: UnitsOf(u, w) <= UnitsOf(t, w) || |UnitsOf(u, w)| <= CapacityOf(u, w))
  }

  lemma FollowsOneMove(t: Tables, k: Cam, from: Worker, to: Worker)
    requires Free(t, to) > 0
    ensures Follows(t, Moved(t, k, to), [Move(k, from, to)])
  {
    var u, log := Moved(t, k, to), [Move(k, from, to)];
    MovedLists(t, k, to);
    forall l ensures LastMove(log, l) == if l == k then Some(to) else None {
      assert log[1..] == [];
    }
    forall w ensures UnitsOf(u, w) <= UnitsOf(t, w) || |UnitsOf(u, w)| <= CapacityOf(u, w) {
      MovedUnits(t, k, to, w);
    }
  }

  lemma FollowsTransitive(t: Tables, u: Tables, v: Tables, a: seq<Move>, b: seq<Move>)
    requires Follows(t, u, a) && Follows(u, v, b)
    ensures Follows(t, v, a + b)
  {
    forall k, w ensures Lists(v, w, k) <==>
          (match LastMove(a + b, k) case Some(to) => w == to case None => Lists(t, w, k)) {
      LastMoveConcat(a, b, k);
    }
    forall k ensures WorkerOf(v, k) == (match LastMove(a + b, k) case Some(to) => to case None => WorkerOf(t, k)) {
      LastMoveConcat(a, b, k);
    }
    forall w ensures UnitsOf(v, w) <= UnitsOf(t, w) || |UnitsOf(v, w)| <= CapacityOf(v, w) {
      if UnitsOf(v, w) <= UnitsOf(u, w) && !(UnitsOf(u, w) <= UnitsOf(t, w)) {
        SubsetSize(UnitsOf(v, w), UnitsOf(u, w));
      }
    }
  }

  /** Every entry of the log is of a camera that was listed, and takes it off
      one of the slots in `gones`, on to a different worker of `ws`. */
  ghost predicate MovesOff(t: Tables, moves: seq<Move>, gones: seq<Worker>, ws: seq<Worker>) {
    && (forall m :: m in moves ==> m.from in gones && m.to in ws && m.to != m.from)
    && (forall k :: LastMove(moves, k).Some? ==> Listed(t, k))
    && (forall k, w :: Lists(t, w, k) && w !in gones ==> LastMove(moves, k).None?)
  }

  lemma DrainStep(t: Tables, gone: Worker, ks: set<Cam>, live: seq<Worker>)
    requires ks != {} && !Full(t, live)
    ensures Best(t, live).Some? && Best(t, live).value in live && Free(t, Best(t, live).value) > 0
    ensures var k, to := Least(ks), Best(t, live).value;
            var next := Drain(Moved(t, k, to), gone, ks - {k}, live);
            Drain(t, gone, ks, live) == (next.0, [Move(k, gone, to)] + next.1)
  {
    BestMember(t, live);
  }

  /** Draining one released slot. */
  lemma {:induction false} DrainFollows(t: Tables, gone: Worker, ks: set<Cam>, live: seq<Worker>)
    requires gone !in live
    requires ListedOnce(t) && ks <= UnitsOf(t, gone)
    ensures Follows(t, Drain(t, gone, ks, live).0, Drain(t, gone, ks, live).1)
    ensures ListedOnce(Drain(t, gone, ks, live).0)
    ensures forall k :: LastMove(Drain(t, gone, ks, live).1, k).Some? ==> k in ks
    ensures forall m :: m in Drain(t, gone, ks, live).1 ==> m.from == gone && m.to in live
    decreases |ks|
  {
    if ks != {} && !Full(t, live) {
      DrainStep(t, gone, ks, live);
      var k, to := Least(ks), Best(t, live).value;
      var t' := Moved(t, k, to);
      MovedLists(t, k, to);
      MovedUnits(t, k, to, gone);
      DrainFollows(t', gone, ks - {k}, live);
      var (u, rest) := Drain(t', gone, ks - {k}, live);
      FollowsOneMove(t, k, gone, to);
      FollowsTransitive(t, t', u, [Move(k, gone, to)], rest);
      forall l ensures LastMove([Move(k, gone, to)] + rest, l).Some? ==> l in ks {
        LastMoveConcat([Move(k, gone, to)], rest, l);
      }
    }
  }

  /** A camera that stays behind stays because the system was full. */
  lemma {:induction false} DrainStopsOnlyWhenFull(t: Tables, gone: Worker, ks: set<Cam>, live: seq<Worker>, k: Cam)
    requires k in ks && LastMove(Drain(t, gone, ks, live).1, k).None?
    ensures forall w :: w in live ==> Free(Drain(t, gone, ks, live).0, w) <= 0
    decreases |ks|
  {
    BestMember(t, live);
    if !Full(t, live) {
      DrainStep(t, gone, ks, live);
      var l, to := Least(ks), Best(t, live).value;
      var rest := Drain(Moved(t, l, to), gone, ks - {l}, live).1;
      LastMoveConcat([Move(l, gone, to)], rest, k);
      assert LastMove([Move(l, gone, to)], l) == Some(to);
      DrainStopsOnlyWhenFull(Moved(t, l, to), gone, ks - {l}, live, k);
    }
  }

  /** `redistribute`: from a state where each camera is listed once, the
      cameras listed afterwards are those listed before; each moved one is
      listed only at its last destination, and its row says so; no
      destination exceeds its capacity; a slot that is not among the released
      ones loses nothing. */
  lemma {:induction false} RedistributeConserves(t: Tables, gones: seq<Worker>, ws: seq<Worker>)
    requires ListedOnce(t)
    ensures Follows(t, DrainAll(t, gones, ws).0, DrainAll(t, gones, ws).1)
    ensures ListedOnce(DrainAll(t, gones, ws).0)
    ensures MovesOff(t, DrainAll(t, gones, ws).1, gones, ws)
    ensures forall k :: Listed(DrainAll(t, gones, ws).0, k) <==> Listed(t, k)
    decreases |gones|
  {
    var (v, moves) := DrainAll(t, gones, ws);
    if gones == [] {
      assert Follows(t, v, moves);
    } else {
      var live := Others(ws, gones[0]);
      var (u, first) := Drain(t, gones[0], UnitsOf(t, gones[0]), live);
      var rest := DrainAll(u, gones[1..], ws).1;
      OthersAre(ws, gones[0]);
      DrainFollows(t, gones[0], UnitsOf(t, gones[0]), live);
      RedistributeConserves(u, gones[1..], ws);
      FollowsTransitive(t, u, v, first, rest);
      MovesOffConcat(t, u, first, rest, gones, ws);
    }
    forall k ensures Listed(v, k) <==> Listed(t, k) {
      FollowsListed(t, v, moves, k);
    }
  }

  lemma MovesOffConcat(t: Tables, u: Tables, first: seq<Move>, rest: seq<Move>, gones: seq<Worker>, ws: seq<Worker>)
    requires gones != [] && ListedOnce(t) && Follows(t, u, first)
    requires forall m :: m in first ==> m.from == gones[0] && m.to in ws && m.to != gones[0]
    requires forall k :: LastMove(first, k).Some? ==> k in UnitsOf(t, gones[0])
    requires MovesOff(u, rest, gones[1..], ws)
    ensures MovesOff(t, first + rest, gones, ws)
  {
    forall k ensures LastMove(first + rest, k).Some? ==> Listed(t, k) {
      LastMoveConcat(first, rest, k);
      if LastMove(first, k).Some? {
        assert Lists(t, gones[0], k);
      } else if LastMove(rest, k).Some? {
        var w :| Lists(u, w, k);
        assert Lists(t, w, k);
      }
    }
    forall k, w | Lists(t, w, k) && w !in gones ensures LastMove(first + rest, k).None? {
      LastMoveConcat(first, rest, k);
      assert gones[0] in gones;
      if k in UnitsOf(t, gones[0]) {
        assert Lists(t, gones[0], k);
      }
      assert Lists(u, w, k);
    }
  }

  lemma FollowsListed(t: Tables, u: Tables, moves: seq<Move>, k: Cam)
    requires Follows(t, u, moves)
    requires LastMove(moves, k).Some? ==> Listed(t, k)
    ensures Listed(u, k) <==> Listed(t, k)
  {
    if LastMove(moves, k).Some? {
      assert Lists(u, LastMove(moves, k).value, k);
    } else {
      assert forall w :: Lists(u, w, k) <==> Lists(t, w, k);
    }
  }

  /** What `released_slots` reads: slots let go on purpose that still list cameras. */
  ghost predicate AreReleased(t: Tables, slots: map<Worker, Slots.Slot>, gones: seq<Worker>) {
    forall w :: w in gones <==> w in slots && slots[w].released && UnitsOf(t, w) != {}
  }

  /** A slot that merely lapsed, because its process crashed, keeps every
      camera it lists, and their rows keep naming it. */
  lemma LapsedSlotKeepsItsCameras(t: Tables, slots: map<Worker, Slots.Slot>, gones: seq<Worker>, ws: seq<Worker>,
          w: Worker, now: real)
    requires ListedOnce(t) && AreReleased(t, slots, gones)
    requires w in slots && Slots.Lapsed(slots[w], now)
    ensures var u := DrainAll(t, gones, ws).0;
            UnitsOf(t, w) <= UnitsOf(u, w) && forall k :: k in UnitsOf(t, w) ==> WorkerOf(u, k) == WorkerOf(t, k)
  {
    RedistributeConserves(t, gones, ws);
    var u := DrainAll(t, gones, ws).0;
    forall k | k in UnitsOf(t, w) ensures k in UnitsOf(u, w) && WorkerOf(u, k) == WorkerOf(t, k) {
      assert Lists(t, w, k);
      assert Lists(u, w, k);
    }
  }

  // ----- rebalance, with every capacity above ten

  function WeightOf(t: Tables, w: Worker): real
    requires CapacityOf(t, w) > 0
  {
    Weight(|UnitsOf(t, w)| as real, CapacityOf(t, w) as real)
  }

  function Weights(t: Tables, ws: seq<Worker>): map<Node, real>
    requires forall w :: w in ws ==> CapacityOf(t, w) > 0
  {
    map w | w in ws :: WeightOf(t, w)
  }

  /** The sum of load^2 / capacity over the workers. */
  function Potential(t: Tables, ws: seq<Worker>): real
    requires forall w :: w in ws ==> CapacityOf(t, w) > 0
  {
    Sum(Weights(t, ws), ws)
  }

  ghost predicate Roomy(t: Tables, ws: seq<Worker>) {
    Distinct(ws) && forall w :: w in ws ==> CapacityOf(t, w) > 10
  }

  /** The two ends of a move really are the extremes. */
  lemma {:induction false} ExtremesAre(t: Tables, ws: seq<Worker>)
    requires ws != [] && Sized(t, ws)
    ensures forall v :: v in ws ==> LoadRatio(t, Emptiest(t, ws)) <= LoadRatio(t, v) <= LoadRatio(t, Fullest(t, ws))
  {
    if |ws| > 1 {
      var init := ws[..|ws| - 1];
      ExtremesAre(t, init);
      forall v | v in ws
        ensures LoadRatio(t, Emptiest(t, ws)) <= LoadRatio(t, v) <= LoadRatio(t, Fullest(t, ws))
      {
        assert v in init || v == ws[|ws| - 1];
      }
    }
  }

  /** The cameras one move of the loop touches. */
  lemma NextMoveIs(t: Tables, ws: seq<Worker>, m: Move)
    requires ListedOnce(t) && Roomy(t, ws)
    requires NextMove(t, ws, 0.10) == Some(m)
    ensures m.from in ws && m.to in ws && m.from != m.to
    ensures m.cam in UnitsOf(t, m.from) && m.cam !in UnitsOf(t, m.to)
    ensures LoadRatio(t, m.from) - LoadRatio(t, m.to) >= 0.10
  {
    assert Lists(t, m.from, m.cam);
    assert Lists(t, m.to, m.cam) ==> m.from == m.to;
  }

  lemma MovedSizes(t: Tables, m: Move, w: Worker)
    requires ListedOnce(t) && m.from != m.to
    requires m.cam in UnitsOf(t, m.from) && m.cam !in UnitsOf(t, m.to)
    ensures |UnitsOf(Moved(t, m.cam, m.to), w)| ==
            |UnitsOf(t, w)| + (if w == m.to then 1 else if w == m.from then -1 else 0)
  {
    MovedUnits(t, m.cam, m.to, w);
    assert Lists(t, m.from, m.cam);
    assert Lists(t, w, m.cam) ==> w == m.from;
  }

  /** One move of the rebalance loop lowers the sum by at least 1/55. */
  lemma NextMoveLowersPotential(t: Tables, ws: seq<Worker>, m: Move)
    requires ListedOnce(t) && Roomy(t, ws)
    requires NextMove(t, ws, 0.10) == Some(m)
    ensures ListedOnce(Moved(t, m.cam, m.to)) && Roomy(Moved(t, m.cam, m.to), ws)
    ensures Potential(Moved(t, m.cam, m.to), ws) <= Potential(t, ws) - 1.0 / 55.0
  {
    NextMoveIs(t, ws, m);
    MovedLists(t, m.cam, m.to);
    MoveLowersPotential(t, ws, m, Moved(t, m.cam, m.to));
  }

  lemma MoveLowersPotential(t: Tables, ws: seq<Worker>, m: Move, u: Tables)
    requires ListedOnce(t) && Roomy(t, ws) && Roomy(u, ws) && u == Moved(t, m.cam, m.to)
    requires m.from in ws && m.to in ws && m.from != m.to
    requires m.cam in UnitsOf(t, m.from) && m.cam !in UnitsOf(t, m.to)
    requires LoadRatio(t, m.from) - LoadRatio(t, m.to) >= 0.10
    ensures Potential(u, ws) <= Potential(t, ws) - 1.0 / 55.0
  {
    var f := Weights(t, ws);
    var H, h := CapacityOf(t, m.from) as real, CapacityOf(t, m.to) as real;
    var L, l := |UnitsOf(t, m.from)| as real, |UnitsOf(t, m.to)| as real;
    var x, y := Weight(L - 1.0, H), Weight(l + 1.0, h);
    forall w | w in ws ensures WeightOf(u, w) == f[m.from := x][m.to := y][w] {
      MovedSizes(t, m, w);
    }
    assert Weights(u, ws) == f[m.from := x][m.to := y];
    SumUpdate(f, ws, m.from, x);
    SumUpdate(f[m.from := x], ws, m.to, y);
    UnitMove(L, H, l, h);
  }

  lemma UnitMove(L: real, H: real, l: real, h: real)
    requires H >= 11.0 && h >= 11.0 && L / H - l / h >= 0.10
    ensures Weight(L - 1.0, H) + Weight(l + 1.0, h) <= Weight(L, H) + Weight(l, h) - 1.0 / 55.0
  {
    var d := MoveChange(L, H, l, h, 1.0);
    assert 1.0 / H <= 1.0 / 11.0 && 1.0 / h <= 1.0 / 11.0;
  }

  lemma PotentialNonNegative(t: Tables, ws: seq<Worker>)
    requires Roomy(t, ws)
    ensures Potential(t, ws) >= 0.0
  {
    SumNonNegative(Weights(t, ws), ws);
  }

  lemma {:induction false} RebalanceLowersPotential(t: Tables, ws: seq<Worker>, n: nat)
    requires ListedOnce(t) && Roomy(t, ws)
    ensures var (u, moves) := Rebalanced(t, ws, 0.10, n);
            && ListedOnce(u) && Roomy(u, ws)
            && Potential(u, ws) <= Potential(t, ws) - |moves| as real / 55.0
            && (NextMove(u, ws, 0.10).Some? ==> |moves| == n)
  {
    hide Potential, NextMove, Moved;
    if n > 0 {
      RebalanceLowersPotential(t, ws, n - 1);
      var (u, moves) := Rebalanced(t, ws, 0.10, n - 1);
      match NextMove(u, ws, 0.10)
      case None =>
      case Some(m) => NextMoveLowersPotential(u, ws, m);
    }
  }

  /** Rebalancing stops by itself: whatever the budget, it makes fewer than
      55 times the initial sum of load^2 / capacity moves. */
  lemma {:induction false} RebalanceStops(t: Tables, ws: seq<Worker>, budget: nat)
    requires ListedOnce(t) && Roomy(t, ws)
    ensures |Rebalanced(t, ws, 0.10, budget).1| as real <= 55.0 * Potential(t, ws)
    ensures budget as real > 55.0 * Potential(t, ws) ==>
              NextMove(Rebalanced(t, ws, 0.10, budget).0, ws, 0.10).None?
  {
    RebalanceLowersPotential(t, ws, budget);
    PotentialNonNegative(Rebalanced(t, ws, 0.10, budget).0, ws);
  }

  /** A run of the loop may be cut anywhere: what follows is a run from there. */
  lemma {:induction false} RebalanceContinues(t: Tables, ws: seq<Worker>, n: nat, m: nat, more: nat)
    requires Sized(t, ws) && m == n + more
    ensures Rebalanced(t, ws, 0.10, m).0 == Rebalanced(Rebalanced(t, ws, 0.10, n).0, ws, 0.10, more).0
  {
    if more > 0 {
      RebalanceContinues(t, ws, n, m - 1, more - 1);
    }
  }

  lemma SameUnitsSamePotential(u: Tables, v: Tables, ws: seq<Worker>)
    requires Roomy(u, ws) && u.capacity == v.capacity && u.fallback == v.fallback
    requires forall w :: w in ws ==> UnitsOf(u, w) == UnitsOf(v, w)
    ensures Roomy(v, ws) && Potential(u, ws) == Potential(v, ws)
  {
    assert forall w :: w in ws ==> CapacityOf(v, w) == CapacityOf(u, w);
    assert Weights(u, ws) == Weights(v, ws);
  }

  /** No assignment of cameras to workers ever comes back: from any point of
      a run, once something has moved the assignment differs from then on. */
  lemma {:induction false} RebalanceNeverRepeats(t: Tables, ws: seq<Worker>, n: nat)
    requires ListedOnce(t) && Roomy(t, ws)
    requires Rebalanced(t, ws, 0.10, n).1 != []
    ensures exists w :: w in ws && UnitsOf(Rebalanced(t, ws, 0.10, n).0, w) != UnitsOf(t, w)
  {
    RebalanceLowersPotential(t, ws, n);
    var u := Rebalanced(t, ws, 0.10, n).0;
    if forall w :: w in ws ==> UnitsOf(t, w) == UnitsOf(u, w) {
      SameUnitsSamePotential(t, u, ws);
    }
  }
}
