/** One controller at a time: placing, moving, draining released slots and
    rebalancing, over the placement and assignment rows. */
module VmsController {
  import opened FiniteSets
  import opened Records
  import opened Variables

  type Cam = nat
  type Worker = string

  datatype Placement = Placement(worker: Worker, rev: nat)
  datatype Move = Move(cam: Cam, from: Worker, to: Worker)

  /** The rows, and the capacities the last heartbeats carried. */
  datatype Tables = Tables(
    rows: map<Cam, Placement>,
    assignments: map<Worker, Assignment<Cam>>,
    capacity: map<Worker, nat>,
    fallback: nat)

  function Assigned(t: Tables, w: Worker): Assignment<Cam> {
    if w in t.assignments then t.assignments[w] else Assignment({}, 0)
  }

  function UnitsOf(t: Tables, w: Worker): set<Cam> {
    Assigned(t, w).units
  }

  function CapacityOf(t: Tables, w: Worker): nat {
    if w in t.capacity then t.capacity[w] else t.fallback
  }

  function Free(t: Tables, w: Worker): int {
    CapacityOf(t, w) - |UnitsOf(t, w)|
  }

  function WorkerOf(t: Tables, k: Cam): Worker {
    if k in t.rows then t.rows[k].worker else ""
  }

  // ----- the single writes

  function Added(t: Tables, w: Worker, k: Cam): Tables {
    if k in UnitsOf(t, w) then t
    else t.(assignments := t.assignments[w := Assignment(UnitsOf(t, w) + {k}, Assigned(t, w).rev + 1)])
  }

  function Removed(t: Tables, w: Worker, k: Cam): Tables {
    if k !in UnitsOf(t, w) then t
    else t.(assignments := t.assignments[w := Assignment(UnitsOf(t, w) - {k}, Assigned(t, w).rev + 1)])
  }

  function WithRow(t: Tables, k: Cam, w: Worker): Tables {
    t.(rows := t.rows[k := Placement(w, if k in t.rows then t.rows[k].rev + 1 else 1)])
  }

  /** The first worker with the most free capacity. */
  function Best(t: Tables, ws: seq<Worker>): Option<Worker> {
    if ws == [] then None
    else
      var b, w := Best(t, ws[..|ws| - 1]), ws[|ws| - 1];
      if b.None? || Free(t, w) > Free(t, b.value) then Some(w) else b
  }

  function Placed(t: Tables, k: Cam, ws: seq<Worker>): Tables {
    if WorkerOf(t, k) != "" then t
    else if Best(t, ws).None? || Free(t, Best(t, ws).value) <= 0 then t
    else Added(WithRow(t, k, Best(t, ws).value), Best(t, ws).value, k)
  }

  /** Off every other worker, then the row, then onto `to`. */
  function Moved(t: Tables, k: Cam, to: Worker): Tables {
    Added(WithRow(Cleared(t, k, to), k, to), to, k)
  }

  function Cleared(t: Tables, k: Cam, keep: Worker): Tables {
    t.(assignments := map w | w in t.assignments ::
         if w != keep && k in t.assignments[w].units
         then Assignment(t.assignments[w].units - {k}, t.assignments[w].rev + 1)
         else t.assignments[w])
  }

  // ----- redistribute

  function Others(ws: seq<Worker>, gone: Worker): seq<Worker> {
    if ws == [] then []
    else if ws[|ws| - 1] == gone then Others(ws[..|ws| - 1], gone)
    else Others(ws[..|ws| - 1], gone) + [ws[|ws| - 1]]
  }

  predicate Full(t: Tables, live: seq<Worker>) {
    Best(t, live).None? || Free(t, Best(t, live).value) <= 0
  }

  /** One released slot: its cameras in ascending order, each to the emptiest
      live worker, until the system is full. */
  function Drain(t: Tables, gone: Worker, ks: set<Cam>, live: seq<Worker>): (Tables, seq<Move>)
    decreases |ks|
  {
    if ks == {} || Full(t, live) then (t, [])
    else
      var k, to := Least(ks), Best(t, live).value;
      var (u, moves) := Drain(Moved(t, k, to), gone, ks - {k}, live);
      (u, [Move(k, gone, to)] + moves)
  }

  function DrainAll(t: Tables, gones: seq<Worker>, ws: seq<Worker>): (Tables, seq<Move>)
    decreases |gones|
  {
    if gones == [] then (t, [])
    else
      var (u, first) := Drain(t, gones[0], UnitsOf(t, gones[0]), Others(ws, gones[0]));
      var (v, rest) := DrainAll(u, gones[1..], ws);
      (v, first + rest)
  }

  lemma DrainAllStep(t: Tables, gones: seq<Worker>, i: nat, ws: seq<Worker>, moves: seq<Move>)
    requires i < |gones|
    ensures var (u, first) := Drain(t, gones[i], UnitsOf(t, gones[i]), Others(ws, gones[i]));
            && DrainAll(t, gones[i..], ws).0 == DrainAll(u, gones[i + 1..], ws).0
            && moves + DrainAll(t, gones[i..], ws).1 == moves + first + DrainAll(u, gones[i + 1..], ws).1
  {
    assert gones[i..][1..] == gones[i + 1..];
    hide Drain, Others;
    var (u, first) := Drain(t, gones[i], UnitsOf(t, gones[i]), Others(ws, gones[i]));
    var rest := DrainAll(u, gones[i + 1..], ws).1;
    assert moves + (first + rest) == moves + first + rest;
  }

  lemma DrainedAll(t: Tables, ws: seq<Worker>)
    ensures DrainAll(t, [], ws) == (t, [])
  {}

  // ----- rebalance

  function LoadRatio(t: Tables, w: Worker): real
    requires CapacityOf(t, w) > 0
  {
    |UnitsOf(t, w)| as real / CapacityOf(t, w) as real
  }

  ghost predicate Sized(t: Tables, ws: seq<Worker>) {
    forall w :: w in ws ==> CapacityOf(t, w) > 0
  }

  function Fullest(t: Tables, ws: seq<Worker>): (w: Worker)
    requires ws != [] && Sized(t, ws)
    ensures w in ws
  {
    if |ws| == 1 then ws[0]
    else
      var b, w := Fullest(t, ws[..|ws| - 1]), ws[|ws| - 1];
      if LoadRatio(t, w) > LoadRatio(t, b) then w else b
  }

  function Emptiest(t: Tables, ws: seq<Worker>): (w: Worker)
    requires ws != [] && Sized(t, ws)
    ensures w in ws
  {
    if |ws| == 1 then ws[0]
    else
      var b, w := Emptiest(t, ws[..|ws| - 1]), ws[|ws| - 1];
      if LoadRatio(t, w) < LoadRatio(t, b) then w else b
  }

  lemma ExtremesPlus(t: Tables, ws: seq<Worker>, i: nat)
    requires 0 < i < |ws| && Sized(t, ws)
    ensures var b, w := Fullest(t, ws[..i]), ws[i];
            Fullest(t, ws[..i + 1]) == if LoadRatio(t, w) > LoadRatio(t, b) then w else b
    ensures var b, w := Emptiest(t, ws[..i]), ws[i];
            Emptiest(t, ws[..i + 1]) == if LoadRatio(t, w) < LoadRatio(t, b) then w else b
  {
    assert ws[..i + 1][..i] == ws[..i];
    hide LoadRatio;
  }

  function NextMove(t: Tables, ws: seq<Worker>, deadBand: real): Option<Move>
    requires Sized(t, ws)
  {
    if |ws| < 2 then None
    else
      var hi, lo := Fullest(t, ws), Emptiest(t, ws);
      if LoadRatio(t, hi) - LoadRatio(t, lo) < deadBand then None
      else if UnitsOf(t, hi) == {} || |UnitsOf(t, lo)| + 1 > CapacityOf(t, lo) then None
      else Some(Move(Least(UnitsOf(t, hi)), hi, lo))
  }

  /** What `n` turns of the rebalance loop do; a turn that finds nothing to
      move ends it, so further turns change nothing. */
  function Rebalanced(t: Tables, ws: seq<Worker>, deadBand: real, n: nat): (r: (Tables, seq<Move>))
    requires Sized(t, ws)
    ensures r.0.capacity == t.capacity && r.0.fallback == t.fallback
    decreases n
  {
    if n == 0 then (t, [])
    else
      var (u, moves) := Rebalanced(t, ws, deadBand, n - 1);
      match NextMove(u, ws, deadBand)
      case None => (u, moves)
      case Some(m) => (Moved(u, m.cam, m.to), moves + [m])
  }

  lemma {:induction false} NothingToMoveStays(t: Tables, ws: seq<Worker>, deadBand: real, n: nat, m: nat)
    requires Sized(t, ws) && n <= m
    requires NextMove(Rebalanced(t, ws, deadBand, n).0, ws, deadBand).None?
    ensures Rebalanced(t, ws, deadBand, m) == Rebalanced(t, ws, deadBand, n)
  {
    if n < m {
      NothingToMoveStays(t, ws, deadBand, n, m - 1);
    }
  }

  // ----- the controller

  class Controller {
    var rows: map<Cam, Placement>
    var assignments: map<Worker, Assignment<Cam>>
    const capacity: map<Worker, nat>
    const fallback: nat

    ghost function State(): Tables
      reads this
    {
      Tables(rows, assignments, capacity, fallback)
    }

    constructor (capacity: map<Worker, nat>, fallback: nat)
      ensures State() == Tables(map[], map[], capacity, fallback)
    {
      rows, assignments := map[], map[];
      this.capacity, this.fallback := capacity, fallback;
    }

    method FreeOn(w: Worker) returns (f: int)
      ensures f == Free(State(), w)
    {
      var cap := if w in capacity then capacity[w] else fallback;
      f := if w in assignments then cap - |assignments[w].units| else cap;
    }

    method AssignAdd(w: Worker, k: Cam)
      modifies this`assignments
      ensures State() == Added(old(State()), w, k)
    {
      var a := if w in assignments then assignments[w] else Assignment({}, 0);
      if k !in a.units {
        assignments := assignments[w := Assignment(a.units + {k}, a.rev + 1)];
      }
    }

    method AssignRemove(w: Worker, k: Cam)
      modifies this`assignments
      ensures State() == Removed(old(State()), w, k)
    {
      var a := if w in assignments then assignments[w] else Assignment({}, 0);
      if k in a.units {
        assignments := assignments[w := Assignment(a.units - {k}, a.rev + 1)];
      }
    }

    method WriteRow(k: Cam, w: Worker)
      modifies this`rows
      ensures State() == WithRow(old(State()), k, w)
    {
      rows := rows[k := Placement(w, if k in rows then rows[k].rev + 1 else 1)];
    }

    /** `workers` in sorted order. An existing placement is returned untouched. */
    method Place(k: Cam, workers: seq<Worker>) returns (r: Option<Worker>)
      requires "" !in workers
      modifies this
      ensures State() == Placed(old(State()), k, workers)
      ensures r == if WorkerOf(State(), k) == "" then None else Some(WorkerOf(State(), k))
    {
      if k in rows && rows[k].worker != "" {
        return Some(rows[k].worker);
      }
      ghost var t := State();
      var best: Option<Worker>, free := None, 0;
      for i := 0 to |workers|
        invariant free >= 0 && State() == t
        invariant best.Some? ==>
            best == Best(t, workers[..i]) && free == Free(t, best.value) > 0 && best.value in workers
        invariant best.None? ==> free == 0 && Full(t, workers[..i])
      {
        assert workers[..i + 1][..i] == workers[..i];
        var f := FreeOn(workers[i]);
        if f > free {
          best, free := Some(workers[i]), f;
        }
      }
      assert workers[..|workers|] == workers;
      if best.None? {
        assert Full(t, workers) && WorkerOf(t, k) == "";
        return None;
      }
      WriteRow(k, best.value);
      AssignAdd(best.value, k);
      assert State() == Added(WithRow(t, k, best.value), best.value, k);
      return best;
    }

    method MoveTo(k: Cam, to: Worker)
      modifies this
      ensures State() == Moved(old(State()), k, to)
    {
      var rest := assignments.Keys;
      while rest != {}
        invariant rest <= old(assignments.Keys) == assignments.Keys
        invariant rows == old(rows)
        invariant forall w :: w in rest ==> assignments[w] == old(assignments)[w]
        invariant forall w :: w in assignments.Keys - rest ==>
            assignments[w] == Cleared(old(State()), k, to).assignments[w]
        decreases |rest|
      {
        var w :| w in rest;
        if k in assignments[w].units && w != to {
          AssignRemove(w, k);
        }
        rest := rest - {w};
      }
      assert assignments == Cleared(old(State()), k, to).assignments;
      WriteRow(k, to);
      AssignAdd(to, k);
    }

    method BestOf(live: seq<Worker>) returns (best: Option<Worker>)
      ensures best == Best(State(), live)
    {
      best := None;
      var most := 0;
      for i := 0 to |live|
        invariant best == Best(State(), live[..i])
        invariant best.Some? ==> most == Free(State(), best.value)
      {
        assert live[..i + 1][..i] == live[..i];
        var f := FreeOn(live[i]);
        if best.None? || f > most {
          best, most := Some(live[i]), f;
        }
      }
      assert live[..|live|] == live;
    }

    method Without(ws: seq<Worker>, gone: Worker) returns (live: seq<Worker>)
      ensures live == Others(ws, gone)
    {
      live := [];
      for i := 0 to |ws|
        invariant live == Others(ws[..i], gone)
      {
        assert ws[..i + 1][..i] == ws[..i];
        if ws[i] != gone {
          live := live + [ws[i]];
        }
      }
      assert ws[..|ws|] == ws;
    }

    method DrainSlot(gone: Worker, live: seq<Worker>) returns (moves: seq<Move>)
      modifies this
      ensures (State(), moves) == Drain(old(State()), gone, UnitsOf(old(State()), gone), live)
    {
      moves := [];
      var ks := if gone in assignments then assignments[gone].units else {};
      ghost var whole := Drain(State(), gone, ks, live);
      while ks != {}
        invariant Drain(State(), gone, ks, live).0 == whole.0
        invariant moves + Drain(State(), gone, ks, live).1 == whole.1
        decreases |ks|
      {
        var k := Least(ks);
        var best := BestOf(live);
        if best.None? {
          break;
        }
        var f := FreeOn(best.value);
        if f <= 0 {
          break;
        }
        ghost var t := State();
        MoveTo(k, best.value);
        ghost var rest := Drain(State(), gone, ks - {k}, live).1;
        assert Drain(t, gone, ks, live).1 == [Move(k, gone, best.value)] + rest;
        assert moves + ([Move(k, gone, best.value)] + rest) == (moves + [Move(k, gone, best.value)]) + rest;
        moves := moves + [Move(k, gone, best.value)];
        ks := ks - {k};
      }
      assert Drain(State(), gone, ks, live) == (State(), []);
      assert moves + [] == moves;
    }

    /** `released` is what `released_slots` read: the slots let go on purpose
        that still list cameras. */
    method Redistribute(released: seq<Worker>, workers: seq<Worker>) returns (moves: seq<Move>)
      modifies this
      ensures (State(), moves) == DrainAll(old(State()), released, workers)
    {
      moves := [];
      ghost var whole := DrainAll(State(), released, workers);
      assert released[0..] == released;
      hide DrainAll, Drain, Others;
      for i := 0 to |released|
        invariant DrainAll(State(), released[i..], workers).0 == whole.0
        invariant moves + DrainAll(State(), released[i..], workers).1 == whole.1
      {
        DrainAllStep(State(), released, i, workers, moves);
        var live := Without(workers, released[i]);
        var more := DrainSlot(released[i], live);
        moves := moves + more;
      }
      DrainedAll(State(), workers);
      assert released[|released|..] == [] && moves + [] == moves;
    }

    method Ratio(w: Worker) returns (r: real)
      requires CapacityOf(State(), w) > 0
      ensures r == LoadRatio(State(), w)
    {
      var cap := if w in capacity then capacity[w] else fallback;
      var load := if w in assignments then |assignments[w].units| else 0;
      r := load as real / cap as real;
    }

    method Extremes(ws: seq<Worker>) returns (hi: Worker, lo: Worker, spread: real)
      requires ws != [] && Sized(State(), ws)
      ensures hi == Fullest(State(), ws) && lo == Emptiest(State(), ws)
      ensures spread == LoadRatio(State(), hi) - LoadRatio(State(), lo)
    {
      hi, lo := ws[0], ws[0];
      var top := Ratio(ws[0]);
      var bottom := top;
      assert ws[..1] == [ws[0]];
      hide LoadRatio, Fullest, Emptiest;
      for i := 1 to |ws|
        invariant hi == Fullest(State(), ws[..i]) && lo == Emptiest(State(), ws[..i])
        invariant top == LoadRatio(State(), hi) && bottom == LoadRatio(State(), lo)
      {
        ExtremesPlus(State(), ws, i);
        var r := Ratio(ws[i]);
        if r > top { hi, top := ws[i], r; }
        if r < bottom { lo, bottom := ws[i], r; }
      }
      assert ws[..|ws|] == ws;
      spread := top - bottom;
    }

    /** The head of the rebalance loop: what to move next, if anything. */
    method PlanMove(workers: seq<Worker>, deadBand: real) returns (m: Option<Move>)
      requires Sized(State(), workers)
      ensures m == NextMove(State(), workers, deadBand)
    {
      if |workers| < 2 {
        return None;
      }
      var hi, lo, spread := Extremes(workers);
      if spread < deadBand {
        return None;
      }
      var cands := if hi in assignments then assignments[hi].units else {};
      var room := FreeOn(lo);
      if cands == {} || room < 1 {
        return None;
      }
      return Some(Move(Least(cands), hi, lo));
    }

    method Rebalance(budget: nat, deadBand: real, workers: seq<Worker>) returns (moves: seq<Move>)
      requires Sized(State(), workers)
      modifies this
      ensures (State(), moves) == Rebalanced(old(State()), workers, deadBand, budget)
    {
      hide NextMove, Moved;
      moves := [];
      ghost var t := State();
      var i := 0;
      while i < budget
        invariant 0 <= i <= budget
        invariant (State(), moves) == Rebalanced(t, workers, deadBand, i)
      {
        var m := PlanMove(workers, deadBand);
        if m.None? {
          NothingToMoveStays(t, workers, deadBand, i, budget);
          return;
        }
        MoveTo(m.value.cam, m.value.to);
        moves := moves + [m.value];
        i := i + 1;
      }
    }
  }
}
