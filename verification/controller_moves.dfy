/** What the controller's writes leave in each row, and when a rebalance moves
    a camera at all. */
module ControllerMoves {
  import opened ControllerLaws
  import opened FiniteSets
  import opened Records
  import opened Variables
  import opened VmsController

  /** What a worker lists, and at which revision of its row. */
  function Units(t: Tables, w: Worker): set<Cam> {
    if w in t.assignments then t.assignments[w].units else {}
  }

  function Revision(t: Tables, w: Worker): nat {
    if w in t.assignments then t.assignments[w].rev else 0
  }

  /** What its heartbeat says it can carry, or else what everyone is taken to. */
  function Capacity(t: Tables, w: Worker): nat {
    if w in t.capacity then t.capacity[w] else t.fallback
  }

  function Room(t: Tables, w: Worker): int {
    Capacity(t, w) - |Units(t, w)|
  }

  /** The row of camera `k` names `w`, one revision on; no other row changed. */
  ghost predicate RowPut(t: Tables, u: Tables, k: Cam, w: Worker) {
    && u.rows.Keys == t.rows.Keys + {k} && u.rows[k].worker == w
    && u.rows[k].rev == (if k in t.rows then t.rows[k].rev else 0) + 1
    && forall l :: l in t.rows && l != k ==> u.rows[l] == t.rows[l]
  }

  /** A worker's row says `units`, one revision on if that is something new. */
  ghost predicate ListSays(t: Tables, u: Tables, w: Worker, units: set<Cam>) {
    Units(u, w) == units && Revision(u, w) == Revision(t, w) + if units == Units(t, w) then 0 else 1
  }

  lemma SameThere(t: Tables, w: Worker)
    ensures Units(t, w) == UnitsOf(t, w) && Capacity(t, w) == CapacityOf(t, w) && Room(t, w) == Free(t, w)
  {}

  lemma AddedIs(t: Tables, w: Worker, k: Cam, v: Worker)
    ensures var u := Added(t, w, k);
            u.rows == t.rows && ListSays(t, u, v, if v == w then Units(t, v) + {k} else Units(t, v))
  {}

  /** The first of the workers with most room. */
  ghost predicate Roomiest(t: Tables, ws: seq<Worker>, i: nat)
    requires i < |ws|
  {
    && (forall j :: 0 <= j < |ws| ==> Room(t, ws[j]) <= Room(t, ws[i]))
    && (forall j :: 0 <= j < i ==> Room(t, ws[j]) < Room(t, ws[i]))
  }

  /** A placed camera is left where it is; with no room anywhere nothing is
      written; otherwise the camera goes to the first of the workers with most
      room, in its row and in that worker's list, and nowhere else. */
  lemma PlaceWrites(t: Tables, k: Cam, ws: seq<Worker>) returns (i: nat)
    ensures var u := Placed(t, k, ws);
            if (k in t.rows && t.rows[k].worker != "") || forall w :: w in ws ==> Room(t, w) <= 0 then u == t
            else
              && i < |ws| && Room(t, ws[i]) > 0 && Roomiest(t, ws, i) && RowPut(t, u, k, ws[i])
              && forall v :: ListSays(t, u, v, if v == ws[i] then Units(t, v) + {k} else Units(t, v))
  {
    if ws == [] {
      i := 0;
      return;
    }
    i := BestIsFirstMaximum(t, ws);
    RoomiestIs(t, ws, i);
    assert Placed(t, k, ws) == (if (k in t.rows && t.rows[k].worker != "") || Free(t, ws[i]) <= 0 then t
                                else Added(WithRow(t, k, ws[i]), ws[i], k));
    SameThere(t, ws[i]);
    hide *;
    if !(k in t.rows && t.rows[k].worker != "") && Free(t, ws[i]) > 0 {
      PutSays(t, k, ws[i]);
    }
  }

  lemma RoomiestIs(t: Tables, ws: seq<Worker>, i: nat)
    requires i < |ws| && FirstMaximum(t, ws, i)
    ensures Roomiest(t, ws, i) && (Free(t, ws[i]) <= 0 <==> forall w :: w in ws ==> Room(t, w) <= 0)
  {
    forall w ensures Room(t, w) == Free(t, w) {
      SameThere(t, w);
    }
    hide Room, Free;
    assert ws[i] in ws;
    forall w | w in ws ensures Room(t, w) <= Room(t, ws[i]) {
      var j :| 0 <= j < |ws| && ws[j] == w;
    }
  }

  lemma PutSays(t: Tables, k: Cam, w: Worker)
    ensures var u := Added(WithRow(t, k, w), w, k);
            RowPut(t, u, k, w) && forall v :: ListSays(t, u, v, if v == w then Units(t, v) + {k} else Units(t, v))
  {
    var row := WithRow(t, k, w);
    forall v ensures ListSays(t, Added(row, w, k), v, if v == w then Units(t, v) + {k} else Units(t, v)) {
      AddedIs(row, w, k, v);
      SameLists(t, row, Added(row, w, k), v, if v == w then Units(row, v) + {k} else Units(row, v));
    }
    AddedIs(row, w, k, w);
    hide ListSays, Added;
  }

  lemma SameLists(t: Tables, row: Tables, u: Tables, v: Worker, units: set<Cam>)
    requires row.assignments == t.assignments && ListSays(row, u, v, units)
    ensures Units(row, v) == Units(t, v) && ListSays(t, u, v, units)
  {}

  /** A move: out of every other list, into the destination's, and the row; a
      list that did not have the camera, or had it already, is not written. */
  lemma MoveWrites(t: Tables, k: Cam, to: Worker, v: Worker)
    ensures var u := Moved(t, k, to);
            RowPut(t, u, k, to) && ListSays(t, u, v, if v == to then Units(t, v) + {k} else Units(t, v) - {k})
  {
    var cleared := Cleared(t, k, to);
    var row := WithRow(cleared, k, to);
    assert Units(cleared, v) == (if v == to then Units(t, v) else Units(t, v) - {k});
    assert ListSays(t, cleared, v, if v == to then Units(t, v) else Units(t, v) - {k});
    AddedIs(row, to, k, v);
    hide Cleared;
    SameLists(cleared, row, Added(row, to, k), v, if v == to then Units(cleared, v) + {k} else Units(cleared, v));
  }

  // ----- when a rebalance moves a camera

  function Load(t: Tables, w: Worker): real
    requires Capacity(t, w) > 0
  {
    |Units(t, w)| as real / Capacity(t, w) as real
  }

  ghost predicate AllCarry(t: Tables, ws: seq<Worker>) {
    forall i :: 0 <= i < |ws| ==> Capacity(t, ws[i]) > 0
  }

  /** The first of the most loaded, and the first of the least. */
  ghost predicate MostLoaded(t: Tables, ws: seq<Worker>, i: nat)
    requires AllCarry(t, ws) && i < |ws|
  {
    && (forall j :: 0 <= j < |ws| ==> Load(t, ws[j]) <= Load(t, ws[i]))
    && (forall j :: 0 <= j < i ==> Load(t, ws[j]) < Load(t, ws[i]))
  }

  ghost predicate LeastLoaded(t: Tables, ws: seq<Worker>, i: nat)
    requires AllCarry(t, ws) && i < |ws|
  {
    && (forall j :: 0 <= j < |ws| ==> Load(t, ws[j]) >= Load(t, ws[i]))
    && (forall j :: 0 <= j < i ==> Load(t, ws[j]) > Load(t, ws[i]))
  }

  lemma LoadIs(t: Tables, w: Worker)
    requires Capacity(t, w) > 0
    ensures CapacityOf(t, w) > 0 && LoadRatio(t, w) == Load(t, w)
  {
    SameThere(t, w);
  }

  lemma MostLoadedPlus(t: Tables, ws: seq<Worker>, i: nat)
    requires AllCarry(t, ws) && i < |ws| - 1 && AllCarry(t, ws[..|ws| - 1]) && MostLoaded(t, ws[..|ws| - 1], i)
    ensures var n := |ws| - 1; MostLoaded(t, ws, if Load(t, ws[n]) > Load(t, ws[i]) then n else i)
  {
    var n := |ws| - 1;
    forall j | 0 <= j < n ensures ws[..n][j] == ws[j] && Load(t, ws[j]) <= Load(t, ws[i]) {
      assert Load(t, ws[..n][j]) <= Load(t, ws[..n][i]);
    }
    forall j | 0 <= j < i ensures Load(t, ws[j]) < Load(t, ws[i]) {
      assert Load(t, ws[..n][j]) < Load(t, ws[..n][i]);
    }
    hide Load, Capacity;
  }

  lemma {:induction false} FullestIs(t: Tables, ws: seq<Worker>) returns (hi: nat)
    requires ws != [] && Sized(t, ws) && AllCarry(t, ws)
    ensures hi < |ws| && MostLoaded(t, ws, hi) && ws[hi] == Fullest(t, ws)
  {
    var n := |ws| - 1;
    if n == 0 {
      hi := 0;
    } else {
      hi := FullestIs(t, ws[..n]);
      LoadIs(t, ws[n]);
      LoadIs(t, ws[hi]);
      MostLoadedPlus(t, ws, hi);
      assert Fullest(t, ws) == if LoadRatio(t, ws[n]) > LoadRatio(t, ws[hi]) then ws[n] else ws[hi];
      hide *;
      if Load(t, ws[n]) > Load(t, ws[hi]) { hi := n; }
    }
  }

  lemma LeastLoadedPlus(t: Tables, ws: seq<Worker>, i: nat)
    requires AllCarry(t, ws) && i < |ws| - 1 && AllCarry(t, ws[..|ws| - 1]) && LeastLoaded(t, ws[..|ws| - 1], i)
    ensures var n := |ws| - 1; LeastLoaded(t, ws, if Load(t, ws[n]) < Load(t, ws[i]) then n else i)
  {
    var n := |ws| - 1;
    forall j | 0 <= j < n ensures ws[..n][j] == ws[j] && Load(t, ws[j]) >= Load(t, ws[i]) {
      assert Load(t, ws[..n][j]) >= Load(t, ws[..n][i]);
    }
    forall j | 0 <= j < i ensures Load(t, ws[j]) > Load(t, ws[i]) {
      assert Load(t, ws[..n][j]) > Load(t, ws[..n][i]);
    }
    hide Load, Capacity;
  }

  lemma {:induction false} EmptiestIs(t: Tables, ws: seq<Worker>) returns (lo: nat)
    requires ws != [] && Sized(t, ws) && AllCarry(t, ws)
    ensures lo < |ws| && LeastLoaded(t, ws, lo) && ws[lo] == Emptiest(t, ws)
  {
    var n := |ws| - 1;
    if n == 0 {
      lo := 0;
    } else {
      lo := EmptiestIs(t, ws[..n]);
      LoadIs(t, ws[n]);
      LoadIs(t, ws[lo]);
      LeastLoadedPlus(t, ws, lo);
      assert Emptiest(t, ws) == if LoadRatio(t, ws[n]) < LoadRatio(t, ws[lo]) then ws[n] else ws[lo];
      hide *;
      if Load(t, ws[n]) < Load(t, ws[lo]) { lo := n; }
    }
  }

  /** A turn of the rebalance loop moves a camera if and only if there are two
      workers at least, the loads of the two ends are the dead band apart, the
      fuller end lists anything and the other has room for one; it is the
      least camera of the first most loaded worker, and goes to the first least
      loaded. */
  lemma MovesExactlyWhen(t: Tables, ws: seq<Worker>, deadBand: real) returns (hi: nat, lo: nat)
    requires ws != [] && AllCarry(t, ws) && Sized(t, ws)
    ensures hi < |ws| && MostLoaded(t, ws, hi) && lo < |ws| && LeastLoaded(t, ws, lo)
    ensures NextMove(t, ws, deadBand).Some? <==>
            && |ws| >= 2 && Load(t, ws[hi]) - Load(t, ws[lo]) >= deadBand
            && Units(t, ws[hi]) != {} && Room(t, ws[lo]) > 0
    ensures NextMove(t, ws, deadBand).Some? ==>
              var m := NextMove(t, ws, deadBand).value;
              && m.from == ws[hi] && m.to == ws[lo]
              && m.cam in Units(t, m.from) && forall k :: k in Units(t, m.from) ==> m.cam <= k
  {
    hi := FullestIs(t, ws);
    lo := EmptiestIs(t, ws);
    SameThere(t, ws[hi]);
    SameThere(t, ws[lo]);
    hide MostLoaded, LeastLoaded, Fullest, Emptiest;
  }
}
