/** Who keeps whose copies: the next live servers after mine, in name order.
    A name is its place in the order of names. */
module Peers {
  import opened FiniteSets

  type Server = int

  predicate Increasing(s: seq<Server>) {
    forall i, j :: 0 <= i < j < |s| ==> s[i] < s[j]
  }

  function Insert(s: seq<Server>, x: Server): seq<Server> {
    if s == [] || s[|s| - 1] <= x then s + [x] else Insert(s[..|s| - 1], x) + [s[|s| - 1]]
  }

  function Sorted(s: seq<Server>): seq<Server> {
    if s == [] then [] else Insert(Sorted(s[..|s| - 1]), s[|s| - 1])
  }

  function Others(live: seq<Server>, me: Server): seq<Server> {
    if live == [] then []
    else if live[|live| - 1] == me then Others(live[..|live| - 1], me)
    else Others(live[..|live| - 1], me) + [live[|live| - 1]]
  }

  function Above(s: seq<Server>, me: Server): seq<Server> {
    if s == [] then []
    else if s[|s| - 1] > me then Above(s[..|s| - 1], me) + [s[|s| - 1]]
    else Above(s[..|s| - 1], me)
  }

  function Below(s: seq<Server>, me: Server): seq<Server> {
    if s == [] then []
    else if s[|s| - 1] < me then Below(s[..|s| - 1], me) + [s[|s| - 1]]
    else Below(s[..|s| - 1], me)
  }

  /** `s[:n]`: a negative bound counts from the end. */
  function Slice(s: seq<Server>, n: int): seq<Server> {
    if n >= |s| then s else if n >= 0 then s[..n] else if n + |s| >= 0 then s[..n + |s|] else []
  }

  function PeersOf(me: Server, live: seq<Server>, copies: int): seq<Server> {
    var others := Sorted(Others(live, me));
    Slice(Above(others, me) + Below(others, me), copies)
  }

  // ----- the pieces, as sets

  lemma {:induction false} InsertIs(s: seq<Server>, x: Server)
    requires Increasing(s) && x !in s
    ensures Increasing(Insert(s, x))
    ensures forall y :: y in Insert(s, x) <==> y in s || y == x
  {
    if s != [] && s[|s| - 1] > x {
      var init, last := s[..|s| - 1], s[|s| - 1];
      InsertIs(init, x);
      assert s == init + [last];
      var t := Insert(init, x);
      forall i | 0 <= i < |t| ensures t[i] < last {
        assert t[i] in t;
        if t[i] != x {
          var j :| 0 <= j < |init| && init[j] == t[i];
          assert s[j] < last;
        }
      }
    } else {
      forall i | 0 <= i < |s| ensures s[i] < x {
        assert s[i] in s;
      }
    }
  }

  lemma {:induction false} SortedIs(s: seq<Server>)
    requires Distinct(s)
    ensures Increasing(Sorted(s))
    ensures forall y :: y in Sorted(s) <==> y in s
  {
    if s != [] {
      var init, last := s[..|s| - 1], s[|s| - 1];
      SortedIs(init);
      assert last !in init;
      InsertIs(Sorted(init), last);
      assert s == init + [last];
    }
  }

  lemma {:induction false} OthersIs(live: seq<Server>, me: Server)
    requires Distinct(live)
    ensures Distinct(Others(live, me))
    ensures forall y :: y in Others(live, me) <==> y in live && y != me
  {
    if live != [] {
      var init, last := live[..|live| - 1], live[|live| - 1];
      OthersIs(init, me);
      assert live == init + [last];
      assert last !in init;
    }
  }

  lemma {:induction false} AboveHas(s: seq<Server>, me: Server, y: Server)
    ensures y in Above(s, me) <==> y in s && y > me
    ensures y in Below(s, me) <==> y in s && y < me
  {
    if s != [] {
      AboveHas(s[..|s| - 1], me, y);
      assert s == s[..|s| - 1] + [s[|s| - 1]];
    }
  }

  lemma {:induction false} AboveIncreases(s: seq<Server>, me: Server)
    requires Increasing(s)
    ensures Increasing(Above(s, me)) && Increasing(Below(s, me))
  {
    if s != [] {
      var init, last := s[..|s| - 1], s[|s| - 1];
      AboveIncreases(init, me);
      forall i | 0 <= i < |Above(init, me)| ensures Above(init, me)[i] < last {
        AboveHas(init, me, Above(init, me)[i]);
      }
      forall i | 0 <= i < |Below(init, me)| ensures Below(init, me)[i] < last {
        AboveHas(init, me, Below(init, me)[i]);
      }
    }
  }

  lemma LastIsGreatest(a: seq<Server>, z: Server)
    requires Increasing(a) && a != []
    ensures z in a ==> z <= a[|a| - 1]
    ensures z in a[..|a| - 1] <==> z in a && z < a[|a| - 1]
  {
    if z in a {
      var i :| 0 <= i < |a| && a[i] == z;
      assert i < |a| - 1 ==> a[..|a| - 1][i] == z;
    }
  }

  /** An increasing sequence is determined by its elements. */
  lemma {:induction false} SameIncreasing(a: seq<Server>, b: seq<Server>)
    requires Increasing(a) && Increasing(b) && forall y :: y in a <==> y in b
    ensures a == b
  {
    assert a != [] ==> a[|a| - 1] in a;
    assert b != [] ==> b[|b| - 1] in b;
    if a != [] && b != [] {
      var x, y := a[|a| - 1], b[|b| - 1];
      LastIsGreatest(a, y);
      LastIsGreatest(b, x);
      var a0, b0 := a[..|a| - 1], b[..|b| - 1];
      forall z ensures z in a0 <==> z in b0 {
        LastIsGreatest(a, z);
        LastIsGreatest(b, z);
      }
      SameIncreasing(a0, b0);
      assert a == a0 + [x] && b == b0 + [y];
    }
  }

  // ----- the ring

  /** Everybody else, starting after place `i`, round the ring. */
  function After(ring: seq<Server>, i: nat): seq<Server>
    requires i < |ring|
  {
    ring[i + 1..] + ring[..i]
  }

  /** The ring without me, turned to start after me. */
  lemma OthersAre(live: seq<Server>, me: Server)
    requires Distinct(live)
    ensures var others := Sorted(Others(live, me));
            && Increasing(others)
            && forall y :: y in others <==> y in live && y != me
  {
    OthersIs(live, me);
    SortedIs(Others(live, me));
  }

  lemma PeersAreNextInRing(live: seq<Server>, i: nat, copies: int)
    requires Distinct(live) && i < |Sorted(live)|
    ensures PeersOf(Sorted(live)[i], live, copies) == Slice(After(Sorted(live), i), copies)
  {
    hide Sorted, Others, Above, Below, Slice;
    var ring, me := Sorted(live), Sorted(live)[i];
    var others := Sorted(Others(live, me));
    SortedIs(live);
    OthersAre(live, me);
    AboveIncreases(others, me);
    forall y ensures y in ring[i + 1..] <==> y in Above(others, me) {
      RingSplits(ring, i, y);
      AboveHas(others, me, y);
    }
    SameIncreasing(ring[i + 1..], Above(others, me));
    forall y ensures y in ring[..i] <==> y in Below(others, me) {
      RingSplits(ring, i, y);
      AboveHas(others, me, y);
    }
    SameIncreasing(ring[..i], Below(others, me));
  }

  lemma RingSplits(ring: seq<Server>, i: nat, y: Server)
    requires Increasing(ring) && i < |ring|
    ensures y in ring[i + 1..] <==> y in ring && y > ring[i]
    ensures y in ring[..i] <==> y in ring && y < ring[i]
  {
    if y in ring {
      var j :| 0 <= j < |ring| && ring[j] == y;
      assert j > i ==> ring[i + 1..][j - i - 1] == y;
      assert j < i ==> ring[..i][j] == y;
    }
  }

  /** Place `j` is among the `k` after `i` exactly when `i` is among the `k`
      before `j`. */
  lemma RingTurns(ring: seq<Server>, i: nat, j: nat, k: nat)
    requires Increasing(ring) && i < |ring| && j < |ring| && k <= |ring| - 1
    ensures ring[j] in After(ring, i)[..k] <==> ring[i] in After(ring, j)[|ring| - 1 - k..]
  {
    var n := |ring|;
    if i != j {
      var at := if j > i then j - i - 1 else j - i - 1 + n;
      var back := if i > j then i - j - 1 else i - j - 1 + n;
      assert After(ring, i)[at] == ring[j] && After(ring, j)[back] == ring[i];
      assert at + back == n - 2;
      OncePlaced(ring, i, at, k);
      OncePlacedLast(ring, j, back, k);
    } else {
      NotAfterItself(ring, i, k);
    }
  }

  lemma AfterDistinct(ring: seq<Server>, i: nat)
    requires Increasing(ring) && i < |ring|
    ensures |After(ring, i)| == |ring| - 1
    ensures Distinct(After(ring, i)) && ring[i] !in After(ring, i)
    ensures forall y :: y in After(ring, i) <==> y in ring && y != ring[i]
  {
    forall y ensures y in After(ring, i) <==> y in ring && y != ring[i] {
      RingSplits(ring, i, y);
    }
  }

  lemma OncePlaced(ring: seq<Server>, i: nat, at: nat, k: nat)
    requires Increasing(ring) && i < |ring| && at < |ring| - 1 && k <= |ring| - 1
    ensures After(ring, i)[at] in After(ring, i)[..k] <==> at < k
  {
    AfterDistinct(ring, i);
    var s := After(ring, i);
    assert at < k ==> s[..k][at] == s[at];
  }

  lemma OncePlacedLast(ring: seq<Server>, j: nat, at: nat, k: nat)
    requires Increasing(ring) && j < |ring| && at < |ring| - 1 && k <= |ring| - 1
    ensures After(ring, j)[at] in After(ring, j)[|ring| - 1 - k..] <==> at >= |ring| - 1 - k
  {
    AfterDistinct(ring, j);
    var s, m := After(ring, j), |ring| - 1 - k;
    assert at >= m ==> s[m..][at - m] == s[at];
  }

  lemma NotAfterItself(ring: seq<Server>, i: nat, k: nat)
    requires Increasing(ring) && i < |ring| && k <= |ring| - 1
    ensures ring[i] !in After(ring, i)[..k] && ring[i] !in After(ring, i)[|ring| - 1 - k..]
  {
    AfterDistinct(ring, i);
  }

  lemma {:induction false} SetOfDistinct<T>(s: seq<T>)
    requires Distinct(s)
    ensures |set x | x in s| == |s|
  {
    if s != [] {
      var init, last := s[..|s| - 1], s[|s| - 1];
      SetOfDistinct(init);
      assert s == init + [last] && last !in init;
      assert (set x | x in s) == (set x | x in init) + {last};
    }
  }

  /** The `copies` servers before `x` in the ring. */
  lemma ServedBy(live: seq<Server>, copies: int, j: nat, s: Server)
    requires Distinct(live) && 1 <= copies <= |live| - 1 && |Sorted(live)| == |live| && j < |live|
    ensures |After(Sorted(live), j)| == |live| - 1
    ensures s in live && Sorted(live)[j] in PeersOf(s, live, copies) <==>
            s in After(Sorted(live), j)[|live| - 1 - copies..]
  {
    hide Sorted, PeersOf;
    var ring := Sorted(live);
    SortedIs(live);
    AfterDistinct(ring, j);
    var before := After(ring, j)[|ring| - 1 - copies..];
    assert s in before ==> s in After(ring, j);
    if s in live {
      var i :| 0 <= i < |ring| && ring[i] == s;
      PeersAreNextInRing(live, i, copies);
      RingTurns(ring, i, j, copies);
    }
  }

  lemma {:induction false} SortedLength(live: seq<Server>)
    ensures |Sorted(live)| == |live|
  {
    if live != [] {
      SortedLength(live[..|live| - 1]);
      InsertLength(Sorted(live[..|live| - 1]), live[|live| - 1]);
    }
  }

  lemma {:induction false} InsertLength(s: seq<Server>, x: Server)
    ensures |Insert(s, x)| == |s| + 1
  {
    if s != [] && s[|s| - 1] > x {
      InsertLength(s[..|s| - 1], x);
    }
  }

  /** On one live list of n servers, with 1 to n - 1 copies asked for, every
      server keeps the copies of exactly that many others. */
  lemma EveryServerServesExactly(live: seq<Server>, copies: int, x: Server)
    requires Distinct(live) && 1 <= copies <= |live| - 1 && x in live
    ensures |set s | s in live && x in PeersOf(s, live, copies)| == copies
  {
    hide Sorted, PeersOf, After;
    var ring := Sorted(live);
    SortedIs(live);
    SortedLength(live);
    var j :| 0 <= j < |ring| && ring[j] == x;
    AfterDistinct(ring, j);
    var before := After(ring, j)[|ring| - 1 - copies..];
    forall s ensures s in live && x in PeersOf(s, live, copies) <==> s in before {
      ServedBy(live, copies, j, s);
    }
    assert (set s | s in live && x in PeersOf(s, live, copies)) == set s | s in before;
    SetOfDistinct(before);
  }

  lemma TurnedDistinct(a: seq<Server>, b: seq<Server>, me: Server)
    requires Increasing(a) && Increasing(b)
    requires forall y :: (y in a ==> y > me) && (y in b ==> y < me)
    ensures Distinct(a + b) && me !in a + b
  {
    var all := a + b;
    forall i, j | 0 <= i < j < |all| ensures all[i] != all[j] {
      assert i < |a| ==> all[i] in a;
      assert j >= |a| ==> all[j] in b;
    }
  }

  /** A server never keeps its own copies, and has no peer twice. */
  lemma PeersAreOthers(me: Server, live: seq<Server>, copies: int)
    requires Distinct(live)
    ensures me !in PeersOf(me, live, copies) && Distinct(PeersOf(me, live, copies))
    ensures forall y :: y in PeersOf(me, live, copies) ==> y in live
  {
    hide Sorted, Others, Above, Below;
    var others := Sorted(Others(live, me));
    OthersAre(live, me);
    AboveIncreases(others, me);
    var a, b := Above(others, me), Below(others, me);
    forall y ensures (y in a ==> y > me && y in live) && (y in b ==> y < me && y in live) {
      AboveHas(others, me, y);
    }
    TurnedDistinct(a, b, me);
    var p := PeersOf(me, live, copies);
    assert p == (a + b)[..|p|];
    forall y | y in p ensures y in live && y != me {
      assert y in a + b;
    }
  }
}
