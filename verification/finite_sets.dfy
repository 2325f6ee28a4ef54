/** Finite sets and duplicate-free sequences. */
module FiniteSets {

  predicate Distinct<T(==)>(s: seq<T>) {
    forall i, j :: 0 <= i < j < |s| ==> s[i] != s[j]
  }

  lemma LeastOf(s: set<nat>) returns (least: nat)
    requires s != {}
    ensures least in s && forall l :: l in s ==> least <= l
    decreases |s|
  {
    var k :| k in s;
    var rest := s - {k};
    if rest == {} {
      assert s == {k};
      least := k;
    } else {
      var m := LeastOf(rest);
      least := if k < m then k else m;
      forall l | l in s ensures least <= l {
        assert l == k || l in rest;
      }
    }
  }

  lemma LeastExists(s: set<nat>)
    requires s != {}
    ensures exists k :: k in s && forall l :: l in s ==> k <= l
  {
    var k := LeastOf(s);
  }

  function Least(s: set<nat>): (k: nat)
    requires s != {}
    ensures k in s && forall l :: l in s ==> k <= l
  {
    LeastExists(s);
    var k :| k in s && forall l :: l in s ==> k <= l;
    k
  }

  lemma SubsetSize<T>(a: set<T>, b: set<T>)
    requires a <= b
    ensures |a| <= |b|
  {
    assert b == a + (b - a);
  }

  lemma {:induction false} DistinctFits<T>(s: seq<T>, all: set<T>)
    requires Distinct(s) && forall x :: x in s ==> x in all
    ensures |s| <= |all|
  {
    if s != [] {
      var n := |s| - 1;
      assert s[n] in s;
      forall x | x in s[..n] ensures x in all - {s[n]} {
        var i :| 0 <= i < n && s[..n][i] == x;
        assert s[i] in s;
      }
      DistinctFits(s[..n], all - {s[n]});
    }
  }
}
