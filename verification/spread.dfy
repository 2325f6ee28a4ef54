/** Sums of squares: why moving load from a fuller node to an emptier one by
    more than the dead band cannot go on for ever. */
module Spread {
  import opened FiniteSets

  type Node = string

  function Sum(f: map<Node, real>, ns: seq<Node>): real
    requires forall n :: n in ns ==> n in f
  {
    if ns == [] then 0.0 else f[ns[0]] + Sum(f, ns[1..])
  }

  lemma {:induction false} SumUpdate(f: map<Node, real>, ns: seq<Node>, n: Node, x: real)
    requires Distinct(ns) && forall m :: m in ns ==> m in f
    ensures n !in ns ==> Sum(f[n := x], ns) == Sum(f, ns)
    ensures n in ns ==> Sum(f[n := x], ns) == Sum(f, ns) - f[n] + x
  {
    if ns != [] {
      SumUpdate(f, ns[1..], n, x);
      if n == ns[0] {
        assert n !in ns[1..];
      }
    }
  }

  lemma {:induction false} SumNonNegative(f: map<Node, real>, ns: seq<Node>)
    requires forall m :: m in ns ==> m in f && f[m] >= 0.0
    ensures Sum(f, ns) >= 0.0
  {
    if ns != [] {
      SumNonNegative(f, ns[1..]);
    }
  }

  function Weight(load: real, capacity: real): real
    requires capacity > 0.0
  {
    load * load / capacity
  }

  lemma WeightChange(load: real, d: real, capacity: real)
    requires capacity > 0.0
    ensures Weight(load + d, capacity) == Weight(load, capacity) + 2.0 * d * (load / capacity) + d * (d / capacity)
  {
    var inv := 1.0 / capacity;
    assert load / capacity == load * inv && d / capacity == d * inv;
    assert Weight(load + d, capacity) == (load + d) * (load + d) * inv;
    assert (load + d) * (load + d) == load * load + 2.0 * d * load + d * d;
    assert Weight(load, capacity) == load * load * inv;
  }

  /** Moving `c` from a node loaded L of H to one loaded l of h changes the sum
      of load^2 / capacity by exactly c * (c/H + c/h - 2 * spread). */
  lemma MoveChange(L: real, H: real, l: real, h: real, c: real) returns (d: real)
    requires H > 0.0 && h > 0.0
    ensures d == c / H + c / h - 2.0 * (L / H - l / h)
    ensures Weight(L - c, H) + Weight(l + c, h) == Weight(L, H) + Weight(l, h) + c * d
  {
    d := c / H + c / h - 2.0 * (L / H - l / h);
    WeightChange(L, -c, H);
    WeightChange(l, c, h);
    assert -c / H == -(c / H);
    assert L + -c == L - c;
    assert -c * (-(c / H)) == c * (c / H);
    assert c * d == c * (c / H) + c * (c / h) - 2.0 * c * (L / H) + 2.0 * c * (l / h);
  }

  lemma Lowers(c: real, d: real)
    requires c > 0.0 && d < 0.0
    ensures c * d < 0.0
  {}

  lemma BelowATenth(c: real, H: real)
    requires 0.0 < c < H / 10.0
    ensures c / H < 0.10
  {
    var q := c / H;
    assert q * H == c;
    assert q >= 0.10 ==> q * H >= 0.10 * H;
  }
}
