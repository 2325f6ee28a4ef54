/** One in-memory store seen through several writers: `as_writer` copies the
    view's attributes, so the rows stay shared and the index counter forks. */
module ForkedViews {
  import opened Variables

  type View = nat

  datatype Shared<!K(==), +V> = Shared(rows: map<K, Row<V>>, counters: map<View, nat>)

  datatype Request<+K, +V> =
    | Ask(view: View, op: Op<K, V>)
    | Fork(from: View, to: View)

  function Counter<K, V>(s: Shared<K, V>, v: View): nat {
    if v in s.counters then s.counters[v] else 0
  }

  /** The store as one view takes it to be. */
  function Seen<K, V>(s: Shared<K, V>, v: View): Store<K, V> {
    Store(s.rows, Counter(s, v))
  }

  function Perform<K, V>(s: Shared<K, V>, r: Request<K, V>): Shared<K, V> {
    match r
    case Ask(v, op) => var t := Apply(Seen(s, v), op); Shared(t.rows, s.counters[v := t.raft])
    case Fork(v, w) => s.(counters := s.counters[w := Counter(s, v)])
  }

  function PerformAll<K, V>(s: Shared<K, V>, rs: seq<Request<K, V>>): Shared<K, V> {
    if rs == [] then s else Perform(PerformAll(s, rs[..|rs| - 1]), rs[|rs| - 1])
  }

  // ----- through one view it is the store

  predicate ThroughOne<K, V>(rs: seq<Request<K, V>>, v: View) {
    forall i :: 0 <= i < |rs| ==> rs[i].Ask? && rs[i].view == v
  }

  function OpsOf<K, V>(rs: seq<Request<K, V>>): seq<Op<K, V>>
    requires forall i :: 0 <= i < |rs| ==> rs[i].Ask?
  {
    if rs == [] then [] else OpsOf(rs[..|rs| - 1]) + [rs[|rs| - 1].op]
  }

  /** While every request goes through one view, the rows and that view's
      counter are the store with its one index. */
  lemma {:induction false} OneViewIsTheStore<K, V>(s: Shared<K, V>, rs: seq<Request<K, V>>, v: View)
    requires ThroughOne(rs, v)
    ensures Seen(PerformAll(s, rs), v) == ApplyAll(Seen(s, v), OpsOf(rs))
  {
    if rs != [] {
      var init := rs[..|rs| - 1];
      OneViewIsTheStore(s, init, v);
      assert OpsOf(rs)[..|OpsOf(rs)| - 1] == OpsOf(init);
    }
  }

  // ----- through several it is not

  /** The index that the last request to take effect on `k` left there, 0 for a
      deletion; `None` where none did. */
  function LeftAt<K, V>(s: Shared<K, V>, rs: seq<Request<K, V>>, k: K): Option<nat> {
    if rs == [] then None
    else
      var before, r := PerformAll(s, rs[..|rs| - 1]), rs[|rs| - 1];
      if r.Ask? && r.op.key == k && Succeeds(Seen(before, r.view), r.op)
      then Some(if r.op.Put? then Counter(before, r.view) + 1 else 0)
      else LeftAt(s, rs[..|rs| - 1], k)
  }

  lemma {:induction false} IndexIsLeft<K, V>(s: Shared<K, V>, rs: seq<Request<K, V>>, k: K, v: View)
    ensures Index(Seen(PerformAll(s, rs), v), k) ==
            if LeftAt(s, rs, k).None? then Index(Seen(s, v), k) else LeftAt(s, rs, k).value
  {
    if rs != [] {
      IndexIsLeft(s, rs[..|rs| - 1], k, v);
    }
  }

  /** A CAS with the index of an earlier read is accepted, through whatever
      view, if and only if no request has taken effect on the row since, or the
      last that did left that same index: a put through a view whose counter
      stood one below it, or, where the row was absent, a deletion. */
  lemma {:induction false} CasThroughViewsExactlyWhen<K, V>(s: Shared<K, V>, rs: seq<Request<K, V>>, k: K, v: View,
          w: View)
    ensures Accepts(Seen(PerformAll(s, rs), w), k, Some(Index(Seen(s, v), k))) <==>
              LeftAt(s, rs, k).None? || LeftAt(s, rs, k).value == Index(Seen(s, v), k)
  {
    IndexIsLeft(s, rs, k, w);
  }

  const Begun: Shared<nat, nat> := Shared(map[], map[0 := 1000])

  /** The failing run: view 1 is forked from view 0, view 0 puts the row, and
      view 1 overwrites it. Both times the row has index 1001, so a CAS with the
      index read in between is accepted on a row that has been written. */
  lemma ForkFoolsCas()
    ensures var first := PerformAll(Begun, [Fork(0, 1), Ask(0, Put(7, 1, None))]);
            var second := PerformAll(first, [Ask(1, Put(7, 2, Some(1001)))]);
            && Items(Seen(first, 0), 7) == Some(1) && Index(Seen(first, 0), 7) == 1001
            && Items(Seen(second, 0), 7) == Some(2)
            && Accepts(Seen(second, 0), 7, Some(Index(Seen(first, 0), 7)))
  {
    var rs: seq<Request<nat, nat>> := [Fork(0, 1), Ask(0, Put(7, 1, None))];
    var one: seq<Request<nat, nat>> := [Fork(0, 1)];
    assert rs[..1] == one && one[..0] == [];
    assert PerformAll(Begun, one) == Shared(map[], map[0 := 1000, 1 := 1000]);
    var first := PerformAll(Begun, rs);
    assert first == Shared(map[7 := Row(1, 1001)], map[0 := 1001, 1 := 1000]);
    var more: seq<Request<nat, nat>> := [Ask(1, Put(7, 2, Some(1001)))];
    assert more[..0] == [];
    assert PerformAll(first, more) == Perform(first, more[0]);
  }
}
