/** The configuration store every component shares: rows under paths, one
    ModifyIndex for the whole store, and PUT with `cas=<index>`. */
module Variables {

  datatype Option<+T> = None | Some(value: T)

  datatype Row<+V> = Row(items: V, index: nat)

  /** The store as a value: what one serialised log of writes has produced. */
  datatype Store<!K(==), +V> = Store(rows: map<K, Row<V>>, raft: nat)

  /** One write request, by whichever client. `cas == None` is an unconditional write. */
  datatype Op<+K, +V> =
    | Put(key: K, items: V, cas: Option<nat>)
    | Delete(key: K, cas: Option<nat>)

  // ----- reading

  function Index<K, V>(s: Store<K, V>, k: K): nat {
    if k in s.rows then s.rows[k].index else 0
  }

  function Items<K, V>(s: Store<K, V>, k: K): Option<V> {
    if k in s.rows then Some(s.rows[k].items) else None
  }

  // ----- writing

  predicate Accepts<K, V>(s: Store<K, V>, k: K, cas: Option<nat>) {
    cas.Some? ==> cas.value == Index(s, k)
  }

  function PutRow<K, V>(s: Store<K, V>, k: K, v: V): Store<K, V> {
    Store(s.rows[k := Row(v, s.raft + 1)], s.raft + 1)
  }

  function DeleteRow<K, V>(s: Store<K, V>, k: K): Store<K, V> {
    Store(s.rows - {k}, s.raft + 1)
  }

  predicate Succeeds<K, V>(s: Store<K, V>, op: Op<K, V>) {
    Accepts(s, op.key, op.cas)
  }

  /** A refused write (a Conflict) leaves the store as it was. */
  function Apply<K, V>(s: Store<K, V>, op: Op<K, V>): Store<K, V> {
    if !Succeeds(s, op) then s
    else if op.Put? then PutRow(s, op.key, op.items)
    else DeleteRow(s, op.key)
  }

  function ApplyAll<K, V>(s: Store<K, V>, ops: seq<Op<K, V>>): Store<K, V> {
    if ops == [] then s else Apply(ApplyAll(s, ops[..|ops| - 1]), ops[|ops| - 1])
  }

  /** Every index was issued by the log, and no two rows share one. */
  ghost predicate Valid<K, V>(s: Store<K, V>) {
    && (forall k :: k in s.rows ==> 0 < s.rows[k].index <= s.raft)
    && (forall k, l :: k in s.rows && l in s.rows && k != l ==> s.rows[k].index != s.rows[l].index)
  }

  /** Some write in `ops`, started at `s`, took effect on `k`. */
  ghost predicate Touched<K, V>(s: Store<K, V>, ops: seq<Op<K, V>>, k: K) {
    exists i :: 0 <= i < |ops| && TouchedAt(s, ops, k, i)
  }

  ghost predicate TouchedAt<K, V>(s: Store<K, V>, ops: seq<Op<K, V>>, k: K, i: int)
    requires 0 <= i < |ops|
  {
    ops[i].key == k && Succeeds(ApplyAll(s, ops[..i]), ops[i])
  }

  ghost predicate NoDelete<K, V>(ops: seq<Op<K, V>>, k: K) {
    forall i :: 0 <= i < |ops| && ops[i].key == k ==> ops[i].Put?
  }

  // ----- what the store promises over any run

  lemma PutKeepsValid<K, V>(s: Store<K, V>, k: K, v: V)
    requires Valid(s)
    ensures Valid(PutRow(s, k, v))
  {}

  lemma {:induction false} RunKeepsValid<K, V>(s: Store<K, V>, ops: seq<Op<K, V>>)
    requires Valid(s)
    ensures Valid(ApplyAll(s, ops))
    ensures ApplyAll(s, ops).raft >= s.raft
  {
    if ops != [] {
      RunKeepsValid(s, ops[..|ops| - 1]);
    }
  }

  lemma {:induction false} TouchedSplits<K, V>(s: Store<K, V>, ops: seq<Op<K, V>>, k: K)
    requires ops != []
    ensures Touched(s, ops, k) <==>
              Touched(s, ops[..|ops| - 1], k) || TouchedAt(s, ops, k, |ops| - 1)
  {
    var n := |ops| - 1;
    var init := ops[..n];
    forall i | 0 <= i < n ensures TouchedAt(s, init, k, i) <==> TouchedAt(s, ops, k, i) {
      assert init[..i] == ops[..i];
    }
  }

  /** An index once read never comes back after a write: CAS has no ABA for a
      row that was there. */
  lemma {:induction false} TouchedMovesIndex<K, V>(s: Store<K, V>, ops: seq<Op<K, V>>, k: K)
    requires Valid(s)
    ensures !Touched(s, ops, k) ==>
              Index(ApplyAll(s, ops), k) == Index(s, k) && Items(ApplyAll(s, ops), k) == Items(s, k)
    ensures Touched(s, ops, k) ==> Index(ApplyAll(s, ops), k) == 0 || Index(ApplyAll(s, ops), k) > s.raft
    ensures Touched(s, ops, k) && NoDelete(ops, k) ==> Index(ApplyAll(s, ops), k) > s.raft
  {
    if ops != [] {
      var init := ops[..|ops| - 1];
      TouchedMovesIndex(s, init, k);
      TouchedSplits(s, ops, k);
      RunKeepsValid(s, init);
    }
  }

  /** The compare-and-set contract, exactly: a PUT carrying the index of an
      earlier read is accepted iff nothing has written the row in between, or
      the row was absent at the read and is absent again (somebody created
      and deleted it). */
  lemma CasAcceptedExactlyWhen<K, V>(s: Store<K, V>, ops: seq<Op<K, V>>, k: K)
    requires Valid(s)
    ensures Accepts(ApplyAll(s, ops), k, Some(Index(s, k))) <==>
              !Touched(s, ops, k) || (k !in s.rows && k !in ApplyAll(s, ops).rows)
  {
    TouchedMovesIndex(s, ops, k);
    RunKeepsValid(s, ops);
  }

  /** Without deletions of that path the second case is gone. */
  lemma CasAcceptedMeansUntouched<K, V>(s: Store<K, V>, ops: seq<Op<K, V>>, k: K)
    requires Valid(s)
    requires k in s.rows || NoDelete(ops, k)
    ensures Accepts(ApplyAll(s, ops), k, Some(Index(s, k))) <==> !Touched(s, ops, k)
    ensures Accepts(ApplyAll(s, ops), k, Some(Index(s, k))) ==> Items(ApplyAll(s, ops), k) == Items(s, k)
  {
    TouchedMovesIndex(s, ops, k);
    RunKeepsValid(s, ops);
  }

  /** The one way CAS is fooled: create and delete between the read and the write. */
  lemma DeletedRowFoolsCas(v: nat)
    ensures var s: Store<string, nat> := Store(map[], 1000);
            var ops := [Put("epoch/1", v, Some(0)), Delete("epoch/1", None)];
            && Valid(s) && Touched(s, ops, "epoch/1")
            && Accepts(ApplyAll(s, ops), "epoch/1", Some(Index(s, "epoch/1")))
  {
    var s: Store<string, nat> := Store(map[], 1000);
    var ops := [Put("epoch/1", v, Some(0)), Delete("epoch/1", None)];
    assert ops[..0] == [];
    assert ops[..1] == [ops[0]];
    assert TouchedAt(s, ops, "epoch/1", 0);
    assert ApplyAll(s, ops[..1]) == Apply(s, ops[0]);
    assert ApplyAll(s, ops) == Apply(ApplyAll(s, ops[..1]), ops[1]);
  }

  lemma {:induction false} ApplyAllConcat<K, V>(s: Store<K, V>, a: seq<Op<K, V>>, b: seq<Op<K, V>>)
    ensures ApplyAll(s, a + b) == ApplyAll(ApplyAll(s, a), b)
  {
    if b == [] {
      assert a + b == a;
    } else {
      var n := |b| - 1;
      ApplyAllConcat(s, a, b[..n]);
      assert (a + b)[..|a + b| - 1] == a + b[..n];
    }
  }

  function Flatten<K, V>(others: seq<seq<Op<K, V>>>): seq<Op<K, V>> {
    if others == [] then [] else Flatten(others[..|others| - 1]) + others[|others| - 1]
  }

  /** Another client got in between the k-th read of `key` and the k-th write;
      `others[k]` is what the others do in between. */
  ghost predicate Overtaken<K, V>(s: Store<K, V>, others: seq<seq<Op<K, V>>>, key: K, k: nat)
    requires k < |others|
  {
    var atRead := ApplyAll(s, Flatten(others[..k]));
    !Accepts(ApplyAll(atRead, others[k]), key, Some(Index(atRead, key)))
  }

  /** The first `n` tries were overtaken. */
  ghost predicate AllOvertaken<K, V>(s: Store<K, V>, others: seq<seq<Op<K, V>>>, key: K, n: nat)
    requires n <= |others|
  {
    forall k :: 0 <= k < n ==> Overtaken(s, others, key, k)
  }

  lemma OneMoreOvertaken<K, V>(s: Store<K, V>, others: seq<seq<Op<K, V>>>, key: K, n: nat)
    requires n < |others| && AllOvertaken(s, others, key, n) && Overtaken(s, others, key, n)
    ensures AllOvertaken(s, others, key, n + 1)
  {}

  // ----- the in-memory store

  class FakeVariables<K(==), V> {
    var items: map<K, Row<V>>
    var raftIndex: nat

    ghost function State(): Store<K, V>
      reads this
    {
      Store(items, raftIndex)
    }

    constructor ()
      ensures State() == Store(map[], 1000)
      ensures Valid(State())
    {
      items := map[];
      raftIndex := 1000;
    }

    method Get(path: K) returns (v: Option<V>, index: nat)
      ensures v == Items(State(), path)
      ensures index == Index(State(), path)
    {
      if path !in items {
        return None, 0;
      }
      return Some(items[path].items), items[path].index;
    }

    /** `index == None` is the Conflict exception. */
    method PutItems(path: K, v: V, cas: Option<nat>) returns (index: Option<nat>)
      modifies this
      ensures State() == Apply(old(State()), Put(path, v, cas))
      ensures index.Some? <==> Accepts(old(State()), path, cas)
      ensures index.Some? ==> index.value == raftIndex == Index(State(), path) == old(raftIndex) + 1
      ensures index.Some? ==> items == old(items)[path := Row(v, raftIndex)]
      ensures index.None? ==> items == old(items) && raftIndex == old(raftIndex)
    {
      var current := if path in items then items[path].index else 0;
      if cas.Some? && cas.value != current {
        return None;
      }
      raftIndex := raftIndex + 1;
      items := items[path := Row(v, raftIndex)];
      return Some(raftIndex);
    }

    method Remove(path: K, cas: Option<nat>) returns (ok: bool)
      modifies this
      ensures State() == Apply(old(State()), Delete(path, cas))
      ensures ok <==> Accepts(old(State()), path, cas)
      ensures ok ==> items == old(items) - {path} && raftIndex == old(raftIndex) + 1
      ensures !ok ==> items == old(items) && raftIndex == old(raftIndex)
    {
      var current := if path in items then items[path].index else 0;
      if cas.Some? && cas.value != current {
        return false;
      }
      items := items - {path};
      raftIndex := raftIndex + 1;
      return true;
    }

    /** What other clients' requests do to the store while this caller is
        between two of its own. */
    method Others(ops: seq<Op<K, V>>)
      modifies this
      ensures State() == ApplyAll(old(State()), ops)
    {
      for i := 0 to |ops|
        invariant State() == ApplyAll(old(State()), ops[..i])
      {
        assert ops[..i + 1][..i] == ops[..i];
        match ops[i] {
          case Put(k, v, cas) => var _ := PutItems(k, v, cas);
          case Delete(k, cas) => var _ := Remove(k, cas);
        }
      }
      assert ops[..|ops|] == ops;
    }
  }
}
