/** Why epoch keys must never be deleted: the protocol of `next_epoch` with
    deletions of keys added, and exactly when it issues an epoch twice. */
module EpochDeletion {
  import opened Records
  import opened Variables

  type Unit = nat      // names that are only compared
  type Inst = nat

  /** History: the epochs issued and the deletions, in order. */
  datatype Entry = Issued(unit: Unit, epoch: nat) | Deleted(unit: Unit)

  datatype State = State(store: Store<Unit, nat>, pending: map<Inst, Pending<Unit>>, log: seq<Entry>)

  datatype Event =
    | ReadKey(i: Inst, unit: Unit)
    | CasKey(i: Inst)
    | DeleteKey(unit: Unit)
    | OtherWrite

  const Init := State(Store(map[], 1000), map[], [])

  function Step(s: State, e: Event): State {
    match e
    case ReadKey(i, u) =>
      s.(pending := s.pending[i := Pending(u, Current(s.store, u), Index(s.store, u))])
    case CasKey(i) =>
      if i !in s.pending then s
      else
        var p := s.pending[i];
        var op := Put(p.unit, p.current + 1, Some(p.index));
        if Succeeds(s.store, op)
        then State(Apply(s.store, op), s.pending - {i}, s.log + [Issued(p.unit, p.current + 1)])
        else s.(pending := s.pending - {i})
    case DeleteKey(u) =>
      s.(store := DeleteRow(s.store, u), log := s.log + [Deleted(u)])
    case OtherWrite =>
      s.(store := s.store.(raft := s.store.raft + 1))
  }

  function Run(evs: seq<Event>): State {
    if evs == [] then Init else Step(Run(evs[..|evs| - 1]), evs[|evs| - 1])
  }

  // ----- the history

  /** How many epochs of `u` were issued since its key was last deleted. */
  function Since(log: seq<Entry>, u: Unit): nat {
    if log == [] then 0
    else
      var n, e := Since(log[..|log| - 1], u), log[|log| - 1];
      if e.unit != u then n else if e.Issued? then n + 1 else 0
  }

  ghost predicate CountsUp(log: seq<Entry>) {
    log != [] ==>
      var init, e := log[..|log| - 1], log[|log| - 1];
      CountsUp(init) && (e.Issued? ==> e.epoch == Since(init, e.unit) + 1)
  }

  ghost predicate Inv(s: State) {
    && Valid(s.store) && CountsUp(s.log)
    && (forall u :: Current(s.store, u) == Since(s.log, u))
    && (forall i :: i in s.pending ==> PendingOk(s.store, s.pending[i]))
  }

  lemma SinceAfter(log: seq<Entry>, e: Entry, u: Unit)
    ensures Since(log + [e], u) ==
            if e.unit != u then Since(log, u) else if e.Issued? then Since(log, u) + 1 else 0
    ensures CountsUp(log + [e]) <==> CountsUp(log) && (e.Issued? ==> e.epoch == Since(log, e.unit) + 1)
  {
    assert (log + [e])[..|log + [e]| - 1] == log;
  }

  /** The log and the store move together on key `v`, and a row that changed
      has a fresh index or is gone. */
  lemma LoggedKeepsInv(s: State, t: State, e: Entry)
    requires Inv(s) && Valid(t.store) && t.log == s.log + [e] && CountsUp(t.log) && s.store.raft <= t.store.raft
    requires forall u :: Current(t.store, u) ==
                         if u != e.unit then Current(s.store, u)
                         else if e.Issued? then Current(s.store, u) + 1 else 0
    requires forall u :: u in t.store.rows ==>
               (u in s.store.rows && t.store.rows[u] == s.store.rows[u]) || t.store.rows[u].index > s.store.raft
    requires forall i :: i in t.pending ==> i in s.pending && t.pending[i] == s.pending[i]
    ensures Inv(t)
  {
    forall u ensures Current(t.store, u) == Since(t.log, u) {
      SinceAfter(s.log, e, u);
    }
    forall i | i in t.pending ensures PendingOk(t.store, t.pending[i]) {
      assert PendingOk(s.store, s.pending[i]);
    }
  }

  /** The read that the CAS confirmed was of the key as it is. */
  lemma AcceptedSawCurrent(s: State, p: Pending<Unit>)
    requires Inv(s) && PendingOk(s.store, p) && Accepts(s.store, p.unit, Some(p.index))
    ensures p.current == Current(s.store, p.unit) == Since(s.log, p.unit)
  {}

  /** The state with an epoch granted on what `i` had read. */
  function Granted(s: State, i: Inst, p: Pending<Unit>): State {
    State(PutRow(s.store, p.unit, p.current + 1), s.pending - {i}, s.log + [Issued(p.unit, p.current + 1)])
  }

  lemma GrantKeepsInv(s: State, i: Inst, p: Pending<Unit>)
    requires Inv(s) && PendingOk(s.store, p) && Accepts(s.store, p.unit, Some(p.index))
    ensures Inv(Granted(s, i, p))
  {
    AcceptedSawCurrent(s, p);
    PutKeepsValid(s.store, p.unit, p.current + 1);
    SinceAfter(s.log, Issued(p.unit, p.current + 1), p.unit);
    hide CountsUp, Since, Valid;
    LoggedKeepsInv(s, Granted(s, i, p), Issued(p.unit, p.current + 1));
  }

  lemma CasIs(s: State, i: Inst)
    requires i in s.pending
    ensures var p := s.pending[i];
            Step(s, CasKey(i)) == if Accepts(s.store, p.unit, Some(p.index)) then Granted(s, i, p)
                                  else s.(pending := s.pending - {i})
  {}

  lemma CasKeepsInv(s: State, i: Inst)
    requires Inv(s)
    ensures Inv(Step(s, CasKey(i)))
  {
    if i in s.pending {
      CasIs(s, i);
      assert PendingOk(s.store, s.pending[i]);
      hide Inv, PendingOk, Step, Granted, Accepts;
      if Accepts(s.store, s.pending[i].unit, Some(s.pending[i].index)) {
        GrantKeepsInv(s, i, s.pending[i]);
      } else {
        ForgetKeepsInv(s, i);
      }
    }
  }

  lemma ForgetKeepsInv(s: State, i: Inst)
    requires Inv(s)
    ensures Inv(s.(pending := s.pending - {i}))
  {
    forall j | j in s.pending - {i} ensures PendingOk(s.store, s.pending[j]) {
      assert PendingOk(s.store, s.pending[j]);
    }
  }

  lemma DeleteKeepsInv(s: State, u: Unit)
    requires Inv(s)
    ensures Inv(Step(s, DeleteKey(u)))
  {
    var t := Step(s, DeleteKey(u));
    assert Valid(t.store) && Current(t.store, u) == 0 && Index(t.store, u) == 0;
    SinceAfter(s.log, Deleted(u), u);
    hide CountsUp, Since, Valid;
    LoggedKeepsInv(s, t, Deleted(u));
  }

  /** The read is of the key as it is. */
  lemma ReadKeepsInv(s: State, i: Inst, u: Unit)
    requires Inv(s)
    ensures Inv(Step(s, ReadKey(i, u)))
  {
    var p := Pending(u, Current(s.store, u), Index(s.store, u));
    assert PendingOk(s.store, p);
    var t := Step(s, ReadKey(i, u));
    hide PendingOk, CountsUp, Since;
    assert t.store == s.store && t.log == s.log;
    forall j | j in t.pending ensures PendingOk(t.store, t.pending[j]) {
      assert t.pending[j] == if j == i then p else s.pending[j];
    }
  }

  lemma OtherKeepsInv(s: State)
    requires Inv(s)
    ensures Inv(Step(s, OtherWrite))
  {
    var t := Step(s, OtherWrite);
    assert t.store.rows == s.store.rows && t.log == s.log;
    assert forall u :: Current(t.store, u) == Current(s.store, u);
    forall j | j in t.pending ensures PendingOk(t.store, t.pending[j]) {
      assert PendingOk(s.store, s.pending[j]);
    }
  }

  lemma StepKeepsInv(s: State, e: Event)
    requires Inv(s)
    ensures Inv(Step(s, e))
  {
    hide *;
    match e
    case ReadKey(i, u) => ReadKeepsInv(s, i, u);
    case CasKey(i) => CasKeepsInv(s, i);
    case DeleteKey(u) => DeleteKeepsInv(s, u);
    case OtherWrite => OtherKeepsInv(s);
  }

  lemma {:induction false} RunKeepsInv(evs: seq<Event>)
    ensures Inv(Run(evs))
  {
    if evs != [] {
      RunKeepsInv(evs[..|evs| - 1]);
      StepKeepsInv(Run(evs[..|evs| - 1]), evs[|evs| - 1]);
    }
  }

  // ----- issued twice

  predicate IssuedAt(log: seq<Entry>, u: Unit, e: nat, at: int) {
    0 <= at < |log| && log[at] == Issued(u, e)
  }

  predicate DeletedAt(log: seq<Entry>, u: Unit, at: int) {
    0 <= at < |log| && log[at] == Deleted(u)
  }

  ghost predicate IssuedTwice(log: seq<Entry>, u: Unit) {
    exists e, a, b :: a < b && IssuedAt(log, u, e, a) && IssuedAt(log, u, e, b)
  }

  /** The key was deleted between two issues. */
  ghost predicate DeletedBetween(log: seq<Entry>, u: Unit) {
    exists e, f, a, d, b :: a < d < b && IssuedAt(log, u, e, a) && DeletedAt(log, u, d) && IssuedAt(log, u, f, b)
  }

  lemma {:induction false} EpochAt(log: seq<Entry>, u: Unit, e: nat, at: nat)
    requires CountsUp(log) && IssuedAt(log, u, e, at)
    ensures e == Since(log[..at], u) + 1
  {
    var n := |log| - 1;
    if at < n {
      EpochAt(log[..n], u, e, at);
      assert log[..n][..at] == log[..at];
    }
  }

  /** With no deletion from `a` on, the count only rises. */
  lemma {:induction false} NoDeletionRises(log: seq<Entry>, u: Unit, a: nat, b: nat)
    requires a <= b <= |log| && forall d :: a <= d < b ==> !DeletedAt(log, u, d)
    ensures Since(log[..a], u) <= Since(log[..b], u)
    ensures a < b && log[a].Issued? && log[a].unit == u ==> Since(log[..a], u) < Since(log[..b], u)
    decreases b
  {
    if a < b {
      NoDeletionRises(log, u, a, b - 1);
      assert log[..b][..b - 1] == log[..b - 1];
      assert !DeletedAt(log, u, b - 1);
    }
  }

  /** Between a deletion and a later issue there is an issue of epoch 1. */
  lemma {:induction false} StartsAgain(log: seq<Entry>, u: Unit, e: nat, d: nat, b: nat) returns (at: nat)
    requires CountsUp(log) && d < b < |log| && Since(log[..d + 1], u) == 0 && IssuedAt(log, u, e, b)
    ensures d < at <= b && IssuedAt(log, u, 1, at)
    decreases b - d
  {
    if d + 1 == b {
      EpochAt(log, u, e, b);
      at := b;
    } else {
      assert log[..d + 2][..d + 1] == log[..d + 1];
      if log[d + 1].unit == u && log[d + 1].Issued? {
        EpochAt(log, u, log[d + 1].epoch, d + 1);
        at := d + 1;
      } else {
        at := StartsAgain(log, u, e, d + 1, b);
      }
    }
  }

  /** And up to the first issue there is one. */
  lemma {:induction false} StartsAtOne(log: seq<Entry>, u: Unit, e: nat, a: nat) returns (at: nat)
    requires CountsUp(log) && IssuedAt(log, u, e, a)
    ensures at <= a && IssuedAt(log, u, 1, at)
    decreases a
  {
    if Since(log[..a], u) == 0 {
      EpochAt(log, u, e, a);
      at := a;
    } else {
      var b := EarlierIssue(log, u, a);
      at := StartsAtOne(log, u, log[b].epoch, b);
    }
  }

  lemma {:induction false} EarlierIssue(log: seq<Entry>, u: Unit, a: nat) returns (b: nat)
    requires a <= |log| && Since(log[..a], u) > 0
    ensures b < a && log[b].Issued? && log[b].unit == u
  {
    assert log[..a][..a - 1] == log[..a - 1];
    if log[a - 1].Issued? && log[a - 1].unit == u {
      b := a - 1;
    } else {
      b := EarlierIssue(log, u, a - 1);
    }
  }

  lemma DeletedInBetween(log: seq<Entry>, u: Unit, e: nat, a: nat, b: nat)
    requires CountsUp(log) && a < b && IssuedAt(log, u, e, a) && IssuedAt(log, u, e, b)
    ensures DeletedBetween(log, u)
  {
    EpochAt(log, u, e, a);
    EpochAt(log, u, e, b);
    if forall d :: a <= d < b ==> !DeletedAt(log, u, d) {
      NoDeletionRises(log, u, a, b);
      assert false;
    }
    var d :| a <= d < b && DeletedAt(log, u, d);
    assert d != a;
  }

  /** Over every interleaving of readers, writers and deletions: an epoch of a
      unit is issued twice if and only if its key is deleted between two issues
      for it. */
  lemma {:induction false} IssuedTwiceExactlyWhenDeleted(evs: seq<Event>, u: Unit)
    ensures IssuedTwice(Run(evs).log, u) <==> DeletedBetween(Run(evs).log, u)
  {
    RunKeepsInv(evs);
    var log := Run(evs).log;
    if IssuedTwice(log, u) {
      var e, a, b :| a < b && IssuedAt(log, u, e, a) && IssuedAt(log, u, e, b);
      DeletedInBetween(log, u, e, a, b);
    }
    if DeletedBetween(log, u) {
      var e, f, a, d, b :| a < d < b && IssuedAt(log, u, e, a) && DeletedAt(log, u, d) && IssuedAt(log, u, f, b);
      var first := StartsAtOne(log, u, e, a);
      var again := StartsAgain(log, u, f, d, b);
      assert first < again;
    }
  }

  /** Such a run: `i` takes epoch 1, the key is deleted, `j` takes epoch 1. */
  lemma ReissueRun(i: Inst, j: Inst, u: Unit)
    ensures Run([ReadKey(i, u), CasKey(i), DeleteKey(u), ReadKey(j, u), CasKey(j)]).log ==
            [Issued(u, 1), Deleted(u), Issued(u, 1)]
  {
    var none: seq<Event> := [];
    var e2, e3 := [ReadKey(i, u), CasKey(i)], [ReadKey(i, u), CasKey(i), DeleteKey(u)];
    var e4 := [ReadKey(i, u), CasKey(i), DeleteKey(u), ReadKey(j, u)];
    assert [ReadKey(i, u)][..0] == none && e2[..1] == [ReadKey(i, u)] && e3[..2] == e2 && e4[..3] == e3;
    assert Run([ReadKey(i, u)]) == Step(Init, ReadKey(i, u));
    assert Run(e2) == State(PutRow(Init.store, u, 1), map[], [Issued(u, 1)]);
    assert Run(e3).log == [Issued(u, 1), Deleted(u)] && u !in Run(e3).store.rows;
    assert Run(e4) == Step(Run(e3), ReadKey(j, u));
    assert Run(e4).pending[j] == Pending(u, 0, 0);
    var e5 := [ReadKey(i, u), CasKey(i), DeleteKey(u), ReadKey(j, u), CasKey(j)];
    assert e5[..4] == e4;
    assert Run(e5) == Step(Run(e4), CasKey(j));
  }
}
