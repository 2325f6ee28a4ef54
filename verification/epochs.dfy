/** Fencing tokens. Any number of worker instances take an epoch per unit by
    compare-and-set, run pipelines and append events under it, pause, wake
    late and fence, in any interleaving. */
module Epochs {
  import opened Variables
  import opened Paths
  import opened Records

  type Unit = string
  type Inst = string

  datatype Instance = Instance(
    pending: Option<Pending<Unit>>,
    epochs: map<Unit, nat>,     // unit -> epoch this instance holds
    running: map<Unit, nat>,    // unit -> epoch its pipeline was started with
    allowed: bool)              // recording_allowed: false once fenced

  datatype Issue = Issue(unit: Unit, epoch: nat, to: Inst)

  datatype Written = Written(writer: Inst, path: Path)

  /** `issues` and `written` are history: what was ever issued, what was ever
      written and by whom. Nothing in a step reads them. */
  datatype State = State(
    store: Store<Unit, nat>,
    insts: map<Inst, Instance>,
    issues: seq<Issue>,
    written: set<Written>)

  /** One atomic action of one instance; instance ids are unique. A paused or
      crashed instance simply has no further events for a while, or ever. */
  datatype Event =
    | ReadKey(i: Inst, unit: Unit)
    | CasKey(i: Inst)
    | Launch(i: Inst, unit: Unit)          // start, or restart under the epoch already held
    | Stop(i: Inst, unit: Unit)
    | Release(i: Inst, unit: Unit)
    | Fence(i: Inst)
    | WriteSegment(i: Inst, unit: Unit, start: int)
    | Observe(i: Inst, unit: Unit, bucket: int)
    | OtherWrite                           // a write to some other path of the same store

  const Fresh := Instance(None, map[], map[], true)

  const Init := State(Store(map[], 1000), map[], [], {})

  function Of(s: State, i: Inst): Instance {
    if i in s.insts then s.insts[i] else Fresh
  }

  function With(s: State, i: Inst, x: Instance): State {
    s.(insts := s.insts[i := x])
  }

  function Taken(x: Instance, p: Pending<Unit>): Instance {
    x.(pending := None, epochs := x.epochs[p.unit := p.current + 1])
  }

  function Cas(s: State, i: Inst, p: Pending<Unit>): State {
    var x := Of(s, i);
    var op := Put(p.unit, p.current + 1, Some(p.index));
    if Succeeds(s.store, op) then
      With(s, i, Taken(x, p)).(store := Apply(s.store, op), issues := s.issues + [Issue(p.unit, p.current + 1, i)])
    else
      With(s, i, x.(pending := None))
  }

  function Step(s: State, e: Event): State {
    match e
    case ReadKey(i, u) =>
      With(s, i, Of(s, i).(pending := Some(Pending(u, Current(s.store, u), Index(s.store, u)))))
    case CasKey(i) =>
      if Of(s, i).pending.Some? then Cas(s, i, Of(s, i).pending.value) else s
    case Launch(i, u) =>
      var x := Of(s, i);
      if x.allowed && u in x.epochs then With(s, i, x.(running := x.running[u := x.epochs[u]])) else s
    case Stop(i, u) =>
      With(s, i, Of(s, i).(running := Of(s, i).running - {u}))
    case Release(i, u) =>
      With(s, i, Of(s, i).(epochs := Of(s, i).epochs - {u}))
    case Fence(i) =>
      With(s, i, Of(s, i).(allowed := false, running := map[]))
    case WriteSegment(i, u, start) =>
      var x := Of(s, i);
      if u in x.running
      then s.(written := s.written + {Written(i, SpanPath(SUB, u, x.running[u], Mp4(start)))}) else s
    case Observe(i, u, bucket) =>
      var x := Of(s, i);
      if x.allowed && u in x.epochs
      then s.(written := s.written + {Written(i, SpanPath(SUB, u, x.epochs[u], EventLog(bucket)))}) else s
    case OtherWrite =>
      s.(store := s.store.(raft := s.store.raft + 1))
  }

  function Run(evs: seq<Event>): State {
    if evs == [] then Init else Step(Run(evs[..|evs| - 1]), evs[|evs| - 1])
  }

  // ----- the invariant

  /** The epochs issued for `u`, in the order they were issued. */
  function EpochsOf(issues: seq<Issue>, u: Unit): seq<nat> {
    if issues == [] then []
    else
      var last := issues[|issues| - 1];
      var before := EpochsOf(issues[..|issues| - 1], u);
      if last.unit == u then before + [last.epoch] else before
  }

  function OneTo(n: nat): seq<nat> {
    seq(n, k => k + 1)
  }

  ghost predicate Holds(s: State, i: Inst, u: Unit, e: nat) {
    Issue(u, e, i) in s.issues
  }

  ghost predicate InstanceOk(s: State, i: Inst, x: Instance) {
    && (x.pending.Some? ==> PendingOk(s.store, x.pending.value))
    && (forall u :: u in x.epochs ==> Holds(s, i, u, x.epochs[u]))
    && (forall u :: u in x.running ==> Holds(s, i, u, x.running[u]))
    && (!x.allowed ==> x.running == map[])
  }

  ghost predicate WrittenOk(s: State, w: Written) {
    exists u, e, x :: w.path == SpanPath(SUB, u, e, x) && Holds(s, w.writer, u, e)
  }

  ghost predicate Inv(s: State) {
    && Valid(s.store)
    && (forall u :: EpochsOf(s.issues, u) == OneTo(Current(s.store, u)))
    && (forall i :: i in s.insts ==> InstanceOk(s, i, s.insts[i]))
    && (forall w :: w in s.written ==> WrittenOk(s, w))
  }

  /** The store after the CAS was accepted, and the history with it. */
  function Grant(s: State, i: Inst, p: Pending<Unit>): State {
    s.(store := PutRow(s.store, p.unit, p.current + 1), issues := s.issues + [Issue(p.unit, p.current + 1, i)])
  }

  lemma GrantKeepsInv(s: State, i: Inst, p: Pending<Unit>)
    requires Inv(s) && PendingOk(s.store, p) && Accepts(s.store, p.unit, Some(p.index))
    ensures Inv(Grant(s, i, p))
    ensures Holds(Grant(s, i, p), i, p.unit, p.current + 1)
  {
    var t := Grant(s, i, p);
    assert Valid(t.store) by {
      PutKeepsValid(s.store, p.unit, p.current + 1);
    }
    assert forall u :: EpochsOf(t.issues, u) == OneTo(Current(t.store, u)) by {
      IssueExtends(s, i, p);
    }
    HistoryGrows(s, t);
    assert Holds(t, i, p.unit, p.current + 1) by {
      assert t.issues[|s.issues|] == Issue(p.unit, p.current + 1, i);
    }
  }

  lemma CasIs(s: State, i: Inst, p: Pending<Unit>)
    ensures Cas(s, i, p) == if Accepts(s.store, p.unit, Some(p.index)) then With(Grant(s, i, p), i, Taken(Of(s, i), p))
                            else With(s, i, Of(s, i).(pending := None))
    ensures s.issues <= Cas(s, i, p).issues && Of(Grant(s, i, p), i) == Of(s, i)
  {}

  lemma TakenIsOk(s: State, i: Inst, x: Instance, p: Pending<Unit>)
    requires InstanceOk(s, i, x) && Holds(s, i, p.unit, p.current + 1)
    ensures InstanceOk(s, i, Taken(x, p))
  {}

  lemma ForgetIsOk(s: State, i: Inst, x: Instance)
    requires InstanceOk(s, i, x)
    ensures InstanceOk(s, i, x.(pending := None)) && (x.pending.Some? ==> PendingOk(s.store, x.pending.value))
  {}

  lemma CasKeepsInv(s: State, i: Inst, p: Pending<Unit>)
    requires Inv(s) && Of(s, i).pending == Some(p)
    ensures Inv(Cas(s, i, p))
    ensures s.issues <= Cas(s, i, p).issues
  {
    hide *;
    var x, t := Of(s, i), Grant(s, i, p);
    CasIs(s, i, p);
    OfIsOk(s, i);
    ForgetIsOk(s, i, x);
    if Accepts(s.store, p.unit, Some(p.index)) {
      GrantKeepsInv(s, i, p);
      OfIsOk(t, i);
      TakenIsOk(t, i, x, p);
      WithKeepsInv(t, i, Taken(x, p));
    } else {
      WithKeepsInv(s, i, x.(pending := None));
    }
  }

  /** The read that the CAS confirmed was of the latest epoch. */
  lemma IssueExtends(s: State, i: Inst, p: Pending<Unit>)
    requires Inv(s) && PendingOk(s.store, p)
    requires Accepts(s.store, p.unit, Some(p.index))
    ensures p.current == Current(s.store, p.unit)
    ensures forall u ::
              EpochsOf(s.issues + [Issue(p.unit, p.current + 1, i)], u)
              == OneTo(if u == p.unit then p.current + 1 else Current(s.store, u))
  {
    var all := s.issues + [Issue(p.unit, p.current + 1, i)];
    assert all[..|all| - 1] == s.issues;
    forall u ensures EpochsOf(all, u) == OneTo(if u == p.unit then p.current + 1 else Current(s.store, u)) {
      assert EpochsOf(s.issues, u) == OneTo(Current(s.store, u));
    }
  }

  /** Facts about issued epochs survive when the history only grows and a
      store write gets a fresh index. */
  lemma HistoryGrows(s: State, t: State)
    requires Inv(s)
    requires s.issues <= t.issues && s.store.raft <= t.store.raft
    requires forall u :: u in t.store.rows ==>
      (u in s.store.rows && t.store.rows[u] == s.store.rows[u]) || t.store.rows[u].index > s.store.raft
    ensures forall i :: i in s.insts ==> InstanceOk(t, i, s.insts[i])
    ensures forall w :: w in s.written ==> WrittenOk(t, w)
  {
    forall i, u, e | Holds(s, i, u, e) ensures Holds(t, i, u, e) {}
    forall w | w in s.written ensures WrittenOk(t, w) {
      assert WrittenOk(s, w);
      var u, e, x :| w.path == SpanPath(SUB, u, e, x) && Holds(s, w.writer, u, e);
      assert Holds(t, w.writer, u, e);
    }
  }

  lemma WithKeepsInv(s: State, i: Inst, x: Instance)
    requires Inv(s) && InstanceOk(s, i, x)
    ensures Inv(With(s, i, x))
  {
    var t := With(s, i, x);
    HistoryGrows(s, t);
    forall j | j in t.insts ensures InstanceOk(t, j, t.insts[j]) {
      if j != i {
        assert j in s.insts;
      }
    }
    forall u ensures EpochsOf(t.issues, u) == OneTo(Current(t.store, u)) {
      assert EpochsOf(s.issues, u) == OneTo(Current(s.store, u));
    }
  }

  lemma OfIsOk(s: State, i: Inst)
    requires Inv(s)
    ensures InstanceOk(s, i, Of(s, i))
  {}

  lemma WriteKeepsInv(s: State, i: Inst, u: Unit, e: nat, x: Leaf)
    requires Inv(s) && Holds(s, i, u, e)
    ensures Inv(s.(written := s.written + {Written(i, SpanPath(SUB, u, e, x))}))
  {
    var w := Written(i, SpanPath(SUB, u, e, x));
    var t := s.(written := s.written + {w});
    HistoryGrows(s, t);
    assert Holds(t, i, u, e);
    assert WrittenOk(t, w);
    forall u' ensures EpochsOf(t.issues, u') == OneTo(Current(t.store, u')) {
      assert EpochsOf(s.issues, u') == OneTo(Current(s.store, u'));
    }
  }

  lemma StepKeepsInv(s: State, e: Event)
    requires Inv(s)
    ensures Inv(Step(s, e))
    ensures s.issues <= Step(s, e).issues
  {
    var t := Step(s, e);
    match e
    case CasKey(i) =>
      OfIsOk(s, i);
      if Of(s, i).pending.Some? {
        CasKeepsInv(s, i, Of(s, i).pending.value);
      }
    case WriteSegment(i, u, start) =>
      OfIsOk(s, i);
      if u in Of(s, i).running {
        WriteKeepsInv(s, i, u, Of(s, i).running[u], Mp4(start));
      }
    case Observe(i, u, bucket) =>
      OfIsOk(s, i);
      if u in Of(s, i).epochs {
        WriteKeepsInv(s, i, u, Of(s, i).epochs[u], EventLog(bucket));
      }
    case OtherWrite =>
      HistoryGrows(s, t);
      forall u ensures EpochsOf(t.issues, u) == OneTo(Current(t.store, u)) {
        assert EpochsOf(s.issues, u) == OneTo(Current(s.store, u));
      }
    case ReadKey(i, u) =>
      OfIsOk(s, i);
      WithKeepsInv(s, i, Of(s, i).(pending := Some(Pending(u, Current(s.store, u), Index(s.store, u)))));
    case Launch(i, u) =>
      OfIsOk(s, i);
      var x := Of(s, i);
      if x.allowed && u in x.epochs {
        WithKeepsInv(s, i, x.(running := x.running[u := x.epochs[u]]));
      }
    case Stop(i, u) =>
      OfIsOk(s, i);
      WithKeepsInv(s, i, Of(s, i).(running := Of(s, i).running - {u}));
    case Release(i, u) =>
      OfIsOk(s, i);
      WithKeepsInv(s, i, Of(s, i).(epochs := Of(s, i).epochs - {u}));
    case Fence(i) =>
      OfIsOk(s, i);
      WithKeepsInv(s, i, Of(s, i).(allowed := false, running := map[]));
  }

  lemma {:induction false} RunKeepsInv(evs: seq<Event>)
    ensures Inv(Run(evs))
  {
    if evs != [] {
      RunKeepsInv(evs[..|evs| - 1]);
      StepKeepsInv(Run(evs[..|evs| - 1]), evs[|evs| - 1]);
    }
  }

  lemma {:induction false} IssueListed(issues: seq<Issue>, x: Issue)
    requires x in issues
    ensures x.epoch in EpochsOf(issues, x.unit)
  {
    var init := issues[..|issues| - 1];
    if x in init {
      IssueListed(init, x);
    } else {
      assert x == issues[|issues| - 1];
    }
  }

  lemma {:induction false} OneOwner(issues: seq<Issue>, n: nat, x: Issue, y: Issue)
    requires x in issues && y in issues && x.unit == y.unit && x.epoch == y.epoch
    requires EpochsOf(issues, x.unit) == OneTo(n)
    ensures x == y
  {
    var k := |issues| - 1;
    var init, last := issues[..k], issues[k];
    if last.unit != x.unit {
      OneOwner(init, n, x, y);
    } else {
      assert EpochsOf(init, x.unit) == OneTo(n)[..n - 1];
      assert OneTo(n)[..n - 1] == OneTo(n - 1);
      assert last.epoch == OneTo(n)[n - 1] == n;
      if x in init { IssueListed(init, x); }
      if y in init { IssueListed(init, y); }
      if x in init && y in init {
        OneOwner(init, n - 1, x, y);
      }
    }
  }

  // ----- what holds of every run

  /** The epochs issued for a unit are exactly 1, 2, ..., n, in that order,
      each once, where n is what the store says now. */
  lemma {:induction false} EpochsAreExactlyOneToN(evs: seq<Event>, u: Unit)
    ensures EpochsOf(Run(evs).issues, u) == OneTo(Current(Run(evs).store, u))
  {
    RunKeepsInv(evs);
  }

  /** No two instances ever hold the same epoch of a unit, at the same time or
      at different times of one run. `evs` may be extended by anything. */
  lemma {:induction false} NoSharedEpoch(evs: seq<Event>, later: seq<Event>, i: Inst, j: Inst, u: Unit)
    requires i != j
    ensures var x, y := Of(Run(evs), i), Of(Run(evs + later), j);
            && (u in x.running && u in y.running ==> x.running[u] != y.running[u])
            && (u in x.epochs && u in y.epochs ==> x.epochs[u] != y.epochs[u])
            && (u in x.running && u in y.epochs ==> x.running[u] != y.epochs[u])
  {
    RunKeepsInv(evs);
    RunKeepsInv(evs + later);
    IssuesGrow(evs, later);
    var s, t := Run(evs), Run(evs + later);
    forall e | Holds(s, i, u, e) && Holds(t, j, u, e) ensures false {
      assert Holds(t, i, u, e);
      OneOwner(t.issues, Current(t.store, u), Issue(u, e, i), Issue(u, e, j));
    }
  }

  lemma {:induction false} IssuesGrow(evs: seq<Event>, later: seq<Event>)
    ensures Run(evs).issues <= Run(evs + later).issues
  {
    if later == [] {
      assert evs + later == evs;
    } else {
      var all := evs + later;
      assert all[..|all| - 1] == evs + later[..|later| - 1];
      IssuesGrow(evs, later[..|later| - 1]);
      RunKeepsInv(all[..|all| - 1]);
      StepKeepsInv(Run(all[..|all| - 1]), all[|all| - 1]);
    }
  }

  /** The safety of the archive: over a whole run, zombies included, the paths
      two instances write are disjoint. */
  lemma {:induction false} PathSetsDisjoint(evs: seq<Event>, a: Written, b: Written)
    requires a in Run(evs).written && b in Run(evs).written && a.writer != b.writer
    ensures a.path != b.path
  {
    RunKeepsInv(evs);
    var s := Run(evs);
    assert WrittenOk(s, a) && WrittenOk(s, b);
    var u, e, x :| a.path == SpanPath(SUB, u, e, x) && Holds(s, a.writer, u, e);
    var u', e', x' :| b.path == SpanPath(SUB, u', e', x') && Holds(s, b.writer, u', e');
    if a.path == b.path {
      SpanPathInjective(SUB, u, e, x, SUB, u', e', x');
      OneOwner(s.issues, Current(s.store, u), Issue(u, e, a.writer), Issue(u, e, b.writer));
    }
  }

  /** Once fenced, an instance runs nothing and writes nothing, for ever. */
  lemma {:induction false} FencedForEver(evs: seq<Event>, later: seq<Event>, i: Inst)
    requires !Of(Run(evs), i).allowed
    ensures !Of(Run(evs + later), i).allowed && Of(Run(evs + later), i).running == map[]
    ensures forall w :: w in Run(evs + later).written && w.writer == i ==> w in Run(evs).written
  {
    if later == [] {
      assert evs + later == evs;
      RunKeepsInv(evs);
    } else {
      var all := evs + later;
      assert all[..|all| - 1] == evs + later[..|later| - 1];
      FencedForEver(evs, later[..|later| - 1], i);
      StaysFenced(Run(all[..|all| - 1]), all[|all| - 1], i);
    }
  }

  lemma StaysFenced(s: State, e: Event, i: Inst)
    requires !Of(s, i).allowed && Of(s, i).running == map[]
    ensures !Of(Step(s, e), i).allowed && Of(Step(s, e), i).running == map[]
    ensures forall w :: w in Step(s, e).written && w.writer == i ==> w in s.written
  {
    match e
    case CasKey(j) =>
    case _ =>
  }

  /** Whatever has happened, and whatever comes later: from its fence on an
      instance runs nothing and writes nothing. */
  lemma FenceStops(evs: seq<Event>, i: Inst, later: seq<Event>)
    ensures var t := Run(evs + [Fence(i)] + later);
            && !Of(t, i).allowed && Of(t, i).running == map[]
            && forall w :: w in t.written && w.writer == i ==> w in Run(evs).written
  {
    var all := evs + [Fence(i)];
    assert all[..|all| - 1] == evs;
    FencedForEver(all, later, i);
  }

  /** And until then it does both: a run in which an instance takes epoch 1,
      records, and observes. */
  lemma LiveRun(i: Inst, u: Unit, start: int, bucket: int)
    ensures var t := Run([ReadKey(i, u), CasKey(i), Launch(i, u), WriteSegment(i, u, start), Observe(i, u, bucket)]);
            && Of(t, i).allowed && Of(t, i).running == map[u := 1]
            && t.written ==
               {Written(i, SpanPath(SUB, u, 1, Mp4(start))), Written(i, SpanPath(SUB, u, 1, EventLog(bucket)))}
  {
    var e1, e2 := [ReadKey(i, u)], [ReadKey(i, u), CasKey(i)];
    var e3 := [ReadKey(i, u), CasKey(i), Launch(i, u)];
    var e4 := [ReadKey(i, u), CasKey(i), Launch(i, u), WriteSegment(i, u, start)];
    var e5 := [ReadKey(i, u), CasKey(i), Launch(i, u), WriteSegment(i, u, start), Observe(i, u, bucket)];
    assert e1[..0] == [] && e2[..1] == e1 && e3[..2] == e2 && e4[..3] == e3 && e5[..4] == e4;
    assert Run(e1) == Step(Init, ReadKey(i, u));
    assert Of(Run(e2), i).epochs == map[u := 1];
    assert Of(Run(e3), i).running == map[u := 1];
    assert Run(e5) == Step(Run(e4), Observe(i, u, bucket));
  }

  /** After a stop, and until the unit is launched again, no segment of it is
      written. */
  lemma {:induction false} StoppedWritesNothing(evs: seq<Event>, i: Inst, u: Unit, later: seq<Event>)
    requires forall k :: 0 <= k < |later| ==> later[k] != Launch(i, u)
    ensures var t := Run(evs + [Stop(i, u)] + later);
            && u !in Of(t, i).running
            && forall e, start :: Written(i, SpanPath(SUB, u, e, Mp4(start))) in t.written ==>
                 Written(i, SpanPath(SUB, u, e, Mp4(start))) in Run(evs).written
  {
    var before := evs + [Stop(i, u)];
    if later == [] {
      assert before + later == before && before[..|before| - 1] == evs;
    } else {
      var n := |later| - 1;
      StoppedWritesNothing(evs, i, u, later[..n]);
      assert (before + later)[..|before + later| - 1] == before + later[..n];
      StaysStopped(Run(before + later[..n]), later[n], i, u);
      hide Step, SpanPath;
    }
  }

  lemma StaysStopped(s: State, e: Event, i: Inst, u: Unit)
    requires u !in Of(s, i).running && e != Launch(i, u)
    ensures u !in Of(Step(s, e), i).running
    ensures forall n, start :: Written(i, SpanPath(SUB, u, n, Mp4(start))) in Step(s, e).written ==>
              Written(i, SpanPath(SUB, u, n, Mp4(start))) in s.written
  {
    forall n, start | Written(i, SpanPath(SUB, u, n, Mp4(start))) in Step(s, e).written
      ensures Written(i, SpanPath(SUB, u, n, Mp4(start))) in s.written
    {
      var w := Written(i, SpanPath(SUB, u, n, Mp4(start)));
      if w !in s.written {
        NewlyWritten(s, e, w, u, n, Mp4(start));
      }
    }
    hide SpanPath;
  }

  /** After a release, and until the instance takes an epoch again, no event of
      the unit is written by it. */
  lemma {:induction false} ReleasedObservesNothing(evs: seq<Event>, i: Inst, u: Unit, later: seq<Event>)
    requires forall k :: 0 <= k < |later| ==> later[k] != CasKey(i)
    ensures var t := Run(evs + [Release(i, u)] + later);
            && u !in Of(t, i).epochs
            && forall e, bucket :: Written(i, SpanPath(SUB, u, e, EventLog(bucket))) in t.written ==>
                 Written(i, SpanPath(SUB, u, e, EventLog(bucket))) in Run(evs).written
  {
    var before := evs + [Release(i, u)];
    if later == [] {
      assert before + later == before && before[..|before| - 1] == evs;
    } else {
      var n := |later| - 1;
      ReleasedObservesNothing(evs, i, u, later[..n]);
      assert (before + later)[..|before + later| - 1] == before + later[..n];
      StaysReleased(Run(before + later[..n]), later[n], i, u);
      hide Step, SpanPath;
    }
  }

  lemma StaysReleased(s: State, e: Event, i: Inst, u: Unit)
    requires u !in Of(s, i).epochs && e != CasKey(i)
    ensures u !in Of(Step(s, e), i).epochs
    ensures forall n, bucket :: Written(i, SpanPath(SUB, u, n, EventLog(bucket))) in Step(s, e).written ==>
              Written(i, SpanPath(SUB, u, n, EventLog(bucket))) in s.written
  {
    forall n, bucket | Written(i, SpanPath(SUB, u, n, EventLog(bucket))) in Step(s, e).written
      ensures Written(i, SpanPath(SUB, u, n, EventLog(bucket))) in s.written
    {
      var w := Written(i, SpanPath(SUB, u, n, EventLog(bucket)));
      if w !in s.written {
        NewlyWritten(s, e, w, u, n, EventLog(bucket));
      }
    }
    hide SpanPath;
  }

  /** A path that a step adds is of a unit its instance runs, or holds the
      epoch of. */
  lemma NewlyWritten(s: State, e: Event, w: Written, u: Unit, n: nat, x: Leaf)
    requires w in Step(s, e).written && w !in s.written && w.path == SpanPath(SUB, u, n, x)
    ensures x.Mp4? ==> u in Of(s, w.writer).running
    ensures x.EventLog? ==> u in Of(s, w.writer).epochs
  {
    match e
    case WriteSegment(i, v, start) =>
      SpanPathInjective(SUB, u, n, x, SUB, v, Of(s, i).running[v], Mp4(start));
    case Observe(i, v, bucket) =>
      SpanPathInjective(SUB, u, n, x, SUB, v, Of(s, i).epochs[v], EventLog(bucket));
    case CasKey(i) =>
    case _ =>
  }

  // ----- the retry loop itself

  /** What the accepted CAS of `next_epoch` has established. */
  lemma CasSawLatest(atRead: Store<Unit, nat>, ops: seq<Op<Unit, nat>>, key: Unit)
    requires Valid(atRead)
    requires Accepts(ApplyAll(atRead, ops), key, Some(Index(atRead, key)))
    ensures Current(ApplyAll(atRead, ops), key) == Current(atRead, key)
  {
    CasAcceptedExactlyWhen(atRead, ops, key);
    TouchedMovesIndex(atRead, ops, key);
  }

  /** `others[k]` is what every other client does to the store between this
      caller's k-th read and its k-th write. The epoch returned is one more
      than the key's epoch immediately before this caller's write, whoever
      wrote that. Every attempt before the last one was overtaken, and a call
      that gives up was overtaken every time and has written nothing. */
  method NextEpoch(vars: FakeVariables<Unit, nat>, key: Unit, others: seq<seq<Op<Unit, nat>>>)
    returns (r: Option<(nat, nat)>, ghost tries: nat)
    requires Valid(vars.State())
    modifies vars
    ensures tries <= |others| && (r.Some? ==> tries > 0)
    ensures AllOvertaken(old(vars.State()), others, key, if r.Some? then tries - 1 else tries)
    ensures r.Some? ==> !Overtaken(old(vars.State()), others, key, tries - 1)
    ensures r.None? ==> tries == |others| && vars.State() == ApplyAll(old(vars.State()), Flatten(others))
    ensures r.Some? ==>
              var before := ApplyAll(old(vars.State()), Flatten(others[..tries]));
              && r.value.0 == Current(before, key) + 1
              && r.value.1 == before.raft + 1
              && vars.State() == PutRow(before, key, r.value.0)
  {
    tries := 0;
    var k := 0;
    while k < |others|
      invariant 0 <= k <= |others| && tries == k
      invariant vars.State() == ApplyAll(old(vars.State()), Flatten(others[..k]))
      invariant AllOvertaken(old(vars.State()), others, key, k)
    {
      ghost var atRead := vars.State();
      assert Valid(atRead) by { RunKeepsValid(old(vars.State()), Flatten(others[..k])); }
      var items, idx := vars.Get(key);
      var current := if items.Some? then items.value else 0;
      vars.Others(others[k]);
      ghost var before := vars.State();
      assert before == ApplyAll(old(vars.State()), Flatten(others[..k + 1])) by {
        assert others[..k + 1][..k] == others[..k];
        ApplyAllConcat(old(vars.State()), Flatten(others[..k]), others[k]);
      }
      var newIdx := vars.PutItems(key, current + 1, Some(idx));
      tries := tries + 1;
      if newIdx.Some? {
        CasSawLatest(atRead, others[k], key);
        return Some((current + 1, newIdx.value)), tries;
      }
      k := k + 1;
    }
    assert others[..|others|] == others;
    return None, tries;
  }
}
