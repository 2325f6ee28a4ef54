/** The index while buckets are still being written. The resource lists open
    buckets too, and the index never reads a bucket twice. */
module EventIndexOpen {
  import opened EventIndexes
  import opened EventIndexLaws
  import opened Paths
  import opened Variables

  type Files = map<Key, seq<EventRow>>

  /** The bucket files of every server, the clock, and the index. */
  datatype State = State(files: Files, now: real, index: Table)

  datatype Step =
    | Elapse(d: real)
    | Append(row: EventRow)   // a worker writes an event, stamped now, into the bucket of its time
    | Do(pass: Pass)

  function Contents(files: Files): Truth {
    k => if k in files then files[k] else []
  }

  /** The bucket's span is over. */
  predicate OverAt(p: Path, now: real, seconds: nat) {
    ParseBucket(p).Some? && (ParseBucket(p).value.start + seconds) as real <= now
  }

  predicate SpanHolds(p: Path, t: real, seconds: nat) {
    ParseBucket(p).Some? && ParseBucket(p).value.start as real <= t < (ParseBucket(p).value.start + seconds) as real
  }

  /** Whoever answers in a pass, answers with what the files hold then. */
  ghost predicate Possible(x: State, step: Step, seconds: nat) {
    match step
    case Elapse(d) => d >= 0.0
    case Append(row) => row.t == x.now && SpanHolds(row.path, x.now, seconds)
    case Do(pass) => WellFormed(pass) && (!pass.Forget? ==> Agrees(pass.w, Contents(x.files)))
  }

  ghost function Next(x: State, step: Step, seconds: nat): State
    requires Possible(x, step, seconds)
  {
    match step
    case Elapse(d) => x.(now := x.now + d)
    case Append(row) => x.(files := x.files[KeyOf(row) := Contents(x.files)(KeyOf(row)) + [row]])
    case Do(pass) => x.(index := After(x.index, pass))
  }

  ghost predicate PossibleRun(steps: seq<Step>, seconds: nat)
    decreases |steps|, 0
  {
    steps != [] ==>
      && PossibleRun(steps[..|steps| - 1], seconds)
      && Possible(Run(steps[..|steps| - 1], seconds), steps[|steps| - 1], seconds)
  }

  ghost function Run(steps: seq<Step>, seconds: nat): State
    requires PossibleRun(steps, seconds)
    decreases |steps|, 1
  {
    if steps == [] then State(map[], 0.0, map[])
    else Next(Run(steps[..|steps| - 1], seconds), steps[|steps| - 1], seconds)
  }

  // ----- when a bucket was read

  /** The pass that read the bucket's rows now in the index: its first since it
      was last forgotten, or since the last rebuild. */
  ghost function ReadAt(steps: seq<Step>, seconds: nat, k: Key): (i: nat)
    requires PossibleRun(steps, seconds) && k in Run(steps, seconds).index
    ensures i < |steps| && steps[i].Do?
  {
    var n := |steps| - 1;
    var e := steps[n];
    if k !in Run(steps[..n], seconds).index || (e.Do? && e.pass.Rebuild?) then n else ReadAt(steps[..n], seconds, k)
  }

  predicate AppendsTo(step: Step, k: Key) {
    step.Append? && KeyOf(step.row) == k
  }

  /** Nothing was appended to the bucket after the pass that read it. */
  ghost predicate QuietSinceRead(steps: seq<Step>, seconds: nat, k: Key)
    requires PossibleRun(steps, seconds) && k in Run(steps, seconds).index
  {
    forall i :: ReadAt(steps, seconds, k) < i < |steps| ==> !AppendsTo(steps[i], k)
  }

  // ----- the index holds a prefix of each bucket seen

  /** A pass keeps the rows of a bucket it does not read, and reads the others
      as they are. */
  lemma PassReads(x: State, pass: Pass, seconds: nat, k: Key)
    requires Possible(x, Do(pass), seconds)
    requires k in After(x.index, pass)
    ensures k in x.index && !pass.Rebuild? ==> After(x.index, pass)[k] == x.index[k]
    ensures k !in x.index || pass.Rebuild? ==> After(x.index, pass)[k] == Contents(x.files)(k)
  {
    var none: Table := map[];
    match pass
    case Tail(w) =>
      TailedKeeps(x.index, w.order, w);
      TailedTrue(x.index, x.index.Keys, w.order, w, Contents(x.files));
    case Rebuild(w) =>
      TailedTrue(none, {}, w.order, w, Contents(x.files));
    case Forget(_, _) =>
  }

  lemma {:induction false} QuietExactlyWhenSame(steps: seq<Step>, seconds: nat, k: Key)
    requires PossibleRun(steps, seconds) && k in Run(steps, seconds).index
    ensures var x := Run(steps, seconds);
            && x.index[k] <= Contents(x.files)(k)
            && (QuietSinceRead(steps, seconds, k) <==> x.index[k] == Contents(x.files)(k))
  {
    var n := |steps| - 1;
    var x, e := Run(steps[..n], seconds), steps[n];
    if e.Do? {
      PassReads(x, e.pass, seconds, k);
    }
    if k in x.index && !(e.Do? && e.pass.Rebuild?) {
      QuietExactlyWhenSame(steps[..n], seconds, k);
      assert QuietSinceRead(steps, seconds, k) <==> QuietSinceRead(steps[..n], seconds, k) && !AppendsTo(e, k);
    }
  }

  lemma {:induction false} RowsAreFiledByKey(steps: seq<Step>, seconds: nat, k: Key, r: EventRow)
    requires PossibleRun(steps, seconds) && r in Contents(Run(steps, seconds).files)(k)
    ensures KeyOf(r) == k
  {
    var x, e := Run(steps[..|steps| - 1], seconds), steps[|steps| - 1];
    if AppendsTo(e, k) {
      assert Contents(Run(steps, seconds).files)(k) == Contents(x.files)(k) + [e.row];
    } else {
      assert Contents(Run(steps, seconds).files)(k) == Contents(x.files)(k);
    }
    if r in Contents(x.files)(k) {
      RowsAreFiledByKey(steps[..|steps| - 1], seconds, k, r);
    }
  }

  /** Over every run of appends and passes: the index holds exactly what the
      files of the buckets it has seen hold now, if and only if none of those
      buckets was appended to after the pass that read it. */
  lemma {:induction false} CurrentExactlyWhenQuiet(steps: seq<Step>, seconds: nat, seen: set<Key>,
          events: seq<EventRow>)
    requires PossibleRun(steps, seconds)
    requires Holds(seen, events, Run(steps, seconds).index)
    ensures var x := Run(steps, seconds);
            IsUnion(seen, events, Contents(x.files)) <==>
            forall k :: k in x.index ==> QuietSinceRead(steps, seconds, k)
  {
    var x := Run(steps, seconds);
    forall k, r | k in x.index && r in Contents(x.files)(k) ensures (r.server, r.path) == k {
      RowsAreFiledByKey(steps, seconds, k, r);
    }
    CurrentExactlyWhen(seen, events, x.index, Contents(x.files));
    forall k | k in x.index
      ensures QuietSinceRead(steps, seconds, k) <==> multiset(x.index[k]) == multiset(Contents(x.files)(k))
    {
      QuietExactlyWhenSame(steps, seconds, k);
      if multiset(x.index[k]) == multiset(Contents(x.files)(k)) {
        assert |multiset(x.index[k])| == |x.index[k]|;
        assert |multiset(Contents(x.files)(k))| == |Contents(x.files)(k)|;
      }
    }
  }

  // ----- with closed buckets only

  /** Every bucket anybody lists in the pass is over. */
  ghost predicate ListsOver(w: World, now: real, seconds: nat) {
    && (forall s, u, b :: w.lists(s, u).Some? && b in w.lists(s, u).value ==> OverAt(b.path, now, seconds))
    && (forall q, s, b :: w.mirrored(q, s).Some? && b in w.mirrored(q, s).value ==> OverAt(b.path, now, seconds))
  }

  ghost predicate OnlyOver(steps: seq<Step>, seconds: nat)
    requires PossibleRun(steps, seconds)
  {
    steps != [] ==>
      var init, e := steps[..|steps| - 1], steps[|steps| - 1];
      && OnlyOver(init, seconds)
      && (e.Do? && !e.pass.Forget? ==> ListsOver(e.pass.w, Run(init, seconds).now, seconds))
  }

  /** What a pass adds was listed: no answer about other buckets can matter, so
      the pass would be as true of any other content they might have. */
  lemma AddedWasListed(t: Table, w: World, truth: Truth, now: real, seconds: nat, k: Key)
    requires forall i :: 0 <= i < |w.order| ==> w.order[i] in w.heartbeats
    requires Agrees(w, truth) && ListsOver(w, now, seconds)
    requires k in Tailed(t, w.order, w).0 && k !in t
    ensures OverAt(k.1, now, seconds)
  {
    var junk := EventRow(Unit("", ""), None, 0, 0.0, "", "", k.1, "");
    var other: Truth := (l: Key) => if OverAt(l.1, now, seconds) then truth(l) else truth(l) + [junk];
    TailedTrue(t, t.Keys, w.order, w, truth);
    TailedTrue(t, t.Keys, w.order, w, other);
  }

  lemma {:induction false} SeenAreOver(steps: seq<Step>, seconds: nat, k: Key)
    requires PossibleRun(steps, seconds) && OnlyOver(steps, seconds) && k in Run(steps, seconds).index
    ensures OverAt(k.1, Run(steps, seconds).now, seconds)
  {
    var n := |steps| - 1;
    var x, e := Run(steps[..n], seconds), steps[n];
    var none: Table := map[];
    if e.Do? && e.pass.Rebuild? {
      AddedWasListed(none, e.pass.w, Contents(x.files), x.now, seconds, k);
    } else if e.Do? && e.pass.Tail? && k !in x.index {
      AddedWasListed(x.index, e.pass.w, Contents(x.files), x.now, seconds, k);
    } else {
      SeenAreOver(steps[..n], seconds, k);
    }
  }

  lemma {:induction false} OverStaysQuiet(steps: seq<Step>, seconds: nat, k: Key)
    requires PossibleRun(steps, seconds) && OnlyOver(steps, seconds) && k in Run(steps, seconds).index
    ensures QuietSinceRead(steps, seconds, k)
  {
    var n := |steps| - 1;
    var x, e := Run(steps[..n], seconds), steps[n];
    if k in x.index && !(e.Do? && e.pass.Rebuild?) {
      OverStaysQuiet(steps[..n], seconds, k);
      SeenAreOver(steps[..n], seconds, k);
    }
  }

  /** If every pass is shown only buckets whose span is over, the index is
      always current. */
  lemma {:induction false} ClosedListsStayCurrent(steps: seq<Step>, seconds: nat, seen: set<Key>, events: seq<EventRow>)
    requires PossibleRun(steps, seconds) && OnlyOver(steps, seconds)
    requires Holds(seen, events, Run(steps, seconds).index)
    ensures IsUnion(seen, events, Contents(Run(steps, seconds).files))
  {
    CurrentExactlyWhenQuiet(steps, seconds, seen, events);
    forall k | k in Run(steps, seconds).index ensures QuietSinceRead(steps, seconds, k) {
      OverStaysQuiet(steps, seconds, k);
    }
  }

  // ----- an open bucket goes stale

  const VMS7 := Unit("vms", "7")

  function EventAt(t: real): Event {
    Event(t, "motion", Some(7), "")
  }

  function RowAt(p: Path, t: real): EventRow {
    EventRow(VMS7, Some(7), 1, t, "motion", "a", p, "")
  }

  /** One server, one unit, one bucket holding `es`; everybody answers. */
  function Shows(p: Path, es: seq<Event>): World {
    World(["a"], ["a"], map["a" := Heartbeat(0.0, [VMS7], {})], 45.0,
          (s, u) => if s == "a" && u == VMS7 then Some([Bucket(VMS7, 1, p, |es|)]) else None,
          (s, q) => if s == "a" && q == p then Some(es) else None,
          (_, _) => None,
          (_, _, _) => None)
  }

  lemma RowsShown(p: Path, t: real, u: real)
    ensures RowsOf("a", VMS7, Bucket(VMS7, 1, p, 1), [EventAt(t)]) == [RowAt(p, t)]
    ensures RowsOf("a", VMS7, Bucket(VMS7, 1, p, 2), [EventAt(t), EventAt(u)]) == [RowAt(p, t), RowAt(p, u)]
  {
    var two := [EventAt(t), EventAt(u)];
    var b := Bucket(VMS7, 1, p, 2);
    assert two[..1] == [EventAt(t)];
    assert RowsOf("a", VMS7, b, [EventAt(t)][..0]) == [];
    assert RowsOf("a", VMS7, b, [EventAt(t)]) == [RowAt(p, t)];
  }

  /** The pass over that world reads the bucket unless it has been seen. */
  lemma PassOverShown(t: Table, p: Path, es: seq<Event>)
    requires es != []
    ensures var rows := RowsOf("a", VMS7, Bucket(VMS7, 1, p, |es|), es);
            Tailed(t, ["a"], Shows(p, es)).0 == if ("a", p) in t then t else t[("a", p) := rows]
  {
    var w, b := Shows(p, es), Bucket(VMS7, 1, p, |es|);
    assert Listed(t, "a", Some(VMS7), [b][..0], q => w.contents("a", q)) == (t, true);
    assert ByUnits(t, "a", [VMS7][..0], w) == (t, true);
    assert Tailed(t, ["a"][..0], w) == (t, Report([], []));
    assert ByUnits(t, "a", [VMS7], w) == Listed(t, "a", Some(VMS7), [b], q => w.contents("a", q));
  }

  lemma ShownAgrees(p: Path, es: seq<Event>, files: Files)
    requires ("a", p) in files && files[("a", p)] == RowsOf("a", VMS7, Bucket(VMS7, 1, p, |es|), es)
    ensures Agrees(Shows(p, es), Contents(files))
  {}

  lemma RunPlus(steps: seq<Step>, seconds: nat, e: Step)
    requires PossibleRun(steps, seconds) && Possible(Run(steps, seconds), e, seconds)
    ensures PossibleRun(steps + [e], seconds) && Run(steps + [e], seconds) == Next(Run(steps, seconds), e, seconds)
  {
    assert (steps + [e])[..|steps + [e]| - 1] == steps;
  }

  lemma AppendThenTail(p: Path) returns (steps: seq<Step>)
    requires SpanHolds(p, 0.0, 600)
    ensures PossibleRun(steps, 600)
    ensures Run(steps, 600) == State(map[("a", p) := [RowAt(p, 0.0)]], 0.0, map[("a", p) := [RowAt(p, 0.0)]])
  {
    var k: Key, first, one := ("a", p), RowAt(p, 0.0), [EventAt(0.0)];
    RowsShown(p, 0.0, 1.0);
    PassOverShown(map[], p, one);
    ShownAgrees(p, one, map[k := [first]]);
    steps := [];
    assert PossibleRun(steps, 600) && Run(steps, 600) == State(map[], 0.0, map[]);
    hide Run, PossibleRun, Tailed, RowsOf, Agrees, SpanHolds;
    RunPlus(steps, 600, Append(first));
    steps := steps + [Append(first)];
    assert Run(steps, 600) == State(map[k := [first]], 0.0, map[]);
    RunPlus(steps, 600, Do(Tail(Shows(p, one))));
    steps := steps + [Do(Tail(Shows(p, one)))];
  }

  /** A bucket is tailed while open, appended to, and tailed again. */
  lemma TailAppendTail(p: Path) returns (steps: seq<Step>)
    requires SpanHolds(p, 0.0, 600) && SpanHolds(p, 1.0, 600)
    ensures PossibleRun(steps, 600)
    ensures Run(steps, 600) ==
            State(map[("a", p) := [RowAt(p, 0.0), RowAt(p, 1.0)]], 1.0, map[("a", p) := [RowAt(p, 0.0)]])
  {
    var k: Key, first, second := ("a", p), RowAt(p, 0.0), RowAt(p, 1.0);
    var two := [EventAt(0.0), EventAt(1.0)];
    RowsShown(p, 0.0, 1.0);
    PassOverShown(map[k := [first]], p, two);
    ShownAgrees(p, two, map[k := [first, second]]);
    steps := AppendThenTail(p);
    hide Run, PossibleRun, Tailed, RowsOf, Agrees, SpanHolds;
    RunPlus(steps, 600, Elapse(1.0));
    steps := steps + [Elapse(1.0)];
    RunPlus(steps, 600, Append(second));
    steps := steps + [Append(second)];
    assert Run(steps, 600) == State(map[k := [first, second]], 1.0, map[k := [first]]);
    RunPlus(steps, 600, Do(Tail(Shows(p, two))));
    steps := steps + [Do(Tail(Shows(p, two)))];
  }

  /** The failing run: the second pass skips the bucket, and the index lacks
      the second event. */
  lemma OpenBucketGoesStale(seen: set<Key>, events: seq<EventRow>) returns (steps: seq<Step>)
    ensures PossibleRun(steps, 600)
    ensures Holds(seen, events, Run(steps, 600).index) ==>
              !IsUnion(seen, events, Contents(Run(steps, 600).files))
  {
    var p := BucketPath("vms", "7", 1, 0);
    BucketPathReadsBack("vms", "7", 1, 0);
    steps := TailAppendTail(p);
    var k: Key := ("a", p);
    if Holds(seen, events, Run(steps, 600).index) {
      QuietExactlyWhenSame(steps, 600, k);
      CurrentExactlyWhenQuiet(steps, 600, seen, events);
    }
  }
}
