/** The archive over every run: segments closed, promoted, re-promoted and
    repaired, with a crash after any step. */
module ArchiveCrash {
  import opened Archive
  import opened ArchiveLaws
  import opened Decimals
  import opened Paths
  import opened Variables

  /** Repair takes a camera in three actions, between which anything may
      happen: it reads the manifest, walks the files, replaces the manifest. */
  datatype Attempt =
    | Close(p: Path, f: File)                        // a worker closes a new segment in the spool
    | Promote(p: Path, route: Route, upTo: nat)      // cut short after `upTo` steps
    | ReadLines(cam: nat)
    | Look(cam: nat, walk: seq<Path>, now: real)
    | Replace(cam: nat)
    | Log(p: Path, f: File)                          // a bucket is written

  /** The disk; the lines a repair has read, and those it is about to write. */
  datatype System = System(d: Disk, read: map<nat, seq<Entry>>, seen: map<nat, seq<Entry>>)

  /** The disk after `upTo` steps of a promotion, or after all of them. */
  function Cut(d: Disk, p: Path, end: Option<real>, route: Route, upTo: nat): Disk {
    if p !in d.spool || Parse(p).None? then d
    else
      var states := [d] + PromoteSteps(d, p, end, route);
      states[if upTo < |states| then upTo else |states| - 1]
  }

  /** A bucket is written into its unit's directory, made where it is missing. */
  function Logged(d: Disk, p: Path, f: File): Disk {
    var e := d.(archive := d.archive[p := f]);
    if |p.dirs| >= 2 && IsDecimal(p.dirs[1]) then DirMade(e, p, Value(p.dirs[1])) else e
  }

  /** Segment paths are fresh: one epoch, one writer, one second. */
  ghost predicate Possible(x: System, segs: map<Path, File>, a: Attempt) {
    match a
    case Close(p, _) => Parse(p).Some? && p !in segs
    case Promote(_, _, _) => true
    case ReadLines(cam) => cam in x.d.manifests
    case Look(cam, walk, _) => cam in x.read && Walks(walk, x.d.archive)
    case Replace(cam) => cam in x.seen
    case Log(p, _) => ParseBucket(p).Some?
  }

  function Next(x: System, a: Attempt, seconds: nat): System {
    match a
    case Close(p, f) => x.(d := x.d.(spool := x.d.spool[p := f]))
    case Promote(p, route, upTo) => x.(d := Cut(x.d, p, None, route, upTo))
    case ReadLines(cam) => x.(read := x.read[cam := LinesOf(x.d, cam)])
    case Look(cam, walk, now) =>
      if cam !in x.read || !Walks(walk, x.d.archive) then x
      else x.(seen := x.seen[cam := RepairedLines(x.read[cam], x.d.archive, walk, cam, seconds, now)])
    case Replace(cam) =>
      if cam !in x.seen then x
      else x.(d := x.d.(manifests := x.d.manifests[cam := x.seen[cam]]), seen := x.seen - {cam})
    case Log(p, f) => x.(d := Logged(x.d, p, f))
  }

  function Closed(segs: map<Path, File>, a: Attempt): map<Path, File> {
    if a.Close? then segs[a.p := a.f] else segs
  }

  // ----- the invariant

  /** Every segment ever closed is whole, in the spool or in the archive; and
      what either holds under a segment's name is that segment, whole. */
  ghost predicate Whole(d: Disk, segs: map<Path, File>) {
    && (forall p :: p in segs ==> Parse(p).Some? && (p in d.spool || p in d.archive))
    && (forall p :: p in d.spool ==> p in segs && d.spool[p] == segs[p])
    && (forall p :: p in d.archive && Parse(p).Some? ==> p in segs && d.archive[p] == segs[p])
  }

  /** Every media line is the one `promote` writes for its segment. */
  ghost predicate TrueLines(lines: seq<Entry>, segs: map<Path, File>) {
    forall i :: 0 <= i < |lines| && lines[i].Media? ==>
      var e := lines[i];
      Parse(e.path).Some? && e.path in segs && e == MediaLine(e.path, segs[e.path])
  }

  ghost predicate AllTrue(lists: map<nat, seq<Entry>>, segs: map<Path, File>) {
    forall c :: c in lists ==> TrueLines(lists[c], segs)
  }

  /** A camera with a segment or a bucket in the archive has a directory there. */
  ghost predicate Listed(d: Disk) {
    forall p, c :: p in d.archive && (IsSegmentOf(p, c) || IsBucketOf(p, c)) ==> c in d.manifests
  }

  ghost predicate Good(d: Disk, segs: map<Path, File>) {
    Whole(d, segs) && AllTrue(d.manifests, segs) && Listed(d)
  }

  /** A repair under way holds true lines too. */
  ghost predicate AllGood(x: System, segs: map<Path, File>) {
    Good(x.d, segs) && AllTrue(x.read, segs) && AllTrue(x.seen, segs)
  }

  // ----- one step of a promotion

  lemma DirMadeGood(d: Disk, segs: map<Path, File>, p: Path, cam: nat)
    requires Good(d, segs)
    ensures Good(DirMade(d, p, cam), segs)
  {}

  lemma TmpGood(d: Disk, segs: map<Path, File>, p: Path, f: File)
    requires Good(d, segs)
    ensures Good(TmpWritten(d, p, f), segs)
  {
    assert Parse(TmpOf(p)).None?;
  }

  /** The archive gets the segment while the spool still has it. */
  lemma ArrivedGood(d: Disk, segs: map<Path, File>, p: Path)
    requires Good(d, segs) && p in d.spool && Parse(p).Some?
    requires forall c :: Under(p, c) ==> c in d.manifests
    ensures Good(d.(archive := d.archive[p := d.spool[p]] - {TmpOf(p)}), segs)
  {
    assert Parse(TmpOf(p)).None?;
  }

  lemma GoneGood(d: Disk, segs: map<Path, File>, p: Path)
    requires Good(d, segs) && p in d.archive
    ensures Good(d.(spool := d.spool - {p}), segs)
  {}

  lemma RenamedGood(d: Disk, segs: map<Path, File>, p: Path)
    requires Good(d, segs) && p in d.spool && Parse(p).Some?
    requires forall c :: Under(p, c) ==> c in d.manifests
    ensures Good(d.(spool := d.spool - {p}, archive := d.archive[p := d.spool[p]]), segs)
  {}

  lemma LineGood(d: Disk, segs: map<Path, File>, cam: nat, p: Path)
    requires Good(d, segs) && Parse(p).Some? && p in segs
    ensures Good(LineAdded(d, cam, MediaLine(p, segs[p])), segs)
  {}

  lemma {:induction false} TornGood(d: Disk, segs: map<Path, File>, p: Path, torn: seq<File>)
    requires Good(d, segs)
    ensures forall k :: 0 <= k < |TornSteps(d, p, torn)| ==> Good(TornSteps(d, p, torn)[k], segs)
  {
    if torn != [] {
      TornGood(d, segs, p, torn[..|torn| - 1]);
      TmpGood(d, segs, p, torn[|torn| - 1]);
    }
  }

  lemma MoveGood(d: Disk, segs: map<Path, File>, p: Path, route: Route)
    requires Good(d, segs) && p in d.spool && Parse(p).Some?
    requires forall c :: Under(p, c) ==> c in d.manifests
    ensures forall k :: 0 <= k < |MoveSteps(d, p, route)| ==> Good(MoveSteps(d, p, route)[k], segs)
  {
    match route
    case Rename =>
      RenamedGood(d, segs, p);
    case Copy(torn) =>
      TornGood(d, segs, p, torn);
      TmpGood(d, segs, p, d.spool[p]);
      ArrivedGood(d, segs, p);
      assert p != TmpOf(p);
      GoneGood(d.(archive := d.archive[p := d.spool[p]] - {TmpOf(p)}), segs, p);
  }

  /** Whatever step a promotion is cut at, nothing is lost. */
  lemma {:induction false} EveryStepGood(d: Disk, segs: map<Path, File>, p: Path, route: Route)
    requires Good(d, segs) && p in d.spool && Parse(p).Some?
    ensures forall k :: 0 <= k < |PromoteSteps(d, p, None, route)| ==> Good(PromoteSteps(d, p, None, route)[k], segs)
  {
    var cam := Parse(p).value.cam;
    var d0 := DirMade(d, p, cam);
    DirMadeGood(d, segs, p, cam);
    forall c | Under(p, c) ensures c in d0.manifests {
      DecimalReadsBack(c);
    }
    MoveGood(d0, segs, p, route);
    var moved := MoveSteps(d0, p, route);
    LineGood(moved[|moved| - 1], segs, cam, p);
  }

  lemma RepairedTrue(lines: seq<Entry>, d: Disk, segs: map<Path, File>, cam: nat, walk: seq<Path>, seconds: nat,
          now: real)
    requires Good(d, segs) && TrueLines(lines, segs) && Walks(walk, d.archive)
    ensures TrueLines(RepairedLines(lines, d.archive, walk, cam, seconds, now), segs)
  {
    var after := RepairedLines(lines, d.archive, walk, cam, seconds, now);
    RepairIsExact(lines, d.archive, walk, cam, seconds, now);
    forall i | 0 <= i < |after| && after[i].Media?
      ensures Parse(after[i].path).Some? && after[i].path in segs &&
          after[i] == MediaLine(after[i].path, segs[after[i].path])
    {
      assert after[i] in multiset(after);
      assert Wanted(lines, d.archive, cam, seconds, now, after[i]);
      LastNamingNames(lines, after[i].path);
    }
  }

  lemma CloseGood(d: Disk, segs: map<Path, File>, p: Path, f: File)
    requires Good(d, segs) && Parse(p).Some? && p !in segs
    ensures Good(d.(spool := d.spool[p := f]), segs[p := f])
  {}

  lemma LogGood(d: Disk, segs: map<Path, File>, p: Path, f: File)
    requires Good(d, segs) && ParseBucket(p).Some?
    ensures Good(Logged(d, p, f), segs)
  {
    forall c | Under(p, c) ensures IsDecimal(p.dirs[1]) && c == Value(p.dirs[1]) {
      DecimalReadsBack(c);
    }
  }

  lemma ReplaceGood(d: Disk, segs: map<Path, File>, cam: nat, lines: seq<Entry>)
    requires Good(d, segs) && TrueLines(lines, segs)
    ensures Good(d.(manifests := d.manifests[cam := lines]), segs)
  {}

  lemma StillTrue(lists: map<nat, seq<Entry>>, segs: map<Path, File>, p: Path, f: File)
    requires AllTrue(lists, segs) && p !in segs
    ensures AllTrue(lists, segs[p := f])
  {}

  lemma StepGood(x: System, segs: map<Path, File>, a: Attempt, seconds: nat)
    requires AllGood(x, segs) && Possible(x, segs, a)
    ensures AllGood(Next(x, a, seconds), Closed(segs, a))
  {
    hide Good, RepairedLines, PromoteSteps, Logged, TrueLines;
    match a
    case Close(p, f) =>
      CloseGood(x.d, segs, p, f);
      StillTrue(x.read, segs, p, f);
      StillTrue(x.seen, segs, p, f);
    case Promote(p, route, upTo) =>
      if p in x.d.spool && Parse(p).Some? {
        EveryStepGood(x.d, segs, p, route);
      }
    case ReadLines(cam) =>
      LinesTrue(x.d, segs, cam);
    case Look(cam, walk, now) =>
      RepairedTrue(x.read[cam], x.d, segs, cam, walk, seconds, now);
    case Replace(cam) =>
      ReplaceGood(x.d, segs, cam, x.seen[cam]);
    case Log(p, f) =>
      LogGood(x.d, segs, p, f);
  }

  lemma LinesTrue(d: Disk, segs: map<Path, File>, cam: nat)
    requires Good(d, segs)
    ensures TrueLines(LinesOf(d, cam), segs)
  {}

  // ----- over every run

  const Empty := System(Disk(map[], map[], map[]), map[], map[])

  function StateAfter(run: seq<Attempt>, seconds: nat): System {
    if run == [] then Empty else Next(StateAfter(run[..|run| - 1], seconds), run[|run| - 1], seconds)
  }

  function DiskAfter(run: seq<Attempt>, seconds: nat): Disk {
    StateAfter(run, seconds).d
  }

  function SegsAfter(run: seq<Attempt>): map<Path, File> {
    if run == [] then map[] else Closed(SegsAfter(run[..|run| - 1]), run[|run| - 1])
  }

  ghost predicate PossibleRun(run: seq<Attempt>, seconds: nat) {
    run != [] ==>
      && PossibleRun(run[..|run| - 1], seconds)
      && Possible(StateAfter(run[..|run| - 1], seconds), SegsAfter(run[..|run| - 1]), run[|run| - 1])
  }

  lemma {:induction false} EveryRunIsGood(run: seq<Attempt>, seconds: nat)
    requires PossibleRun(run, seconds)
    ensures AllGood(StateAfter(run, seconds), SegsAfter(run))
  {
    if run != [] {
      EveryRunIsGood(run[..|run| - 1], seconds);
      StepGood(StateAfter(run[..|run| - 1], seconds), SegsAfter(run[..|run| - 1]), run[|run| - 1], seconds);
    }
  }

  /** A closed segment is whole in the spool or in the archive, whatever was
      attempted since and wherever it was cut short. */
  lemma {:induction false} NoSegmentIsLost(run: seq<Attempt>, seconds: nat, p: Path)
    requires PossibleRun(run, seconds) && p in SegsAfter(run)
    ensures var d, f := DiskAfter(run, seconds), SegsAfter(run)[p];
            && (p in d.spool || p in d.archive)
            && (p in d.spool ==> d.spool[p] == f)
            && (p in d.archive ==> d.archive[p] == f)
  {
    GoodAfter(run, seconds);
  }

  /** What the files alone say a manifest should hold. */
  ghost predicate FilesSay(archive: map<Path, File>, cam: nat, seconds: nat, now: real, e: Entry) {
    e.path in archive &&
    match e
    case Media(_, _, _, _, p, _) => IsSegmentOf(p, cam) && e == MediaLine(p, archive[p])
    case Bucket(_, _, _, _, end, p, _) => IsBucketOf(p, cam) && end <= now && e == BucketLine(p, archive[p], seconds)
  }

  lemma WantedIsWhatFilesSay(lines: seq<Entry>, d: Disk, segs: map<Path, File>, cam: nat, seconds: nat, now: real,
          e: Entry)
    requires Good(d, segs) && TrueLines(lines, segs)
    ensures Wanted(lines, d.archive, cam, seconds, now, e) <==> FilesSay(d.archive, cam, seconds, now, e)
  {
    if e.Media? && e.path in d.archive && IsSegmentOf(e.path, cam) {
      LastNamingNames(lines, e.path);
    }
  }

  /** After any run, crashes and all, `repair` leaves for every camera exactly
      what the files alone say, each line once: for every archived segment the
      line `promote` would have written, for every closed bucket its line. A
      camera without a directory has no files. */
  lemma {:induction false} RepairSaysWhatTheFilesSay(run: seq<Attempt>, walk: seq<Path>, seconds: nat, now: real,
          cam: nat, e: Entry)
    requires PossibleRun(run, seconds) && Walks(walk, DiskAfter(run, seconds).archive)
    ensures var d := DiskAfter(run, seconds);
            multiset(LinesOf(Repaired(d, walk, seconds, now), cam))[e] ==
                if FilesSay(d.archive, cam, seconds, now, e) then 1 else 0
  {
    hide PossibleRun, DiskAfter, StateAfter;
    var d := DiskAfter(run, seconds);
    GoodAfter(run, seconds);
    if cam in d.manifests {
      RepairIsExact(d.manifests[cam], d.archive, walk, cam, seconds, now);
      WantedIsWhatFilesSay(d.manifests[cam], d, SegsAfter(run), cam, seconds, now, e);
    } else {
      assert LinesOf(Repaired(d, walk, seconds, now), cam) == [];
    }
  }

  lemma GoodAfter(run: seq<Attempt>, seconds: nat)
    requires PossibleRun(run, seconds)
    ensures Good(DiskAfter(run, seconds), SegsAfter(run))
  {
    EveryRunIsGood(run, seconds);
  }

  /** So an archived segment is named once, in its camera's manifest: exactly
      when its camera directory is spelled as the writer spells it. */
  lemma {:induction false} NamedExactlyWhenCanonical(run: seq<Attempt>, walk: seq<Path>, seconds: nat, now: real,
          p: Path)
    requires PossibleRun(run, seconds) && Walks(walk, DiskAfter(run, seconds).archive)
    requires p in DiskAfter(run, seconds).archive && Parse(p).Some?
    ensures var d, cam := DiskAfter(run, seconds), Parse(p).value.cam;
            Canonical(p.dirs[1]) <==>
            multiset(LinesOf(Repaired(d, walk, seconds, now), cam))[MediaLine(p, d.archive[p])] == 1
  {
    hide RepairedLines, PossibleRun, DiskAfter;
    var d, cam := DiskAfter(run, seconds), Parse(p).value.cam;
    CanonicalPrintsBack(p.dirs[1]);
    RepairSaysWhatTheFilesSay(run, walk, seconds, now, cam, MediaLine(p, d.archive[p]));
  }

  /** A segment of camera 7 in a directory spelled "007". */
  const ODD := Path([SUB, "007", "e1"], Mp4(0))

  lemma OddParses()
    ensures Parse(ODD) == Some(SegmentKey(7, 1, 0)) && !Canonical(ODD.dirs[1])
  {
    assert "e1"[1..] == "1" && "1"[..0] == "";
    assert "007"[..2] == "00" && "00"[..1] == "0" && "0"[..0] == "";
    assert Value("0") == 0 && Value("00") == 0;
  }

  /** Closed and promoted: the file and its line are there. */
  lemma OddIsPromoted(f: File, seconds: nat) returns (run: seq<Attempt>)
    ensures run == [Close(ODD, f), Promote(ODD, Rename, 3)] && PossibleRun(run, seconds) && Parse(ODD).Some?
    ensures StateAfter(run, seconds) ==
            System(Disk(map[], map[ODD := f], map[7 := [MediaLine(ODD, f)]]), map[], map[])
  {
    OddParses();
    var d := Disk(map[ODD := f], map[], map[]);
    run := [Close(ODD, f)];
    assert run[..0] == [];
    assert PossibleRun(run, seconds) && StateAfter(run, seconds) == System(d, map[], map[]);
    assert DirMade(d, ODD, 7) == d;
    var states := [d] + PromoteSteps(d, ODD, None, Rename);
    assert |states| == 4;
    var moved := Disk(map[], map[ODD := f], map[]);
    assert MoveSteps(d, ODD, Rename) == [moved];
    assert SegmentLine(d, ODD, None) == MediaLine(ODD, f);
    assert states[3] == LineAdded(moved, 7, MediaLine(ODD, f));
    assert LinesOf(moved, 7) + [MediaLine(ODD, f)] == [MediaLine(ODD, f)];
    run := run + [Promote(ODD, Rename, 3)];
    assert run[..1] == [Close(ODD, f)];
  }

  lemma RunPlus(run: seq<Attempt>, seconds: nat, a: Attempt)
    ensures StateAfter(run + [a], seconds) == Next(StateAfter(run, seconds), a, seconds)
    ensures SegsAfter(run + [a]) == Closed(SegsAfter(run), a)
    ensures PossibleRun(run + [a], seconds) <==>
            PossibleRun(run, seconds) && Possible(StateAfter(run, seconds), SegsAfter(run), a)
  {
    assert (run + [a])[..|run + [a]| - 1] == run;
  }

  /** The three actions of a repair that nothing interrupts. */
  function Undisturbed(run: seq<Attempt>, cam: nat, walk: seq<Path>, now: real): seq<Attempt> {
    run + [ReadLines(cam)] + [Look(cam, walk, now)] + [Replace(cam)]
  }

  lemma UndisturbedRepairs(run: seq<Attempt>, seconds: nat, cam: nat, walk: seq<Path>, now: real)
    requires PossibleRun(run, seconds)
    requires cam in DiskAfter(run, seconds).manifests && Walks(walk, DiskAfter(run, seconds).archive)
    ensures PossibleRun(Undisturbed(run, cam, walk, now), seconds)
    ensures var d := DiskAfter(run, seconds);
            DiskAfter(Undisturbed(run, cam, walk, now), seconds) ==
            d.(manifests := d.manifests[cam := RepairedLines(d.manifests[cam], d.archive, walk, cam, seconds, now)])
  {
    hide PossibleRun, StateAfter, RepairedLines, Walks;
    RunPlus(run, seconds, ReadLines(cam));
    RunPlus(run + [ReadLines(cam)], seconds, Look(cam, walk, now));
    RunPlus(run + [ReadLines(cam)] + [Look(cam, walk, now)], seconds, Replace(cam));
  }

  /** `parse` takes "007" for camera 7, and the promoted segment has its line;
      a repair walks the directory "7", finds no such file and drops the line. */
  lemma OddDirectoryLosesItsLine(f: File, seconds: nat, now: real) returns (promoted: seq<Attempt>)
    ensures promoted == [Close(ODD, f), Promote(ODD, Rename, 3)] && Parse(ODD).Some?
    ensures PossibleRun(Undisturbed(promoted, 7, [ODD], now), seconds)
    ensures var before := DiskAfter(promoted, seconds);
            var after := DiskAfter(Undisturbed(promoted, 7, [ODD], now), seconds);
            && before.manifests == map[7 := [MediaLine(ODD, f)]]
            && after.archive == before.archive == map[ODD := f] && after.manifests.Keys == {7}
            && MediaLine(ODD, f) !in after.manifests[7]
  {
    promoted := OddIsPromoted(f, seconds);
    OddParses();
    CanonicalPrintsBack(ODD.dirs[1]);
    var d := DiskAfter(promoted, seconds);
    assert Walks([ODD], d.archive);
    hide PossibleRun, StateAfter, RepairedLines, Undisturbed;
    UndisturbedRepairs(promoted, seconds, 7, [ODD], now);
    RepairIsExact(d.manifests[7], d.archive, [ODD], 7, seconds, now);
    var after := RepairedLines(d.manifests[7], d.archive, [ODD], 7, seconds, now);
    assert multiset(after)[MediaLine(ODD, f)] == 0;
  }

  /** A promotion that is not cut short ends with the segment in the archive
      alone and its line last in the manifest. */
  lemma {:induction false} PromotionEnds(d: Disk, p: Path, end: Option<real>, route: Route)
    requires p in d.spool && Parse(p).Some?
    ensures var steps := PromoteSteps(d, p, end, route);
            var t, cam := steps[|steps| - 1], Parse(p).value.cam;
            && t.spool == d.spool - {p}
            && t.archive - {TmpOf(p)} == d.archive[p := d.spool[p]] - {TmpOf(p)}
            && t.manifests == d.manifests[cam := LinesOf(d, cam) + [SegmentLine(d, p, end)]]
  {
    var cam := Parse(p).value.cam;
    var d0 := DirMade(d, p, cam);
    MoveEnds(d0, p, route);
    hide MoveSteps, TornSteps;
    var moved := MoveSteps(d0, p, route);
    var t := LineAdded(moved[|moved| - 1], cam, SegmentLine(d, p, end));
    assert PromoteSteps(d, p, end, route)[|moved| + 1] == t;
  }

  lemma MoveEnds(d: Disk, p: Path, route: Route)
    requires p in d.spool && Parse(p).Some?
    ensures var moved := MoveSteps(d, p, route);
            var t := moved[|moved| - 1];
            && t.spool == d.spool - {p} && t.manifests == d.manifests
            && t.archive - {TmpOf(p)} == d.archive[p := d.spool[p]] - {TmpOf(p)}
  {
    assert p != TmpOf(p);
  }

  lemma UncutIs(d: Disk, p: Path, route: Route, upTo: nat)
    requires p in d.spool && Parse(p).Some? && upTo >= |PromoteSteps(d, p, None, route)|
    ensures var t, cam := Cut(d, p, None, route, upTo), Parse(p).value.cam;
            && p !in t.spool && p in t.archive && t.archive[p] == d.spool[p]
            && t.manifests == d.manifests[cam := LinesOf(d, cam) + [MediaLine(p, d.spool[p])]]
  {
    PromotionEnds(d, p, None, route);
    assert Parse(TmpOf(p)).None? && p != TmpOf(p);
    hide PromoteSteps;
    var t := Cut(d, p, None, route, upTo);
    assert p in t.archive - {TmpOf(p)} && (t.archive - {TmpOf(p)})[p] == d.spool[p];
  }

  /** So after any run an uncut promotion leaves the segment, whole, in the
      archive alone and its line last; and in the writer's directory that is
      the line a repair keeps. */
  lemma {:induction false} PromotedIsNamed(run: seq<Attempt>, seconds: nat, p: Path, route: Route, upTo: nat,
          walk: seq<Path>, now: real)
    requires PossibleRun(run, seconds) && p in DiskAfter(run, seconds).spool && Parse(p).Some?
    requires upTo >= |PromoteSteps(DiskAfter(run, seconds), p, None, route)|
    ensures p in SegsAfter(run) && PossibleRun(run + [Promote(p, route, upTo)], seconds)
    ensures var t := DiskAfter(run + [Promote(p, route, upTo)], seconds);
            var cam, line := Parse(p).value.cam, MediaLine(p, SegsAfter(run)[p]);
            && p !in t.spool && p in t.archive && t.archive[p] == SegsAfter(run)[p]
            && cam in t.manifests && t.manifests[cam] == LinesOf(DiskAfter(run, seconds), cam) + [line]
            && (Canonical(p.dirs[1]) && Walks(walk, t.archive) ==>
                  multiset(LinesOf(Repaired(t, walk, seconds, now), cam))[line] == 1)
  {
    var a, d := Promote(p, route, upTo), DiskAfter(run, seconds);
    GoodAfter(run, seconds);
    assert p in SegsAfter(run) && d.spool[p] == SegsAfter(run)[p];
    UncutIs(d, p, route, upTo);
    RunPlus(run, seconds, a);
    hide PromoteSteps, Repaired, StateAfter, PossibleRun, Cut, Good, Canonical, Walks;
    var t := DiskAfter(run + [a], seconds);
    if Canonical(p.dirs[1]) && Walks(walk, t.archive) {
      NamedExactlyWhenCanonical(run + [a], walk, seconds, now, p);
    }
  }
}
