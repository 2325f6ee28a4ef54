/** A repair while the archive is being written: what it leaves, and what it
    takes away. */
module ArchiveRepair {
  import opened Archive
  import opened ArchiveCrash
  import opened ArchiveLaws
  import opened Paths
  import opened Variables

  /** Anything happens but this camera's repair itself. */
  predicate Elsewhere(during: seq<Attempt>, cam: nat) {
    forall i :: 0 <= i < |during| ==>
      !(during[i].Look? && during[i].cam == cam) && !(during[i].Replace? && during[i].cam == cam)
  }

  /** A repair from its walk to its replacing, with all that comes between. */
  function Repairing(before: seq<Attempt>, cam: nat, walk: seq<Path>, now: real, during: seq<Attempt>): seq<Attempt> {
    before + [Look(cam, walk, now)] + during + [Replace(cam)]
  }

  lemma {:induction false} PossiblePrefix(run: seq<Attempt>, more: seq<Attempt>, seconds: nat)
    requires PossibleRun(run + more, seconds)
    ensures PossibleRun(run, seconds)
  {
    if more == [] {
      assert run + more == run;
    } else {
      var n := |more| - 1;
      assert run + more == run + more[..n] + [more[n]];
      RunPlus(run + more[..n], seconds, more[n]);
      PossiblePrefix(run, more[..n], seconds);
    }
  }

  lemma {:induction false} SeenIsHeld(run: seq<Attempt>, during: seq<Attempt>, cam: nat, seconds: nat)
    requires Elsewhere(during, cam) && cam in StateAfter(run, seconds).seen
    ensures var y := StateAfter(run + during, seconds);
            cam in y.seen && y.seen[cam] == StateAfter(run, seconds).seen[cam]
  {
    if during == [] {
      assert run + during == run;
    } else {
      var n := |during| - 1;
      SeenIsHeld(run, during[..n], cam, seconds);
      assert run + during == run + during[..n] + [during[n]];
      RunPlus(run + during[..n], seconds, during[n]);
    }
  }

  /** A segment that is in the archive stays there, as it is. */
  lemma {:induction false} ArchivedStays(run: seq<Attempt>, more: seq<Attempt>, seconds: nat, p: Path)
    requires PossibleRun(run + more, seconds)
    requires p in DiskAfter(run, seconds).archive && Parse(p).Some?
    ensures p in DiskAfter(run + more, seconds).archive
    ensures DiskAfter(run + more, seconds).archive[p] == DiskAfter(run, seconds).archive[p]
  {
    if more == [] {
      assert run + more == run;
    } else {
      var n := |more| - 1;
      assert run + more == run + more[..n] + [more[n]];
      RunPlus(run + more[..n], seconds, more[n]);
      ArchivedStays(run, more[..n], seconds, p);
      GoodAfter(run + more[..n], seconds);
      StaysInStep(StateAfter(run + more[..n], seconds), SegsAfter(run + more[..n]), more[n], seconds, p);
    }
  }

  /** An event bucket written is in the archive, as it is written, until it is
      written again. */
  lemma {:induction false} LoggedStays(run: seq<Attempt>, p: Path, f: File, more: seq<Attempt>, seconds: nat)
    requires PossibleRun(run + [Log(p, f)] + more, seconds)
    requires forall i :: 0 <= i < |more| ==> !(more[i].Log? && more[i].p == p)
    ensures var t := DiskAfter(run + [Log(p, f)] + more, seconds); p in t.archive && t.archive[p] == f
  {
    var logged := run + [Log(p, f)];
    if more == [] {
      assert logged + more == logged;
      RunPlus(run, seconds, Log(p, f));
    } else {
      var n := |more| - 1;
      assert logged + more == logged + more[..n] + [more[n]];
      PossiblePrefix(logged + more[..n], [more[n]], seconds);
      PossiblePrefix(logged, more[..n], seconds);
      assert PossibleRun(run + [Log(p, f)], seconds) && ParseBucket(p).Some? by {
        RunPlus(run, seconds, Log(p, f));
      }
      RunPlus(logged + more[..n], seconds, more[n]);
      LoggedStays(run, p, f, more[..n], seconds);
      hide PossibleRun, StateAfter, ParseBucket;
      BucketStaysInStep(StateAfter(logged + more[..n], seconds), more[n], seconds, p);
    }
  }

  lemma BucketStaysInStep(x: System, a: Attempt, seconds: nat, p: Path)
    requires p in x.d.archive && ParseBucket(p).Some? && !(a.Log? && a.p == p)
    ensures p in Next(x, a, seconds).d.archive && Next(x, a, seconds).d.archive[p] == x.d.archive[p]
  {
    match a
    case Promote(q, route, upTo) =>
      if q in x.d.spool && Parse(q).Some? {
        assert p != TmpOf(q) && p != q;
        hide Parse, ParseBucket, PromoteSteps, TmpOf;
        StepsKeep(x.d, q, route, p);
      }
    case _ =>
      hide RepairedLines, Walks, Parse, ParseBucket;
  }

  lemma StaysInStep(x: System, segs: map<Path, File>, a: Attempt, seconds: nat, p: Path)
    requires Good(x.d, segs) && Possible(x, segs, a) && p in x.d.archive && Parse(p).Some?
    ensures p in Next(x, a, seconds).d.archive && Next(x, a, seconds).d.archive[p] == x.d.archive[p]
  {
    match a
    case Promote(q, route, upTo) =>
      CutStays(x.d, segs, q, route, upTo, p);
    case Log(q, f) =>
      assert p != q;
      hide Good, Parse, ParseBucket;
    case _ =>
      hide RepairedLines, Good, Walks, Parse;
  }

  lemma CutStays(d: Disk, segs: map<Path, File>, q: Path, route: Route, upTo: nat, p: Path)
    requires Good(d, segs) && p in d.archive && Parse(p).Some?
    ensures var t := Cut(d, q, None, route, upTo); p in t.archive && t.archive[p] == d.archive[p]
  {
    hide PromoteSteps, Good, Parse;
    if q in d.spool && Parse(q).Some? {
      EveryStepKeeps(d, segs, q, route, p);
    }
  }

  ghost predicate Keeps(d: Disk, t: Disk, p: Path) {
    p in d.archive ==> p in t.archive && t.archive[p] == d.archive[p]
  }

  lemma DirMadeKeeps(d: Disk, q: Path, cam: nat)
    ensures DirMade(d, q, cam).archive == d.archive && DirMade(d, q, cam).spool == d.spool
  {}

  /** Every state a promotion passes through keeps the other segments. */
  lemma StepsKeep(d: Disk, q: Path, route: Route, p: Path)
    requires q in d.spool && Parse(q).Some? && p in d.archive
    requires p != TmpOf(q) && (q == p ==> d.spool[q] == d.archive[p])
    ensures forall k :: 0 <= k < |PromoteSteps(d, q, None, route)| ==> Keeps(d, PromoteSteps(d, q, None, route)[k], p)
  {
    hide Parse, TmpOf;
    var d0 := DirMade(d, q, Parse(q).value.cam);
    DirMadeKeeps(d, q, Parse(q).value.cam);
    MoveKeeps(d0, q, route, p);
    var moved, steps := MoveSteps(d0, q, route), PromoteSteps(d, q, None, route);
    hide MoveSteps, DirMade;
    forall k | 0 <= k < |steps| ensures Keeps(d, steps[k], p) {
      if 0 < k <= |moved| {
        assert steps[k] == moved[k - 1];
      }
    }
  }

  lemma EveryStepKeeps(d: Disk, segs: map<Path, File>, q: Path, route: Route, p: Path)
    requires Good(d, segs) && q in d.spool && Parse(q).Some? && p in d.archive && Parse(p).Some?
    ensures forall k :: 0 <= k < |PromoteSteps(d, q, None, route)| ==> Keeps(d, PromoteSteps(d, q, None, route)[k], p)
  {
    assert Parse(TmpOf(q)).None?;
    assert q == p ==> d.spool[q] == d.archive[p];
    hide *;
    StepsKeep(d, q, route, p);
  }

  lemma MoveKeeps(d: Disk, q: Path, route: Route, p: Path)
    requires q in d.spool && p in d.archive && p != TmpOf(q) && (q == p ==> d.spool[q] == d.archive[p])
    ensures forall k :: 0 <= k < |MoveSteps(d, q, route)| ==> Keeps(d, MoveSteps(d, q, route)[k], p)
  {
    if route.Copy? {
      TornKeeps(d, q, route.torn, p);
      hide TornSteps;
    }
  }

  lemma {:induction false} TornKeeps(d: Disk, q: Path, torn: seq<File>, p: Path)
    requires p in d.archive && p != TmpOf(q)
    ensures forall k :: 0 <= k < |TornSteps(d, q, torn)| ==> Keeps(d, TornSteps(d, q, torn)[k], p)
  {
    if torn != [] {
      TornKeeps(d, q, torn[..|torn| - 1], p);
    }
  }

  /** Whatever the lines it started from, and whatever happened since its walk,
      a repair leaves what the files said at its walk. */
  lemma {:induction false} ReplaceSaysWhatItSaw(before: seq<Attempt>, cam: nat, walk: seq<Path>, now: real,
          during: seq<Attempt>, seconds: nat, e: Entry)
    requires PossibleRun(Repairing(before, cam, walk, now, during), seconds) && Elsewhere(during, cam)
    ensures multiset(LinesOf(DiskAfter(Repairing(before, cam, walk, now, during), seconds), cam))[e] ==
              if FilesSay(DiskAfter(before, seconds).archive, cam, seconds, now, e) then 1 else 0
  {
    var looked, run := before + [Look(cam, walk, now)], before + [Look(cam, walk, now)] + during;
    RunPlus(run, seconds, Replace(cam));
    PossiblePrefix(looked, during, seconds);
    RunPlus(before, seconds, Look(cam, walk, now));
    hide RepairedLines, PossibleRun, StateAfter;
    var x := StateAfter(before, seconds);
    EveryRunIsGood(before, seconds);
    SeenIsHeld(looked, during, cam, seconds);
    RepairIsExact(x.read[cam], x.d.archive, walk, cam, seconds, now);
    WantedIsWhatFilesSay(x.read[cam], x.d, SegsAfter(before), cam, seconds, now, e);
  }

  /** So of the segments that are in the archive when it replaces the manifest,
      exactly those keep or get their line that were there at its walk. */
  lemma {:induction false} NamedExactlyWhenSeen(before: seq<Attempt>, cam: nat, walk: seq<Path>, now: real,
          during: seq<Attempt>, seconds: nat, p: Path)
    requires PossibleRun(Repairing(before, cam, walk, now, during), seconds) && Elsewhere(during, cam)
    requires IsSegmentOf(p, cam) && p in DiskAfter(Repairing(before, cam, walk, now, during), seconds).archive
    ensures var t := DiskAfter(Repairing(before, cam, walk, now, during), seconds);
            multiset(LinesOf(t, cam))[MediaLine(p, t.archive[p])] == 1 <==> p in DiskAfter(before, seconds).archive
  {
    var run := Repairing(before, cam, walk, now, during);
    var rest := [Look(cam, walk, now)] + during + [Replace(cam)];
    var t := DiskAfter(run, seconds);
    assert before + rest == run;
    ReplaceSaysWhatItSaw(before, cam, walk, now, during, seconds, MediaLine(p, t.archive[p]));
    if p in DiskAfter(before, seconds).archive {
      ArchivedStays(before, rest, seconds, p);
    }
  }

  /** What has been seen can replace the manifest, and touches no file. */
  lemma ReplacePossible(looked: seq<Attempt>, a: Attempt, cam: nat, seconds: nat)
    requires PossibleRun(looked + [a], seconds) && cam in StateAfter(looked, seconds).seen && a.Promote?
    ensures PossibleRun(looked + [a] + [Replace(cam)], seconds)
    ensures DiskAfter(looked + [a] + [Replace(cam)], seconds).archive == DiskAfter(looked + [a], seconds).archive
  {
    hide PossibleRun, StateAfter, Cut;
    RunPlus(looked, seconds, a);
    assert StateAfter(looked + [a], seconds).seen == StateAfter(looked, seconds).seen;
    RunPlus(looked + [a], seconds, Replace(cam));
  }

  /** What was not there at the walk is not named. */
  lemma UnseenIsUnnamed(before: seq<Attempt>, cam: nat, walk: seq<Path>, now: real, during: seq<Attempt>, seconds: nat,
          e: Entry)
    requires PossibleRun(Repairing(before, cam, walk, now, during), seconds) && Elsewhere(during, cam)
    requires e.path !in DiskAfter(before, seconds).archive
    ensures e !in LinesOf(DiskAfter(Repairing(before, cam, walk, now, during), seconds), cam)
  {
    hide PossibleRun, StateAfter, Repairing, Elsewhere;
    ReplaceSaysWhatItSaw(before, cam, walk, now, during, seconds, e);
  }

  lemma LookedIs(before: seq<Attempt>, cam: nat, walk: seq<Path>, now: real, seconds: nat)
    requires PossibleRun(before, seconds) && cam in StateAfter(before, seconds).read
    requires Walks(walk, DiskAfter(before, seconds).archive)
    ensures var looked := before + [Look(cam, walk, now)];
            && PossibleRun(looked, seconds) && cam in StateAfter(looked, seconds).seen
            && DiskAfter(looked, seconds) == DiskAfter(before, seconds)
  {
    hide Walks;
    RunPlus(before, seconds, Look(cam, walk, now));
  }

  /** The failing case: a promotion that runs to its end between walk and
      replacing loses the line it wrote, until the next repair. */
  lemma {:induction false} PromotedMeanwhileIsUnnamed(before: seq<Attempt>, walk: seq<Path>, now: real, p: Path,
          route: Route, upTo: nat, seconds: nat)
    requires PossibleRun(before, seconds) && Parse(p).Some? && Parse(p).value.cam in StateAfter(before, seconds).read
    requires var d := DiskAfter(before, seconds);
             && p in d.spool && p !in d.archive && Walks(walk, d.archive)
             && upTo >= |PromoteSteps(d, p, None, route)|
    ensures var cam := Parse(p).value.cam;
            var promoted := before + [Look(cam, walk, now)] + [Promote(p, route, upTo)];
            var t, u := DiskAfter(promoted, seconds), DiskAfter(promoted + [Replace(cam)], seconds);
            && PossibleRun(promoted + [Replace(cam)], seconds)
            && p in t.archive && MediaLine(p, t.archive[p]) in LinesOf(t, cam)
            && u.archive == t.archive && MediaLine(p, u.archive[p]) !in LinesOf(u, cam)
  {
    hide PossibleRun, StateAfter, DiskAfter, SegsAfter, PromoteSteps, Walks, Repaired, Parse;
    var cam := Parse(p).value.cam;
    var looked, a := before + [Look(cam, walk, now)], Promote(p, route, upTo);
    LookedIs(before, cam, walk, now, seconds);
    PromotedIsNamed(looked, seconds, p, route, upTo, [], now);
    ReplacePossible(looked, a, cam, seconds);
    var t := DiskAfter(looked + [a], seconds);
    UnseenIsUnnamed(before, cam, walk, now, [a], seconds, MediaLine(p, t.archive[p]));
  }
}
