/** What the lines of a manifest say of the files, field by field, and what a
    repair counts. */
module ArchiveLines {
  import opened Archive
  import opened ArchiveLaws
  import opened Decimals
  import opened FiniteSets
  import opened Paths
  import opened StableSort
  import opened Variables

  // ----- the line of a promoted segment

  /** `e` is the line of the segment that camera `cam` began at `start` under
      `epoch`: this path, this many bytes, this end. */
  ghost predicate SegmentSaid(e: Entry, cam: nat, epoch: nat, start: int, f: File, end: real) {
    && e.Media? && e.cam == cam && e.epoch == epoch && e.start == start as real
    && e.path == SegmentPath(cam, epoch, start) && e.bytes == |f.data| && e.end == end
  }

  /** Whatever way the file goes, the last thing a promotion does is to append
      to its camera's manifest the line that says what the writer's path says;
      the end is the one given, or the file's modification time. */
  lemma PromotionSays(d: Disk, cam: nat, epoch: nat, start: int, end: Option<real>, route: Route)
    requires SegmentPath(cam, epoch, start) in d.spool
    ensures var p := SegmentPath(cam, epoch, start);
            && Parse(p).Some?
            && var steps, f := PromoteSteps(d, p, end, route), d.spool[p];
               var lines := LinesOf(steps[|steps| - 1], cam);
               && |lines| == |LinesOf(d, cam)| + 1 && lines[..|LinesOf(d, cam)|] == LinesOf(d, cam)
               && SegmentSaid(lines[|lines| - 1], cam, epoch, start, f, if end.Some? then end.value else f.mtime)
  {
    var p := SegmentPath(cam, epoch, start);
    SegmentPathReadsBack(cam, epoch, start);
    hide SegmentPath;
    var d0 := DirMade(d, p, cam);
    assert LinesOf(d0, cam) == LinesOf(d, cam);
    MoveLeavesLines(d0, p, route);
    var moved := MoveSteps(d0, p, route);
    hide DirMade, MoveSteps;
    var steps := PromoteSteps(d, p, end, route);
    assert steps[|steps| - 1] == LineAdded(moved[|moved| - 1], cam, SegmentLine(d, p, end));
    assert LinesOf(moved[|moved| - 1], cam) == LinesOf(d, cam);
  }

  lemma MoveLeavesLines(d: Disk, p: Path, route: Route)
    requires p in d.spool
    ensures var moved := MoveSteps(d, p, route); moved[|moved| - 1].manifests == d.manifests
  {}

  /** A promotion, uncut, takes the file out of the spool and puts it in the
      archive, and leaves no other file behind. A copy passes through every
      content it is torn at, under the temporary name, with the file still in
      the spool. */
  lemma PromotionMoves(d: Disk, p: Path, end: Option<real>, route: Route)
    requires p in d.spool && Parse(p).Some?
    ensures var steps, tmp := PromoteSteps(d, p, end, route), Path(p.dirs, Tmp(p.leaf));
            var t := steps[|steps| - 1];
            && t.spool == d.spool - {p}
            && t.archive == d.archive[p := d.spool[p]] - (if route.Rename? then {} else {tmp})
            && (route.Copy? ==> forall i :: 0 <= i < |route.torn| ==>
                  exists k :: 0 <= k < |steps| && steps[k].spool == d.spool
                              && steps[k].archive == d.archive[tmp := route.torn[i]])
  {
    var d0 := DirMade(d, p, Parse(p).value.cam);
    var moved, steps := MoveSteps(d0, p, route), PromoteSteps(d, p, end, route);
    assert d0.spool == d.spool && d0.archive == d.archive;
    assert p != TmpOf(p);
    MoveMoves(d0, p, route);
    hide DirMade, MoveSteps;
    if route.Copy? {
      forall i | 0 <= i < |route.torn|
        ensures exists k :: 0 <= k < |steps| && steps[k].spool == d.spool
                            && steps[k].archive == d.archive[TmpOf(p) := route.torn[i]]
      {
        assert steps[i + 1] == moved[i];
      }
    }
  }

  lemma MoveMoves(d: Disk, p: Path, route: Route)
    requires p in d.spool && p != TmpOf(p)
    ensures var moved := MoveSteps(d, p, route);
            var t := moved[|moved| - 1];
            && t.spool == d.spool - {p}
            && t.archive == d.archive[p := d.spool[p]] - (if route.Rename? then {} else {TmpOf(p)})
            && (route.Copy? ==>
                  |moved| == |route.torn| + 3 && forall i :: 0 <= i < |route.torn| ==>
                    moved[i].spool == d.spool && moved[i].archive == d.archive[TmpOf(p) := route.torn[i]])
  {
    if route.Copy? {
      TornAre(d, p, route.torn);
      hide TornSteps;
    }
  }

  lemma {:induction false} TornAre(d: Disk, p: Path, torn: seq<File>)
    ensures |TornSteps(d, p, torn)| == |torn|
    ensures forall i :: 0 <= i < |torn| ==>
              var t := TornSteps(d, p, torn)[i]; t.spool == d.spool && t.archive == d.archive[TmpOf(p) := torn[i]]
  {
    if torn != [] {
      TornAre(d, p, torn[..|torn| - 1]);
    }
  }

  // ----- the lines a repair adds

  predicate MediaNamed(lines: seq<Entry>, p: Path) {
    exists i :: 0 <= i < |lines| && lines[i].Media? && lines[i].path == p
  }

  lemma {:induction false} LastNamingWhen(lines: seq<Entry>, p: Path)
    ensures LastNaming(lines, p).Some? <==> MediaNamed(lines, p)
  {
    if lines != [] {
      var n := |lines| - 1;
      LastNamingWhen(lines[..n], p);
      assert forall i :: 0 <= i < n ==> lines[..n][i] == lines[i];
    }
  }

  /** A segment file that no media line of its camera names gets one line in a
      repair of that camera's manifest, and none in another's; the line says
      what the writer's path says and ends at the modification time. */
  lemma RepairSaysOfSegment(lines: seq<Entry>, archive: map<Path, File>, walk: seq<Path>, seconds: nat, now: real,
          cam: nat, of: nat, epoch: nat, start: int)
    requires Walks(walk, archive) && SegmentPath(of, epoch, start) in archive
    requires !MediaNamed(lines, SegmentPath(of, epoch, start))
    ensures var p := SegmentPath(of, epoch, start);
            var after := RepairedLines(lines, archive, walk, cam, seconds, now);
            && (MediaNamed(after, p) <==> of == cam)
            && forall i :: 0 <= i < |after| && after[i].path == p ==>
                 SegmentSaid(after[i], of, epoch, start, archive[p], archive[p].mtime)
  {
    var p := SegmentPath(of, epoch, start);
    var after := RepairedLines(lines, archive, walk, cam, seconds, now);
    SegmentPathReadsBack(of, epoch, start);
    LastNamingWhen(lines, p);
    RepairIsExact(lines, archive, walk, cam, seconds, now);
    DecimalReadsBack(cam);
    DecimalReadsBack(of);
    assert (IsSegmentOf(p, cam) <==> of == cam) && ParseBucket(p).None?;
    hide RepairedLines, SegmentPath, Parse, IsSegmentOf;
    var e := MediaLine(p, archive[p]);
    forall i | 0 <= i < |after| && after[i].path == p ensures after[i] == e && IsSegmentOf(p, cam) {
      assert after[i] in multiset(after);
    }
    if of == cam {
      assert multiset(after)[e] == 1;
      assert e in multiset(after);
    }
  }

  /** An event bucket has one line in a camera's repaired manifest if it is the
      camera's own and its span is over, and none otherwise; the line says what
      the writer's path says, where the span ends, and how many events the file
      holds. */
  lemma RepairSaysOfBucket(lines: seq<Entry>, archive: map<Path, File>, walk: seq<Path>, seconds: nat, now: real,
          cam: nat, subsystem: string, unit: string, epoch: nat, start: int)
    requires Walks(walk, archive) && BucketPath(subsystem, unit, epoch, start) in archive
    ensures var p := BucketPath(subsystem, unit, epoch, start);
            var after := RepairedLines(lines, archive, walk, cam, seconds, now);
            && (Names(after, p) <==>
                  subsystem == SUB && unit == Decimal(cam) && start as real + seconds as real <= now)
            && forall i :: 0 <= i < |after| && after[i].path == p ==>
                 after[i] == Bucket(subsystem, unit, epoch, start as real, start as real + seconds as real, p,
                                    EventCount(archive[p].data))
  {
    var p := BucketPath(subsystem, unit, epoch, start);
    var after := RepairedLines(lines, archive, walk, cam, seconds, now);
    BucketPathReadsBack(subsystem, unit, epoch, start);
    RepairIsExact(lines, archive, walk, cam, seconds, now);
    assert Parse(p).None? && (IsBucketOf(p, cam) <==> subsystem == SUB && unit == Decimal(cam));
    hide RepairedLines, BucketPath, Parse, ParseBucket, EventCount, IsBucketOf;
    var e := BucketLine(p, archive[p], seconds);
    forall i | 0 <= i < |after| && after[i].path == p ensures after[i] == e && IsBucketOf(p, cam) && e.end <= now {
      assert after[i] in multiset(after);
    }
    if IsBucketOf(p, cam) && e.end <= now {
      assert e in multiset(after);
    }
  }

  /** Closing adds the line of a camera's own bucket if and only if no bucket
      line names it, its span is over, and nobody has written to it for the
      grace; the line says what a repair's would. */
  lemma ClosingSays(lines: seq<Entry>, archive: map<Path, File>, walk: seq<Path>, seconds: nat, now: real, grace: real,
          cam: nat, epoch: nat, start: int)
    requires Walks(walk, archive) && BucketPath(SUB, Decimal(cam), epoch, start) in archive
    ensures forall i :: 0 <= i < |BucketsUnder(walk, archive, cam, seconds)| ==>
              BucketsUnder(walk, archive, cam, seconds)[i].path in archive
    ensures var p := BucketPath(SUB, Decimal(cam), epoch, start);
            var closed := NewlyClosed(BucketsUnder(walk, archive, cam, seconds), lines, archive, now, grace);
            && (Names(closed, p) <==>
                  && !(exists i :: 0 <= i < |lines| && lines[i].Bucket? && lines[i].path == p)
                  && start as real + seconds as real <= now && now - archive[p].mtime >= grace)
            && forall i :: 0 <= i < |closed| && closed[i].path == p ==>
                 closed[i] == Bucket(SUB, Decimal(cam), epoch, start as real, start as real + seconds as real, p,
                                     EventCount(archive[p].data))
  {
    var p := BucketPath(SUB, Decimal(cam), epoch, start);
    BucketPathReadsBack(SUB, Decimal(cam), epoch, start);
    BucketsUnderAre(walk, archive, cam, seconds);
    var bs, e := BucketsUnder(walk, archive, cam, seconds), BucketLine(p, archive[p], seconds);
    OwnBucketListed(walk, archive, cam, seconds, p);
    hide BucketPath, ParseBucket, EventCount, IsBucketOf, BucketsUnder, Walks;
    ClosedNames(bs, lines, archive, now, grace, e);
  }

  lemma OwnBucketListed(walk: seq<Path>, archive: map<Path, File>, cam: nat, seconds: nat, p: Path)
    requires Walks(walk, archive) && p in archive && IsBucketOf(p, cam)
    ensures BucketLine(p, archive[p], seconds) in BucketsUnder(walk, archive, cam, seconds)
  {
    var all, e := BucketLines(walk, archive, cam, seconds), BucketLine(p, archive[p], seconds);
    BucketLinesAre(walk, archive, cam, seconds, e);
    SortedSame(all, KeyOf);
    assert e in multiset(all);
    hide BucketLines, Sorted;
    assert e in multiset(Sorted(all, KeyOf));
  }

  /** Of one path there is one line to close. */
  lemma ClosedNames(bs: seq<Entry>, lines: seq<Entry>, archive: map<Path, File>, now: real, grace: real, e: Entry)
    requires forall i :: 0 <= i < |bs| ==> bs[i].path in archive
    requires e in bs && forall b :: b in bs && b.path == e.path ==> b == e
    ensures var closed := NewlyClosed(bs, lines, archive, now, grace);
            && (Names(closed, e.path) <==>
                  && !(exists i :: 0 <= i < |lines| && lines[i].Bucket? && lines[i].path == e.path)
                  && e.end <= now && now - archive[e.path].mtime >= grace)
            && forall i :: 0 <= i < |closed| && closed[i].path == e.path ==> closed[i] == e
  {
    var closed := NewlyClosed(bs, lines, archive, now, grace);
    NewlyClosedAre(bs, lines, archive, now, grace, e);
    forall i | 0 <= i < |closed| && closed[i].path == e.path ensures closed[i] == e {
      NewlyClosedAre(bs, lines, archive, now, grace, closed[i]);
    }
    hide NewlyClosed;
    if Names(closed, e.path) {
      var i :| 0 <= i < |closed| && closed[i].path == e.path;
      assert closed[i] in closed;
    }
    if e in closed {
      var i :| 0 <= i < |closed| && closed[i] == e;
    }
  }

  /** By start, and by epoch where the start is the same. */
  lemma RepairIsInOrder(lines: seq<Entry>, archive: map<Path, File>, walk: seq<Path>, cam: nat, seconds: nat, now: real,
          i: nat, j: nat)
    requires Walks(walk, archive) && i < j < |RepairedLines(lines, archive, walk, cam, seconds, now)|
    ensures var after := RepairedLines(lines, archive, walk, cam, seconds, now);
            || after[i].start < after[j].start
            || (after[i].start == after[j].start && after[i].epoch <= after[j].epoch)
  {
    RepairIsExact(lines, archive, walk, cam, seconds, now);
    hide RepairedLines;
    var after := RepairedLines(lines, archive, walk, cam, seconds, now);
    assert Leq(KeyOf(after[i]), KeyOf(after[j]));
  }

  // ----- what a repair counts

  function PathsNamed(lines: seq<Entry>): set<Path> {
    set i | 0 <= i < |lines| :: lines[i].path
  }

  lemma PathsNamedOne(lines: seq<Entry>, e: Entry)
    ensures PathsNamed(lines + [e]) == PathsNamed(lines) + {e.path}
  {
    var all := lines + [e];
    forall p ensures p in PathsNamed(all) <==> p in PathsNamed(lines) || p == e.path {
      if p in PathsNamed(lines) {
        var i :| 0 <= i < |lines| && lines[i].path == p;
        assert all[i].path == p;
      }
      assert all[|lines|] == e;
    }
  }

  lemma {:induction false} UpsertNames(ls: seq<Entry>, e: Entry)
    requires DistinctPaths(ls) && Names(ls, e.path)
    ensures DistinctPaths(Upsert(ls, e)) && PathsNamed(Upsert(ls, e)) == PathsNamed(ls)
  {
    UpsertIs(ls, e);
    var us := Upsert(ls, e);
    forall i | 0 <= i < |ls| ensures us[i].path == ls[i].path {}
    forall p ensures p in PathsNamed(us) <==> p in PathsNamed(ls) {
      if p in PathsNamed(ls) {
        var i :| 0 <= i < |ls| && ls[i].path == p;
        assert us[i].path == p;
      }
    }
  }

  lemma {:induction false} ByPathNames(lines: seq<Entry>)
    ensures DistinctPaths(ByPath(lines)) && PathsNamed(ByPath(lines)) == PathsNamed(lines)
  {
    if lines != [] {
      var init, e := lines[..|lines| - 1], lines[|lines| - 1];
      var known := ByPath(init);
      ByPathNames(init);
      assert lines == init + [e];
      PathsNamedOne(init, e);
      PathsNamedOne(known, e);
      if Names(known, e.path) {
        UpsertNames(known, e);
      }
    }
  }

  lemma LastIsNew(xs: seq<Entry>)
    requires DistinctPaths(xs) && xs != []
    ensures var init, e := xs[..|xs| - 1], xs[|xs| - 1];
            DistinctPaths(init) && e.path !in PathsNamed(init) && PathsNamed(xs) == PathsNamed(init) + {e.path}
  {
    PathsNamedOne(xs[..|xs| - 1], xs[|xs| - 1]);
    assert xs == xs[..|xs| - 1] + [xs[|xs| - 1]];
  }

  lemma {:induction false} UnnamedCounts(xs: seq<Entry>, ys: seq<Entry>)
    requires DistinctPaths(xs)
    ensures Unnamed(xs, ys) == |PathsNamed(xs) - PathsNamed(ys)|
  {
    if xs == [] {
      assert PathsNamed(xs) - PathsNamed(ys) == {};
    } else {
      var init, e := xs[..|xs| - 1], xs[|xs| - 1];
      LastIsNew(xs);
      NamesIs(ys, e.path);
      assert Unnamed(xs, ys) == Unnamed(init, ys) + if Names(ys, e.path) then 0 else 1;
      hide *;
      UnnamedCounts(init, ys);
      OneMoreCounts(PathsNamed(init), PathsNamed(ys), e.path);
    }
  }

  lemma OneMoreCounts<T>(a: set<T>, b: set<T>, x: T)
    requires x !in a
    ensures |(a + {x}) - b| == |a - b| + if x in b then 0 else 1
  {
    if x in b {
      assert (a + {x}) - b == a - b;
    } else {
      assert (a + {x}) - b == (a - b) + {x};
    }
  }

  function AsSet(ps: seq<Path>): set<Path> {
    set p | p in ps
  }

  lemma {:induction false} GoneCounts(lines: seq<Entry>, present: seq<Path>)
    requires DistinctPaths(lines)
    ensures Gone(lines, present) == |PathsNamed(lines) - AsSet(present)|
  {
    if lines == [] {
      assert PathsNamed(lines) - AsSet(present) == {};
    } else {
      var init, e := lines[..|lines| - 1], lines[|lines| - 1];
      LastIsNew(lines);
      assert e.path in AsSet(present) <==> e.path in present;
      assert Gone(lines, present) == Gone(init, present) + if e.path in present then 0 else 1;
      hide *;
      GoneCounts(init, present);
      OneMoreCounts(PathsNamed(init), AsSet(present), e.path);
    }
  }

  lemma {:induction false} MissingCounts(known: seq<Entry>, present: seq<Path>, archive: map<Path, File>)
    requires forall i :: 0 <= i < |present| ==> present[i] in archive && Parse(present[i]).Some?
    requires forall i, j :: 0 <= i < j < |present| ==> present[i] != present[j]
    ensures |Missing(known, present, archive)| == |AsSet(present) - PathsNamed(known)|
    ensures PathsNamed(Missing(known, present, archive)) == AsSet(present) - PathsNamed(known)
  {
    if present == [] {
      assert AsSet(present) - PathsNamed(known) == {};
    } else {
      var n := |present| - 1;
      MissingCounts(known, present[..n], archive);
      AsSetOne(present);
      MissingOne(known, present, archive);
      NamesIs(known, present[n]);
      hide *;
      MissingStep(Missing(known, present[..n], archive), Missing(known, present, archive), AsSet(present[..n]),
                  PathsNamed(known), MediaLine(present[n], archive[present[n]]));
    }
  }

  lemma MissingStep(before: seq<Entry>, after: seq<Entry>, a: set<Path>, b: set<Path>, line: Entry)
    requires |before| == |a - b| && PathsNamed(before) == a - b && line.path !in a
    requires after == if line.path in b then before else before + [line]
    ensures |after| == |(a + {line.path}) - b| && PathsNamed(after) == (a + {line.path}) - b
  {
    PathsNamedOne(before, line);
    OneMoreCounts(a, b, line.path);
    OneMoreLess(a, b, line.path);
    hide PathsNamed;
  }

  lemma AsSetOne(ps: seq<Path>)
    requires ps != [] && forall i, j :: 0 <= i < j < |ps| ==> ps[i] != ps[j]
    ensures AsSet(ps) == AsSet(ps[..|ps| - 1]) + {ps[|ps| - 1]} && ps[|ps| - 1] !in AsSet(ps[..|ps| - 1])
  {
    assert ps == ps[..|ps| - 1] + [ps[|ps| - 1]];
  }

  lemma NamesIs(lines: seq<Entry>, p: Path)
    ensures Names(lines, p) <==> p in PathsNamed(lines)
  {}

  lemma OneMoreLess<T>(a: set<T>, b: set<T>, x: T)
    ensures (a + {x}) - b == if x in b then a - b else (a - b) + {x}
  {}

  lemma MissingOne(known: seq<Entry>, present: seq<Path>, archive: map<Path, File>)
    requires present != [] && forall i :: 0 <= i < |present| ==> present[i] in archive && Parse(present[i]).Some?
    ensures var before, p := Missing(known, present[..|present| - 1], archive), present[|present| - 1];
            && Missing(known, present, archive) ==
               (if Names(known, p) then before else before + [MediaLine(p, archive[p])])
            && MediaLine(p, archive[p]).path == p
  {}

  function MediaPaths(lines: seq<Entry>): set<Path> {
    PathsNamed(Filter(lines, IsMedia))
  }

  function EventPaths(lines: seq<Entry>): set<Path> {
    PathsNamed(Filter(lines, IsBucket))
  }

  /** The count of added is that of the paths, of segments and of buckets, that
      the repaired manifest names and the old one did not; the count of dropped
      that of those it no longer names. */
  lemma RepairCounts(lines: seq<Entry>, archive: map<Path, File>, walk: seq<Path>, cam: nat, seconds: nat, now: real)
    requires Walks(walk, archive)
    ensures var after := RepairedLines(lines, archive, walk, cam, seconds, now);
            && AddedBy(lines, archive, walk, cam, seconds, now) ==
               |MediaPaths(after) - MediaPaths(lines)| + |EventPaths(after) - EventPaths(lines)|
            && DroppedBy(lines, archive, walk, cam, seconds, now) ==
               |MediaPaths(lines) - MediaPaths(after)| + |EventPaths(lines) - EventPaths(after)|
  {
    var known, present := ByPath(Filter(lines, IsMedia)), Present(walk, cam);
    var buckets, onDisk := ByPath(Filter(lines, IsBucket)), OnDisk(walk, archive, cam, seconds, now);
    PresentFiles(walk, archive, cam);
    PresentOnce(walk, cam);
    ByPathNames(Filter(lines, IsMedia));
    ByPathNames(Filter(lines, IsBucket));
    OnDiskIs(walk, archive, cam, seconds, now);
    MissingIs(known, present, archive);
    MissingCounts(known, present, archive);
    var missing := Missing(known, present, archive);
    KnownAndMissing(known, missing, AsSet(present));
    GoneCounts(known + missing, present);
    UnnamedCounts(onDisk, buckets);
    UnnamedCounts(buckets, onDisk);
    AfterNames(lines, archive, walk, cam, seconds, now);
    hide ByPath, Present, OnDisk, Missing, Filter, RepairedLines, Gone, Unnamed;
  }

  lemma KnownAndMissing(known: seq<Entry>, missing: seq<Entry>, present: set<Path>)
    requires DistinctPaths(known) && DistinctPaths(missing)
    requires PathsNamed(missing) == present - PathsNamed(known)
    ensures DistinctPaths(known + missing)
    ensures PathsNamed(known + missing) - present == PathsNamed(known) - present
  {
    forall i, j | 0 <= i < |known| && 0 <= j < |missing| ensures known[i].path != missing[j].path {
      assert known[i].path in PathsNamed(known) && missing[j].path in PathsNamed(missing);
    }
    DistinctConcat(known, missing);
    var all := known + missing;
    forall p ensures p in PathsNamed(all) <==> p in PathsNamed(known) || p in PathsNamed(missing) {
      if p in PathsNamed(known) {
        var i :| 0 <= i < |known| && known[i].path == p;
        assert all[i].path == p;
      }
      if p in PathsNamed(missing) {
        var i :| 0 <= i < |missing| && missing[i].path == p;
        assert all[|known| + i].path == p;
      }
    }
  }

  /** The repaired manifest names the segments present and the buckets on disk. */
  lemma AfterNames(lines: seq<Entry>, archive: map<Path, File>, walk: seq<Path>, cam: nat, seconds: nat, now: real)
    requires Walks(walk, archive)
    ensures var after := RepairedLines(lines, archive, walk, cam, seconds, now);
            && MediaPaths(after) == AsSet(Present(walk, cam))
            && EventPaths(after) == PathsNamed(OnDisk(walk, archive, cam, seconds, now))
  {
    var after, onDisk := RepairedLines(lines, archive, walk, cam, seconds, now),
        OnDisk(walk, archive, cam, seconds, now);
    RepairIsExact(lines, archive, walk, cam, seconds, now);
    OnDiskIs(walk, archive, cam, seconds, now);
    hide RepairedLines, OnDisk, MediaPaths, EventPaths, Present;
    forall p ensures p in MediaPaths(after) <==> p in AsSet(Present(walk, cam)) {
      PresentIs(walk, cam, p);
      MediaNames(lines, archive, walk, cam, seconds, now, p);
    }
    forall p ensures p in EventPaths(after) <==> p in PathsNamed(onDisk) {
      EventNames(lines, archive, walk, cam, seconds, now, p);
      OnDiskNames(walk, archive, cam, seconds, now, p);
    }
  }

  lemma MediaNames(lines: seq<Entry>, archive: map<Path, File>, walk: seq<Path>, cam: nat, seconds: nat, now: real,
          p: Path)
    requires Walks(walk, archive)
    ensures p in MediaPaths(RepairedLines(lines, archive, walk, cam, seconds, now)) <==>
            p in archive && IsSegmentOf(p, cam)
  {
    var after := RepairedLines(lines, archive, walk, cam, seconds, now);
    RepairIsExact(lines, archive, walk, cam, seconds, now);
    MediaPathsAre(after, p);
    hide RepairedLines, MediaPaths, EventPaths;
    if p in archive && IsSegmentOf(p, cam) {
      LastNamingNames(lines, p);
      var e := LineFor(lines, p, archive[p]);
      assert Wanted(lines, archive, cam, seconds, now, e);
      assert e in multiset(after);
    }
  }

  ghost predicate ClosedOn(archive: map<Path, File>, cam: nat, seconds: nat, now: real, p: Path) {
    p in archive && IsBucketOf(p, cam) && BucketLine(p, archive[p], seconds).end <= now
  }

  lemma EventNames(lines: seq<Entry>, archive: map<Path, File>, walk: seq<Path>, cam: nat, seconds: nat, now: real,
          p: Path)
    requires Walks(walk, archive)
    ensures p in EventPaths(RepairedLines(lines, archive, walk, cam, seconds, now)) <==>
            ClosedOn(archive, cam, seconds, now, p)
  {
    var after := RepairedLines(lines, archive, walk, cam, seconds, now);
    RepairIsExact(lines, archive, walk, cam, seconds, now);
    EventPathsAre(after, p);
    hide RepairedLines, MediaPaths, EventPaths, Walks, Ordered, DistinctPaths, Wanted, ClosedOn;
    if p in EventPaths(after) {
      var e: Entry :| e in multiset(after) && e.Bucket? && e.path == p;
      WantedIsClosed(lines, archive, cam, seconds, now, e);
    }
    if ClosedOn(archive, cam, seconds, now, p) {
      var e := ClosedIsWanted(lines, archive, cam, seconds, now, p);
      assert e in multiset(after);
    }
  }

  lemma WantedIsClosed(lines: seq<Entry>, archive: map<Path, File>, cam: nat, seconds: nat, now: real, e: Entry)
    requires Wanted(lines, archive, cam, seconds, now, e) && e.Bucket?
    ensures ClosedOn(archive, cam, seconds, now, e.path)
  {}

  lemma ClosedIsWanted(lines: seq<Entry>, archive: map<Path, File>, cam: nat, seconds: nat, now: real, p: Path)
    returns (e: Entry)
    requires ClosedOn(archive, cam, seconds, now, p)
    ensures Wanted(lines, archive, cam, seconds, now, e) && e.Bucket? && e.path == p
  {
    e := BucketLine(p, archive[p], seconds);
  }

  lemma OnDiskNames(walk: seq<Path>, archive: map<Path, File>, cam: nat, seconds: nat, now: real, p: Path)
    requires Walks(walk, archive)
    ensures p in PathsNamed(OnDisk(walk, archive, cam, seconds, now)) <==> ClosedOn(archive, cam, seconds, now, p)
  {
    var onDisk := OnDisk(walk, archive, cam, seconds, now);
    OnDiskIs(walk, archive, cam, seconds, now);
    hide OnDisk;
    if p in PathsNamed(onDisk) {
      var i :| 0 <= i < |onDisk| && onDisk[i].path == p;
      assert onDisk[i] in onDisk;
    }
    if ClosedOn(archive, cam, seconds, now, p) {
      var e := BucketLine(p, archive[p], seconds);
      assert e in onDisk;
      var i :| 0 <= i < |onDisk| && onDisk[i] == e;
    }
  }

  lemma MediaPathsAre(lines: seq<Entry>, p: Path)
    ensures p in MediaPaths(lines) <==> exists e :: e in multiset(lines) && e.Media? && e.path == p
  {
    var media := Filter(lines, IsMedia);
    if p in MediaPaths(lines) {
      var i :| 0 <= i < |media| && media[i].path == p;
      FilterIn(lines, IsMedia, media[i]);
    }
    forall e | e in multiset(lines) && e.Media? && e.path == p ensures p in MediaPaths(lines) {
      FilterIn(lines, IsMedia, e);
      var i :| 0 <= i < |media| && media[i] == e;
    }
  }

  lemma EventPathsAre(lines: seq<Entry>, p: Path)
    ensures p in EventPaths(lines) <==> exists e :: e in multiset(lines) && e.Bucket? && e.path == p
  {
    var buckets := Filter(lines, IsBucket);
    if p in EventPaths(lines) {
      var i :| 0 <= i < |buckets| && buckets[i].path == p;
      FilterIn(lines, IsBucket, buckets[i]);
    }
    forall e | e in multiset(lines) && e.Bucket? && e.path == p ensures p in EventPaths(lines) {
      FilterIn(lines, IsBucket, e);
      var i :| 0 <= i < |buckets| && buckets[i] == e;
    }
  }

  /** How many paths, of segments and of buckets, `us` names and `ls` does not. */
  function NewPaths(ls: seq<Entry>, us: seq<Entry>): nat {
    |MediaPaths(us) - MediaPaths(ls)| + |EventPaths(us) - EventPaths(ls)|
  }

  function LinesIn(ms: map<nat, seq<Entry>>, c: nat): seq<Entry> {
    if c in ms then ms[c] else []
  }

  function AllNewPaths(ms: map<nat, seq<Entry>>, us: map<nat, seq<Entry>>, cams: seq<nat>): nat {
    if cams == [] then 0
    else
      var c := cams[|cams| - 1];
      AllNewPaths(ms, us, cams[..|cams| - 1]) + NewPaths(LinesIn(ms, c), LinesIn(us, c))
  }

  lemma {:induction false} SameNewPaths(ms: map<nat, seq<Entry>>, us: map<nat, seq<Entry>>, vs: map<nat, seq<Entry>>,
          cams: seq<nat>)
    requires forall c :: c in cams ==> LinesIn(us, c) == LinesIn(vs, c)
    ensures AllNewPaths(ms, us, cams) == AllNewPaths(ms, vs, cams)
    ensures AllNewPaths(us, ms, cams) == AllNewPaths(vs, ms, cams)
  {
    hide NewPaths, LinesIn;
    if cams != [] {
      assert cams == cams[..|cams| - 1] + [cams[|cams| - 1]];
      SameNewPaths(ms, us, vs, cams[..|cams| - 1]);
    }
  }

  /** What a repair of these cameras leaves, and what it reports. */
  lemma {:induction false} OneByOne(ms: map<nat, seq<Entry>>, cams: seq<nat>, archive: map<Path, File>, walk: seq<Path>,
          seconds: nat, now: real)
    requires Walks(walk, archive) && Distinct(cams)
    ensures forall c :: LinesIn(RepairedOver(ms, cams, archive, walk, seconds, now), c) ==
                        if c in cams then RepairedLines(LinesIn(ms, c), archive, walk, c, seconds, now)
                        else LinesIn(ms, c)
  {
    hide RepairedLines, Walks;
    if cams != [] {
      var n := |cams| - 1;
      assert cams == cams[..n] + [cams[n]] && cams[n] !in cams[..n];
      OneByOne(ms, cams[..n], archive, walk, seconds, now);
    }
  }

  lemma ReportedLast(ms: map<nat, seq<Entry>>, cams: seq<nat>, archive: map<Path, File>, walk: seq<Path>, seconds: nat,
          now: real)
    requires Walks(walk, archive) && cams != []
    ensures var init, c := cams[..|cams| - 1], cams[|cams| - 1];
            var lines := LinesIn(RepairedOver(ms, init, archive, walk, seconds, now), c);
            && ReportedOver(ms, cams, archive, walk, seconds, now).0 ==
               ReportedOver(ms, init, archive, walk, seconds, now).0 + AddedBy(lines, archive, walk, c, seconds, now)
            && ReportedOver(ms, cams, archive, walk, seconds, now).1 ==
               ReportedOver(ms, init, archive, walk, seconds, now).1 + DroppedBy(lines, archive, walk, c, seconds, now)
  {
    hide AddedBy, DroppedBy, RepairedOver, Walks;
  }

  lemma CountsOf(lines: seq<Entry>, archive: map<Path, File>, walk: seq<Path>, cam: nat, seconds: nat, now: real)
    requires Walks(walk, archive)
    ensures var after := RepairedLines(lines, archive, walk, cam, seconds, now);
            && AddedBy(lines, archive, walk, cam, seconds, now) == NewPaths(lines, after)
            && DroppedBy(lines, archive, walk, cam, seconds, now) == NewPaths(after, lines)
  {
    RepairCounts(lines, archive, walk, cam, seconds, now);
  }

  lemma AllNewLast(ms: map<nat, seq<Entry>>, us: map<nat, seq<Entry>>, cams: seq<nat>)
    requires cams != []
    ensures var c := cams[|cams| - 1];
            AllNewPaths(ms, us, cams) ==
            AllNewPaths(ms, us, cams[..|cams| - 1]) + NewPaths(LinesIn(ms, c), LinesIn(us, c))
  {}

  lemma NoReport(ms: map<nat, seq<Entry>>, archive: map<Path, File>, walk: seq<Path>, seconds: nat, now: real)
    requires Walks(walk, archive)
    ensures ReportedOver(ms, [], archive, walk, seconds, now) == (0, 0)
    ensures forall us :: AllNewPaths(ms, us, []) == 0 && AllNewPaths(us, ms, []) == 0
  {}

  /** Over all cameras, each once, what a repair reports added is how many paths
      the manifests name after it and not before, and dropped the other way
      round. */
  lemma {:induction false} RepairReports(ms: map<nat, seq<Entry>>, cams: seq<nat>, archive: map<Path, File>,
          walk: seq<Path>, seconds: nat, now: real)
    requires Walks(walk, archive) && Distinct(cams)
    ensures var us := RepairedOver(ms, cams, archive, walk, seconds, now);
            && ReportedOver(ms, cams, archive, walk, seconds, now).0 == AllNewPaths(ms, us, cams)
            && ReportedOver(ms, cams, archive, walk, seconds, now).1 == AllNewPaths(us, ms, cams)
  {
    hide *;
    var us := RepairedOver(ms, cams, archive, walk, seconds, now);
    if cams == [] {
      NoReport(ms, archive, walk, seconds, now);
    } else {
      var init, c := cams[..|cams| - 1], cams[|cams| - 1];
      LastOne(ms, cams, archive, walk, seconds, now);
      ReportedLast(ms, cams, archive, walk, seconds, now);
      CountsOf(LinesIn(ms, c), archive, walk, c, seconds, now);
      AllNewLast(ms, us, cams);
      AllNewLast(us, ms, cams);
      RepairReports(ms, init, archive, walk, seconds, now);
      SameNewPaths(ms, us, RepairedOver(ms, init, archive, walk, seconds, now), init);
    }
  }

  lemma LastOne(ms: map<nat, seq<Entry>>, cams: seq<nat>, archive: map<Path, File>, walk: seq<Path>, seconds: nat,
          now: real)
    requires Walks(walk, archive) && Distinct(cams) && cams != []
    ensures var init, c := cams[..|cams| - 1], cams[|cams| - 1];
            var us, vs := RepairedOver(ms, cams, archive, walk, seconds, now),
                RepairedOver(ms, init, archive, walk, seconds, now);
            && Distinct(init)
            && LinesIn(us, c) == RepairedLines(LinesIn(ms, c), archive, walk, c, seconds, now)
            && LinesIn(vs, c) == LinesIn(ms, c)
            && forall d :: d in init ==> LinesIn(us, d) == LinesIn(vs, d)
  {
    var init, c := cams[..|cams| - 1], cams[|cams| - 1];
    assert cams == init + [c] && c !in init;
    OneByOne(ms, cams, archive, walk, seconds, now);
    OneByOne(ms, init, archive, walk, seconds, now);
    hide RepairedOver, RepairedLines, LinesIn, Walks;
  }
}
