/** What `repair` leaves behind, and what a crash anywhere in `promote` cannot
    lose. */
module ArchiveLaws {
  import opened Archive
  import opened Paths
  import opened StableSort
  import opened Variables

  // ----- repair: exactly the lines wanted, each once

  /** The last media line that names `p`. */
  function LastNaming(lines: seq<Entry>, p: Path): Option<Entry> {
    if lines == [] then None
    else
      var e := lines[|lines| - 1];
      if e.Media? && e.path == p then Some(e) else LastNaming(lines[..|lines| - 1], p)
  }

  /** The one media line a present segment should have: the last that names
      it, or the line `promote` would write. */
  function LineFor(lines: seq<Entry>, p: Path, f: File): Entry
    requires Parse(p).Some?
  {
    if LastNaming(lines, p).Some? then LastNaming(lines, p).value else MediaLine(p, f)
  }

  /** The lines a camera's manifest should hold, given the files and the lines
      there were. */
  ghost predicate Wanted(lines: seq<Entry>, archive: map<Path, File>, cam: nat, seconds: nat, now: real, e: Entry) {
    e.path in archive &&
    match e
    case Media(_, _, _, _, p, _) => IsSegmentOf(p, cam) && e == LineFor(lines, p, archive[p])
    case Bucket(_, _, _, _, end, p, _) => IsBucketOf(p, cam) && end <= now && e == BucketLine(p, archive[p], seconds)
  }

  ghost predicate DistinctPaths(ls: seq<Entry>) {
    forall i, j :: 0 <= i < j < |ls| ==> ls[i].path != ls[j].path
  }

  lemma {:induction false} UpsertIs(ls: seq<Entry>, e: Entry)
    requires DistinctPaths(ls) && Names(ls, e.path)
    ensures DistinctPaths(Upsert(ls, e))
    ensures |Upsert(ls, e)| == |ls|
    ensures forall i :: 0 <= i < |ls| ==> Upsert(ls, e)[i] == if ls[i].path == e.path then e else ls[i]
  {
    var init, last := ls[..|ls| - 1], ls[|ls| - 1];
    if last.path != e.path {
      assert Names(init, e.path);
      UpsertIs(init, e);
    }
  }

  /** The dictionary by path keeps, for every path, the last line naming it. */
  lemma {:induction false} ByPathIs(lines: seq<Entry>)
    requires forall i :: 0 <= i < |lines| ==> lines[i].Media?
    ensures DistinctPaths(ByPath(lines))
    ensures forall i :: 0 <= i < |ByPath(lines)| ==> LastNaming(lines, ByPath(lines)[i].path) == Some(ByPath(lines)[i])
    ensures forall p :: LastNaming(lines, p).Some? ==> Names(ByPath(lines), p)
  {
    if lines != [] {
      var init, e := lines[..|lines| - 1], lines[|lines| - 1];
      ByPathIs(init);
      var known := ByPath(init);
      if Names(known, e.path) {
        UpsertIs(known, e);
      }
      forall p | LastNaming(lines, p).Some? ensures Names(ByPath(lines), p) {
        if p == e.path && !Names(known, p) {
          assert (known + [e])[|known|].path == p;
        } else if Names(known, p) {
          var i :| 0 <= i < |known| && known[i].path == p;
          assert ByPath(lines)[i].path == p;
        }
      }
    }
  }

  lemma {:induction false} SurvivingIs(known: seq<Entry>, present: seq<Path>)
    requires DistinctPaths(known)
    ensures DistinctPaths(Surviving(known, present))
    ensures forall e :: e in Surviving(known, present) <==> e in known && e.path in present
  {
    if known != [] {
      var init, last := known[..|known| - 1], known[|known| - 1];
      SurvivingIs(init, present);
      assert known == init + [last];
      forall i | 0 <= i < |Surviving(init, present)| ensures Surviving(init, present)[i].path != last.path {
        assert Surviving(init, present)[i] in init;
      }
    }
  }

  lemma {:induction false} MissingIs(known: seq<Entry>, present: seq<Path>, archive: map<Path, File>)
    requires forall i :: 0 <= i < |present| ==> present[i] in archive && Parse(present[i]).Some?
    requires forall i, j :: 0 <= i < j < |present| ==> present[i] != present[j]
    ensures DistinctPaths(Missing(known, present, archive))
    ensures forall e :: e in Missing(known, present, archive) <==>
              e.path in present && !Names(known, e.path) && e == MediaLine(e.path, archive[e.path])
  {
    if present != [] {
      var init, p := present[..|present| - 1], present[|present| - 1];
      MissingIs(known, init, archive);
      assert present == init + [p];
      forall i | 0 <= i < |Missing(known, init, archive)| ensures Missing(known, init, archive)[i].path != p {
        assert Missing(known, init, archive)[i] in Missing(known, init, archive);
      }
    }
  }

  lemma {:induction false} LastNamingMedia(lines: seq<Entry>, p: Path)
    ensures LastNaming(Filter(lines, IsMedia), p) == LastNaming(lines, p)
  {
    if lines != [] {
      var init, e := lines[..|lines| - 1], lines[|lines| - 1];
      LastNamingMedia(init, p);
      FilterOne(init, e, IsMedia);
      assert lines == init + [e];
      assert (Filter(init, IsMedia) + [e])[..|Filter(init, IsMedia)|] == Filter(init, IsMedia);
    }
  }

  lemma {:induction false} PresentOnce(walk: seq<Path>, cam: nat)
    requires forall i, j :: 0 <= i < j < |walk| ==> walk[i] != walk[j]
    ensures forall i, j :: 0 <= i < j < |Present(walk, cam)| ==> Present(walk, cam)[i] != Present(walk, cam)[j]
  {
    if walk != [] {
      var init, p := walk[..|walk| - 1], walk[|walk| - 1];
      PresentOnce(init, cam);
      forall i | 0 <= i < |Present(init, cam)| ensures Present(init, cam)[i] != p {
        PresentIs(init, cam, Present(init, cam)[i]);
      }
    }
  }

  lemma DistinctConcat(a: seq<Entry>, b: seq<Entry>)
    requires DistinctPaths(a) && DistinctPaths(b)
    requires forall i, j :: 0 <= i < |a| && 0 <= j < |b| ==> a[i].path != b[j].path
    ensures DistinctPaths(a + b)
  {}

  lemma {:induction false} DistinctOnce(s: seq<Entry>, e: Entry)
    requires DistinctPaths(s)
    ensures multiset(s)[e] == if e in s then 1 else 0
  {
    if s != [] {
      DistinctOnce(s[..|s| - 1], e);
      assert s == s[..|s| - 1] + [s[|s| - 1]];
    }
  }

  /** The last line of a path names it, and is a media line. */
  lemma {:induction false} LastNamingNames(lines: seq<Entry>, p: Path)
    ensures LastNaming(lines, p).Some? ==>
              && LastNaming(lines, p).value.Media? && LastNaming(lines, p).value.path == p
              && LastNaming(lines, p).value in lines
  {
    if lines != [] {
      LastNamingNames(lines[..|lines| - 1], p);
      assert lines == lines[..|lines| - 1] + [lines[|lines| - 1]];
    }
  }

  /** The media part of the repaired manifest. */
  lemma MediaAfterIs(lines: seq<Entry>, archive: map<Path, File>, walk: seq<Path>, cam: nat)
    requires Walks(walk, archive)
    ensures DistinctPaths(MediaAfter(lines, archive, walk, cam))
    ensures forall e :: e in MediaAfter(lines, archive, walk, cam) <==>
              e.path in archive && IsSegmentOf(e.path, cam) && e == LineFor(lines, e.path, archive[e.path])
  {
    var media, present := Filter(lines, IsMedia), Present(walk, cam);
    var known := ByPath(media);
    PresentFiles(walk, archive, cam);
    PresentOnce(walk, cam);
    FilterHolds(lines, IsMedia);
    ByPathIs(media);
    MissingIs(known, present, archive);
    var missing := Missing(known, present, archive);
    forall i, j | 0 <= i < |known| && 0 <= j < |missing| ensures known[i].path != missing[j].path {
      assert missing[j] in missing;
    }
    DistinctConcat(known, missing);
    SurvivingIs(known + missing, present);
    forall e ensures e in MediaAfter(lines, archive, walk, cam) <==>
                       e.path in archive && IsSegmentOf(e.path, cam) && e == LineFor(lines, e.path, archive[e.path])
    {
      PresentIs(walk, cam, e.path);
      LastNamingMedia(lines, e.path);
      LastNamingNames(lines, e.path);
      KnownIs(media, known, e);
    }
  }

  lemma KnownIs(media: seq<Entry>, known: seq<Entry>, e: Entry)
    requires forall i :: 0 <= i < |known| ==> LastNaming(media, known[i].path) == Some(known[i])
    requires forall p :: LastNaming(media, p).Some? ==> Names(known, p)
    ensures e in known <==> LastNaming(media, e.path) == Some(e)
    ensures Names(known, e.path) <==> LastNaming(media, e.path).Some?
  {
    if Names(known, e.path) {
      var i :| 0 <= i < |known| && known[i].path == e.path;
    }
  }

  // ----- the buckets

  lemma {:induction false} BucketLinesOnce(walk: seq<Path>, archive: map<Path, File>, cam: nat, seconds: nat)
    requires forall i, j :: 0 <= i < j < |walk| ==> walk[i] != walk[j]
    requires forall i :: 0 <= i < |walk| ==> walk[i] in archive
    ensures DistinctPaths(BucketLines(walk, archive, cam, seconds))
  {
    if walk != [] {
      var init, p := walk[..|walk| - 1], walk[|walk| - 1];
      BucketLinesOnce(init, archive, cam, seconds);
      var bs := BucketLines(init, archive, cam, seconds);
      forall i | 0 <= i < |bs| ensures bs[i].path != p {
        BucketLinesAre(init, archive, cam, seconds, bs[i]);
      }
    }
  }

  lemma SameDistinct(s: seq<Entry>, t: seq<Entry>)
    requires DistinctPaths(s) && multiset(s) == multiset(t)
    ensures DistinctPaths(t)
  {
    forall i, j | 0 <= i < j < |t| ensures t[i].path != t[j].path {
      assert t[i] in multiset(t) && t[j] in multiset(t);
      DistinctOnce(s, t[i]);
      TwiceCounts(t, i, j);
      var k :| 0 <= k < |s| && s[k] == t[i];
      var l :| 0 <= l < |s| && s[l] == t[j];
      assert k < l || l < k;
    }
  }

  lemma TwiceCounts<T>(t: seq<T>, i: nat, j: nat)
    requires i < j < |t|
    ensures t[i] == t[j] ==> multiset(t)[t[i]] >= 2
  {
    assert t == t[..i] + [t[i]] + t[i + 1..j] + [t[j]] + t[j + 1..];
  }

  lemma {:induction false} ClosedByIs(bs: seq<Entry>, now: real)
    requires DistinctPaths(bs)
    ensures DistinctPaths(ClosedBy(bs, now))
    ensures forall e :: e in ClosedBy(bs, now) <==> e in bs && e.end <= now
  {
    if bs != [] {
      var init, last := bs[..|bs| - 1], bs[|bs| - 1];
      ClosedByIs(init, now);
      assert bs == init + [last];
      forall i | 0 <= i < |ClosedBy(init, now)| ensures ClosedBy(init, now)[i].path != last.path {
        assert ClosedBy(init, now)[i] in init;
      }
    }
  }

  lemma OnDiskIs(walk: seq<Path>, archive: map<Path, File>, cam: nat, seconds: nat, now: real)
    requires Walks(walk, archive)
    ensures var bs := OnDisk(walk, archive, cam, seconds, now);
            && DistinctPaths(bs)
            && forall e :: e in bs <==>
                 && e.path in archive && IsBucketOf(e.path, cam) && e.end <= now
                 && e == BucketLine(e.path, archive[e.path], seconds)
  {
    var all := BucketLines(walk, archive, cam, seconds);
    BucketLinesOnce(walk, archive, cam, seconds);
    SortedSame(all, KeyOf);
    SameDistinct(all, Sorted(all, KeyOf));
    ClosedByIs(Sorted(all, KeyOf), now);
    forall e ensures e in Sorted(all, KeyOf) <==>
                       e.path in archive && IsBucketOf(e.path, cam) && e == BucketLine(e.path, archive[e.path], seconds)
    {
      BucketLinesAre(walk, archive, cam, seconds, e);
      assert e in Sorted(all, KeyOf) <==> e in multiset(Sorted(all, KeyOf));
      assert e in all <==> e in multiset(all);
    }
  }

  /** The repaired manifest holds exactly the wanted lines, each once, in
      (start, epoch) order: one media line per archived segment and one line
      per closed bucket, and nothing else. */
  lemma {:induction false} RepairIsExact(lines: seq<Entry>, archive: map<Path, File>, walk: seq<Path>, cam: nat,
          seconds: nat, now: real)
    requires Walks(walk, archive)
    ensures var after := RepairedLines(lines, archive, walk, cam, seconds, now);
            && Ordered(after, KeyOf)
            && DistinctPaths(after)
            && forall e :: multiset(after)[e] == if Wanted(lines, archive, cam, seconds, now, e) then 1 else 0
  {
    var m, b := MediaAfter(lines, archive, walk, cam), OnDisk(walk, archive, cam, seconds, now);
    MediaAfterIs(lines, archive, walk, cam);
    OnDiskIs(walk, archive, cam, seconds, now);
    forall i, j | 0 <= i < |m| && 0 <= j < |b| ensures m[i].path != b[j].path {
      assert m[i] in m && b[j] in b;
    }
    DistinctConcat(m, b);
    SortedOrdered(m + b, KeyOf);
    SortedSame(m + b, KeyOf);
    SameDistinct(m + b, Sorted(m + b, KeyOf));
    forall e ensures multiset(m + b)[e] == if Wanted(lines, archive, cam, seconds, now, e) then 1 else 0 {
      DistinctOnce(m + b, e);
      LastNamingNames(lines, e.path);
      assert e in m + b <==> e in m || e in b;
    }
  }

  // ----- a second repair changes nothing

  lemma {:induction false} ByPathFixed(ls: seq<Entry>)
    requires DistinctPaths(ls)
    ensures ByPath(ls) == ls
  {
    if ls != [] {
      var init, last := ls[..|ls| - 1], ls[|ls| - 1];
      ByPathFixed(init);
      assert !Names(init, last.path);
      assert ByPath(ls) == init + [last];
    }
  }

  lemma {:induction false} SurvivingAll(ls: seq<Entry>, present: seq<Path>)
    requires forall i :: 0 <= i < |ls| ==> ls[i].path in present
    ensures Surviving(ls, present) == ls && Gone(ls, present) == 0
  {
    if ls != [] {
      SurvivingAll(ls[..|ls| - 1], present);
      assert ls == ls[..|ls| - 1] + [ls[|ls| - 1]];
    }
  }

  lemma {:induction false} MissingNone(known: seq<Entry>, present: seq<Path>, archive: map<Path, File>)
    requires forall i :: 0 <= i < |present| ==>
               present[i] in archive && Parse(present[i]).Some? && Names(known, present[i])
    ensures Missing(known, present, archive) == []
  {
    if present != [] {
      MissingNone(known, present[..|present| - 1], archive);
    }
  }

  lemma {:induction false} UnnamedNone(xs: seq<Entry>, ys: seq<Entry>)
    requires forall i :: 0 <= i < |xs| ==> Names(ys, xs[i].path)
    ensures Unnamed(xs, ys) == 0
  {
    if xs != [] {
      UnnamedNone(xs[..|xs| - 1], ys);
    }
  }

  lemma SortedNames(ls: seq<Entry>, e: Entry)
    ensures e in Sorted(ls, KeyOf) <==> e in ls
    ensures e in ls ==> Names(Sorted(ls, KeyOf), e.path) && Names(ls, e.path)
  {
    SortedSame(ls, KeyOf);
    assert e in multiset(Sorted(ls, KeyOf)) <==> e in multiset(ls);
  }

  /** The media and the bucket lines of a repaired manifest. */
  lemma RepairedParts(m: seq<Entry>, b: seq<Entry>)
    requires forall i :: 0 <= i < |m| ==> m[i].Media?
    requires forall i :: 0 <= i < |b| ==> b[i].Bucket?
    ensures Filter(Sorted(m + b, KeyOf), IsMedia) == Sorted(m, KeyOf)
    ensures Filter(Sorted(m + b, KeyOf), IsBucket) == Sorted(b, KeyOf)
  {
    FilterSorted(m + b, KeyOf, IsMedia);
    FilterSorted(m + b, KeyOf, IsBucket);
    FilterAppend(m, b, IsMedia);
    FilterAppend(m, b, IsBucket);
    FilterAll(m, IsMedia);
    FilterNone(m, IsBucket);
    FilterAll(b, IsBucket);
    FilterNone(b, IsMedia);
    assert m + [] == m && [] + b == b;
  }

  lemma PartKinds(lines: seq<Entry>, archive: map<Path, File>, walk: seq<Path>, cam: nat, seconds: nat, now: real)
    requires Walks(walk, archive)
    ensures forall i :: 0 <= i < |MediaAfter(lines, archive, walk, cam)| ==>
        MediaAfter(lines, archive, walk, cam)[i].Media?
    ensures var b := OnDisk(walk, archive, cam, seconds, now);
            forall i :: 0 <= i < |b| ==> b[i].Bucket?
  {
    var m := MediaAfter(lines, archive, walk, cam);
    MediaAfterIs(lines, archive, walk, cam);
    OnDiskIs(walk, archive, cam, seconds, now);
    forall i | 0 <= i < |m| ensures m[i].Media? {
      assert m[i] in m;
      LastNamingNames(lines, m[i].path);
    }
    var b := OnDisk(walk, archive, cam, seconds, now);
    forall i | 0 <= i < |b| ensures b[i].Bucket? {
      assert b[i] in b;
    }
  }

  /** A repaired manifest's media lines, sorted, are their own repair. */
  lemma MediaAfterFixed(lines: seq<Entry>, archive: map<Path, File>, walk: seq<Path>, cam: nat, after: seq<Entry>)
    requires Walks(walk, archive)
    requires Filter(after, IsMedia) == Sorted(MediaAfter(lines, archive, walk, cam), KeyOf)
    ensures MediaAfter(after, archive, walk, cam) == Filter(after, IsMedia)
    ensures ByPath(Filter(after, IsMedia)) == Filter(after, IsMedia)
    ensures (PresentFiles(walk, archive, cam); Missing(Filter(after, IsMedia), Present(walk, cam), archive)) == []
    ensures Gone(Filter(after, IsMedia), Present(walk, cam)) == 0
  {
    var m, present := MediaAfter(lines, archive, walk, cam), Present(walk, cam);
    var sm := Sorted(m, KeyOf);
    PresentFiles(walk, archive, cam);
    MediaAfterIs(lines, archive, walk, cam);
    SortedSame(m, KeyOf);
    SameDistinct(m, sm);
    ByPathFixed(sm);
    forall i | 0 <= i < |present| ensures Names(sm, present[i]) {
      var e := LineFor(lines, present[i], archive[present[i]]);
      LastNamingNames(lines, present[i]);
      SortedNames(m, e);
    }
    MissingNone(sm, present, archive);
    forall i | 0 <= i < |sm| ensures sm[i].path in present {
      SortedNames(m, sm[i]);
      PresentIs(walk, cam, sm[i].path);
    }
    assert sm + [] == sm;
    SurvivingAll(sm, present);
  }

  /** `repair` twice is `repair` once, and the second time reports nothing. */
  lemma {:induction false} RepairTwiceIsOnce(lines: seq<Entry>, archive: map<Path, File>, walk: seq<Path>, cam: nat,
          seconds: nat, now: real)
    requires Walks(walk, archive)
    ensures var after := RepairedLines(lines, archive, walk, cam, seconds, now);
            && RepairedLines(after, archive, walk, cam, seconds, now) == after
            && AddedBy(after, archive, walk, cam, seconds, now) == 0
            && DroppedBy(after, archive, walk, cam, seconds, now) == 0
  {
    var m, b := MediaAfter(lines, archive, walk, cam), OnDisk(walk, archive, cam, seconds, now);
    var after := Sorted(m + b, KeyOf);
    PartKinds(lines, archive, walk, cam, seconds, now);
    RepairedParts(m, b);
    MediaAfterFixed(lines, archive, walk, cam, after);
    SortedPrefix(m, b, KeyOf);
    BucketsFixed(walk, archive, cam, seconds, now);
    PresentFiles(walk, archive, cam);
    assert Sorted(m, KeyOf) + [] == Sorted(m, KeyOf);
  }

  /** Over all cameras: a second repair at the same time reports nothing added
      and nothing dropped. */
  lemma {:induction false} SecondRepairReportsNothing(ms: map<nat, seq<Entry>>, cams: seq<nat>, some: seq<nat>,
          archive: map<Path, File>, walk: seq<Path>, seconds: nat, now: real)
    requires Walks(walk, archive)
    requires forall c :: c in cams ==> c in ms
    requires forall i, j :: 0 <= i < j < |cams| ==> cams[i] != cams[j]
    requires |some| <= |cams| && some == cams[..|some|]
    ensures var m := RepairedOver(ms, cams, archive, walk, seconds, now);
            && RepairedOver(m, some, archive, walk, seconds, now) == m
            && ReportedOver(m, some, archive, walk, seconds, now) == (0, 0)
    decreases |some|
  {
    hide RepairedLines, AddedBy, DroppedBy;
    if some != [] {
      var m := RepairedOver(ms, cams, archive, walk, seconds, now);
      var init, c := some[..|some| - 1], some[|some| - 1];
      SecondRepairReportsNothing(ms, cams, init, archive, walk, seconds, now);
      RepairedOverEach(ms, cams, archive, walk, seconds, now);
      assert c == cams[|some| - 1] && c in cams;
      RepairTwiceIsOnce(ms[c], archive, walk, c, seconds, now);
      assert m[c := m[c]] == m;
    }
  }

  lemma BucketsFixed(walk: seq<Path>, archive: map<Path, File>, cam: nat, seconds: nat, now: real)
    requires Walks(walk, archive)
    ensures var b := OnDisk(walk, archive, cam, seconds, now);
            && ByPath(Sorted(b, KeyOf)) == Sorted(b, KeyOf)
            && Unnamed(b, Sorted(b, KeyOf)) == 0 && Unnamed(Sorted(b, KeyOf), b) == 0
  {
    var b := OnDisk(walk, archive, cam, seconds, now);
    var sb := Sorted(b, KeyOf);
    OnDiskIs(walk, archive, cam, seconds, now);
    SortedSame(b, KeyOf);
    SameDistinct(b, sb);
    ByPathFixed(sb);
    forall i | 0 <= i < |b| ensures Names(sb, b[i].path) {
      SortedNames(b, b[i]);
    }
    forall i | 0 <= i < |sb| ensures Names(b, sb[i].path) {
      SortedNames(b, sb[i]);
    }
    UnnamedNone(b, sb);
    UnnamedNone(sb, b);
  }

  /** Closing the buckets after a repair at the same time adds nothing. */
  lemma CloseAfterRepairAddsNothing(lines: seq<Entry>, archive: map<Path, File>, walk: seq<Path>, cam: nat,
          seconds: nat, now: real, grace: real)
    requires Walks(walk, archive)
    ensures (BucketsUnderAre(walk, archive, cam, seconds);
             NewlyClosed(BucketsUnder(walk, archive, cam, seconds),
                         RepairedLines(lines, archive, walk, cam, seconds, now), archive, now, grace)) == []
  {
    var bs, after := BucketsUnder(walk, archive, cam, seconds), RepairedLines(lines, archive, walk, cam, seconds, now);
    BucketsUnderAre(walk, archive, cam, seconds);
    OnDiskIs(walk, archive, cam, seconds, now);
    RepairIsExact(lines, archive, walk, cam, seconds, now);
    forall i | 0 <= i < |bs| ensures NamedByBucket(after, bs[i].path) || bs[i].end > now {
      if bs[i].end <= now {
        assert Wanted(lines, archive, cam, seconds, now, bs[i]);
        assert bs[i] in multiset(after);
        var j :| 0 <= j < |after| && after[j] == bs[i];
      }
    }
    NothingCloses(bs, after, archive, now, grace);
  }

  lemma {:induction false} NothingCloses(bs: seq<Entry>, lines: seq<Entry>, archive: map<Path, File>, now: real,
          grace: real)
    requires forall i :: 0 <= i < |bs| ==>
        bs[i].path in archive && (NamedByBucket(lines, bs[i].path) || bs[i].end > now)
    ensures NewlyClosed(bs, lines, archive, now, grace) == []
  {
    if bs != [] {
      NothingCloses(bs[..|bs| - 1], lines, archive, now, grace);
    }
  }

  // ----- closing and retaining

  /** The lines `close_buckets` appends: buckets no line names, over, and
      quiet for the grace. */
  lemma {:induction false} NewlyClosedAre(bs: seq<Entry>, lines: seq<Entry>, archive: map<Path, File>, now: real,
          grace: real, b: Entry)
    requires forall i :: 0 <= i < |bs| ==> bs[i].path in archive
    ensures b in NewlyClosed(bs, lines, archive, now, grace) <==>
              && b in bs && !(exists i :: 0 <= i < |lines| && lines[i].Bucket? && lines[i].path == b.path)
              && b.end <= now && now - archive[b.path].mtime >= grace
  {
    if bs != [] {
      NewlyClosedAre(bs[..|bs| - 1], lines, archive, now, grace, b);
      assert bs == bs[..|bs| - 1] + [bs[|bs| - 1]];
    }
  }

  lemma {:induction false} UnexpiredAre(lines: seq<Entry>, cutoff: real, e: Entry)
    ensures e in Unexpired(lines, cutoff) <==> e in lines && e.end >= cutoff
  {
    if lines != [] {
      UnexpiredAre(lines[..|lines| - 1], cutoff, e);
      assert lines == lines[..|lines| - 1] + [lines[|lines| - 1]];
    }
  }

  /** Retention leaves every bucket line and every media line not yet expired;
      and with one line a path, each media line left still has its file. */
  lemma RetainedAre(lines: seq<Entry>, archive: map<Path, File>, cutoff: real, e: Entry)
    ensures e in RetainedLines(lines, cutoff) <==> e in lines && (e.Bucket? || e.end >= cutoff)
    ensures DistinctPaths(lines) && e in RetainedLines(lines, cutoff) && e.path in archive ==>
              e.path in archive - Expired(lines, cutoff)
  {
    var media, buckets := Filter(lines, IsMedia), Filter(lines, IsBucket);
    FilterIn(lines, IsMedia, e);
    FilterIn(lines, IsBucket, e);
    UnexpiredAre(media, cutoff, e);
    SortedNames(Kept(lines, cutoff) + buckets, e);
    if DistinctPaths(lines) && e in lines && e.path in Expired(lines, cutoff) {
      var i :| 0 <= i < |lines| && lines[i].Media? && lines[i].end < cutoff && lines[i].path == e.path;
      var j :| 0 <= j < |lines| && lines[j] == e;
      assert i == j;
    }
  }

  /** A step of a retention cut short there: no file has gone that was not
      expired, and no file that is still there has lost its line. */
  ghost predicate CutSafely(d: Disk, cam: nat, cutoff: real, t: Disk) {
    && t.spool == d.spool && t.archive.Keys >= (d.archive - Expired(LinesOf(d, cam), cutoff)).Keys
    && (forall p :: p in t.archive ==> p in d.archive && t.archive[p] == d.archive[p])
    && (forall c :: c != cam ==> LinesOf(t, c) == LinesOf(d, c))
    && (forall e :: e in LinesOf(d, cam) && e.path in t.archive ==> e in LinesOf(t, cam))
    && (forall e :: e in LinesOf(t, cam) ==> e in LinesOf(d, cam))
  }

  /** Retention loses files before lines: wherever it is cut, every file still
      there has its line. */
  lemma {:induction false} RetainCutAnywhere(d: Disk, cam: nat, cutoff: real, k: nat)
    requires DistinctPaths(LinesOf(d, cam)) && k < |RetainSteps(d, cam, cutoff)|
    ensures CutSafely(d, cam, cutoff, RetainSteps(d, cam, cutoff)[k])
  {
    var lines := LinesOf(d, cam);
    var media := Filter(lines, IsMedia);
    var steps := RemoveSteps(d, media, cutoff);
    ExpiredAreMedia(lines, cutoff);
    if k < |steps| {
      RemoveStepIs(d, media, cutoff, k);
    } else {
      var t := RetainSteps(d, cam, cutoff)[k];
      assert LinesOf(t, cam) == RetainedLines(lines, cutoff);
      forall e: Entry
        ensures e in RetainedLines(lines, cutoff) ==> e in lines
        ensures e in lines && e.path in t.archive ==> e in RetainedLines(lines, cutoff)
      {
        RetainedAre(lines, d.archive, cutoff, e);
        if e in lines && e.Media? && e.end < cutoff {
          var i :| 0 <= i < |lines| && lines[i] == e;
          assert e.path in Expired(lines, cutoff);
        }
      }
    }
  }

  lemma {:induction false} RemoveStepIs(d: Disk, media: seq<Entry>, cutoff: real, k: nat)
    requires k < |RemoveSteps(d, media, cutoff)|
    ensures var t := RemoveSteps(d, media, cutoff)[k];
            && t.spool == d.spool && t.manifests == d.manifests
            && t.archive.Keys >= (d.archive - Expired(media, cutoff)).Keys
            && forall p :: p in t.archive ==> p in d.archive && t.archive[p] == d.archive[p]
  {
    var n := |media| - 1;
    assert Expired(media[..n], cutoff) <= Expired(media, cutoff);
    if k < |RemoveSteps(d, media[..n], cutoff)| {
      RemoveStepIs(d, media[..n], cutoff, k);
    }
  }
}
