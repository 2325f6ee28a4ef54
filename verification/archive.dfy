/** One server's archive: the spool beside it, the media and event buckets in
    it, and a manifest per camera that indexes them. */
module Archive {
  import opened Decimals
  import opened Paths
  import opened StableSort
  import opened Variables

  datatype File = File(data: string, mtime: real)

  /** A manifest line. */
  datatype Entry =
    | Media(cam: nat, epoch: nat, start: real, end: real, path: Path, bytes: nat)
    | Bucket(subsystem: string, unit: string, epoch: nat, start: real, end: real, path: Path, events: nat)

  /** `manifests` has a key for every camera directory; one without a manifest
      reads as no lines. */
  datatype Disk = Disk(spool: map<Path, File>, archive: map<Path, File>, manifests: map<nat, seq<Entry>>)

  function KeyOf(e: Entry): Key {
    Key(e.start, e.epoch as real)
  }

  predicate IsMedia(e: Entry) {
    e.Media?
  }

  /** The last line so far is not blank. */
  predicate Started(data: string) {
    data != "" && data[|data| - 1] != '\n' && (data[|data| - 1] !in " \t\r" || Started(data[..|data| - 1]))
  }

  /** The lines of a bucket that are not blank. */
  function EventCount(data: string): nat {
    if data == "" then 0
    else EventCount(data[..|data| - 1]) + if Started(data) && !Started(data[..|data| - 1]) then 1 else 0
  }

  function MediaLineTo(p: Path, f: File, end: real): Entry
    requires Parse(p).Some?
  {
    var k := Parse(p).value;
    Media(k.cam, k.epoch, k.start as real, end, p, |f.data|)
  }

  /** The line of a segment whose end nobody gave: its modification time. */
  function MediaLine(p: Path, f: File): Entry
    requires Parse(p).Some?
  {
    MediaLineTo(p, f, f.mtime)
  }

  function BucketLine(p: Path, f: File, seconds: nat): Entry
    requires ParseBucket(p).Some?
  {
    var k := ParseBucket(p).value;
    Bucket(k.subsystem, k.unit, k.epoch, k.start as real, (k.start + seconds) as real, p, EventCount(f.data))
  }

  /** Under the directory of this camera. */
  predicate Under(p: Path, cam: nat) {
    |p.dirs| >= 2 && p.dirs[0] == SUB && p.dirs[1] == Decimal(cam)
  }

  predicate IsSegmentOf(p: Path, cam: nat) {
    Under(p, cam) && Parse(p).Some?
  }

  predicate IsBucketOf(p: Path, cam: nat) {
    Under(p, cam) && ParseBucket(p).Some?
  }

  // ----- repair, on values

  /** `{s.path: s for s in lines}`: the last line of a path wins, where its
      first stood. */
  function Upsert(ls: seq<Entry>, e: Entry): seq<Entry> {
    if ls == [] then [e]
    else if ls[|ls| - 1].path == e.path then ls[..|ls| - 1] + [e]
    else Upsert(ls[..|ls| - 1], e) + [ls[|ls| - 1]]
  }

  function ByPath(lines: seq<Entry>): seq<Entry> {
    if lines == [] then [] else
      var known := ByPath(lines[..|lines| - 1]);
      var e := lines[|lines| - 1];
      if Names(known, e.path) then Upsert(known, e) else known + [e]
  }

  predicate Names(lines: seq<Entry>, p: Path) {
    exists i :: 0 <= i < |lines| && lines[i].path == p
  }

  function Present(walk: seq<Path>, cam: nat): seq<Path> {
    if walk == [] then []
    else if IsSegmentOf(walk[|walk| - 1], cam) then Present(walk[..|walk| - 1], cam) + [walk[|walk| - 1]]
    else Present(walk[..|walk| - 1], cam)
  }

  /** Lines for the files that no line names. */
  function Missing(known: seq<Entry>, present: seq<Path>, archive: map<Path, File>): seq<Entry>
    requires forall i :: 0 <= i < |present| ==> present[i] in archive && Parse(present[i]).Some?
  {
    if present == [] then []
    else
      var p := present[|present| - 1];
      var before := Missing(known, present[..|present| - 1], archive);
      if Names(known, p) then before else before + [MediaLine(p, archive[p])]
  }

  /** The lines whose file is there. */
  function Surviving(known: seq<Entry>, present: seq<Path>): seq<Entry> {
    if known == [] then []
    else
      var last := known[|known| - 1];
      var before := Surviving(known[..|known| - 1], present);
      if last.path in present then before + [last] else before
  }

  function BucketLines(walk: seq<Path>, archive: map<Path, File>, cam: nat, seconds: nat): seq<Entry>
    requires forall i :: 0 <= i < |walk| ==> walk[i] in archive
  {
    if walk == [] then []
    else
      var p := walk[|walk| - 1];
      var before := BucketLines(walk[..|walk| - 1], archive, cam, seconds);
      if IsBucketOf(p, cam) then before + [BucketLine(p, archive[p], seconds)] else before
  }

  /** `buckets_under`. */
  function BucketsUnder(walk: seq<Path>, archive: map<Path, File>, cam: nat, seconds: nat): seq<Entry>
    requires forall i :: 0 <= i < |walk| ==> walk[i] in archive
  {
    Sorted(BucketLines(walk, archive, cam, seconds), KeyOf)
  }

  function ClosedBy(bs: seq<Entry>, now: real): seq<Entry> {
    if bs == [] then []
    else if bs[|bs| - 1].end <= now then ClosedBy(bs[..|bs| - 1], now) + [bs[|bs| - 1]]
    else ClosedBy(bs[..|bs| - 1], now)
  }

  /** The closed buckets, as `repair` lists them. */
  function OnDisk(walk: seq<Path>, archive: map<Path, File>, cam: nat, seconds: nat, now: real): seq<Entry>
    requires forall i :: 0 <= i < |walk| ==> walk[i] in archive
  {
    ClosedBy(BucketsUnder(walk, archive, cam, seconds), now)
  }

  /** The walk of the archive: every file, once. */
  predicate Walks(walk: seq<Path>, archive: map<Path, File>) {
    && (forall i, j :: 0 <= i < j < |walk| ==> walk[i] != walk[j])
    && (forall i :: 0 <= i < |walk| ==> walk[i] in archive)
    && (forall p :: p in archive ==> p in walk)
  }

  lemma {:induction false} PresentIs(walk: seq<Path>, cam: nat, p: Path)
    ensures p in Present(walk, cam) <==> p in walk && IsSegmentOf(p, cam)
  {
    if walk != [] {
      PresentIs(walk[..|walk| - 1], cam, p);
      assert walk == walk[..|walk| - 1] + [walk[|walk| - 1]];
    }
  }

  lemma PresentFiles(walk: seq<Path>, archive: map<Path, File>, cam: nat)
    requires Walks(walk, archive)
    ensures forall i :: 0 <= i < |Present(walk, cam)| ==>
              Present(walk, cam)[i] in archive && IsSegmentOf(Present(walk, cam)[i], cam)
  {
    forall i | 0 <= i < |Present(walk, cam)|
      ensures Present(walk, cam)[i] in archive && IsSegmentOf(Present(walk, cam)[i], cam)
    {
      PresentIs(walk, cam, Present(walk, cam)[i]);
    }
  }

  function MediaAfter(lines: seq<Entry>, archive: map<Path, File>, walk: seq<Path>, cam: nat): seq<Entry>
    requires Walks(walk, archive)
  {
    PresentFiles(walk, archive, cam);
    var known, present := ByPath(Filter(lines, IsMedia)), Present(walk, cam);
    Surviving(known + Missing(known, present, archive), present)
  }

  /** The manifest `repair` writes for one camera. */
  function RepairedLines(lines: seq<Entry>, archive: map<Path, File>, walk: seq<Path>, cam: nat, seconds: nat,
          now: real): seq<Entry>
    requires Walks(walk, archive)
  {
    Sorted(MediaAfter(lines, archive, walk, cam) + OnDisk(walk, archive, cam, seconds, now), KeyOf)
  }

  function Unnamed(xs: seq<Entry>, ys: seq<Entry>): nat {
    if xs == [] then 0
    else Unnamed(xs[..|xs| - 1], ys) + if Names(ys, xs[|xs| - 1].path) then 0 else 1
  }

  function Gone(lines: seq<Entry>, present: seq<Path>): nat {
    if lines == [] then 0
    else Gone(lines[..|lines| - 1], present) + if lines[|lines| - 1].path in present then 0 else 1
  }

  /** What `repair` reports for one camera. */
  function AddedBy(lines: seq<Entry>, archive: map<Path, File>, walk: seq<Path>, cam: nat, seconds: nat, now: real): nat
    requires Walks(walk, archive)
  {
    PresentFiles(walk, archive, cam);
    |Missing(ByPath(Filter(lines, IsMedia)), Present(walk, cam), archive)|
    + Unnamed(OnDisk(walk, archive, cam, seconds, now), ByPath(Filter(lines, IsBucket)))
  }

  function DroppedBy(lines: seq<Entry>, archive: map<Path, File>, walk: seq<Path>, cam: nat, seconds: nat,
          now: real): nat
    requires Walks(walk, archive)
  {
    PresentFiles(walk, archive, cam);
    var known, present := ByPath(Filter(lines, IsMedia)), Present(walk, cam);
    Gone(known + Missing(known, present, archive), present)
    + Unnamed(ByPath(Filter(lines, IsBucket)), OnDisk(walk, archive, cam, seconds, now))
  }

  function Repaired(d: Disk, walk: seq<Path>, seconds: nat, now: real): Disk
    requires Walks(walk, d.archive)
  {
    d.(manifests := map c | c in d.manifests :: RepairedLines(d.manifests[c], d.archive, walk, c, seconds, now))
  }

  /** The loop over the camera directories, one manifest at a time. */
  function RepairedOver(ms: map<nat, seq<Entry>>, cams: seq<nat>, archive: map<Path, File>, walk: seq<Path>,
          seconds: nat, now: real): map<nat, seq<Entry>>
    requires Walks(walk, archive)
  {
    if cams == [] then ms
    else
      var m, c := RepairedOver(ms, cams[..|cams| - 1], archive, walk, seconds, now), cams[|cams| - 1];
      m[c := RepairedLines(if c in m then m[c] else [], archive, walk, c, seconds, now)]
  }

  /** What the whole repair reports: each camera's lines added and dropped. */
  function ReportedOver(ms: map<nat, seq<Entry>>, cams: seq<nat>, archive: map<Path, File>, walk: seq<Path>,
          seconds: nat, now: real): (nat, nat)
    requires Walks(walk, archive)
  {
    if cams == [] then (0, 0)
    else
      var init, c := cams[..|cams| - 1], cams[|cams| - 1];
      var m := RepairedOver(ms, init, archive, walk, seconds, now);
      var lines := if c in m then m[c] else [];
      var (added, dropped) := ReportedOver(ms, init, archive, walk, seconds, now);
      (added + AddedBy(lines, archive, walk, c, seconds, now),
       dropped + DroppedBy(lines, archive, walk, c, seconds, now))
  }

  /** Each directory once: every manifest is repaired from its own lines. */
  lemma {:induction false} RepairedOverEach(ms: map<nat, seq<Entry>>, cams: seq<nat>, archive: map<Path, File>,
          walk: seq<Path>, seconds: nat, now: real)
    requires Walks(walk, archive)
    requires forall c :: c in cams ==> c in ms
    requires forall i, j :: 0 <= i < j < |cams| ==> cams[i] != cams[j]
    ensures var m := RepairedOver(ms, cams, archive, walk, seconds, now);
            && m.Keys == ms.Keys
            && forall c :: c in ms ==>
                 m[c] == if c in cams then RepairedLines(ms[c], archive, walk, c, seconds, now) else ms[c]
  {
    hide RepairedLines;
    if cams != [] {
      var init, c := cams[..|cams| - 1], cams[|cams| - 1];
      RepairedOverEach(ms, init, archive, walk, seconds, now);
      assert cams == init + [c] && c !in init;
    }
  }

  // ----- promote, step by step

  /** How the file gets across: renamed, or (on another file system) copied to
      a temporary name, passing through the contents `torn`. */
  datatype Route = Rename | Copy(torn: seq<File>)

  function LinesOf(d: Disk, cam: nat): seq<Entry> {
    if cam in d.manifests then d.manifests[cam] else []
  }

  function TmpOf(p: Path): Path {
    p.(leaf := Tmp(p.leaf))
  }

  function DirMade(d: Disk, p: Path, cam: nat): Disk {
    if Under(p, cam) then d.(manifests := d.manifests[cam := LinesOf(d, cam)]) else d
  }

  function LineAdded(d: Disk, cam: nat, e: Entry): Disk {
    d.(manifests := d.manifests[cam := LinesOf(d, cam) + [e]])
  }

  function TmpWritten(d: Disk, p: Path, f: File): Disk {
    d.(archive := d.archive[TmpOf(p) := f])
  }

  function TornSteps(d: Disk, p: Path, torn: seq<File>): seq<Disk> {
    if torn == [] then []
    else TornSteps(d, p, torn[..|torn| - 1]) + [TmpWritten(d, p, torn[|torn| - 1])]
  }

  function MoveSteps(d: Disk, p: Path, route: Route): seq<Disk>
    requires p in d.spool
    ensures MoveSteps(d, p, route) != []
  {
    var f := d.spool[p];
    match route
    case Rename => [d.(spool := d.spool - {p}, archive := d.archive[p := f])]
    case Copy(torn) =>
      var d1 := d.(archive := d.archive[p := f] - {TmpOf(p)});
      TornSteps(d, p, torn) + [TmpWritten(d, p, f), d1, d1.(spool := d1.spool - {p})]
  }

  function SegmentLine(d: Disk, p: Path, end: Option<real>): Entry
    requires p in d.spool && Parse(p).Some?
  {
    MediaLineTo(p, d.spool[p], if end.Some? then end.value else d.spool[p].mtime)
  }

  /** Every state the disk passes through after the first. */
  function PromoteSteps(d: Disk, p: Path, end: Option<real>, route: Route): seq<Disk>
    requires p in d.spool && Parse(p).Some?
  {
    var cam := Parse(p).value.cam;
    var d0 := DirMade(d, p, cam);
    var moved := MoveSteps(d0, p, route);
    [d0] + moved + [LineAdded(moved[|moved| - 1], cam, SegmentLine(d, p, end))]
  }

  // ----- close_buckets and retain, on values

  function NewlyClosed(bs: seq<Entry>, lines: seq<Entry>, archive: map<Path, File>, now: real, grace: real): seq<Entry>
    requires forall i :: 0 <= i < |bs| ==> bs[i].path in archive
  {
    if bs == [] then []
    else
      var b := bs[|bs| - 1];
      var before := NewlyClosed(bs[..|bs| - 1], lines, archive, now, grace);
      if NamedByBucket(lines, b.path) || b.end > now || now - archive[b.path].mtime < grace then before
      else before + [b]
  }

  predicate NamedByBucket(lines: seq<Entry>, p: Path) {
    exists i :: 0 <= i < |lines| && lines[i].Bucket? && lines[i].path == p
  }

  /** The media lines too old to keep. */
  function Expired(lines: seq<Entry>, cutoff: real): set<Path> {
    set i | 0 <= i < |lines| && lines[i].Media? && lines[i].end < cutoff :: lines[i].path
  }

  function Unexpired(lines: seq<Entry>, cutoff: real): seq<Entry> {
    if lines == [] then []
    else if lines[|lines| - 1].end < cutoff then Unexpired(lines[..|lines| - 1], cutoff)
    else Unexpired(lines[..|lines| - 1], cutoff) + [lines[|lines| - 1]]
  }

  function Kept(lines: seq<Entry>, cutoff: real): seq<Entry> {
    Unexpired(Filter(lines, IsMedia), cutoff)
  }

  function RetainedLines(lines: seq<Entry>, cutoff: real): seq<Entry> {
    Sorted(Kept(lines, cutoff) + Filter(lines, IsBucket), KeyOf)
  }

  predicate IsBucket(e: Entry) {
    e.Bucket?
  }

  /** The files of the expired lines go one by one. */
  function RemoveSteps(d: Disk, media: seq<Entry>, cutoff: real): seq<Disk> {
    if media == [] then []
    else
      var before := RemoveSteps(d, media[..|media| - 1], cutoff);
      if media[|media| - 1].end >= cutoff then before
      else before + [d.(archive := d.archive - Expired(media, cutoff))]
  }

  /** `retain`: the files first, and then, if there were any, the lines. */
  function RetainSteps(d: Disk, cam: nat, cutoff: real): seq<Disk> {
    var steps := RemoveSteps(d, Filter(LinesOf(d, cam), IsMedia), cutoff);
    if steps == [] then []
    else
      var gone := d.archive - Expired(LinesOf(d, cam), cutoff);
      steps + [d.(archive := gone, manifests := d.manifests[cam := RetainedLines(LinesOf(d, cam), cutoff)])]
  }

  lemma {:induction false} BucketLinesAre(walk: seq<Path>, archive: map<Path, File>, cam: nat, seconds: nat, e: Entry)
    requires forall i :: 0 <= i < |walk| ==> walk[i] in archive
    ensures e in BucketLines(walk, archive, cam, seconds) <==>
            e.path in walk && IsBucketOf(e.path, cam) && e == BucketLine(e.path, archive[e.path], seconds)
  {
    if walk != [] {
      var init, p := walk[..|walk| - 1], walk[|walk| - 1];
      BucketLinesAre(init, archive, cam, seconds, e);
      assert walk == init + [p];
    }
  }

  lemma BucketsUnderAre(walk: seq<Path>, archive: map<Path, File>, cam: nat, seconds: nat)
    requires Walks(walk, archive)
    ensures forall i :: 0 <= i < |BucketsUnder(walk, archive, cam, seconds)| ==>
              var e := BucketsUnder(walk, archive, cam, seconds)[i];
              e.path in archive && IsBucketOf(e.path, cam) && e == BucketLine(e.path, archive[e.path], seconds)
  {
    var bs := BucketsUnder(walk, archive, cam, seconds);
    SortedSame(BucketLines(walk, archive, cam, seconds), KeyOf);
    forall i | 0 <= i < |bs|
      ensures bs[i].path in archive && IsBucketOf(bs[i].path, cam)
              && bs[i] == BucketLine(bs[i].path, archive[bs[i].path], seconds)
    {
      assert bs[i] in multiset(bs);
      assert bs[i] in BucketLines(walk, archive, cam, seconds);
      BucketLinesAre(walk, archive, cam, seconds, bs[i]);
    }
  }

  // ----- the resource itself

  class ArchiveResource {
    const seconds: nat
    var spool: map<Path, File>
    var archive: map<Path, File>
    var manifests: map<nat, seq<Entry>>
    /** Every state the disk has been in: where a crash could leave it. */
    ghost var history: seq<Disk>

    ghost function D(): Disk
      reads this
    {
      Disk(spool, archive, manifests)
    }

    ghost predicate Valid()
      reads this
    {
      history != [] && history[|history| - 1] == D()
    }

    constructor (spool: map<Path, File>, archive: map<Path, File>, manifests: map<nat, seq<Entry>>, seconds: nat)
      ensures Valid() && D() == Disk(spool, archive, manifests) && this.seconds == seconds
    {
      this.spool, this.archive, this.manifests, this.seconds := spool, archive, manifests, seconds;
      history := [Disk(spool, archive, manifests)];
    }

    /** `None`: not a segment path, or no such file. */
    method Promote(p: Path, end: Option<real>, route: Route) returns (line: Option<Entry>)
      requires Valid()
      modifies this
      ensures Valid()
      ensures line.Some? <==> Parse(p).Some? && p in old(spool)
      ensures line.None? ==> D() == old(D()) && history == old(history)
      ensures line.Some? ==> line.value == SegmentLine(old(D()), p, end)
                             && history == old(history) + PromoteSteps(old(D()), p, end, route)
      ensures line.Some? ==> var cam := Parse(p).value.cam; LinesOf(D(), cam) == LinesOf(old(D()), cam) + [line.value]
    {
      var parsed := Parse(p);
      if parsed.None? || p !in spool {
        return None;
      }
      ghost var d, before := D(), history;
      var cam := parsed.value.cam;
      var e := MediaLineTo(p, spool[p], if end.Some? then end.value else spool[p].mtime);
      MakeDir(p, cam);
      ghost var d0 := D();
      Move(p, route);
      ghost var moved := MoveSteps(d0, p, route);
      AddLine(cam, e);
      ConcatThree(before, [d0], moved, [D()]);
      return Some(e);
    }

    method MakeDir(p: Path, cam: nat)
      requires Valid()
      modifies this`manifests, this`history
      ensures Valid() && D() == DirMade(old(D()), p, cam) && history == old(history) + [D()]
    {
      if Under(p, cam) {
        manifests := manifests[cam := if cam in manifests then manifests[cam] else []];
      }
      history := history + [D()];
    }

    method AddLine(cam: nat, e: Entry)
      requires Valid()
      modifies this`manifests, this`history
      ensures Valid() && D() == LineAdded(old(D()), cam, e) && history == old(history) + [D()]
    {
      manifests := manifests[cam := (if cam in manifests then manifests[cam] else []) + [e]];
      history := history + [D()];
    }

    method Move(p: Path, route: Route)
      requires Valid() && p in spool
      modifies this`spool, this`archive, this`history
      ensures Valid()
      ensures history == old(history) + MoveSteps(old(D()), p, route)
    {
      match route
      case Rename =>
        spool, archive := spool - {p}, archive[p := spool[p]];
        history := history + [D()];
      case Copy(torn) =>
        ghost var d, before := D(), history;
        CopyToTmp(p, torn);
        assert archive[p := archive[TmpOf(p)]] - {TmpOf(p)} == d.archive[p := d.spool[p]] - {TmpOf(p)};
        archive := archive[p := archive[TmpOf(p)]] - {TmpOf(p)};
        history := history + [D()];
        spool := spool - {p};
        history := history + [D()];
        assert history == before + MoveSteps(d, p, route);
    }

    method CopyToTmp(p: Path, torn: seq<File>)
      requires Valid() && p in spool
      modifies this`archive, this`history
      ensures D() == TmpWritten(old(D()), p, spool[p])
      ensures history == old(history) + TornSteps(old(D()), p, torn) + [D()]
    {
      ghost var d, before := D(), history;
      for i := 0 to |torn|
        invariant archive == if i == 0 then d.archive else d.archive[TmpOf(p) := torn[i - 1]]
        invariant history == before + TornSteps(d, p, torn[..i])
      {
        assert torn[..i + 1][..i] == torn[..i];
        archive := archive[TmpOf(p) := torn[i]];
        assert D() == TmpWritten(d, p, torn[i]);
        history := history + [D()];
      }
      assert torn[..|torn|] == torn;
      archive := archive[TmpOf(p) := spool[p]];
      history := history + [D()];
    }

    /** `repair` over the camera directories `cams`. */
    method Repair(cams: seq<nat>, walk: seq<Path>, now: real) returns (added: nat, dropped: nat)
      requires Valid() && Walks(walk, archive)
      requires forall c :: c in cams ==> c in manifests
      modifies this`manifests, this`history
      ensures Valid()
      ensures manifests == RepairedOver(old(manifests), cams, archive, walk, seconds, now)
      ensures (added, dropped) == ReportedOver(old(manifests), cams, archive, walk, seconds, now)
    {
      hide RepairedLines, AddedBy, DroppedBy;
      added, dropped := 0, 0;
      ghost var were := manifests;
      for i := 0 to |cams|
        invariant Valid() && manifests.Keys == were.Keys
        invariant manifests == RepairedOver(were, cams[..i], archive, walk, seconds, now)
        invariant (added, dropped) == ReportedOver(were, cams[..i], archive, walk, seconds, now)
      {
        assert cams[..i + 1][..i] == cams[..i];
        var a, b := RepairCamera(cams[i], walk, now);
        added, dropped := added + a, dropped + b;
      }
      assert cams[..|cams|] == cams;
    }

    method RepairCamera(cam: nat, walk: seq<Path>, now: real) returns (added: nat, dropped: nat)
      requires Valid() && Walks(walk, archive) && cam in manifests
      modifies this`manifests, this`history
      ensures Valid()
      ensures manifests == old(manifests)[cam := RepairedLines(old(manifests)[cam], archive, walk, cam, seconds, now)]
      ensures history == old(history) + [D()]
      ensures added == AddedBy(old(manifests)[cam], archive, walk, cam, seconds, now)
      ensures dropped == DroppedBy(old(manifests)[cam], archive, walk, cam, seconds, now)
    {
      PresentFiles(walk, archive, cam);
      var lines := ByPath(Filter(manifests[cam], IsMedia));
      var present := PresentSegments(cam, walk);
      lines, added := AddMissing(lines, present);
      lines, dropped := DropGone(lines, present);
      var buckets := ByPath(Filter(manifests[cam], IsBucket));
      var onDisk := OnDisk(walk, archive, cam, seconds, now);
      added := added + Unnamed(onDisk, buckets);
      dropped := dropped + Unnamed(buckets, onDisk);
      manifests := manifests[cam := Sorted(lines + onDisk, KeyOf)];
      history := history + [D()];
    }

    method PresentSegments(cam: nat, walk: seq<Path>) returns (present: seq<Path>)
      ensures present == Present(walk, cam)
    {
      present := [];
      for i := 0 to |walk|
        invariant present == Present(walk[..i], cam)
      {
        assert walk[..i + 1][..i] == walk[..i];
        if IsSegmentOf(walk[i], cam) {
          present := present + [walk[i]];
        }
      }
      assert walk[..|walk|] == walk;
    }

    method AddMissing(known: seq<Entry>, present: seq<Path>) returns (lines: seq<Entry>, added: nat)
      requires forall i :: 0 <= i < |present| ==> present[i] in archive && Parse(present[i]).Some?
      ensures lines == known + Missing(known, present, archive)
      ensures added == |Missing(known, present, archive)|
    {
      var more := [];
      for i := 0 to |present|
        invariant more == Missing(known, present[..i], archive)
      {
        assert present[..i + 1][..i] == present[..i];
        if !Names(known, present[i]) {
          more := more + [MediaLine(present[i], archive[present[i]])];
        }
      }
      assert present[..|present|] == present;
      lines, added := known + more, |more|;
    }

    method DropGone(lines: seq<Entry>, present: seq<Path>) returns (kept: seq<Entry>, dropped: nat)
      ensures kept == Surviving(lines, present)
      ensures dropped == Gone(lines, present)
    {
      kept, dropped := [], 0;
      for i := 0 to |lines|
        invariant kept == Surviving(lines[..i], present) && dropped == Gone(lines[..i], present)
      {
        assert lines[..i + 1][..i] == lines[..i];
        if lines[i].path in present {
          kept := kept + [lines[i]];
        } else {
          dropped := dropped + 1;
        }
      }
      assert lines[..|lines|] == lines;
    }

    /** `close_buckets`, for one camera. */
    method CloseBuckets(cam: nat, walk: seq<Path>, now: real, grace: real) returns (closed: seq<Entry>)
      requires Valid() && Walks(walk, archive) && cam in manifests
      modifies this`manifests, this`history
      ensures Valid()
      ensures closed == (BucketsUnderAre(walk, archive, cam, seconds);
                         NewlyClosed(BucketsUnder(walk, archive, cam, seconds), old(manifests)[cam], archive, now,
                             grace))
      ensures manifests == old(manifests)[cam := old(manifests)[cam] + closed]
    {
      BucketsUnderAre(walk, archive, cam, seconds);
      closed := AppendClosed(cam, BucketsUnder(walk, archive, cam, seconds), now, grace);
    }

    method AppendClosed(cam: nat, bs: seq<Entry>, now: real, grace: real) returns (closed: seq<Entry>)
      requires Valid() && cam in manifests && forall i :: 0 <= i < |bs| ==> bs[i].path in archive
      modifies this`manifests, this`history
      ensures Valid()
      ensures closed == NewlyClosed(bs, old(manifests)[cam], archive, now, grace)
      ensures manifests == old(manifests)[cam := old(manifests)[cam] + closed]
    {
      var known := manifests[cam];
      ghost var were := manifests;
      closed := [];
      assert known + closed == known;
      for i := 0 to |bs|
        invariant Valid()
        invariant closed == NewlyClosed(bs[..i], known, archive, now, grace)
        invariant manifests == were[cam := known + closed]
      {
        assert bs[..i + 1][..i] == bs[..i];
        var b := bs[i];
        if !(NamedByBucket(known, b.path) || b.end > now || now - archive[b.path].mtime < grace) {
          manifests := manifests[cam := manifests[cam] + [b]];
          history := history + [D()];
          assert known + closed + [b] == known + (closed + [b]);
          closed := closed + [b];
        }
      }
      assert bs[..|bs|] == bs;
    }

    /** The files first, then the lines. */
    method Retain(cam: nat, days: real, now: real) returns (removed: nat)
      requires Valid() && cam in manifests
      modifies this`archive, this`manifests, this`history
      ensures Valid()
      ensures history == old(history) + RetainSteps(old(D()), cam, now - days * 86400.0)
      ensures archive == old(archive) - Expired(old(manifests)[cam], now - days * 86400.0)
      ensures removed == |Filter(old(manifests)[cam], IsMedia)| - |Kept(old(manifests)[cam], now - days * 86400.0)|
      ensures manifests == if removed == 0 then old(manifests)
                           else old(manifests)[cam := RetainedLines(old(manifests)[cam], now - days * 86400.0)]
    {
      var cutoff, lines := now - days * 86400.0, manifests[cam];
      var keep: seq<Entry>;
      ghost var d, before := D(), history;
      FilterHolds(lines, IsMedia);
      keep, removed := RemoveExpired(Filter(lines, IsMedia), cutoff);
      ExpiredAreMedia(lines, cutoff);
      ghost var steps := RemoveSteps(d, Filter(lines, IsMedia), cutoff);
      if removed > 0 {
        manifests := manifests[cam := Sorted(keep + Filter(lines, IsBucket), KeyOf)];
        history := history + [D()];
        assert before + steps + [D()] == before + (steps + [D()]);
      }
    }

    method RemoveExpired(media: seq<Entry>, cutoff: real) returns (keep: seq<Entry>, removed: nat)
      requires Valid() && forall i :: 0 <= i < |media| ==> media[i].Media?
      modifies this`archive, this`history
      ensures Valid()
      ensures history == old(history) + RemoveSteps(old(D()), media, cutoff)
      ensures |RemoveSteps(old(D()), media, cutoff)| == removed
      ensures archive == old(archive) - Expired(media, cutoff)
      ensures keep == Unexpired(media, cutoff) && removed == |media| - |keep|
    {
      keep, removed := [], 0;
      ghost var d, before := D(), history;
      assert Expired(media[..0], cutoff) == {};
      for i := 0 to |media|
        invariant history == before + RemoveSteps(d, media[..i], cutoff) && history[|history| - 1] == D()
        invariant archive == d.archive - Expired(media[..i], cutoff)
        invariant keep == Unexpired(media[..i], cutoff) && removed == i - |keep| == |RemoveSteps(d, media[..i], cutoff)|
      {
        assert media[..i + 1][..i] == media[..i];
        ExpiredOne(media[..i], media[i], cutoff);
        assert media[..i] + [media[i]] == media[..i + 1];
        if media[i].end < cutoff {
          MinusOne(d.archive, Expired(media[..i], cutoff), media[i].path);
          archive := archive - {media[i].path};
          history := history + [D()];
          removed := removed + 1;
        } else {
          keep := keep + [media[i]];
        }
      }
      assert media[..|media|] == media;
    }
  }

  lemma MinusOne<K, V>(m: map<K, V>, ks: set<K>, k: K)
    ensures m - ks - {k} == m - (ks + {k})
  {}

  lemma ConcatThree<T>(h: seq<T>, a: seq<T>, b: seq<T>, c: seq<T>)
    ensures h + a + b + c == h + (a + b + c)
  {}

  lemma ExpiredOne(lines: seq<Entry>, e: Entry, cutoff: real)
    ensures Expired(lines + [e], cutoff) == Expired(lines, cutoff) + if e.Media? && e.end < cutoff then {e.path} else {}
  {
    var all := lines + [e];
    forall p ensures p in Expired(all, cutoff) <==>
               p in Expired(lines, cutoff) || (e.Media? && e.end < cutoff && p == e.path)
    {
      if p in Expired(lines, cutoff) {
        var i :| 0 <= i < |lines| && lines[i].Media? && lines[i].end < cutoff && lines[i].path == p;
        assert all[i] == lines[i];
      }
      assert all[|lines|] == e;
    }
  }

  lemma {:induction false} ExpiredAreMedia(lines: seq<Entry>, cutoff: real)
    ensures Expired(Filter(lines, IsMedia), cutoff) == Expired(lines, cutoff)
  {
    if lines != [] {
      var init, e := lines[..|lines| - 1], lines[|lines| - 1];
      ExpiredAreMedia(init, cutoff);
      assert lines == init + [e];
      ExpiredOne(init, e, cutoff);
      FilterOne(init, e, IsMedia);
      if e.Media? {
        ExpiredOne(Filter(init, IsMedia), e, cutoff);
      }
    }
  }
}
