/** Retention on one node: whole partitions, each camera's window, and what
    gives when the disk is still full. Index rows go before their files. */
module Retention {
  import opened StableSort

  type FilePath = string

  datatype Row = Row(cam: nat, path: FilePath, start: real, bytes: nat)
  datatype Camera = Camera(days: real, priority: int)
  datatype Partition = Partition(lo: real, hi: real)
  datatype Policy = StopRecording | DegradeRetention | ByPriority
  datatype Shot = Shot(rows: seq<Row>, files: set<FilePath>)

  const BATCH := 50

  // ----- the index

  function NotPath(p: FilePath): Row -> bool {
    (r: Row) => r.path != p
  }

  function Known(cams: map<nat, Camera>): Row -> bool {
    (r: Row) => r.cam in cams
  }

  /** `ORDER BY`: the start, or the camera's priority and then the start. */
  function Rank(cams: map<nat, Camera>, byPriority: bool): Row -> Key {
    (r: Row) => if byPriority && r.cam in cams then Key(cams[r.cam].priority as real, r.start) else Key(r.start, 0.0)
  }

  /** The rows that can be given up, in order: the join drops those of cameras
      that are gone. */
  function Queue(rows: seq<Row>, cams: map<nat, Camera>, byPriority: bool): seq<Row> {
    Sorted(Filter(rows, Known(cams)), Rank(cams, byPriority))
  }

  /** The head of the queue, at most `limit` of it. */
  function Oldest(rows: seq<Row>, cams: map<nat, Camera>, byPriority: bool, limit: nat): (q: seq<Row>)
    ensures q <= Queue(rows, cams, byPriority) && |q| <= limit
    ensures |q| < limit ==> q == Queue(rows, cams, byPriority)
  {
    var q := Queue(rows, cams, byPriority);
    if |q| <= limit then q else q[..limit]
  }

  ghost predicate Unique(rows: seq<Row>) {
    forall i, j :: 0 <= i < j < |rows| ==> rows[i].path != rows[j].path
  }

  ghost predicate Indexed(s: Shot) {
    forall i :: 0 <= i < |s.rows| ==> s.rows[i].path in s.files
  }

  function FilesAfter(files: set<FilePath>, gone: seq<Row>): set<FilePath> {
    if gone == [] then files else FilesAfter(files, gone[..|gone| - 1]) - {gone[|gone| - 1].path}
  }

  // ----- giving up, one segment at a time

  /** The index, the disk, and what the report counts; `degraded` has the start
      of the last segment each camera gave up. */
  datatype Tally = Tally(rows: seq<Row>, files: set<FilePath>, unlinked: nat, freed: nat, degraded: map<nat, real>)

  function GivenOne(t: Tally, r: Row): Tally {
    Tally(Filter(t.rows, NotPath(r.path)), t.files - {r.path}, t.unlinked + 1, t.freed + r.bytes,
        t.degraded[r.cam := r.start])
  }

  function Given(t: Tally, q: seq<Row>): Tally {
    if q == [] then t else GivenOne(Given(t, q[..|q| - 1]), q[|q| - 1])
  }

  type Usage = set<FilePath> -> real

  /** The shortest prefix of the queue that brings usage to the target, at
      least `k` long; all of it where none does. */
  function HowMany(q: seq<Row>, t: Tally, usage: Usage, target: real, k: nat): (n: nat)
    requires k <= |q|
    ensures k <= n <= |q|
    ensures forall j :: k <= j < n ==> usage(Given(t, q[..j]).files) > target
    ensures n < |q| ==> usage(Given(t, q[..n]).files) <= target
    decreases |q| - k
  {
    if k == |q| || usage(Given(t, q[..k]).files) <= target then k else HowMany(q, t, usage, target, k + 1)
  }

  // ----- the windows

  /** The longest window of any camera. */
  function Longest(cams: map<nat, Camera>, order: seq<nat>): (longest: real)
    requires order != [] && forall c :: c in order ==> c in cams
    ensures forall c :: c in order ==> cams[c].days <= longest
    ensures exists c :: c in order && cams[c].days == longest
  {
    if |order| == 1 then assert order[0] in order; cams[order[0]].days
    else
      var init, last := order[..|order| - 1], order[|order| - 1];
      assert order == init + [last];
      var m := Longest(cams, init);
      if cams[last].days > m then cams[last].days else m
  }

  predicate InPartition(r: Row, p: Partition) {
    p.lo <= r.start < p.hi
  }

  function OutsidePartition(p: Partition): Row -> bool {
    (r: Row) => !InPartition(r, p)
  }

  function NotExpired(cam: nat, before: real): Row -> bool {
    (r: Row) => !(r.cam == cam && r.start < before)
  }

  /** What a deletion takes. */
  function Gone(rows: seq<Row>, keep: Row -> bool): seq<Row> {
    if rows == [] then []
    else if keep(rows[|rows| - 1]) then Gone(rows[..|rows| - 1], keep)
    else Gone(rows[..|rows| - 1], keep) + [rows[|rows| - 1]]
  }

  /** Dropped with a whole partition. */
  ghost predicate InOldPartition(r: Row, parts: seq<Partition>, cutoff: real) {
    exists p :: p in parts && p.hi <= cutoff && InPartition(r, p)
  }

  /** Past its own camera's window, where that is shorter than the longest. */
  ghost predicate PastOwnWindow(r: Row, order: seq<nat>, cams: map<nat, Camera>, longest: real, now: real) {
    r.cam in order && r.cam in cams && cams[r.cam].days < longest && r.start < now - cams[r.cam].days
  }

  ghost function LostToPartitions(parts: seq<Partition>, cutoff: real): iset<Row> {
    iset r | InOldPartition(r, parts, cutoff)
  }

  ghost function LostToWindows(order: seq<nat>, cams: map<nat, Camera>, longest: real, now: real): iset<Row> {
    iset r | PastOwnWindow(r, order, cams, longest, now)
  }

  /** Lost to the windows, before the disk is looked at. */
  ghost function LostToAge(parts: seq<Partition>, order: seq<nat>, cams: map<nat, Camera>, now: real): iset<Row>
    requires order != [] && forall c :: c in order ==> c in cams
  {
    var longest := Longest(cams, order);
    LostToPartitions(parts, now - longest) + LostToWindows(order, cams, longest, now)
  }

  ghost function LostTo(keep: Row -> bool): iset<Row> {
    iset r: Row | !keep(r)
  }

  /** The rows left are those that are not `lost`, and the files left are those
      of no lost row. */
  ghost predicate LeftAfter(rows: seq<Row>, files: set<FilePath>, rows': seq<Row>, files': set<FilePath>,
          lost: iset<Row>)
  {
    && (forall r :: r in rows' <==> r in rows && r !in lost)
    && (forall f :: f in files' <==> f in files && !(exists r :: r in rows && r in lost && r.path == f))
  }

  predicate HasRow(rows: seq<Row>, f: FilePath) {
    exists i :: 0 <= i < |rows| && rows[i].path == f
  }

  /** Files without a row, older than the grace. */
  function OrphansOf(rows: seq<Row>, files: set<FilePath>, age: FilePath -> real, grace: real): set<FilePath> {
    set f | f in files && !HasRow(rows, f) && age(f) > grace
  }

  ghost predicate AlwaysIndexed(history: seq<Shot>) {
    forall i :: 0 <= i < |history| ==> Indexed(history[i])
  }

  // ----- every state on the way: where a crash could leave index and disk

  function LastOf(s: Shot, steps: seq<Shot>): Shot {
    if steps == [] then s else steps[|steps| - 1]
  }

  function UnlinkSteps(s: Shot, gone: seq<Row>): seq<Shot> {
    if gone == [] then []
    else UnlinkSteps(s, gone[..|gone| - 1]) + [Shot(s.rows, FilesAfter(s.files, gone))]
  }

  /** The rows at once, then their files one by one. */
  function RemoveSteps(s: Shot, keep: Row -> bool): seq<Shot> {
    var kept := Shot(Filter(s.rows, keep), s.files);
    [kept] + UnlinkSteps(kept, Gone(s.rows, keep))
  }

  function DropStepsOne(s: Shot, p: Partition, cutoff: real): seq<Shot> {
    if p.hi <= cutoff then RemoveSteps(s, OutsidePartition(p)) else []
  }

  function DropSteps(s: Shot, parts: seq<Partition>, cutoff: real): seq<Shot> {
    if parts == [] then []
    else
      var before := DropSteps(s, parts[..|parts| - 1], cutoff);
      before + DropStepsOne(LastOf(s, before), parts[|parts| - 1], cutoff)
  }

  function ExpireStepsOne(s: Shot, c: nat, days: real, longest: real, now: real): seq<Shot> {
    if days < longest then RemoveSteps(s, NotExpired(c, now - days)) else []
  }

  function ExpireSteps(s: Shot, order: seq<nat>, cams: map<nat, Camera>, longest: real, now: real): seq<Shot>
    requires forall c :: c in order ==> c in cams
  {
    if order == [] then []
    else
      var c := order[|order| - 1];
      assert c in order;
      var before := ExpireSteps(s, order[..|order| - 1], cams, longest, now);
      before + ExpireStepsOne(LastOf(s, before), c, cams[c].days, longest, now)
  }

  /** Each row, then its file. */
  function GiveSteps(t: Tally, q: seq<Row>): seq<Shot> {
    if q == [] then []
    else
      var u, r := Given(t, q[..|q| - 1]), q[|q| - 1];
      GiveSteps(t, q[..|q| - 1])
      + [Shot(Filter(u.rows, NotPath(r.path)), u.files), Shot(Filter(u.rows, NotPath(r.path)), u.files - {r.path})]
  }

  /** Partitions, then each camera's window. */
  function WindowSteps(s: Shot, parts: seq<Partition>, order: seq<nat>, cams: map<nat, Camera>, now: real): seq<Shot>
    requires order != [] && forall c :: c in order ==> c in cams
  {
    var longest := Longest(cams, order);
    var dropped := DropSteps(s, parts, now - longest);
    dropped + ExpireSteps(LastOf(s, dropped), order, cams, longest, now)
  }

  /** What the policy gives up, in order. */
  function GivenUp(t: Tally, cams: map<nat, Camera>, usage: Usage, highWater: real, policy: Policy): seq<Row> {
    var q := Queue(t.rows, cams, policy.ByPriority?);
    if usage(t.files) < highWater || policy.StopRecording? then [] else q[..HowMany(q, t, usage, highWater - 0.05, 0)]
  }

  /** Between two states either rows went and no file, or one file went that no
      row names. */
  ghost predicate OneThing(a: Shot, b: Shot) {
    || (a.files == b.files && forall r :: r in b.rows ==> r in a.rows)
    || (a.rows == b.rows && exists p :: b.files == a.files - {p} && !HasRow(a.rows, p))
  }

  ghost predicate Stepwise(history: seq<Shot>) {
    forall i :: 0 <= i < |history| - 1 ==> OneThing(history[i], history[i + 1])
  }

  lemma OneMoreDrop(s: Shot, parts: seq<Partition>, cutoff: real, i: nat)
    requires i < |parts|
    ensures var before := DropSteps(s, parts[..i], cutoff);
            DropSteps(s, parts[..i + 1], cutoff) == before + DropStepsOne(LastOf(s, before), parts[i], cutoff)
  {
    assert parts[..i + 1][..i] == parts[..i];
  }

  lemma OneMoreExpire(s: Shot, order: seq<nat>, cams: map<nat, Camera>, longest: real, now: real, i: nat)
    requires i < |order| && forall c :: c in order ==> c in cams
    ensures var before := ExpireSteps(s, order[..i], cams, longest, now);
            ExpireSteps(s, order[..i + 1], cams, longest, now) ==
            before + ExpireStepsOne(LastOf(s, before), order[i], cams[order[i]].days, longest, now)
  {
    assert order[..i + 1][..i] == order[..i];
  }

  ghost function LostToOne(p: Partition, cutoff: real): iset<Row> {
    iset r | p.hi <= cutoff && InPartition(r, p)
  }

  lemma OneMoreLostToPartition(parts: seq<Partition>, cutoff: real, i: nat)
    requires i < |parts|
    ensures forall r :: r in LostToPartitions(parts[..i + 1], cutoff) <==>
                        r in LostToPartitions(parts[..i], cutoff) || r in LostToOne(parts[i], cutoff)
  {
    assert parts[..i + 1] == parts[..i] + [parts[i]];
  }

  ghost function LostToWindow(c: nat, days: real, longest: real, now: real): iset<Row> {
    iset r: Row | r.cam == c && days < longest && r.start < now - days
  }

  lemma OneMoreLostToWindow(order: seq<nat>, cams: map<nat, Camera>, longest: real, now: real, i: nat)
    requires i < |order| && forall c :: c in order ==> c in cams
    ensures forall r :: r in LostToWindows(order[..i + 1], cams, longest, now) <==>
                        || r in LostToWindows(order[..i], cams, longest, now)
                        || r in LostToWindow(order[i], cams[order[i]].days, longest, now)
  {
    assert order[..i + 1] == order[..i] + [order[i]];
  }

  /** From `s`, after the first `i` partitions: the states passed through, and
      what is left. */
  ghost predicate DroppedTo(s: Shot, parts: seq<Partition>, cutoff: real, i: nat, steps: seq<Shot>, t: Shot) {
    && i <= |parts| && steps == DropSteps(s, parts[..i], cutoff)
    && LeftAfter(s.rows, s.files, t.rows, t.files, LostToPartitions(parts[..i], cutoff))
  }

  lemma OneMoreDropped(s: Shot, parts: seq<Partition>, cutoff: real, i: nat, steps: seq<Shot>, t: Shot, u: Shot)
    requires i < |parts| && DroppedTo(s, parts, cutoff, i, steps, t)
    requires LeftAfter(t.rows, t.files, u.rows, u.files, LostToOne(parts[i], cutoff))
    ensures DroppedTo(s, parts, cutoff, i + 1, steps + DropStepsOne(LastOf(s, steps), parts[i], cutoff), u)
  {
    hide LeftAfter, LostToPartitions, LostToOne, DropSteps, LastOf;
    OneMoreDrop(s, parts, cutoff, i);
    OneMoreLostToPartition(parts, cutoff, i);
    LeftTwice(s.rows, s.files, t.rows, t.files, u.rows, u.files, LostToPartitions(parts[..i], cutoff),
              LostToOne(parts[i], cutoff), LostToPartitions(parts[..i + 1], cutoff));
  }

  /** The same, after the windows of the first `i` cameras. */
  ghost predicate ExpiredTo(s: Shot, order: seq<nat>, cams: map<nat, Camera>, longest: real, now: real, i: nat,
          steps: seq<Shot>, t: Shot)
    requires forall c :: c in order ==> c in cams
  {
    && i <= |order| && steps == ExpireSteps(s, order[..i], cams, longest, now)
    && LeftAfter(s.rows, s.files, t.rows, t.files, LostToWindows(order[..i], cams, longest, now))
  }

  lemma OneMoreExpired(s: Shot, order: seq<nat>, cams: map<nat, Camera>, longest: real, now: real, i: nat,
          steps: seq<Shot>, t: Shot, u: Shot)
    requires i < |order| && (forall c :: c in order ==> c in cams)
    requires ExpiredTo(s, order, cams, longest, now, i, steps, t)
    requires LeftAfter(t.rows, t.files, u.rows, u.files, LostToWindow(order[i], cams[order[i]].days, longest, now))
    ensures var more := steps + ExpireStepsOne(LastOf(s, steps), order[i], cams[order[i]].days, longest, now);
            ExpiredTo(s, order, cams, longest, now, i + 1, more, u)
  {
    hide LeftAfter, LostToWindows, LostToWindow, ExpireSteps, LastOf;
    OneMoreExpire(s, order, cams, longest, now, i);
    OneMoreLostToWindow(order, cams, longest, now, i);
    LeftTwice(s.rows, s.files, t.rows, t.files, u.rows, u.files, LostToWindows(order[..i], cams, longest, now),
              LostToWindow(order[i], cams[order[i]].days, longest, now),
              LostToWindows(order[..i + 1], cams, longest, now));
  }

  lemma DroppedAll(s: Shot, parts: seq<Partition>, cutoff: real, steps: seq<Shot>, t: Shot)
    requires DroppedTo(s, parts, cutoff, |parts|, steps, t)
    ensures steps == DropSteps(s, parts, cutoff)
    ensures LeftAfter(s.rows, s.files, t.rows, t.files, LostToPartitions(parts, cutoff))
  {
    assert parts[..|parts|] == parts;
  }

  lemma ExpiredAll(s: Shot, order: seq<nat>, cams: map<nat, Camera>, longest: real, now: real, steps: seq<Shot>,
          t: Shot)
    requires (forall c :: c in order ==> c in cams) && ExpiredTo(s, order, cams, longest, now, |order|, steps, t)
    ensures steps == ExpireSteps(s, order, cams, longest, now)
    ensures LeftAfter(s.rows, s.files, t.rows, t.files, LostToWindows(order, cams, longest, now))
  {
    assert order[..|order|] == order;
  }

  lemma OneMoreGiven(t: Tally, q: seq<Row>, i: nat)
    requires i < |q|
    ensures var u, v := Given(t, q[..i]), Given(t, q[..i + 1]);
            && v == GivenOne(u, q[i])
            && GiveSteps(t, q[..i + 1]) == GiveSteps(t, q[..i]) + [Shot(v.rows, u.files), Shot(v.rows, v.files)]
  {
    assert q[..i + 1][..i] == q[..i];
  }

  lemma Assoc(a: seq<Shot>, b: seq<Shot>, c: seq<Shot>)
    ensures a + b + c == a + (b + c)
  {}

  lemma NoSteps(t: Tally)
    ensures GiveSteps(t, []) == []
  {}

  lemma StepwiseOne(history: seq<Shot>, s: Shot)
    requires Stepwise(history) && (history != [] ==> OneThing(history[|history| - 1], s))
    ensures Stepwise(history + [s])
  {}

  lemma LastIs(before: seq<Shot>, s: Shot, steps: seq<Shot>)
    requires before != [] && before[|before| - 1] == s
    ensures (before + steps)[|before + steps| - 1] == LastOf(s, steps)
  {}

  // ----- small facts about the index

  lemma {:induction false} FilterUnique(rows: seq<Row>, p: Row -> bool)
    requires Unique(rows)
    ensures Unique(Filter(rows, p))
    ensures forall i :: 0 <= i < |Filter(rows, p)| ==> Filter(rows, p)[i] in rows
  {
    if rows != [] {
      var init, last := rows[..|rows| - 1], rows[|rows| - 1];
      FilterUnique(init, p);
      assert rows == init + [last];
      forall i | 0 <= i < |Filter(init, p)| ensures Filter(init, p)[i].path != last.path {
        assert Filter(init, p)[i] in init;
      }
    }
  }

  lemma {:induction false} GoneIs(rows: seq<Row>, keep: Row -> bool)
    requires Unique(rows)
    ensures Unique(Gone(rows, keep))
    ensures forall i :: 0 <= i < |Gone(rows, keep)| ==> Gone(rows, keep)[i] in rows && !keep(Gone(rows, keep)[i])
    ensures forall i, j :: 0 <= i < |Gone(rows, keep)| && 0 <= j < |Filter(rows, keep)| ==>
              Gone(rows, keep)[i].path != Filter(rows, keep)[j].path
  {
    if rows != [] {
      var init, last := rows[..|rows| - 1], rows[|rows| - 1];
      GoneIs(init, keep);
      FilterUnique(init, keep);
      assert rows == init + [last];
      forall r | r in init ensures r.path != last.path {
        var i :| 0 <= i < |init| && init[i] == r;
        assert rows[i] == r;
      }
    }
  }

  // ----- the node

  class Node {
    const cams: map<nat, Camera>
    const usage: Usage
    var rows: seq<Row>
    var files: set<FilePath>
    var unlinked: nat
    var freed: nat
    var allowed: bool
    var degraded: map<nat, real>
    /** Every state of index and disk so far: where a crash could leave them. */
    ghost var history: seq<Shot>

    /** At no point so far has a row been without its file; and each step took
        rows alone, or one file that no row named any more. */
    ghost predicate Valid()
      reads this
    {
      && Unique(rows) && history != [] && history[|history| - 1] == Shot(rows, files)
      && AlwaysIndexed(history) && Stepwise(history)
    }

    constructor (cams: map<nat, Camera>, usage: Usage, rows: seq<Row>, files: set<FilePath>)
      requires Unique(rows) && Indexed(Shot(rows, files))
      ensures Valid() && this.rows == rows && this.files == files && this.cams == cams && this.usage == usage
      ensures unlinked == 0 && freed == 0 && allowed && degraded == map[]
    {
      this.cams, this.usage, this.rows, this.files := cams, usage, rows, files;
      unlinked, freed, allowed, degraded := 0, 0, true, map[];
      history := [Shot(rows, files)];
    }

    /** A deletion of every row that `keep` does not keep. */
    method Keep(keep: Row -> bool)
      requires Valid()
      modifies this`rows, this`history
      ensures Valid() && rows == Filter(old(rows), keep)
      ensures history == old(history) + [Shot(rows, files)]
    {
      FilterUnique(rows, keep);
      ghost var was := rows;
      rows := Filter(rows, keep);
      forall i | 0 <= i < |rows| ensures rows[i].path in files {
        assert rows[i] in was;
        var j :| 0 <= j < |was| && was[j] == rows[i];
      }
      forall r | r in rows ensures r in was {
        FilterIn(was, keep, r);
      }
      StepwiseOne(history, Shot(rows, files));
      history := history + [Shot(rows, files)];
    }

    method Unlink(p: FilePath)
      requires Valid() && forall i :: 0 <= i < |rows| ==> rows[i].path != p
      modifies this`files, this`history, this`unlinked
      ensures Valid() && files == old(files) - {p} && unlinked == old(unlinked) + 1
      ensures history == old(history) + [Shot(rows, files)]
    {
      files := files - {p};
      unlinked := unlinked + 1;
      StepwiseOne(history, Shot(rows, files));
      history := history + [Shot(rows, files)];
    }

    method UnlinkAll(gone: seq<Row>)
      requires Valid() && forall i, j :: 0 <= i < |gone| && 0 <= j < |rows| ==> gone[i].path != rows[j].path
      modifies this`files, this`history, this`unlinked
      ensures Valid() && files == FilesAfter(old(files), gone)
      ensures history == old(history) + UnlinkSteps(Shot(rows, old(files)), gone)
    {
      hide AlwaysIndexed, Stepwise, Unique;
      for i := 0 to |gone|
        invariant Valid() && files == FilesAfter(old(files), gone[..i])
        invariant history == old(history) + UnlinkSteps(Shot(rows, old(files)), gone[..i])
      {
        assert gone[..i + 1][..i] == gone[..i];
        Unlink(gone[i].path);
      }
      assert gone[..|gone|] == gone;
    }

    /** The rows first, then their files. */
    method Remove(keep: Row -> bool)
      requires Valid()
      modifies this`rows, this`files, this`history, this`unlinked
      ensures Valid() && rows == Filter(old(rows), keep) && files == FilesAfter(old(files), Gone(old(rows), keep))
      ensures history == old(history) + RemoveSteps(Shot(old(rows), old(files)), keep)
    {
      hide AlwaysIndexed, Stepwise;
      var gone := Gone(rows, keep);
      GoneIs(rows, keep);
      Keep(keep);
      UnlinkAll(gone);
    }

    /** Whole partitions older than the longest window. */
    method DropPartitions(parts: seq<Partition>, cutoff: real)
      requires Valid()
      modifies this`rows, this`files, this`history, this`unlinked
      ensures Valid()
      ensures history == old(history) + DropSteps(Shot(old(rows), old(files)), parts, cutoff)
      ensures LeftAfter(old(rows), old(files), rows, files, LostToPartitions(parts, cutoff))
    {
      ghost var s, before, steps := Shot(rows, files), history, [];
      NothingLost(rows, files, LostToPartitions(parts[..0], cutoff));
      assert parts[..|parts|] == parts && DroppedTo(s, parts, cutoff, 0, steps, s);
      hide DroppedTo, AlwaysIndexed, Stepwise, Unique, DropStepsOne, LastOf;
      for i := 0 to |parts|
        invariant Valid() && history == before + steps && before != [] && before[|before| - 1] == s
        invariant DroppedTo(s, parts, cutoff, i, steps, Shot(rows, files))
      {
        ghost var t, more := Shot(rows, files), DropStepsOne(LastOf(s, steps), parts[i], cutoff);
        LastIs(before, s, steps);
        DropOne(parts[i], cutoff);
        Assoc(before, steps, more);
        OneMoreDropped(s, parts, cutoff, i, steps, t, Shot(rows, files));
        steps := steps + more;
      }
      DroppedAll(s, parts, cutoff, steps, Shot(rows, files));
    }

    method DropOne(p: Partition, cutoff: real)
      requires Valid()
      modifies this`rows, this`files, this`history, this`unlinked
      ensures Valid() && history == old(history) + DropStepsOne(Shot(old(rows), old(files)), p, cutoff)
      ensures LeftAfter(old(rows), old(files), rows, files, LostToOne(p, cutoff))
    {
      hide AlwaysIndexed, Stepwise, Unique, RemoveSteps, LeftAfter;
      NothingLost(rows, files, iset{});
      assert p.hi > cutoff ==> LostToOne(p, cutoff) == iset{};
      if p.hi <= cutoff {
        RemovedLeaves(rows, files, OutsidePartition(p));
        assert LostTo(OutsidePartition(p)) == LostToOne(p, cutoff);
        Remove(OutsidePartition(p));
      }
    }

    /** Each camera's own window, where it is shorter than the longest. */
    method ExpireWindows(order: seq<nat>, longest: real, now: real)
      requires Valid() && forall c :: c in order ==> c in cams
      modifies this`rows, this`files, this`history, this`unlinked
      ensures Valid()
      ensures history == old(history) + ExpireSteps(Shot(old(rows), old(files)), order, cams, longest, now)
      ensures LeftAfter(old(rows), old(files), rows, files, LostToWindows(order, cams, longest, now))
    {
      ghost var s, before, steps := Shot(rows, files), history, [];
      NothingLost(rows, files, LostToWindows(order[..0], cams, longest, now));
      assert order[..|order|] == order && ExpiredTo(s, order, cams, longest, now, 0, steps, s);
      hide ExpiredTo, AlwaysIndexed, Stepwise, Unique, ExpireStepsOne, LastOf;
      for i := 0 to |order|
        invariant Valid() && history == before + steps && before != [] && before[|before| - 1] == s
        invariant ExpiredTo(s, order, cams, longest, now, i, steps, Shot(rows, files))
      {
        var c := order[i];
        var days := cams[c].days;
        ghost var t, more := Shot(rows, files), ExpireStepsOne(LastOf(s, steps), c, days, longest, now);
        LastIs(before, s, steps);
        ExpireOne(c, days, longest, now);
        Assoc(before, steps, more);
        OneMoreExpired(s, order, cams, longest, now, i, steps, t, Shot(rows, files));
        steps := steps + more;
      }
      ExpiredAll(s, order, cams, longest, now, steps, Shot(rows, files));
    }

    method ExpireOne(c: nat, days: real, longest: real, now: real)
      requires Valid()
      modifies this`rows, this`files, this`history, this`unlinked
      ensures Valid() && history == old(history) + ExpireStepsOne(Shot(old(rows), old(files)), c, days, longest, now)
      ensures LeftAfter(old(rows), old(files), rows, files, LostToWindow(c, days, longest, now))
    {
      hide AlwaysIndexed, Stepwise, Unique, RemoveSteps, LeftAfter;
      NothingLost(rows, files, iset{});
      assert days >= longest ==> LostToWindow(c, days, longest, now) == iset{};
      if days < longest {
        RemovedLeaves(rows, files, NotExpired(c, now - days));
        assert LostTo(NotExpired(c, now - days)) == LostToWindow(c, days, longest, now);
        Remove(NotExpired(c, now - days));
      }
    }

    ghost function T(): Tally
      reads this
    {
      Tally(rows, files, unlinked, freed, degraded)
    }

    /** Index first, then file. */
    method GiveOne(r: Row)
      requires Valid()
      modifies this`rows, this`files, this`history, this`unlinked, this`freed, this`degraded
      ensures Valid() && T() == GivenOne(old(T()), r)
      ensures history == old(history) + [Shot(rows, old(files)), Shot(rows, files)]
    {
      FilterHolds(rows, NotPath(r.path));
      Keep(NotPath(r.path));
      Unlink(r.path);
      freed := freed + r.bytes;
      degraded := degraded[r.cam := r.start];
    }

    /** As much of one batch as is needed. */
    method GiveBatch(batch: seq<Row>, target: real)
      requires Valid()
      modifies this`rows, this`files, this`history, this`unlinked, this`freed, this`degraded
      ensures Valid()
      ensures var n := HowMany(batch, old(T()), usage, target, 0);
              T() == Given(old(T()), batch[..n]) && history == old(history) + GiveSteps(old(T()), batch[..n])
    {
      ghost var t, before := T(), history;
      assert Given(t, batch[..0]) == t && GiveSteps(t, batch[..0]) == [] && OverUntil(t, batch, usage, target, 0);
      hide AlwaysIndexed, Stepwise, Unique, Given, GiveSteps, GivenOne, HowMany, OverUntil;
      var i := 0;
      while i < |batch| && usage(files) > target
        invariant 0 <= i <= |batch| && Valid()
        invariant T() == Given(t, batch[..i]) && history == before + GiveSteps(t, batch[..i])
        invariant OverUntil(t, batch, usage, target, i)
      {
        OneMoreGiven(t, batch, i);
        OneMoreOver(t, batch, usage, target, i);
        ghost var files1 := files;
        GiveOne(batch[i]);
        Assoc(before, GiveSteps(t, batch[..i]), [Shot(rows, files1), Shot(rows, files)]);
        i := i + 1;
      }
      HowManyIs(batch, t, usage, target, i);
    }

    /** One round: the next batch, and as much of it as is needed. False when
        there is nothing left to give. `n` of the queue `q` are given so far. */
    method GiveRound(target: real, byPriority: bool, ghost t: Tally, ghost q: seq<Row>, ghost n: nat,
            ghost before: seq<Shot>)
      returns (some: bool, ghost more: nat)
      requires Valid() && Unique(t.rows) && q == Queue(t.rows, cams, byPriority) && n <= |q|
      requires history == before + GiveSteps(t, q[..n])
      requires T() == Given(t, q[..n]) && OverUntil(t, q, usage, target, n) && usage(files) > target
      modifies this`rows, this`files, this`history, this`unlinked, this`freed, this`degraded
      ensures Valid() && n <= more <= |q| && history == before + GiveSteps(t, q[..more])
      ensures T() == Given(t, q[..more]) && OverUntil(t, q, usage, target, more)
      ensures if some then more > n else more == |q| && T() == old(T())
    {
      hide Given, GiveSteps, HowMany, OverUntil, AlwaysIndexed, Stepwise, Unique;
      var batch := Oldest(rows, cams, byPriority, BATCH);
      QueueAfter(t, cams, byPriority, n);
      if batch == [] {
        return false, n;
      }
      ghost var m := HowMany(batch, T(), usage, target, 0);
      SomeGiven(batch, T(), usage, target);
      GiveBatch(batch, target);
      OneBatchOn(t, q, n, batch, m, usage, target);
      GiveStepsOn(t, q, n, batch, m);
      return true, n + m;
    }

    /** Oldest first, in batches, until the target is met or nothing is left. */
    method GiveUntil(target: real, byPriority: bool) returns (some: bool)
      requires Valid()
      modifies this`rows, this`files, this`history, this`unlinked, this`freed, this`degraded
      ensures Valid()
      ensures var q := Queue(old(rows), cams, byPriority);
              var n := HowMany(q, old(T()), usage, target, 0);
              T() == Given(old(T()), q[..n]) && history == old(history) + GiveSteps(old(T()), q[..n])
      ensures some <==> usage(files) <= target
    {
      ghost var before := history;
      ghost var t, q, n := T(), Queue(rows, cams, byPriority), 0;
      assert Given(t, q[..0]) == t && GiveSteps(t, q[..0]) == [] && OverUntil(t, q, usage, target, 0);
      hide OverUntil, Given, GiveSteps, Queue, HowMany, AlwaysIndexed, Stepwise, Unique;
      some := true;
      while some && usage(files) > target
        invariant Valid() && n <= |q| && history == before + GiveSteps(t, q[..n])
        invariant T() == Given(t, q[..n]) && OverUntil(t, q, usage, target, n)
        invariant !some ==> n == |q| && usage(files) > target
        decreases |q| - n, some
      {
        some, n := GiveRound(target, byPriority, t, q, n, before);
      }
      HowManyIs(q, t, usage, target, n);
    }

    method GiveUp(highWater: real, byPriority: bool)
      requires Valid()
      modifies this
      ensures Valid()
      ensures var q := Queue(old(rows), cams, byPriority);
              var n := HowMany(q, old(T()), usage, highWater - 0.05, 0);
              T() == Given(old(T()), q[..n]) && history == old(history) + GiveSteps(old(T()), q[..n])
      ensures allowed == (old(allowed) && usage(files) <= highWater - 0.05)
    {
      hide Given, GiveSteps, Queue, HowMany, AlwaysIndexed, Stepwise, Unique;
      var some := GiveUntil(highWater - 0.05, byPriority);
      allowed := allowed && some;
    }

    /** The sweep reports; it unlinks nothing. */
    method SweepOrphans(age: FilePath -> real, grace: real) returns (orphans: set<FilePath>)
      ensures orphans == OrphansOf(rows, files, age, grace)
      ensures forall f :: f in orphans <==> f in files && age(f) > grace && forall r :: r in rows ==> r.path != f
    {
      var rest := files;
      orphans := {};
      while rest != {}
        invariant rest <= files && orphans == OrphansOf(rows, files - rest, age, grace)
        decreases |rest|
      {
        var f :| f in rest;
        if !HasRow(rows, f) && age(f) > grace {
          orphans := orphans + {f};
        }
        rest := rest - {f};
      }
      assert files - rest == files;
    }

    /** The windows, and then the policy. `left` is what the windows left. */
    method EnforceWindows(parts: seq<Partition>, order: seq<nat>, now: real, highWater: real, policy: Policy)
      returns (ghost left: Tally)
      requires Valid() && order != [] && (forall c :: c in order <==> c in cams)
      modifies this
      ensures Valid()
      ensures history == old(history) + WindowSteps(Shot(old(rows), old(files)), parts, order, cams, now)
                         + GiveSteps(left, GivenUp(left, cams, usage, highWater, policy))
      ensures LeftAfter(old(rows), old(files), left.rows, left.files, LostToAge(parts, order, cams, now))
      ensures left.freed == old(freed) && left.degraded == old(degraded)
      ensures usage(left.files) < highWater ==> T() == left && allowed == old(allowed)
      ensures usage(left.files) >= highWater && policy.StopRecording? ==> T() == left && !allowed
      ensures usage(left.files) >= highWater && !policy.StopRecording? ==>
                var q := Queue(left.rows, cams, policy.ByPriority?);
                && T() == Given(left, q[..HowMany(q, left, usage, highWater - 0.05, 0)])
                && allowed == (old(allowed) && usage(files) <= highWater - 0.05)
    {
      hide Given, GiveSteps, Queue, HowMany, AlwaysIndexed, Stepwise, Unique, WindowSteps, LeftAfter;
      ghost var before, steps := history, WindowSteps(Shot(rows, files), parts, order, cams, now);
      EnforceAge(parts, order, now);
      left := T();
      if usage(files) >= highWater {
        ApplyPolicy(highWater, policy);
      } else {
        assert GivenUp(left, cams, usage, highWater, policy) == [];
        NoSteps(left);
        Assoc(before, steps, []);
      }
    }

    /** The partitions, and then the windows. */
    method EnforceAge(parts: seq<Partition>, order: seq<nat>, now: real)
      requires Valid() && order != [] && (forall c :: c in order <==> c in cams)
      modifies this`rows, this`files, this`history, this`unlinked
      ensures Valid()
      ensures history == old(history) + WindowSteps(Shot(old(rows), old(files)), parts, order, cams, now)
      ensures LeftAfter(old(rows), old(files), rows, files, LostToAge(parts, order, cams, now))
    {
      hide AlwaysIndexed, Stepwise, Unique, DropSteps, ExpireSteps, LeftAfter, LastOf;
      ghost var s, before := Shot(rows, files), history;
      var longest := LongestOf(order);
      DropPartitions(parts, now - longest);
      ghost var u, dropped := Shot(rows, files), DropSteps(s, parts, now - longest);
      LastIs(before, s, dropped);
      ExpireWindows(order, longest, now);
      Assoc(before, dropped, ExpireSteps(u, order, cams, longest, now));
      LeftTwice(s.rows, s.files, u.rows, u.files, rows, files, LostToPartitions(parts, now - longest),
                LostToWindows(order, cams, longest, now), LostToAge(parts, order, cams, now));
    }

    /** One pass, and the orphans it reports. `order` lists the cameras; with
        none, nothing is enforced. A file that had no row stays on the disk,
        and is reported once it is old. */
    method Enforce(parts: seq<Partition>, order: seq<nat>, now: real, highWater: real, policy: Policy,
            age: FilePath -> real, grace: real)
      returns (ghost left: Tally, orphans: set<FilePath>)
      requires Valid() && (forall c :: c in order <==> c in cams)
      modifies this
      ensures Valid()
      ensures history == if order == [] then old(history)
                         else old(history) + WindowSteps(Shot(old(rows), old(files)), parts, order, cams, now)
                              + GiveSteps(left, GivenUp(left, cams, usage, highWater, policy))
      ensures orphans == if order == [] then {} else OrphansOf(rows, files, age, grace)
      ensures forall f :: f in old(files) && !HasRow(old(rows), f) ==>
                f in files && !HasRow(rows, f) && (f in orphans <==> order != [] && age(f) > grace)
      ensures order == [] ==> T() == old(T()) && allowed == old(allowed)
      ensures order != [] ==>
                && LeftAfter(old(rows), old(files), left.rows, left.files, LostToAge(parts, order, cams, now))
                && left.freed == old(freed) && left.degraded == old(degraded)
      ensures order != [] && usage(left.files) < highWater ==> T() == left && allowed == old(allowed)
      ensures order != [] && usage(left.files) >= highWater && policy.StopRecording? ==> T() == left && !allowed
      ensures order != [] && usage(left.files) >= highWater && !policy.StopRecording? ==>
                var q := Queue(left.rows, cams, policy.ByPriority?);
                && T() == Given(left, q[..HowMany(q, left, usage, highWater - 0.05, 0)])
                && allowed == (old(allowed) && usage(files) <= highWater - 0.05)
    {
      left, orphans := T(), {};
      if order == [] {
        return;
      }
      hide Given, GiveSteps, Queue, HowMany, AlwaysIndexed, Stepwise, Unique, HasRow, LeftAfter, LostToAge;
      hide WindowSteps, GivenUp;
      ghost var t := T();
      left := EnforceWindows(parts, order, now, highWater, policy);
      orphans := SweepOrphans(age, grace);
      ghost var q := Queue(left.rows, cams, policy.ByPriority?);
      ghost var n := if T() == left then 0 else HowMany(q, left, usage, highWater - 0.05, 0);
      NoneGiven(left, q);
      OrphansStay(t, left, LostToAge(parts, order, cams, now), cams, policy.ByPriority?, n);
    }

    method LongestOf(order: seq<nat>) returns (longest: real)
      requires order != [] && forall c :: c in order ==> c in cams
      ensures longest == Longest(cams, order)
    {
      longest := cams[order[0]].days;
      for i := 1 to |order|
        invariant forall c :: c in order[..i] ==> c in cams
        invariant longest == Longest(cams, order[..i])
      {
        assert order[..i + 1][..i] == order[..i];
        if cams[order[i]].days > longest {
          longest := cams[order[i]].days;
        }
      }
      assert order[..|order|] == order;
    }

    method ApplyPolicy(highWater: real, policy: Policy)
      requires Valid() && usage(files) >= highWater
      modifies this
      ensures Valid()
      ensures history == old(history) + GiveSteps(old(T()), GivenUp(old(T()), cams, usage, highWater, policy))
      ensures policy.StopRecording? ==>
                !allowed && T() == old(T())
      ensures !policy.StopRecording? ==>
                var q := Queue(old(rows), cams, policy.ByPriority?);
                && T() == Given(old(T()), q[..HowMany(q, old(T()), usage, highWater - 0.05, 0)])
                && allowed == (old(allowed) && usage(files) <= highWater - 0.05)
    {
      if policy.StopRecording? {
        allowed := false;
        return;
      }
      GiveUp(highWater, policy.ByPriority?);
    }
  }

  /** The windows take files only with their rows. */
  lemma OrphanLeft(rows: seq<Row>, files: set<FilePath>, rows': seq<Row>, files': set<FilePath>, lost: iset<Row>,
          f: FilePath)
    requires LeftAfter(rows, files, rows', files', lost) && f in files && !HasRow(rows, f)
    ensures f in files' && !HasRow(rows', f)
  {
    forall i | 0 <= i < |rows'| ensures rows'[i].path != f {
      assert rows'[i] in rows';
      assert rows'[i] in rows;
    }
  }

  /** And so does giving up. */
  lemma {:induction false} OrphanKept(t: Tally, cams: map<nat, Camera>, byPriority: bool, n: nat, f: FilePath)
    requires f in t.files && !HasRow(t.rows, f) && n <= |Queue(t.rows, cams, byPriority)|
    ensures var u := Given(t, Queue(t.rows, cams, byPriority)[..n]); f in u.files && !HasRow(u.rows, f)
  {
    var q := Queue(t.rows, cams, byPriority);
    forall r | r in q ensures r.path != f {
      InQueue(t.rows, cams, byPriority, r);
    }
    OrphanOfOthers(t, q[..n], f);
  }

  lemma NoneGiven(t: Tally, q: seq<Row>)
    ensures Given(t, q[..0]) == t
  {}

  /** So a file that had no row when the pass began is there when it ends. */
  lemma OrphansStay(t: Tally, left: Tally, lost: iset<Row>, cams: map<nat, Camera>, byPriority: bool, n: nat)
    requires LeftAfter(t.rows, t.files, left.rows, left.files, lost)
    requires n <= |Queue(left.rows, cams, byPriority)|
    ensures var u := Given(left, Queue(left.rows, cams, byPriority)[..n]);
            forall f :: f in t.files && !HasRow(t.rows, f) ==> f in u.files && !HasRow(u.rows, f)
  {
    hide LeftAfter, Given, Queue, HasRow;
    var u := Given(left, Queue(left.rows, cams, byPriority)[..n]);
    forall f | f in t.files && !HasRow(t.rows, f) ensures f in u.files && !HasRow(u.rows, f) {
      OrphanLeft(t.rows, t.files, left.rows, left.files, lost, f);
      OrphanKept(left, cams, byPriority, n, f);
    }
  }

  lemma InQueue(rows: seq<Row>, cams: map<nat, Camera>, byPriority: bool, r: Row)
    requires r in Queue(rows, cams, byPriority)
    ensures r in rows
  {
    SortedSame(Filter(rows, Known(cams)), Rank(cams, byPriority));
    assert r in multiset(Queue(rows, cams, byPriority));
    assert r in multiset(Filter(rows, Known(cams)));
    FilterIn(rows, Known(cams), r);
  }

  lemma {:induction false} OrphanOfOthers(t: Tally, q: seq<Row>, f: FilePath)
    requires f in t.files && !HasRow(t.rows, f) && forall r :: r in q ==> r.path != f
    ensures f in Given(t, q).files && !HasRow(Given(t, q).rows, f)
  {
    if q != [] {
      var init, last := q[..|q| - 1], q[|q| - 1];
      OrphanOfOthers(t, init, f);
      var u := Given(t, init);
      forall i | 0 <= i < |Filter(u.rows, NotPath(last.path))| ensures Filter(u.rows, NotPath(last.path))[i].path != f {
        FilterIn(u.rows, NotPath(last.path), Filter(u.rows, NotPath(last.path))[i]);
      }
    }
  }

  lemma NothingLost(rows: seq<Row>, files: set<FilePath>, lost: iset<Row>)
    requires forall r :: r !in lost
    ensures LeftAfter(rows, files, rows, files, lost)
  {}

  lemma {:induction false} FilesAfterIs(files: set<FilePath>, gone: seq<Row>)
    ensures forall f :: f in FilesAfter(files, gone) <==> f in files && !(exists r :: r in gone && r.path == f)
  {
    if gone != [] {
      var init, last := gone[..|gone| - 1], gone[|gone| - 1];
      FilesAfterIs(files, init);
      assert forall r :: r in gone <==> r in init || r == last;
    }
  }

  lemma {:induction false} GoneHas(rows: seq<Row>, keep: Row -> bool, r: Row)
    ensures r in Gone(rows, keep) <==> r in rows && !keep(r)
  {
    if rows != [] {
      GoneHas(rows[..|rows| - 1], keep, r);
      assert rows == rows[..|rows| - 1] + [rows[|rows| - 1]];
    }
  }

  lemma RemovedLeaves(rows: seq<Row>, files: set<FilePath>, keep: Row -> bool)
    ensures LeftAfter(rows, files, Filter(rows, keep), FilesAfter(files, Gone(rows, keep)), LostTo(keep))
  {
    forall r ensures r in Filter(rows, keep) <==> r in rows && keep(r) {
      FilterIn(rows, keep, r);
    }
    forall r ensures r in Gone(rows, keep) <==> r in rows && !keep(r) {
      GoneHas(rows, keep, r);
    }
    FilesAfterIs(files, Gone(rows, keep));
  }

  lemma LeftTwice(rows0: seq<Row>, files0: set<FilePath>, rows1: seq<Row>, files1: set<FilePath>, rows2: seq<Row>,
          files2: set<FilePath>, a: iset<Row>, b: iset<Row>, both: iset<Row>)
    requires LeftAfter(rows0, files0, rows1, files1, a) && LeftAfter(rows1, files1, rows2, files2, b)
    requires forall r :: r in both <==> r in a || r in b
    ensures LeftAfter(rows0, files0, rows2, files2, both)
  {
    forall f ensures f in files2 <==> f in files0 && !(exists r :: r in rows0 && r in both && r.path == f) {
      if r :| r in rows0 && r in both && r.path == f {
        assert r in a || (r in rows1 && r in b);
      }
    }
  }

  lemma HowManyIs(q: seq<Row>, t: Tally, usage: Usage, target: real, n: nat)
    requires n <= |q| && OverUntil(t, q, usage, target, n)
    requires n < |q| ==> usage(Given(t, q[..n]).files) <= target
    ensures HowMany(q, t, usage, target, 0) == n
  {
    var h := HowMany(q, t, usage, target, 0);
    assert q[..h] == q[..h];
  }

  lemma SomeGiven(batch: seq<Row>, t: Tally, usage: Usage, target: real)
    requires batch != [] && usage(t.files) > target
    ensures HowMany(batch, t, usage, target, 0) > 0
  {
    assert batch[..0] == [];
  }

  lemma {:induction false} GivenConcat(t: Tally, a: seq<Row>, b: seq<Row>)
    ensures Given(t, a + b) == Given(Given(t, a), b)
  {
    if b == [] {
      assert a + b == a;
    } else {
      assert (a + b)[..|a + b| - 1] == a + b[..|b| - 1];
      GivenConcat(t, a, b[..|b| - 1]);
    }
  }

  lemma GivenOn(t: Tally, q: seq<Row>, n: nat, batch: seq<Row>, j: nat)
    requires n + |batch| <= |q| && batch == q[n..n + |batch|] && j <= |batch|
    ensures Given(t, q[..n + j]) == Given(Given(t, q[..n]), batch[..j])
  {
    hide Given;
    GivenConcat(t, q[..n], batch[..j]);
    assert q[..n] + batch[..j] == q[..n + j];
  }

  lemma {:induction false} GiveStepsConcat(t: Tally, a: seq<Row>, b: seq<Row>)
    ensures GiveSteps(t, a + b) == GiveSteps(t, a) + GiveSteps(Given(t, a), b)
  {
    if b == [] {
      assert a + b == a;
    } else {
      assert (a + b)[..|a + b| - 1] == a + b[..|b| - 1];
      GivenConcat(t, a, b[..|b| - 1]);
      GiveStepsConcat(t, a, b[..|b| - 1]);
    }
  }

  lemma GiveStepsOn(t: Tally, q: seq<Row>, n: nat, batch: seq<Row>, j: nat)
    requires n + |batch| <= |q| && batch == q[n..n + |batch|] && j <= |batch|
    ensures GiveSteps(t, q[..n + j]) == GiveSteps(t, q[..n]) + GiveSteps(Given(t, q[..n]), batch[..j])
  {
    hide GiveSteps, Given;
    GiveStepsConcat(t, q[..n], batch[..j]);
    assert q[..n] + batch[..j] == q[..n + j];
  }

  /** The target is not met before the n-th. */
  ghost predicate OverUntil(t: Tally, q: seq<Row>, usage: Usage, target: real, n: nat)
    requires n <= |q|
  {
    forall j :: 0 <= j < n ==> usage(Given(t, q[..j]).files) > target
  }

  lemma OneMoreOver(t: Tally, q: seq<Row>, usage: Usage, target: real, n: nat)
    requires n < |q| && OverUntil(t, q, usage, target, n) && usage(Given(t, q[..n]).files) > target
    ensures OverUntil(t, q, usage, target, n + 1)
  {}

  /** A batch carries the count on along the whole queue. */
  lemma OneBatchOn(t: Tally, q: seq<Row>, n: nat, batch: seq<Row>, m: nat, usage: Usage, target: real)
    requires n + |batch| <= |q| && batch == q[n..n + |batch|]
    requires m == HowMany(batch, Given(t, q[..n]), usage, target, 0)
    requires OverUntil(t, q, usage, target, n)
    ensures Given(t, q[..n + m]) == Given(Given(t, q[..n]), batch[..m])
    ensures OverUntil(t, q, usage, target, n + m)
  {
    hide Given;
    GivenOn(t, q, n, batch, m);
    forall j | 0 <= j < n + m ensures usage(Given(t, q[..j]).files) > target {
      if j >= n {
        GivenOn(t, q, n, batch, j - n);
      }
    }
  }

  // ----- the queue as it shrinks

  lemma {:induction false} FilterSwap(rows: seq<Row>, p: Row -> bool, q: Row -> bool)
    ensures Filter(Filter(rows, p), q) == Filter(Filter(rows, q), p)
  {
    if rows != [] {
      var init, last := rows[..|rows| - 1], rows[|rows| - 1];
      FilterSwap(init, p, q);
      FilterOne(Filter(init, p), last, q);
      FilterOne(Filter(init, q), last, p);
      assert Filter(rows, p) == if p(last) then Filter(init, p) + [last] else Filter(init, p);
      assert Filter(rows, q) == if q(last) then Filter(init, q) + [last] else Filter(init, q);
    }
  }

  lemma {:induction false} SameUnique(s: seq<Row>, t: seq<Row>)
    requires Unique(s) && multiset(s) == multiset(t)
    ensures Unique(t)
  {
    forall i, j | 0 <= i < j < |t| ensures t[i].path != t[j].path {
      assert t[i] in multiset(t) && t[j] in multiset(t);
      UniqueOnce(s, t[i]);
      assert t == t[..i] + [t[i]] + t[i + 1..j] + [t[j]] + t[j + 1..];
      var k :| 0 <= k < |s| && s[k] == t[i];
      var l :| 0 <= l < |s| && s[l] == t[j];
      assert k < l || l < k;
    }
  }

  lemma {:induction false} UniqueOnce(s: seq<Row>, r: Row)
    requires Unique(s)
    ensures multiset(s)[r] <= 1
  {
    if s != [] {
      UniqueOnce(s[..|s| - 1], r);
      assert s == s[..|s| - 1] + [s[|s| - 1]];
      assert r == s[|s| - 1] ==> r !in s[..|s| - 1];
    }
  }

  lemma QueueUnique(rows: seq<Row>, cams: map<nat, Camera>, byPriority: bool)
    requires Unique(rows)
    ensures Unique(Queue(rows, cams, byPriority))
  {
    FilterUnique(rows, Known(cams));
    SortedSame(Filter(rows, Known(cams)), Rank(cams, byPriority));
    SameUnique(Filter(rows, Known(cams)), Queue(rows, cams, byPriority));
  }

  lemma DropFirst(head: Row, tail: seq<Row>)
    requires forall i :: 0 <= i < |tail| ==> tail[i].path != head.path
    ensures Filter([head] + tail, NotPath(head.path)) == tail
  {
    var keep := NotPath(head.path);
    FilterAppend([head], tail, keep);
    FilterNone([head], keep);
    FilterAll(tail, keep);
    hide Filter;
    var none: seq<Row> := [];
    assert none + tail == tail;
  }

  lemma DropHead(q: seq<Row>, n: nat)
    requires n < |q| && Unique(q)
    ensures Filter(q[n..], NotPath(q[n].path)) == q[n + 1..]
  {
    DropFirst(q[n], q[n + 1..]);
    hide Filter, Unique;
    assert [q[n]] + q[n + 1..] == q[n..];
  }

  lemma OneGiven(t: Tally, q: seq<Row>, n: nat)
    requires n < |q|
    ensures Given(t, q[..n + 1]) == GivenOne(Given(t, q[..n]), q[n])
  {
    assert q[..n + 1][..n] == q[..n];
  }

  /** After the first n of the queue are given up, the queue is the rest. */
  lemma {:induction false} QueueAfter(t: Tally, cams: map<nat, Camera>, byPriority: bool, n: nat)
    requires Unique(t.rows) && n <= |Queue(t.rows, cams, byPriority)|
    ensures Queue(Given(t, Queue(t.rows, cams, byPriority)[..n]).rows, cams, byPriority) ==
        Queue(t.rows, cams, byPriority)[n..]
  {
    hide Queue, Filter, Unique;
    var q := Queue(t.rows, cams, byPriority);
    if n == 0 {
      assert q[..0] == [] && q[0..] == q;
    } else {
      QueueAfter(t, cams, byPriority, n - 1);
      OneGiven(t, q, n - 1);
      QueueWithout(Given(t, q[..n - 1]).rows, cams, byPriority, NotPath(q[n - 1].path));
      QueueUnique(t.rows, cams, byPriority);
      DropHead(q, n - 1);
    }
  }

  lemma QueueWithout(rows: seq<Row>, cams: map<nat, Camera>, byPriority: bool, keep: Row -> bool)
    ensures Queue(Filter(rows, keep), cams, byPriority) == Filter(Queue(rows, cams, byPriority), keep)
  {
    FilterSwap(rows, keep, Known(cams));
    FilterSorted(Filter(rows, Known(cams)), Rank(cams, byPriority), keep);
  }
}
