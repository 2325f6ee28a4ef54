/** What a retention pass takes, and what it never takes. */
module RetentionLaws {
  import opened Retention
  import opened StableSort

  /** Before the disk is looked at, a row goes only when it starts before its
      own camera's window; a row of a camera that is gone, only when it starts
      before the longest. */
  lemma OnlyPastTheWindow(parts: seq<Partition>, order: seq<nat>, cams: map<nat, Camera>, now: real, r: Row)
    requires order != [] && (forall c :: c in order <==> c in cams)
    requires r in LostToAge(parts, order, cams, now)
    ensures r.cam in cams ==> r.start < now - cams[r.cam].days
    ensures r.cam !in cams ==> r.start < now - Longest(cams, order)
  {
    var longest := Longest(cams, order);
    if r in LostToPartitions(parts, now - longest) {
      var p :| p in parts && p.hi <= now - longest && InPartition(r, p);
    }
    assert r.cam in cams ==> cams[r.cam].days <= longest;
  }

  /** And a row past its own camera's window stays exactly when that window is
      the longest and no partition that is wholly past it holds the row. */
  lemma StaysExactlyWhen(parts: seq<Partition>, order: seq<nat>, cams: map<nat, Camera>, now: real, r: Row)
    requires order != [] && (forall c :: c in order <==> c in cams)
    requires r.cam in cams && r.start < now - cams[r.cam].days
    ensures r !in LostToAge(parts, order, cams, now) <==>
            && cams[r.cam].days == Longest(cams, order)
            && forall p :: p in parts && p.hi <= now - Longest(cams, order) ==> !InPartition(r, p)
  {
    var longest := Longest(cams, order);
    assert r.cam in order && cams[r.cam].days <= longest;
    if r !in LostToAge(parts, order, cams, now) {
      forall p | p in parts && p.hi <= now - longest ensures !InPartition(r, p) {
        assert InPartition(r, p) ==> InOldPartition(r, parts, now - longest);
      }
    }
  }

  lemma InOldIs(r: Row, parts: seq<Partition>, cutoff: real)
    ensures InOldPartition(r, parts, cutoff) <==>
            exists p :: p in parts && p.hi <= cutoff && p.lo <= r.start < p.hi
  {
    if InOldPartition(r, parts, cutoff) {
      var p :| p in parts && p.hi <= cutoff && InPartition(r, p);
    }
    forall p | p in parts && p.hi <= cutoff && p.lo <= r.start < p.hi ensures InOldPartition(r, parts, cutoff) {
      assert InPartition(r, p);
    }
  }

  /** What a pass leaves before it looks at the disk: of a known camera, the
      rows inside its own window, and those past it where that window is the
      longest and no partition wholly past it holds them; of a camera that is
      gone, the rows in no such partition. A file goes exactly with its row. */
  lemma {:induction false} WhatAgeLeaves(rows: seq<Row>, files: set<FilePath>, rows': seq<Row>, files': set<FilePath>,
          parts: seq<Partition>, order: seq<nat>, cams: map<nat, Camera>, now: real, r: Row)
    requires order != [] && (forall c :: c in order <==> c in cams)
    requires Unique(rows) && LeftAfter(rows, files, rows', files', LostToAge(parts, order, cams, now))
    requires r in rows && r.path in files
    ensures var longest := Longest(cams, order);
            var inOld := exists p :: p in parts && p.hi <= now - longest && p.lo <= r.start < p.hi;
            && (r.cam in cams ==>
                  (r in rows' <==> r.start >= now - cams[r.cam].days || (cams[r.cam].days == longest && !inOld)))
            && (r.cam !in cams ==> (r in rows' <==> !inOld))
            && (r.path in files' <==> r in rows')
  {
    var longest := Longest(cams, order);
    InOldIs(r, parts, now - longest);
    if r.cam in cams && r.start < now - cams[r.cam].days {
      StaysExactlyWhen(parts, order, cams, now, r);
    } else if r in LostToAge(parts, order, cams, now) {
      OnlyPastTheWindow(parts, order, cams, now, r);
    }
    if s :| s in rows && s in LostToAge(parts, order, cams, now) && s.path == r.path {
      SamePathSameRow(rows, r, s);
    }
  }

  /** No later row of the stretch is of the same camera. */
  ghost predicate LastOfItsCamera(q: seq<Row>, i: nat)
    requires i < |q|
  {
    forall j :: i < j < |q| ==> q[j].cam != q[i].cam
  }

  lemma DegradedOne(t: Tally, q: seq<Row>)
    requires q != []
    ensures var n := |q| - 1; Given(t, q).degraded == Given(t, q[..n]).degraded[q[n].cam := q[n].start]
  {}

  lemma {:induction false} LastIsNoted(t: Tally, q: seq<Row>, i: nat)
    requires i < |q| && LastOfItsCamera(q, i)
    ensures q[i].cam in Given(t, q).degraded && Given(t, q).degraded[q[i].cam] == q[i].start
  {
    DegradedOne(t, q);
    hide Given;
    var n := |q| - 1;
    if i < n {
      assert q[n].cam != q[i].cam;
      assert LastOfItsCamera(q[..n], i);
      LastIsNoted(t, q[..n], i);
    }
  }

  lemma {:induction false} OthersAsNoted(t: Tally, q: seq<Row>, c: nat)
    requires forall i :: 0 <= i < |q| ==> q[i].cam != c
    ensures c in Given(t, q).degraded <==> c in t.degraded
    ensures c in t.degraded ==> Given(t, q).degraded[c] == t.degraded[c]
  {
    if q != [] {
      DegradedOne(t, q);
      hide Given;
      assert q[|q| - 1].cam != c;
      OthersAsNoted(t, q[..|q| - 1], c);
    }
  }

  /** Each camera that gave anything up is noted with the start of the last it
      gave; the others as they were. */
  lemma DegradedIs(t: Tally, q: seq<Row>)
    ensures var noted := Given(t, q).degraded;
            && (forall i :: 0 <= i < |q| && LastOfItsCamera(q, i) ==>
                  q[i].cam in noted && noted[q[i].cam] == q[i].start)
            && (forall c :: (forall i :: 0 <= i < |q| ==> q[i].cam != c) ==>
                  (c in noted <==> c in t.degraded) && (c in t.degraded ==> noted[c] == t.degraded[c]))
  {
    hide Given, LastOfItsCamera;
    var noted := Given(t, q).degraded;
    forall i | 0 <= i < |q| && LastOfItsCamera(q, i) ensures q[i].cam in noted && noted[q[i].cam] == q[i].start {
      LastIsNoted(t, q, i);
    }
    forall c | forall i :: 0 <= i < |q| ==> q[i].cam != c
      ensures (c in noted <==> c in t.degraded) && (c in t.degraded ==> noted[c] == t.degraded[c])
    {
      OthersAsNoted(t, q, c);
    }
  }

  /** Giving up a stretch of the queue takes those rows and their files, and
      nothing else, and counts them. */
  lemma {:induction false} GivenIs(t: Tally, q: seq<Row>)
    ensures forall r :: r in Given(t, q).rows <==> r in t.rows && !(exists s :: s in q && s.path == r.path)
    ensures forall f :: f in Given(t, q).files <==> f in t.files && !(exists s :: s in q && s.path == f)
    ensures Given(t, q).unlinked == t.unlinked + |q|
    ensures Given(t, q).freed == t.freed + BytesOf(q)
  {
    if q != [] {
      var init, last := q[..|q| - 1], q[|q| - 1];
      GivenIs(t, init);
      assert forall s :: s in q <==> s in init || s == last;
      var u := Given(t, init);
      forall r ensures r in Given(t, q).rows <==> r in u.rows && r.path != last.path {
        FilterIn(u.rows, NotPath(last.path), r);
      }
    }
  }

  function BytesOf(q: seq<Row>): nat {
    if q == [] then 0 else BytesOf(q[..|q| - 1]) + q[|q| - 1].bytes
  }

  /** The queue: the rows of known cameras, in start order, or by priority and
      then start. */
  lemma QueueIs(rows: seq<Row>, cams: map<nat, Camera>, byPriority: bool)
    ensures var q := Queue(rows, cams, byPriority);
            && (forall i :: 0 <= i < |q| ==> q[i].cam in cams)
            && forall i, j :: 0 <= i < j < |q| ==>
                 if byPriority && cams[q[i].cam].priority != cams[q[j].cam].priority
                 then cams[q[i].cam].priority < cams[q[j].cam].priority
                 else q[i].start <= q[j].start
    ensures forall r: Row ::
              multiset(Queue(rows, cams, byPriority))[r] == if r.cam in cams then multiset(rows)[r] else 0
  {
    var known := Filter(rows, Known(cams));
    SortedOrdered(known, Rank(cams, byPriority));
    SortedSame(known, Rank(cams, byPriority));
    forall r: Row ensures multiset(known)[r] == if r.cam in cams then multiset(rows)[r] else 0 {
      FilterCounts(rows, Known(cams), r);
    }
    var q := Queue(rows, cams, byPriority);
    hide Queue, Filter, Sorted;
    forall i | 0 <= i < |q| ensures q[i].cam in cams {
      assert q[i] in multiset(q);
    }
    forall i, j | 0 <= i < j < |q|
      ensures if byPriority && cams[q[i].cam].priority != cams[q[j].cam].priority
              then cams[q[i].cam].priority < cams[q[j].cam].priority
              else q[i].start <= q[j].start
    {
      assert Leq(Rank(cams, byPriority)(q[i]), Rank(cams, byPriority)(q[j]));
    }
  }

  /** With the whole queue given up, the rows of cameras that are gone are left. */
  lemma AllGiven(t: Tally, cams: map<nat, Camera>, byPriority: bool, r: Row)
    requires Unique(t.rows)
    ensures r in Given(t, Queue(t.rows, cams, byPriority)).rows <==> r in t.rows && r.cam !in cams
  {
    var q := Queue(t.rows, cams, byPriority);
    GivenIs(t, q);
    QueueIs(t.rows, cams, byPriority);
    hide Given, Queue;
    assert r in q <==> r in multiset(q);
    assert r in t.rows <==> r in multiset(t.rows);
    if s :| s in q && s.path == r.path && r in t.rows {
      assert s in multiset(q);
      assert s in multiset(t.rows);
      SamePathSameRow(t.rows, r, s);
    }
  }

  /** When no prefix suffices, everything that can be given up is. The index is
      then empty exactly when every row's camera is still known. */
  lemma {:induction false} EmptiedExactlyWhen(t: Tally, cams: map<nat, Camera>, byPriority: bool, usage: Usage,
          target: real)
    requires Unique(t.rows)
    requires OverUntil(t, Queue(t.rows, cams, byPriority), usage, target, |Queue(t.rows, cams, byPriority)|)
    ensures var q := Queue(t.rows, cams, byPriority);
            var u := Given(t, q[..HowMany(q, t, usage, target, 0)]);
            && (forall r :: r in u.rows <==> r in t.rows && r.cam !in cams)
            && (u.rows == [] <==> forall r :: r in t.rows ==> r.cam in cams)
  {
    var q := Queue(t.rows, cams, byPriority);
    HowManyIs(q, t, usage, target, |q|);
    assert q[..|q|] == q;
    hide Given, Queue, HowMany, OverUntil;
    var u := Given(t, q);
    forall r ensures r in u.rows <==> r in t.rows && r.cam !in cams {
      AllGiven(t, cams, byPriority, r);
    }
    assert u.rows != [] ==> u.rows[0] in u.rows;
  }

  lemma SamePathSameRow(rows: seq<Row>, r: Row, s: Row)
    requires Unique(rows) && r in rows && s in rows && r.path == s.path
    ensures r == s
  {
    var i :| 0 <= i < |rows| && rows[i] == r;
    var j :| 0 <= j < |rows| && rows[j] == s;
  }

  /** Over everything a node has ever done: a file with a row that is gone
      later has been, in between, a file without one. So a crash can leave a
      file without its row, and never a row without its file. */
  lemma {:induction false} RowsGoFirst(history: seq<Shot>, i: nat, j: nat, f: FilePath) returns (k: nat)
    requires Stepwise(history) && i < j < |history|
    requires f in history[i].files && HasRow(history[i].rows, f) && f !in history[j].files
    ensures i < k < j && f in history[k].files && !HasRow(history[k].rows, f)
    decreases j
  {
    assert OneThing(history[j - 1], history[j]);
    if f in history[j - 1].files {
      k := j - 1;
      assert i < k;
    } else {
      k := RowsGoFirst(history, i, j - 1, f);
    }
  }

  const KNOWN: map<nat, Camera> := map[1 := Camera(1.0, 0)]
  const OF_GONE := Row(9, "a", 0.0, 1)
  const OF_KNOWN := Row(1, "b", 1.0, 1)

  lemma QueueOfKnown()
    ensures Queue([OF_GONE, OF_KNOWN], KNOWN, false) == [OF_KNOWN]
    ensures Filter([OF_GONE, OF_KNOWN], NotPath("b")) == [OF_GONE]
  {
    var none: seq<Row> := [];
    assert Sorted([OF_KNOWN][..0], Rank(KNOWN, false)) == none;
    assert Sorted([OF_KNOWN], Rank(KNOWN, false)) == [OF_KNOWN];
    hide Filter, Sorted;
    FilterAppend([OF_GONE], [OF_KNOWN], Known(KNOWN));
    FilterNone([OF_GONE], Known(KNOWN));
    FilterAll([OF_KNOWN], Known(KNOWN));
    FilterAppend([OF_GONE], [OF_KNOWN], NotPath("b"));
    FilterAll([OF_GONE], NotPath("b"));
    FilterNone([OF_KNOWN], NotPath("b"));
    assert [OF_GONE] + [OF_KNOWN] == [OF_GONE, OF_KNOWN];
    assert none + [OF_KNOWN] == [OF_KNOWN] && [OF_GONE] + none == [OF_GONE];
  }

  lemma {:induction false} FullForGood(q: seq<Row>, t: Tally, usage: Usage, target: real, k: nat)
    requires k <= |q| && forall files :: usage(files) > target
    ensures HowMany(q, t, usage, target, k) == |q|
    decreases |q| - k
  {
    if k < |q| {
      FullForGood(q, t, usage, target, k + 1);
    }
  }

  lemma GivesOne(t: Tally)
    requires t.rows == [OF_GONE, OF_KNOWN] && t.files == {"a", "b"}
    ensures Given(t, [OF_KNOWN]).rows == [OF_GONE] && Given(t, [OF_KNOWN]).files == {"a"}
  {
    QueueOfKnown();
    var one := [OF_KNOWN];
    assert one[..0] == [];
    assert Given(t, one[..0]) == t;
    hide Filter;
    assert Given(t, one) == GivenOne(t, OF_KNOWN);
    assert "a" != "b" by { assert "a"[0] != "b"[0]; }
    assert t.files - {"b"} == {"a"};
  }

  /** Deleting a camera leaves its rows, and the queue cannot see them: with
      the disk full for good, everything that can go is given up and the row of
      the camera that is gone stays, with its file. */
  lemma GoneCameraKeepsItsRow()
    ensures var t := Tally([OF_GONE, OF_KNOWN], {"a", "b"}, 0, 0, map[]);
            var q := Queue(t.rows, KNOWN, false);
            var u := Given(t, q[..HowMany(q, t, _ => 1.0, 0.9, 0)]);
            Unique(t.rows) && u.rows == [OF_GONE] && u.files == {"a"}
  {
    hide Queue, Filter, Given, HowMany;
    var t, usage: Usage := Tally([OF_GONE, OF_KNOWN], {"a", "b"}, 0, 0, map[]), _ => 1.0;
    var q := Queue(t.rows, KNOWN, false);
    QueueOfKnown();
    FullForGood(q, t, usage, 0.9, 0);
    GivesOne(t);
    assert q == [OF_KNOWN] && q[..1] == q;
  }
}
