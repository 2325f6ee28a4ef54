/** A camera's timeline over [t0, t1): the media spans, with the events of the
    buckets they overlap counted on them, and the buckets that stand alone. */
module Timeline {
  import opened Archive
  import opened Paths
  import opened StableSort
  import opened Variables

  datatype Span = Span(start: real, end: real, media: Option<Path>, epoch: nat, events: nat, fenced: bool)

  function SpanKey(o: Span): Key {
    Key(o.start, o.epoch as real)
  }

  predicate HasMedia(o: Span) {
    o.media.Some?
  }

  predicate InWindow(e: Entry, t0: real, t1: real) {
    e.end > t0 && e.start < t1
  }

  predicate Old(epoch: nat, current: Option<nat>) {
    current.Some? && epoch < current.value
  }

  function SpanOf(e: Entry, current: Option<nat>): Span {
    match e
    case Media(_, epoch, start, end, path, _) => Span(start, end, Some(path), epoch, 0, Old(epoch, current))
    case Bucket(_, _, epoch, start, end, _, events) => Span(start, end, None, epoch, events, Old(epoch, current))
  }

  /** A recorded span that a bucket's events are counted on. */
  predicate Covers(o: Span, b: Entry) {
    o.media.Some? && o.epoch == b.epoch && o.start < b.end && b.start < o.end
  }

  function Overlapping(lines: seq<Entry>, t0: real, t1: real): (es: seq<Entry>)
    ensures (forall i :: 0 <= i < |lines| ==> lines[i].Bucket?) ==> forall i :: 0 <= i < |es| ==> es[i].Bucket?
    ensures forall i :: 0 <= i < |es| ==> InWindow(es[i], t0, t1) && es[i] in lines
  {
    if lines == [] then []
    else
      var last := lines[|lines| - 1];
      var before := Overlapping(lines[..|lines| - 1], t0, t1);
      if InWindow(last, t0, t1) then before + [last] else before
  }

  function SpansOf(es: seq<Entry>, current: Option<nat>): seq<Span> {
    if es == [] then [] else SpansOf(es[..|es| - 1], current) + [SpanOf(es[|es| - 1], current)]
  }

  /** The first span that covers the bucket, or the length. */
  function FirstHit(out: seq<Span>, b: Entry): (k: nat)
    ensures k <= |out|
    ensures forall i :: 0 <= i < k ==> !Covers(out[i], b)
    ensures k < |out| ==> Covers(out[k], b)
  {
    if out == [] then 0
    else if Covers(out[0], b) then 0
    else 1 + FirstHit(out[1..], b)
  }

  function Counted(out: seq<Span>, b: Entry, current: Option<nat>): seq<Span>
    requires b.Bucket?
  {
    var k := FirstHit(out, b);
    if k < |out| then out[k := out[k].(events := out[k].events + b.events)] else out + [SpanOf(b, current)]
  }

  function CountedAll(out: seq<Span>, bs: seq<Entry>, current: Option<nat>): seq<Span>
    requires forall i :: 0 <= i < |bs| ==> bs[i].Bucket?
  {
    if bs == [] then out else Counted(CountedAll(out, bs[..|bs| - 1], current), bs[|bs| - 1], current)
  }

  function MediaIn(lines: seq<Entry>, t0: real, t1: real): seq<Entry> {
    Overlapping(Filter(lines, IsMedia), t0, t1)
  }

  function BucketsIn(lines: seq<Entry>, t0: real, t1: real): (bs: seq<Entry>)
    ensures forall i :: 0 <= i < |bs| ==> bs[i].Bucket?
  {
    FilterHolds(lines, IsBucket);
    Overlapping(Filter(lines, IsBucket), t0, t1)
  }

  function Answer(lines: seq<Entry>, t0: real, t1: real, current: Option<nat>): seq<Span> {
    Sorted(CountedAll(SpansOf(MediaIn(lines, t0, t1), current), BucketsIn(lines, t0, t1), current), SpanKey)
  }

  /** `Manifest.timeline`. */
  method TimelineOf(lines: seq<Entry>, t0: real, t1: real, current: Option<nat>) returns (out: seq<Span>)
    ensures out == Answer(lines, t0, t1, current)
  {
    FilterHolds(lines, IsBucket);
    var spans := RecordedSpans(Filter(lines, IsMedia), t0, t1, current);
    var counted := CountBuckets(spans, Filter(lines, IsBucket), t0, t1, current);
    out := Sorted(counted, SpanKey);
  }

  method RecordedSpans(media: seq<Entry>, t0: real, t1: real, current: Option<nat>) returns (out: seq<Span>)
    ensures out == SpansOf(Overlapping(media, t0, t1), current)
  {
    out := [];
    for i := 0 to |media|
      invariant out == SpansOf(Overlapping(media[..i], t0, t1), current)
    {
      OverlappingOne(media[..i], media[i], t0, t1);
      assert media[..i] + [media[i]] == media[..i + 1];
      if InWindow(media[i], t0, t1) {
        SpansOne(Overlapping(media[..i], t0, t1), media[i], current);
        out := out + [SpanOf(media[i], current)];
      }
    }
    assert media[..|media|] == media;
  }

  method CountBuckets(spans: seq<Span>, buckets: seq<Entry>, t0: real, t1: real, current: Option<nat>)
    returns (out: seq<Span>)
    requires forall i :: 0 <= i < |buckets| ==> buckets[i].Bucket?
    ensures out == CountedAll(spans, Overlapping(buckets, t0, t1), current)
  {
    out := spans;
    assert CountedAll(spans, Overlapping(buckets[..0], t0, t1), current) == spans;
    hide Overlapping, CountedAll;
    for i := 0 to |buckets|
      invariant out == CountedAll(spans, Overlapping(buckets[..i], t0, t1), current)
    {
      OverlappingOne(buckets[..i], buckets[i], t0, t1);
      assert buckets[..i] + [buckets[i]] == buckets[..i + 1];
      if InWindow(buckets[i], t0, t1) {
        CountedOne(spans, Overlapping(buckets[..i], t0, t1), buckets[i], current);
        out := CountOne(out, buckets[i], current);
      }
    }
    assert buckets[..|buckets|] == buckets;
  }

  /** The search for a recorded span that covers the bucket, and its outcome. */
  method CountOne(spans: seq<Span>, b: Entry, current: Option<nat>) returns (out: seq<Span>)
    requires b.Bucket?
    ensures out == Counted(spans, b, current)
  {
    var hit := 0;
    while hit < |spans| && !Covers(spans[hit], b)
      invariant 0 <= hit <= |spans|
      invariant forall j :: 0 <= j < hit ==> !Covers(spans[j], b)
    {
      hit := hit + 1;
    }
    if hit < |spans| {
      out := spans[hit := spans[hit].(events := spans[hit].events + b.events)];
    } else {
      out := spans + [SpanOf(b, current)];
    }
  }

  lemma OverlappingOne(es: seq<Entry>, e: Entry, t0: real, t1: real)
    ensures Overlapping(es + [e], t0, t1) ==
            if InWindow(e, t0, t1) then Overlapping(es, t0, t1) + [e] else Overlapping(es, t0, t1)
  {
    assert (es + [e])[..|es|] == es;
  }

  lemma CountedOne(out: seq<Span>, bs: seq<Entry>, b: Entry, current: Option<nat>)
    requires b.Bucket? && forall i :: 0 <= i < |bs| ==> bs[i].Bucket?
    ensures CountedAll(out, bs + [b], current) == Counted(CountedAll(out, bs, current), b, current)
  {
    assert (bs + [b])[..|bs|] == bs;
  }

  lemma SpansOne(es: seq<Entry>, e: Entry, current: Option<nat>)
    ensures SpansOf(es + [e], current) == SpansOf(es, current) + [SpanOf(e, current)]
  {
    assert (es + [e])[..|es|] == es;
  }

  // ----- what the answer says

  function SumEvents(out: seq<Span>): nat {
    if out == [] then 0 else SumEvents(out[..|out| - 1]) + out[|out| - 1].events
  }

  function SumOf(bs: seq<Entry>): nat
    requires forall i :: 0 <= i < |bs| ==> bs[i].Bucket?
  {
    if bs == [] then 0 else SumOf(bs[..|bs| - 1]) + bs[|bs| - 1].events
  }

  /** The buckets that no recorded span covers. */
  function Alone(media: seq<Span>, bs: seq<Entry>): seq<Entry> {
    if bs == [] then []
    else if FirstHit(media, bs[|bs| - 1]) < |media| then Alone(media, bs[..|bs| - 1])
    else Alone(media, bs[..|bs| - 1]) + [bs[|bs| - 1]]
  }

  /** The events counted on the k-th recorded span: those of the buckets it is
      the first to cover. */
  function EventsOn(media: seq<Span>, bs: seq<Entry>, k: nat): nat
    requires forall i :: 0 <= i < |bs| ==> bs[i].Bucket?
  {
    if bs == [] then 0
    else EventsOn(media, bs[..|bs| - 1], k) + if FirstHit(media, bs[|bs| - 1]) == k then bs[|bs| - 1].events else 0
  }

  /** The recorded spans, each with the events that are its own. */
  ghost predicate Recorded(rec: seq<Span>, media: seq<Span>, bs: seq<Entry>)
    requires forall i :: 0 <= i < |bs| ==> bs[i].Bucket?
  {
    && |rec| == |media|
    && forall k :: 0 <= k < |media| ==> rec[k] == media[k].(events := media[k].events + EventsOn(media, bs, k))
  }

  ghost predicate AllMedia(media: seq<Span>) {
    forall k :: 0 <= k < |media| ==> media[k].media.Some?
  }

  lemma {:induction false} FirstHitIs(out: seq<Span>, b: Entry, k: nat)
    requires k <= |out| && (forall i :: 0 <= i < k ==> !Covers(out[i], b)) && (k < |out| ==> Covers(out[k], b))
    ensures FirstHit(out, b) == k
  {}

  /** Spans without media never cover, and counting events does not move the
      first hit. */
  lemma HitAmongRecorded(rec: seq<Span>, bare: seq<Span>, media: seq<Span>, bs: seq<Entry>, b: Entry)
    requires forall i :: 0 <= i < |bs| ==> bs[i].Bucket?
    requires Recorded(rec, media, bs) && forall i :: 0 <= i < |bare| ==> bare[i].media.None?
    ensures FirstHit(rec + bare, b) == if FirstHit(media, b) < |media| then FirstHit(media, b) else |rec + bare|
  {
    var k := FirstHit(media, b);
    forall i | 0 <= i < |media| ensures Covers(rec[i], b) <==> Covers(media[i], b) {}
    FirstHitIs(rec + bare, b, if k < |media| then k else |rec + bare|);
  }

  lemma {:induction false} BareSpans(es: seq<Entry>, current: Option<nat>)
    requires forall i :: 0 <= i < |es| ==> es[i].Bucket?
    ensures |SpansOf(es, current)| == |es|
    ensures forall i :: 0 <= i < |es| ==> SpansOf(es, current)[i] == SpanOf(es[i], current)
    ensures forall i :: 0 <= i < |es| ==> SpansOf(es, current)[i].media.None?
  {
    if es != [] {
      BareSpans(es[..|es| - 1], current);
    }
  }

  lemma {:induction false} AloneAre(media: seq<Span>, bs: seq<Entry>)
    ensures forall b :: b in Alone(media, bs) <==> b in bs && FirstHit(media, b) == |media|
  {
    if bs != [] {
      AloneAre(media, bs[..|bs| - 1]);
      assert bs == bs[..|bs| - 1] + [bs[|bs| - 1]];
    }
  }

  lemma RecordedStep(rec: seq<Span>, media: seq<Span>, init: seq<Entry>, b: Entry) returns (more: seq<Span>)
    requires b.Bucket? && forall i :: 0 <= i < |init| ==> init[i].Bucket?
    requires Recorded(rec, media, init)
    ensures Recorded(more, media, init + [b])
    ensures var k := FirstHit(media, b);
            more == if k < |media| then rec[k := rec[k].(events := rec[k].events + b.events)] else rec
  {
    var k := FirstHit(media, b);
    more := if k < |media| then rec[k := rec[k].(events := rec[k].events + b.events)] else rec;
    assert (init + [b])[..|init|] == init;
  }

  lemma AloneStep(media: seq<Span>, init: seq<Entry>, b: Entry)
    ensures Alone(media, init + [b]) ==
        if FirstHit(media, b) < |media| then Alone(media, init) else Alone(media, init) + [b]
  {
    assert (init + [b])[..|init|] == init;
  }

  lemma CountedOnRecorded(rec: seq<Span>, bare: seq<Span>, b: Entry, current: Option<nat>)
    requires b.Bucket? && FirstHit(rec + bare, b) < |rec|
    ensures var k := FirstHit(rec + bare, b);
            Counted(rec + bare, b, current) == rec[k := rec[k].(events := rec[k].events + b.events)] + bare
  {}

  lemma CountedAlone(rec: seq<Span>, bare: seq<Span>, b: Entry, current: Option<nat>)
    requires b.Bucket? && FirstHit(rec + bare, b) == |rec + bare|
    ensures Counted(rec + bare, b, current) == rec + (bare + [SpanOf(b, current)])
  {}

  lemma CountedStep(rec: seq<Span>, alone: seq<Entry>, media: seq<Span>, init: seq<Entry>, b: Entry, more: seq<Span>,
          current: Option<nat>)
    requires b.Bucket? && forall i :: 0 <= i < |init| ==> init[i].Bucket?
    requires forall i :: 0 <= i < |alone| ==> alone[i].Bucket?
    requires Recorded(rec, media, init)
    requires var k := FirstHit(media, b);
             more == if k < |media| then rec[k := rec[k].(events := rec[k].events + b.events)] else rec
    ensures Counted(rec + SpansOf(alone, current), b, current) ==
            more + SpansOf(if FirstHit(media, b) < |media| then alone else alone + [b], current)
  {
    hide Alone, SpansOf, EventsOn;
    BareSpans(alone, current);
    var bare := SpansOf(alone, current);
    HitAmongRecorded(rec, bare, media, init, b);
    if FirstHit(media, b) < |media| {
      CountedOnRecorded(rec, bare, b, current);
    } else {
      CountedAlone(rec, bare, b, current);
      SpansOne(alone, b, current);
    }
  }

  /** Counting in the buckets one by one gives the recorded spans with their
      events, then the buckets that stand alone. */
  lemma {:induction false} CountedAllIs(media: seq<Span>, bs: seq<Entry>, current: Option<nat>) returns (rec: seq<Span>)
    requires AllMedia(media) && forall i :: 0 <= i < |bs| ==> bs[i].Bucket?
    ensures Recorded(rec, media, bs)
    ensures CountedAll(media, bs, current) == rec + SpansOf(Alone(media, bs), current)
  {
    if bs == [] {
      rec := media;
      assert media + [] == media;
    } else {
      var init, b := bs[..|bs| - 1], bs[|bs| - 1];
      assert bs == init + [b];
      var before := CountedAllIs(media, init, current);
      rec := RecordedStep(before, media, init, b);
      AloneBuckets(media, init);
      AloneStep(media, init, b);
      CountedStep(before, Alone(media, init), media, init, b, rec, current);
    }
  }

  lemma AloneBuckets(media: seq<Span>, bs: seq<Entry>)
    requires forall i :: 0 <= i < |bs| ==> bs[i].Bucket?
    ensures forall i :: 0 <= i < |Alone(media, bs)| ==> Alone(media, bs)[i].Bucket?
  {
    AloneAre(media, bs);
    forall i | 0 <= i < |Alone(media, bs)| ensures Alone(media, bs)[i].Bucket? {
      assert Alone(media, bs)[i] in Alone(media, bs);
    }
  }

  lemma {:induction false} RecordedSpansAre(es: seq<Entry>, current: Option<nat>)
    requires forall i :: 0 <= i < |es| ==> es[i].Media?
    ensures |SpansOf(es, current)| == |es| && AllMedia(SpansOf(es, current))
    ensures forall i :: 0 <= i < |es| ==> SpansOf(es, current)[i] == SpanOf(es[i], current)
  {
    if es != [] {
      RecordedSpansAre(es[..|es| - 1], current);
    }
  }

  predicate IsBare(o: Span) {
    o.media.None?
  }

  lemma MediaInAre(lines: seq<Entry>, t0: real, t1: real)
    ensures forall i :: 0 <= i < |MediaIn(lines, t0, t1)| ==>
              MediaIn(lines, t0, t1)[i].Media? && InWindow(MediaIn(lines, t0, t1)[i], t0, t1)
  {
    FilterHolds(lines, IsMedia);
    forall i | 0 <= i < |MediaIn(lines, t0, t1)|
      ensures MediaIn(lines, t0, t1)[i].Media? && InWindow(MediaIn(lines, t0, t1)[i], t0, t1)
    {
      assert MediaIn(lines, t0, t1)[i] in Filter(lines, IsMedia);
    }
  }

  /** The answer, in (start, epoch) order: its recorded spans are the media
      lines in the window, each once, with the events of exactly the buckets
      each is the first to cover; the rest are the buckets nothing covers. */
  lemma {:induction false} AnswerIs(lines: seq<Entry>, t0: real, t1: real, current: Option<nat>)
    returns (rec: seq<Span>)
    ensures var media, bs := SpansOf(MediaIn(lines, t0, t1), current), BucketsIn(lines, t0, t1);
            var out := Answer(lines, t0, t1, current);
            && Recorded(rec, media, bs)
            && Filter(out, HasMedia) == Sorted(rec, SpanKey)
            && Filter(out, IsBare) == Sorted(SpansOf(Alone(media, bs), current), SpanKey)
            && |out| == |media| + |Alone(media, bs)|
            && Ordered(out, SpanKey)
  {
    var media, bs := SpansOf(MediaIn(lines, t0, t1), current), BucketsIn(lines, t0, t1);
    MediaInAre(lines, t0, t1);
    RecordedSpansAre(MediaIn(lines, t0, t1), current);
    rec := CountedAllIs(media, bs, current);
    var alone := Alone(media, bs);
    AloneBuckets(media, bs);
    BareSpans(alone, current);
    var bare := SpansOf(alone, current);
    TwoKinds(rec, bare);
    SortedOrdered(rec + bare, SpanKey);
    SortedSame(rec + bare, SpanKey);
    assert |multiset(Sorted(rec + bare, SpanKey))| == |rec + bare|;
  }

  lemma TwoKinds(rec: seq<Span>, bare: seq<Span>)
    requires AllMedia(rec) && forall i :: 0 <= i < |bare| ==> bare[i].media.None?
    ensures Filter(Sorted(rec + bare, SpanKey), HasMedia) == Sorted(rec, SpanKey)
    ensures Filter(Sorted(rec + bare, SpanKey), IsBare) == Sorted(bare, SpanKey)
  {
    FilterSorted(rec + bare, SpanKey, HasMedia);
    FilterSorted(rec + bare, SpanKey, IsBare);
    FilterAppend(rec, bare, HasMedia);
    FilterAppend(rec, bare, IsBare);
    FilterAll(rec, HasMedia);
    FilterNone(rec, IsBare);
    FilterAll(bare, IsBare);
    FilterNone(bare, HasMedia);
    assert rec + [] == rec && [] + bare == bare;
  }

  /** A bucket stands alone exactly when no media of its epoch in the answer
      overlaps it. */
  lemma {:induction false} AloneExactlyWhen(lines: seq<Entry>, t0: real, t1: real, current: Option<nat>, b: Entry)
    requires b in BucketsIn(lines, t0, t1)
    ensures var m := MediaIn(lines, t0, t1);
            b in Alone(SpansOf(m, current), BucketsIn(lines, t0, t1)) <==>
            forall i :: 0 <= i < |m| ==> !(m[i].epoch == b.epoch && m[i].start < b.end && b.start < m[i].end)
  {
    var m := MediaIn(lines, t0, t1);
    MediaInAre(lines, t0, t1);
    RecordedSpansAre(m, current);
    AloneAre(SpansOf(m, current), BucketsIn(lines, t0, t1));
    assert forall i :: 0 <= i < |m| ==>
        (Covers(SpansOf(m, current)[i], b) <==> m[i].epoch == b.epoch && m[i].start < b.end && b.start < m[i].end);
  }

  // ----- no event is lost or counted twice

  lemma SumOne(out: seq<Span>, o: Span)
    ensures SumEvents(out + [o]) == SumEvents(out) + o.events
  {
    assert (out + [o])[..|out|] == out;
  }

  lemma {:induction false} SumUpdate(out: seq<Span>, k: nat, more: nat)
    requires k < |out|
    ensures SumEvents(out[k := out[k].(events := out[k].events + more)]) == SumEvents(out) + more
  {
    var t := out[k := out[k].(events := out[k].events + more)];
    if k < |out| - 1 {
      SumUpdate(out[..|out| - 1], k, more);
      assert t[..|t| - 1] == out[..|out| - 1][k := t[k]];
    } else {
      assert t[..|t| - 1] == out[..|out| - 1];
    }
  }

  lemma CountingOneAdds(out: seq<Span>, b: Entry, current: Option<nat>)
    requires b.Bucket?
    ensures SumEvents(Counted(out, b, current)) == SumEvents(out) + b.events
  {
    var k := FirstHit(out, b);
    if k < |out| {
      SumUpdate(out, k, b.events);
    } else {
      SumOne(out, SpanOf(b, current));
    }
  }

  lemma {:induction false} CountingAdds(out: seq<Span>, bs: seq<Entry>, current: Option<nat>)
    requires forall i :: 0 <= i < |bs| ==> bs[i].Bucket?
    ensures SumEvents(CountedAll(out, bs, current)) == SumEvents(out) + SumOf(bs)
  {
    if bs != [] {
      var init, b := bs[..|bs| - 1], bs[|bs| - 1];
      CountingAdds(out, init, current);
      CountingOneAdds(CountedAll(out, init, current), b, current);
    }
  }

  lemma {:induction false} SumInsert(s: seq<Span>, o: Span)
    ensures SumEvents(Insert(s, o, SpanKey)) == SumEvents(s) + o.events
  {
    if s == [] || Leq(SpanKey(s[|s| - 1]), SpanKey(o)) {
      SumOne(s, o);
    } else {
      SumInsert(s[..|s| - 1], o);
      SumOne(Insert(s[..|s| - 1], o, SpanKey), s[|s| - 1]);
    }
  }

  lemma {:induction false} SumSorted(s: seq<Span>)
    ensures SumEvents(Sorted(s, SpanKey)) == SumEvents(s)
  {
    if s != [] {
      SumSorted(s[..|s| - 1]);
      SumInsert(Sorted(s[..|s| - 1], SpanKey), s[|s| - 1]);
    }
  }

  lemma {:induction false} SpansStartAtZero(es: seq<Entry>, current: Option<nat>)
    requires forall i :: 0 <= i < |es| ==> es[i].Media?
    ensures SumEvents(SpansOf(es, current)) == 0
  {
    if es != [] {
      SpansStartAtZero(es[..|es| - 1], current);
      SumOne(SpansOf(es[..|es| - 1], current), SpanOf(es[|es| - 1], current));
    }
  }

  /** The events in the answer are those of the buckets in the window. */
  lemma {:induction false} EventsAreConserved(lines: seq<Entry>, t0: real, t1: real, current: Option<nat>)
    ensures SumEvents(Answer(lines, t0, t1, current)) == SumOf(BucketsIn(lines, t0, t1))
  {
    var media, bs := MediaIn(lines, t0, t1), BucketsIn(lines, t0, t1);
    MediaInAre(lines, t0, t1);
    SpansStartAtZero(media, current);
    CountingAdds(SpansOf(media, current), bs, current);
    SumSorted(CountedAll(SpansOf(media, current), bs, current));
  }

  // ----- fenced

  lemma {:induction false} CountingKeepsFences(out: seq<Span>, bs: seq<Entry>, current: Option<nat>)
    requires forall i :: 0 <= i < |bs| ==> bs[i].Bucket?
    requires forall o :: o in out ==> o.fenced == Old(o.epoch, current)
    ensures forall o :: o in CountedAll(out, bs, current) ==> o.fenced == Old(o.epoch, current)
  {
    if bs != [] {
      var init, b := bs[..|bs| - 1], bs[|bs| - 1];
      CountingKeepsFences(out, init, current);
      var so := CountedAll(out, init, current);
      forall o | o in Counted(so, b, current) ensures o.fenced == Old(o.epoch, current) {
        var k := FirstHit(so, b);
        assert k < |so| ==> so[k] in so;
      }
    }
  }

  /** A span is marked fenced exactly when its epoch is older than the current. */
  lemma {:induction false} FencedExactlyWhenOld(lines: seq<Entry>, t0: real, t1: real, current: Option<nat>, o: Span)
    requires o in Answer(lines, t0, t1, current)
    ensures o.fenced <==> current.Some? && o.epoch < current.value
  {
    var media, bs := MediaIn(lines, t0, t1), BucketsIn(lines, t0, t1);
    MediaInAre(lines, t0, t1);
    RecordedSpansAre(media, current);
    CountingKeepsFences(SpansOf(media, current), bs, current);
    var so := CountedAll(SpansOf(media, current), bs, current);
    SortedSame(so, SpanKey);
    assert o in multiset(Sorted(so, SpanKey));
  }
}
