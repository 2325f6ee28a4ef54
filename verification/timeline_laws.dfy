/** The timeline's answer in terms of the manifest's lines. */
module TimelineLaws {
  import opened Archive
  import opened StableSort
  import opened Timeline
  import opened Variables

  function MediaOver(t0: real, t1: real): Entry -> bool {
    (e: Entry) => e.Media? && t0 < e.end && e.start < t1
  }

  function EventsOver(t0: real, t1: real): Entry -> bool {
    (e: Entry) => e.Bucket? && t0 < e.end && e.start < t1
  }

  /** A recording of the bucket's epoch that overlaps it. */
  predicate Records(m: Entry, b: Entry) {
    m.epoch == b.epoch && m.start < b.end && b.start < m.end
  }

  /** The k-th recording is the first that does. */
  predicate FirstRecords(media: seq<Entry>, k: int, b: Entry) {
    0 <= k < |media| && Records(media[k], b) && forall i :: 0 <= i < k ==> !Records(media[i], b)
  }

  function EventsOf(media: seq<Entry>, bs: seq<Entry>, k: nat): nat {
    if bs == [] then 0
    else
      var b := bs[|bs| - 1];
      EventsOf(media, bs[..|bs| - 1], k) + if b.Bucket? && FirstRecords(media, k, b) then b.events else 0
  }

  function Unrecorded(media: seq<Entry>): Entry -> bool {
    (b: Entry) => forall i :: 0 <= i < |media| ==> !Records(media[i], b)
  }

  /** A span with the bounds and the epoch of a line, fenced if that epoch is
      older than the current. */
  ghost predicate SpanSays(o: Span, e: Entry, current: Option<nat>, events: nat) {
    && o.start == e.start && o.end == e.end && o.epoch == e.epoch && o.events == events
    && o.media == (if e.Media? then Some(e.path) else None)
    && (o.fenced <==> current.Some? && e.epoch < current.value)
  }

  lemma SpanOfSays(e: Entry, current: Option<nat>)
    ensures SpanSays(SpanOf(e, current), e, current, if e.Media? then 0 else e.events)
  {}

  lemma {:induction false} OverlappingFilter(lines: seq<Entry>, t0: real, t1: real)
    ensures MediaIn(lines, t0, t1) == Filter(lines, MediaOver(t0, t1))
    ensures BucketsIn(lines, t0, t1) == Filter(lines, EventsOver(t0, t1))
  {
    if lines != [] {
      var init, e := lines[..|lines| - 1], lines[|lines| - 1];
      OverlappingFilter(init, t0, t1);
      assert lines == init + [e];
      FilterOne(init, e, IsMedia);
      FilterOne(init, e, IsBucket);
      FilterOne(init, e, MediaOver(t0, t1));
      FilterOne(init, e, EventsOver(t0, t1));
      OverlappingOne(Filter(init, IsMedia), e, t0, t1);
      OverlappingOne(Filter(init, IsBucket), e, t0, t1);
      hide Filter, Overlapping;
    }
  }

  lemma CoversIs(media: seq<Entry>, current: Option<nat>, b: Entry)
    requires forall i :: 0 <= i < |media| ==> media[i].Media?
    ensures var spans := SpansOf(media, current);
            && |spans| == |media|
            && (FirstHit(spans, b) < |media| ==> FirstRecords(media, FirstHit(spans, b), b))
            && (FirstHit(spans, b) == |media| <==> Unrecorded(media)(b))
            && forall k :: FirstRecords(media, k, b) ==> k == FirstHit(spans, b)
  {
    RecordedSpansAre(media, current);
    var spans := SpansOf(media, current);
    forall i | 0 <= i < |media| ensures Covers(spans[i], b) <==> Records(media[i], b) {}
  }

  lemma {:induction false} EventsOnIs(media: seq<Entry>, bs: seq<Entry>, current: Option<nat>, k: nat)
    requires forall i :: 0 <= i < |media| ==> media[i].Media?
    requires k < |media| && forall i :: 0 <= i < |bs| ==> bs[i].Bucket?
    ensures EventsOn(SpansOf(media, current), bs, k) == EventsOf(media, bs, k)
  {
    if bs != [] {
      EventsOnIs(media, bs[..|bs| - 1], current, k);
      CoversIs(media, current, bs[|bs| - 1]);
    }
  }

  lemma {:induction false} AloneIs(media: seq<Entry>, bs: seq<Entry>, current: Option<nat>)
    requires forall i :: 0 <= i < |media| ==> media[i].Media?
    ensures Alone(SpansOf(media, current), bs) == Filter(bs, Unrecorded(media))
  {
    if bs != [] {
      AloneIs(media, bs[..|bs| - 1], current);
      CoversIs(media, current, bs[|bs| - 1]);
    }
  }

  /** One span for each recording, with the events of the buckets it is the
      first to overlap, and one for each bucket that none does. */
  ghost predicate SpansSay(spans: seq<Span>, media: seq<Entry>, bs: seq<Entry>, alone: seq<Entry>, current: Option<nat>)
  {
    && |spans| == |media| + |alone|
    && (forall k :: 0 <= k < |media| ==> SpanSays(spans[k], media[k], current, EventsOf(media, bs, k)))
    && (forall j :: 0 <= j < |alone| ==>
          alone[j].Bucket? && SpanSays(spans[|media| + j], alone[j], current, alone[j].events))
  }

  lemma RecordedSay(media: seq<Entry>, bs: seq<Entry>, current: Option<nat>, rec: seq<Span>)
    requires forall i :: 0 <= i < |media| ==> media[i].Media?
    requires forall i :: 0 <= i < |bs| ==> bs[i].Bucket?
    requires Recorded(rec, SpansOf(media, current), bs)
    ensures |rec| == |media|
    ensures forall k :: 0 <= k < |media| ==> SpanSays(rec[k], media[k], current, EventsOf(media, bs, k))
  {
    RecordedSpansAre(media, current);
    forall k | 0 <= k < |media| ensures SpanSays(rec[k], media[k], current, EventsOf(media, bs, k)) {
      SpanOfSays(media[k], current);
      EventsOnIs(media, bs, current, k);
    }
  }

  lemma AloneSay(alone: seq<Entry>, current: Option<nat>)
    requires forall i :: 0 <= i < |alone| ==> alone[i].Bucket?
    ensures |SpansOf(alone, current)| == |alone|
    ensures forall j :: 0 <= j < |alone| ==> SpanSays(SpansOf(alone, current)[j], alone[j], current, alone[j].events)
  {
    BareSpans(alone, current);
    forall j | 0 <= j < |alone| ensures SpanSays(SpansOf(alone, current)[j], alone[j], current, alone[j].events) {
      SpanOfSays(alone[j], current);
    }
  }

  lemma CountedSay(media: seq<Entry>, bs: seq<Entry>, current: Option<nat>) returns (spans: seq<Span>)
    requires forall i :: 0 <= i < |media| ==> media[i].Media?
    requires forall i :: 0 <= i < |bs| ==> bs[i].Bucket?
    ensures spans == CountedAll(SpansOf(media, current), bs, current)
    ensures SpansSay(spans, media, bs, Filter(bs, Unrecorded(media)), current)
  {
    var alone := Alone(SpansOf(media, current), bs);
    RecordedSpansAre(media, current);
    AloneIs(media, bs, current);
    AloneBuckets(SpansOf(media, current), bs);
    AloneSay(alone, current);
    assert AllMedia(SpansOf(media, current));
    hide Recorded, SpansOf, Alone, EventsOn, EventsOf, CountedAll, SpanOf, SpanSays, Filter, AllMedia;
    var rec := CountedAllIs(SpansOf(media, current), bs, current);
    RecordedSay(media, bs, current, rec);
    spans := rec + SpansOf(alone, current);
  }

  lemma InOrder(out: seq<Span>)
    requires Ordered(out, SpanKey)
    ensures forall i, j :: 0 <= i < j < |out| ==>
              out[i].start < out[j].start || (out[i].start == out[j].start && out[i].epoch <= out[j].epoch)
  {
    forall i, j | 0 <= i < j < |out|
      ensures out[i].start < out[j].start || (out[i].start == out[j].start && out[i].epoch <= out[j].epoch)
    {
      assert Leq(SpanKey(out[i]), SpanKey(out[j]));
    }
  }

  /** The answer is those spans for the recordings and the buckets that overlap
      the window, by start, and by epoch where the start is the same. */
  lemma TimelineIs(lines: seq<Entry>, t0: real, t1: real, current: Option<nat>) returns (spans: seq<Span>)
    ensures var media, bs := Filter(lines, MediaOver(t0, t1)), Filter(lines, EventsOver(t0, t1));
            SpansSay(spans, media, bs, Filter(bs, Unrecorded(media)), current)
    ensures var out := Answer(lines, t0, t1, current);
            && multiset(out) == multiset(spans)
            && forall i, j :: 0 <= i < j < |out| ==>
                 out[i].start < out[j].start || (out[i].start == out[j].start && out[i].epoch <= out[j].epoch)
  {
    MediaInAre(lines, t0, t1);
    OverlappingFilter(lines, t0, t1);
    spans := CountedSay(MediaIn(lines, t0, t1), BucketsIn(lines, t0, t1), current);
    assert Answer(lines, t0, t1, current) == Sorted(spans, SpanKey);
    hide *;
    SortedSame(spans, SpanKey);
    SortedOrdered(spans, SpanKey);
    InOrder(Answer(lines, t0, t1, current));
  }
}
