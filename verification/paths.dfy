/** Decimal numerals as they appear in slot names and epoch directories. */
module Decimals {

  function Digit(d: nat): char
    requires d < 10
  {
    ['0', '1', '2', '3', '4', '5', '6', '7', '8', '9'][d]
  }

  predicate IsDigit(c: char) {
    '0' <= c <= '9'
  }

  /** `str.isdigit()`, for ASCII. */
  predicate IsDecimal(s: string) {
    s != "" && forall i :: 0 <= i < |s| ==> IsDigit(s[i])
  }

  function DigitOf(c: char): nat
    requires IsDigit(c)
  {
    assert c as int >= '0' as int;
    c as int - '0' as int
  }

  function Value(s: string): nat
    requires forall i :: 0 <= i < |s| ==> IsDigit(s[i])
  {
    if s == "" then 0 else 10 * Value(s[..|s| - 1]) + DigitOf(s[|s| - 1])
  }

  function Decimal(n: nat): string {
    if n < 10 then [Digit(n)] else Decimal(n / 10) + [Digit(n % 10)]
  }

  /** No leading zero, except in "0" itself. */
  predicate Canonical(s: string) {
    IsDecimal(s) && (|s| > 1 ==> s[0] != '0')
  }

  lemma DigitValue(d: nat)
    requires d < 10
    ensures IsDigit(Digit(d)) && DigitOf(Digit(d)) == d
  {}

  lemma DigitPrints(c: char)
    requires IsDigit(c)
    ensures DigitOf(c) < 10 && Digit(DigitOf(c)) == c
  {
    assert c as int <= '9' as int;
    assert c == (DigitOf(c) + '0' as int) as char;
  }

  lemma {:induction false} DecimalReadsBack(n: nat)
    ensures Canonical(Decimal(n)) && Value(Decimal(n)) == n
    ensures n > 0 ==> Decimal(n)[0] != '0'
  {
    DigitValue(n % 10);
    if n >= 10 {
      DecimalReadsBack(n / 10);
      assert Decimal(n)[..|Decimal(n)| - 1] == Decimal(n / 10);
    }
  }

  lemma {:induction false} CanonicalPrintsBack(s: string)
    requires IsDecimal(s)
    ensures Decimal(Value(s)) == s <==> Canonical(s)
    ensures Canonical(s) && s[0] != '0' ==> Value(s) > 0
  {
    DecimalReadsBack(Value(s));
    if |s| == 1 {
      DigitPrints(s[0]);
      assert Value(s[..0]) == 0;
      assert s == [Digit(Value(s))];
    } else if Canonical(s) {
      var init := s[..|s| - 1];
      CanonicalPrintsBack(init);
      var d := DigitOf(s[|s| - 1]);
      DigitPrints(s[|s| - 1]);
      assert Value(s) == 10 * Value(init) + d && Value(init) > 0;
      assert Value(s) / 10 == Value(init) && Value(s) % 10 == d;
      assert s == init + [Digit(d)];
    }
  }
}

/** The tree a server keeps: `<subsystem>/<unit>/e<epoch>/<leaf>`. The
    timestamp formatter is taken as an injection from whole seconds to names,
    so a leaf carries the second itself. */
module Paths {
  import opened Decimals
  import opened Variables

  datatype Leaf =
    | Mp4(start: int)          // <start>Z.mp4
    | EventLog(start: int)     // <start>Z.events.jsonl
    | Tmp(of: Leaf)            // <leaf>.tmp
    | OtherName(name: string)  // manifest.jsonl, anything else

  /** A path relative to a root: the directories, then the file. */
  datatype Path = Path(dirs: seq<string>, leaf: Leaf)

  const SUB := "vms"

  function SpanPath(subsystem: string, unit: string, epoch: nat, leaf: Leaf): Path {
    Path([subsystem, unit, "e" + Decimal(epoch)], leaf)
  }

  function SegmentPath(cam: nat, epoch: nat, start: int): Path {
    SpanPath(SUB, Decimal(cam), epoch, Mp4(start))
  }

  function BucketPath(subsystem: string, unit: string, epoch: nat, start: int): Path {
    SpanPath(subsystem, unit, epoch, EventLog(start))
  }

  predicate IsEpochDir(s: string) {
    s != "" && s[0] == 'e' && IsDecimal(s[1..])
  }

  datatype SegmentKey = SegmentKey(cam: nat, epoch: nat, start: int)

  function Parse(p: Path): Option<SegmentKey> {
    if |p.dirs| != 3 || p.dirs[0] != SUB || !IsDecimal(p.dirs[1]) || !IsEpochDir(p.dirs[2]) || !p.leaf.Mp4? then None
    else Some(SegmentKey(Value(p.dirs[1]), Value(p.dirs[2][1..]), p.leaf.start))
  }

  datatype BucketKey = BucketKey(subsystem: string, unit: string, epoch: nat, start: int)

  function ParseBucket(p: Path): Option<BucketKey> {
    if |p.dirs| != 3 || !IsEpochDir(p.dirs[2]) || !p.leaf.EventLog? then None
    else Some(BucketKey(p.dirs[0], p.dirs[1], Value(p.dirs[2][1..]), p.leaf.start))
  }

  /** The epoch in the path separates writers: two spans share a path only if
      they share unit, epoch and leaf. */
  lemma SpanPathInjective(sub: string, u: string, e: nat, x: Leaf, sub': string, u': string, e': nat, x': Leaf)
    requires SpanPath(sub, u, e, x) == SpanPath(sub', u', e', x')
    ensures sub == sub' && u == u' && e == e' && x == x'
  {
    var d, d' := SpanPath(sub, u, e, x).dirs, SpanPath(sub', u', e', x').dirs;
    assert d[0] == d'[0] && d[1] == d'[1] && d[2][1..] == d'[2][1..];
    assert d[2][1..] == Decimal(e) && d'[2][1..] == Decimal(e');
    DecimalReadsBack(e);
    DecimalReadsBack(e');
  }

  lemma SegmentPathReadsBack(cam: nat, epoch: nat, start: int)
    ensures Parse(SegmentPath(cam, epoch, start)) == Some(SegmentKey(cam, epoch, start))
  {
    DecimalReadsBack(cam);
    DecimalReadsBack(epoch);
    assert ("e" + Decimal(epoch))[1..] == Decimal(epoch);
  }

  lemma BucketPathReadsBack(subsystem: string, unit: string, epoch: nat, start: int)
    ensures ParseBucket(BucketPath(subsystem, unit, epoch, start)) == Some(BucketKey(subsystem, unit, epoch, start))
  {
    DecimalReadsBack(epoch);
    assert ("e" + Decimal(epoch))[1..] == Decimal(epoch);
  }

  /** The regular expressions accept leading zeros, so `parse` is not
      injective: a parsed path is the one the writer would have chosen exactly
      when both numerals are canonical. */
  lemma ParsePrintsBackExactlyWhen(p: Path)
    requires Parse(p).Some?
    ensures var k := Parse(p).value;
            SegmentPath(k.cam, k.epoch, k.start) == p <==> Canonical(p.dirs[1]) && Canonical(p.dirs[2][1..])
  {
    var k := Parse(p).value;
    CanonicalPrintsBack(p.dirs[1]);
    CanonicalPrintsBack(p.dirs[2][1..]);
    assert p.dirs[2] == "e" + p.dirs[2][1..];
    assert p.dirs == [p.dirs[0], p.dirs[1], p.dirs[2]];
    assert ("e" + Decimal(k.epoch))[1..] == Decimal(k.epoch);
  }
}
