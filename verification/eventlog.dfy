/** A unit's event log: one flushed line an event, in the bucket of its time. */
module EventLogs {
  import opened Archive
  import opened Paths

  /** `int(t // seconds) * seconds`, rounding down on both sides of zero. */
  function BucketStart(t: real, seconds: nat): int
    requires seconds > 0
  {
    (t / seconds as real).Floor * seconds
  }

  /** x = q * s, with q in [k, k + 1). */
  lemma Within(x: real, q: real, s: real, k: real)
    requires s > 0.0 && x == q * s && k <= q < k + 1.0
    ensures k * s <= x < k * s + s
  {
    var a := q - k;
    assert a * s >= 0.0 && (1.0 - a) * s > 0.0;
    assert a * s == x - k * s;
    assert (1.0 - a) * s == s - a * s;
  }

  lemma FloorTimes(x: real, s: real, k: real)
    requires s > 0.0 && k <= x / s < k + 1.0
    ensures k * s <= x < k * s + s
  {
    var q := x / s;
    assert x == q * s;
    Within(x, q, s, k);
  }

  lemma Smaller(a: int, b: int, s: int)
    requires s > 0 && a * s < b * s
    ensures a < b
  {}

  /** Spans tile the clock: an event's bucket is the one whose span holds its
      time, and no other multiple of the span length will do. */
  lemma BucketHoldsItsTime(t: real, seconds: nat, k: int)
    requires seconds > 0
    ensures var start := BucketStart(t, seconds);
            && start as real <= t < (start + seconds) as real
            && ((k * seconds) as real <= t < (k * seconds + seconds) as real ==> k * seconds == start)
  {
    var n := (t / seconds as real).Floor;
    FloorTimes(t, seconds as real, n as real);
    assert (n * seconds) as real == n as real * seconds as real;
    if (k * seconds) as real <= t < (k * seconds + seconds) as real {
      SameMultiple(n, k, seconds, t);
    }
  }

  lemma SameMultiple(n: int, k: int, seconds: nat, t: real)
    requires seconds > 0
    requires (n * seconds) as real <= t < (n * seconds + seconds) as real
    requires (k * seconds) as real <= t < (k * seconds + seconds) as real
    ensures n == k
  {
    var a, b := n * seconds, k * seconds;
    assert a < b + seconds && b < a + seconds;
    assert (k + 1) * seconds == b + seconds && (n + 1) * seconds == a + seconds;
    Smaller(n, k + 1, seconds);
    Smaller(k, n + 1, seconds);
  }

  class EventLog {
    const subsystem: string
    const unit: string
    const epoch: nat
    const seconds: nat
    var files: map<Path, string>

    constructor (subsystem: string, unit: string, epoch: nat, seconds: nat, files: map<Path, string>)
      requires seconds > 0
      ensures this.subsystem == subsystem && this.unit == unit && this.epoch == epoch && this.seconds == seconds
      ensures this.files == files
    {
      this.subsystem, this.unit, this.epoch, this.seconds, this.files := subsystem, unit, epoch, seconds, files;
    }

    method Append(t: real, line: string) returns (p: Path)
      requires seconds > 0
      modifies this
      ensures p == BucketPath(subsystem, unit, epoch, BucketStart(t, seconds))
      ensures files == old(files)[p := (if p in old(files) then old(files)[p] else "") + line + "\n"]
    {
      p := BucketPath(subsystem, unit, epoch, BucketStart(t, seconds));
      files := files[p := (if p in files then files[p] else "") + line + "\n"];
    }
  }

  // ----- a bucket counts its events

  predicate Blank(line: string) {
    line == "" || (line[|line| - 1] in " \t\r" && Blank(line[..|line| - 1]))
  }

  function Lines(lines: seq<string>): string {
    if lines == [] then "" else Lines(lines[..|lines| - 1]) + lines[|lines| - 1] + "\n"
  }

  lemma {:induction false} LineStarts(data: string, line: string)
    requires !Started(data) && '\n' !in line
    ensures Started(data + line) <==> !Blank(line)
    ensures EventCount(data + line) == EventCount(data) + if Blank(line) then 0 else 1
  {
    if line == "" {
      assert data + line == data;
    } else {
      var init, c := line[..|line| - 1], line[|line| - 1];
      LineStarts(data, init);
      assert (data + line)[..|data + line| - 1] == data + init;
      assert c in line && c != '\n';
    }
  }

  /** After any appends to a new bucket, the count that repair, the manifest
      and the index read from the file is the number of events written. */
  lemma {:induction false} BucketCountsItsEvents(lines: seq<string>)
    requires forall i :: 0 <= i < |lines| ==> !Blank(lines[i]) && '\n' !in lines[i]
    ensures EventCount(Lines(lines)) == |lines| && !Started(Lines(lines))
  {
    if lines != [] {
      var init, line := lines[..|lines| - 1], lines[|lines| - 1];
      BucketCountsItsEvents(init);
      LineStarts(Lines(init), line);
      var whole := Lines(init) + line;
      assert (whole + "\n")[..|whole|] == whole;
    }
  }
}
