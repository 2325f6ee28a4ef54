/** The lease state machine on two clocks, simulated in fixed steps: a holder
    that renews until a fault, and a watcher that starts a replacement when
    heartbeats have been missing for TTL + margin. */
module LeaseSim {
  import opened Variables

  datatype Scenario = Partition | Pause

  datatype Result = Result(replacedAt: Option<real>, first: Option<real>, overlap: real)

  /** After TTL + margin on the watcher's clock, at least TTL - margin has
      passed on the holder's. */
  ghost predicate FastEnough(holder: real -> real, ttl: real, margin: real) {
    forall t, h :: t - h >= ttl + margin ==> holder(t) - holder(h) >= ttl - margin
  }

  /** Within TTL + margin + step on the watcher's clock, less than that has. */
  ghost predicate TooSlow(holder: real -> real, ttl: real, margin: real, step: real) {
    forall t, h :: t - h < ttl + margin + step ==> holder(t) - holder(h) < ttl - margin
  }

  /** A partition in which the watcher has time to act. */
  predicate LongPartition(scenario: Scenario, ttl: real, margin: real, faultAt: real, faultFor: real, step: real) {
    && scenario.Partition? && ttl >= 0.0 && margin >= 0.0 && ttl + margin > 0.0 && faultAt >= 0.0
    && faultFor >= ttl + margin + step
  }

  /** The watcher has heard the last heartbeat before the fault and has not
      yet waited TTL + margin; `t` is the next instant. */
  predicate Waiting(ttl: real, margin: real, faultAt: real, step: real, t: real, heard: real) {
    || (t == heard == 0.0)
    || (heard == t - step && heard < faultAt)
    || (faultAt <= t - step && heard <= faultAt && t - step - heard < ttl + margin)
  }

  /** The loop, for any holder clock. `turns` bounds how many are left. */
  method SimulateClocks(scenario: Scenario, ttl: real, margin: real, faultAt: real, faultFor: real,
          holder: real -> real, step: real, ghost turns: real -> nat)
    returns (r: Result)
    requires step > 0.0
    requires forall t :: t < faultAt + faultFor + ttl ==> turns(t + step) < turns(t)
    ensures r.overlap >= 0.0 && (r.overlap == 0.0 <==> r.first.None?)
    ensures r.first.Some? ==> r.replacedAt.Some? && r.replacedAt.value <= r.first.value
    ensures FastEnough(holder, ttl, margin) ==> r.overlap == 0.0
    ensures LongPartition(scenario, ttl, margin, faultAt, faultFor, step) && TooSlow(holder, ttl, margin, step) ==>
              && r.overlap > 0.0 && r.replacedAt.Some? && r.first == r.replacedAt
              && faultAt <= r.replacedAt.value < faultAt + ttl + margin + step
  {
    var t := 0.0;
    var lastRenewalH := holder(0.0);
    var lastHeartbeatW := 0.0;
    var replacedAt: Option<real> := None;
    var overlap := 0.0;
    var first: Option<real> := None;
    ghost var long := LongPartition(scenario, ttl, margin, faultAt, faultFor, step) &&
        TooSlow(holder, ttl, margin, step);
    while t < faultAt + faultFor + ttl
      invariant overlap >= 0.0 && (overlap == 0.0 <==> first.None?)
      invariant first.Some? ==> replacedAt.Some? && replacedAt.value <= first.value
      invariant lastRenewalH == holder(lastHeartbeatW)
      invariant replacedAt.Some? ==> replacedAt.value <= t && replacedAt.value - lastHeartbeatW >= ttl + margin
      invariant FastEnough(holder, ttl, margin) ==> first.None?
      invariant long && replacedAt.None? ==> Waiting(ttl, margin, faultAt, step, t, lastHeartbeatW)
      invariant long && replacedAt.Some? ==>
                  first == replacedAt && faultAt <= replacedAt.value < faultAt + ttl + margin + step
      decreases turns(t)
    {
      var faulted := faultAt <= t < faultAt + faultFor;
      var hNow := holder(t);
      if !faulted && replacedAt.None? {
        lastRenewalH := hNow;
        lastHeartbeatW := t;
      }
      if replacedAt.None? && t - lastHeartbeatW >= ttl + margin {
        replacedAt := Some(t);
      }
      var running := !(scenario.Pause? && faulted);
      var writerAllowed := running && hNow - lastRenewalH < ttl - margin;
      if writerAllowed && replacedAt.Some? {
        overlap := overlap + step;
        first := if first.Some? then first else Some(t);
      }
      t := t + step;
    }
    return Result(replacedAt, first, overlap);
  }

  /** With a holder clock that runs at a constant rate. The result is zero
      overlap whenever rate * (TTL + margin) >= TTL - margin, for every TTL,
      margin, fault window, step and scenario; and positive overlap in every
      long enough partition when the holder is too slow by more than a step. */
  method Simulate(scenario: Scenario, ttl: real, margin: real, faultAt: real, faultFor: real, rate: real, step: real)
    returns (r: Result)
    requires step > 0.0 && rate >= 0.0
    ensures rate * (ttl + margin) >= ttl - margin ==> r.overlap == 0.0
    ensures rate * (ttl + margin + step) < ttl - margin
            && LongPartition(scenario, ttl, margin, faultAt, faultFor, step) ==>
              && r.overlap > 0.0 && r.replacedAt.Some? && r.first == r.replacedAt
              && faultAt <= r.replacedAt.value < faultAt + ttl + margin + step
    ensures r.first.Some? ==> r.replacedAt.Some? && r.replacedAt.value <= r.first.value
    ensures r.overlap >= 0.0 && (r.overlap == 0.0 <==> r.first.None?)
  {
    RateFastEnough(rate, ttl, margin);
    RateTooSlow(rate, ttl, margin, step);
    ghost var end := faultAt + faultFor + ttl;
    forall t | t < end ensures TurnsLeft(end, t + step, step) < TurnsLeft(end, t, step) {
      TurnsFall(end, t, step);
    }
    r := SimulateClocks(scenario, ttl, margin, faultAt, faultFor, AtRate(rate), step,
                        t => if step > 0.0 then TurnsLeft(end, t, step) else 0);
  }

  function AtRate(rate: real): real -> real {
    t => t * rate
  }

  lemma Monotone(k: real, x: real, y: real)
    requires k >= 0.0 && x <= y
    ensures k * x <= k * y
  {
    assert k * (y - x) >= 0.0;
  }

  lemma RateFastEnough(rate: real, ttl: real, margin: real)
    requires rate >= 0.0
    ensures rate * (ttl + margin) >= ttl - margin ==> FastEnough(AtRate(rate), ttl, margin)
  {
    if rate * (ttl + margin) >= ttl - margin {
      forall t, h | t - h >= ttl + margin ensures AtRate(rate)(t) - AtRate(rate)(h) >= ttl - margin {
        Monotone(rate, ttl + margin, t - h);
      }
    }
  }

  lemma RateTooSlow(rate: real, ttl: real, margin: real, step: real)
    requires rate >= 0.0
    ensures rate * (ttl + margin + step) < ttl - margin ==> TooSlow(AtRate(rate), ttl, margin, step)
  {
    if rate * (ttl + margin + step) < ttl - margin {
      forall t, h | t - h < ttl + margin + step ensures AtRate(rate)(t) - AtRate(rate)(h) < ttl - margin {
        Monotone(rate, t - h, ttl + margin + step);
      }
    }
  }

  // ----- the loop ends: each step takes at least one turn off the span left

  function TurnsLeft(end: real, t: real, step: real): (n: nat)
    requires step > 0.0
    ensures t < end ==> n > 0
  {
    if t >= end then 0
    else
      PositiveRatio(end - t, step);
      ((end - t) / step).Floor + 1
  }

  lemma PositiveRatio(span: real, step: real)
    requires span > 0.0 && step > 0.0
    ensures span / step > 0.0
  {
    var q := span / step;
    assert q * step == span;
    assert q <= 0.0 ==> q * step <= 0.0;
  }

  lemma OneLess(span: real, step: real)
    requires step > 0.0
    ensures (span - step) / step == span / step - 1.0
  {
    var p, q := (span - step) / step, span / step;
    assert p * step == span - step && q * step == span;
    Cancel(q - 1.0, p, step);
  }

  lemma Cancel(a: real, b: real, s: real)
    requires s > 0.0 && a * s == b * s
    ensures a == b
  {
    assert a < b ==> (b - a) * s > 0.0;
    assert b < a ==> (a - b) * s > 0.0;
  }

  lemma TurnsFall(end: real, t: real, step: real)
    requires step > 0.0 && t < end
    ensures TurnsLeft(end, t + step, step) < TurnsLeft(end, t, step)
  {
    if t + step < end {
      OneLess(end - t, step);
      assert end - (t + step) == (end - t) - step;
    }
  }
}
