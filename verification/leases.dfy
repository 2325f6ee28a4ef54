/** The lease a worker holds on an epoch: `may_write` while
    now - last_renewal < TTL - margin, on its own monotonic clock. */
module Leases {
  import opened Variables

  datatype LeaseState = LeaseState(
    epoch: nat, ttl: real, margin: real,
    lastRenewal: real, fenced: bool, conflicts: nat)

  function NewLease(epoch: nat, ttl: real, margin: real, now: real): LeaseState {
    LeaseState(epoch, ttl, margin, now, false, 0)
  }

  predicate MayWriteAt(l: LeaseState, now: real) {
    !l.fenced && now - l.lastRenewal < l.ttl - l.margin
  }

  /** `renew`, given what the read of the key returned (`None`: the store did
      not answer) and the clock when it is stamped. */
  function Renewed(l: LeaseState, live: Option<nat>, now: real): LeaseState {
    if l.fenced || live.None? then l
    else if live.value != l.epoch then l.(fenced := true, conflicts := l.conflicts + 1)
    else l.(lastRenewal := now)
  }

  predicate RenewOk(l: LeaseState, live: Option<nat>, now: real) {
    if l.fenced then false
    else if live.None? then MayWriteAt(l, now)
    else live.value == l.epoch
  }

  class Lease {
    const epoch: nat
    const ttl: real
    const margin: real
    var lastRenewal: real
    var fenced: bool
    var conflicts: nat

    function State(): LeaseState
      reads this
    {
      LeaseState(epoch, ttl, margin, lastRenewal, fenced, conflicts)
    }

    constructor (epoch: nat, ttl: real, margin: real, now: real)
      ensures State() == NewLease(epoch, ttl, margin, now)
    {
      this.epoch, this.ttl, this.margin := epoch, ttl, margin;
      lastRenewal := now;
      fenced := false;
      conflicts := 0;
    }

    method Renew(live: Option<nat>, now: real) returns (ok: bool)
      modifies this
      ensures State() == Renewed(old(State()), live, now)
      ensures ok == RenewOk(old(State()), live, now)
    {
      if fenced {
        return false;
      }
      match live
      case None =>
        ok := MayWrite(now);
      case Some(e) =>
        if e != epoch {
          fenced, conflicts := true, conflicts + 1;
          return false;
        }
        lastRenewal := now;
        return true;
    }

    method MayWrite(now: real) returns (ok: bool)
      ensures ok == MayWriteAt(State(), now)
    {
      return !fenced && now - lastRenewal < ttl - margin;
    }
  }

  // ----- a lease beside the key it watches, over any run

  /** A renewal reads the key, then stamps the clock; the two are separate
      actions. `live` is the epoch in the store, `pending` what a renewal in
      progress has read. `superseded` is when the store first held a newer
      epoch than this lease's. */
  datatype World = World(
    now: real, live: nat, lease: LeaseState,
    pending: Option<(Option<nat>, real)>,   // (what was read, when)
    superseded: Option<real>,
    successes: seq<(nat, bool)>)            // history of answered renewals: (live at the read, result)

  datatype Event =
    | Elapse(d: real)
    | Issue                 // another instance takes the next epoch
    | ReadKey(answered: bool)
    | Stamp                 // the renewal completes with what it read

  function Start(live: nat, epoch: nat, ttl: real, margin: real, now: real, taken: Option<real>): World {
    World(now, live, NewLease(epoch, ttl, margin, now), None, taken, [])
  }

  function Step(w: World, e: Event): World {
    match e
    case Elapse(d) => if d >= 0.0 then w.(now := w.now + d) else w
    case Issue =>
      w.(live := w.live + 1,
         superseded := if w.superseded.None? && w.live + 1 > w.lease.epoch then Some(w.now) else w.superseded)
    case ReadKey(answered) =>
      w.(pending := Some((if answered then Some(w.live) else None, w.now)))
    case Stamp =>
      if w.pending.None? then w
      else
        var (read, at) := w.pending.value;
        w.(lease := Renewed(w.lease, read, w.now),
           pending := None,
           successes := if read.Some? then w.successes + [(read.value, RenewOk(w.lease, read, w.now))] else w.successes)
  }

  function Run(w: World, evs: seq<Event>): World {
    if evs == [] then w else Step(Run(w, evs[..|evs| - 1]), evs[|evs| - 1])
  }

  ghost predicate PromptStep(w: World, e: Event, delay: real) {
    e.Stamp? && w.pending.Some? ==> w.now - w.pending.value.1 <= delay
  }

  /** No renewal in the run takes longer than `delay` from its read to its stamp. */
  ghost predicate Prompt(w: World, evs: seq<Event>, delay: real) {
    evs != [] ==>
      && Prompt(w, evs[..|evs| - 1], delay)
      && PromptStep(Run(w, evs[..|evs| - 1]), evs[|evs| - 1], delay)
  }

  ghost predicate StartsWell(w: World) {
    && w.pending.None? && w.successes == []
    && w.lease == NewLease(w.lease.epoch, w.lease.ttl, w.lease.margin, w.now)
    && w.lease.epoch <= w.live
    && (w.superseded.Some? <==> w.live > w.lease.epoch)
    && (w.superseded.Some? ==> w.superseded.value <= w.now)
  }

  function Max(a: real, b: real): real {
    if a >= b then a else b
  }

  ghost predicate Inv(w: World, created: real, delay: real) {
    && created <= w.now
    && w.lease.epoch <= w.live
    && (w.superseded.Some? <==> w.live > w.lease.epoch)
    && (w.superseded.Some? ==> w.superseded.value <= w.now)
    && w.lease.lastRenewal <= w.now
    && (w.pending.Some? ==>
          && w.pending.value.1 <= w.now
          && (w.pending.value.0.Some? ==> w.pending.value.0.value <= w.live)
          && (w.pending.value.0 == Some(w.lease.epoch) && w.superseded.Some? ==>
              w.pending.value.1 <= w.superseded.value))
    && (w.superseded.Some? ==> w.lease.lastRenewal <= Max(w.superseded.value + delay, created))
    && w.lease.conflicts == (if w.lease.fenced then 1 else 0)
    && (w.lease.fenced ==> w.superseded.Some?)
    && (forall k :: 0 <= k < |w.successes| && w.successes[k].1 ==> w.successes[k].0 == w.lease.epoch)
    && SameLease(w)
  }

  /** A read answered in the initial state of a superseded lease saw a newer epoch. */
  ghost predicate SameLease(w: World) {
    w.pending.Some? && w.pending.value.0.Some? ==> w.pending.value.0.value >= w.lease.epoch
  }

  lemma StepKeepsInv(w: World, e: Event, created: real, delay: real)
    requires Inv(w, created, delay) && delay >= 0.0
    requires PromptStep(w, e, delay)
    ensures Inv(Step(w, e), created, delay)
    ensures var v := Step(w, e);
            && v.lease.epoch == w.lease.epoch && v.lease.ttl == w.lease.ttl && v.lease.margin == w.lease.margin
            && (w.superseded.Some? ==> v.superseded == w.superseded)
  {}

  lemma {:induction false} RunKeepsInv(w: World, evs: seq<Event>, delay: real)
    requires StartsWell(w) && delay >= 0.0 && Prompt(w, evs, delay)
    ensures Inv(Run(w, evs), w.now, delay)
    ensures Run(w, evs).lease.epoch == w.lease.epoch
    ensures Run(w, evs).lease.ttl == w.lease.ttl && Run(w, evs).lease.margin == w.lease.margin
    ensures w.superseded.Some? ==> Run(w, evs).superseded == w.superseded
  {
    if evs != [] {
      var n := |evs| - 1;
      var init := evs[..n];
      RunKeepsInv(w, init, delay);
      StepKeepsInv(Run(w, init), evs[n], w.now, delay);
    }
  }

  /** Issuing only raises the key, and only a newer epoch fences. */
  ghost predicate Consistent(w: World) {
    && w.lease.epoch <= w.live
    && (w.superseded.Some? <==> w.live > w.lease.epoch)
    && (w.pending.Some? && w.pending.value.0.Some? ==> w.lease.epoch <= w.pending.value.0.value <= w.live)
    && (w.lease.fenced ==> w.superseded.Some?)
  }

  lemma {:induction false} RunIsConsistent(w: World, evs: seq<Event>)
    requires StartsWell(w)
    ensures Consistent(Run(w, evs)) && Run(w, evs).lease.epoch == w.lease.epoch
  {
    if evs != [] {
      RunIsConsistent(w, evs[..|evs| - 1]);
    }
  }

  lemma RunPlus(w: World, evs: seq<Event>, e: Event)
    ensures Run(w, evs + [e]) == Step(Run(w, evs), e)
  {
    assert (evs + [e])[..|evs + [e]| - 1] == evs;
  }

  /** Time passes and other instances take epochs; this lease does nothing. */
  predicate Elsewhere(evs: seq<Event>) {
    forall i :: 0 <= i < |evs| ==> evs[i].Elapse? || evs[i].Issue?
  }

  lemma {:induction false} ReadIsHeld(w: World, before: seq<Event>, during: seq<Event>)
    requires Elsewhere(during)
    ensures var b, v := Run(w, before), Run(w, before + [ReadKey(true)] + during);
            v.pending == Some((Some(b.live), b.now)) && v.lease == b.lease && v.successes == b.successes
  {
    var start := before + [ReadKey(true)];
    if during == [] {
      RunPlus(w, before, ReadKey(true));
      assert start + during == start;
    } else {
      var n := |during| - 1;
      ReadIsHeld(w, before, during[..n]);
      RunPlus(w, start + during[..n], during[n]);
      assert start + during == start + during[..n] + [during[n]];
    }
  }

  /** An answered renewal, whatever happens between its read and its stamp,
      succeeds if and only if at the read the store's epoch was the lease's
      own, that is, it was not superseded then. So one that reads after the
      takeover never succeeds, and only one that succeeds moves the clock. */
  lemma {:induction false} RenewsExactlyWhenNewest(w: World, before: seq<Event>, during: seq<Event>)
    requires StartsWell(w) && Elsewhere(during)
    ensures var b := Run(w, before);
            var v := Run(w, before + [ReadKey(true)] + during + [Stamp]);
            && (b.superseded.None? <==> b.live == w.lease.epoch)
            && v.successes == b.successes + [(b.live, b.superseded.None?)]
            && v.lease.fenced == b.superseded.Some?
            && v.lease.lastRenewal == (if b.superseded.None? then v.now else b.lease.lastRenewal)
  {
    RunIsConsistent(w, before);
    ReadIsHeld(w, before, during);
    RunPlus(w, before + [ReadKey(true)] + during, Stamp);
  }

  /** Superseded, and whatever a renewal in progress has read is newer. */
  ghost predicate Overtaken(w: World) {
    && w.superseded.Some? && w.live > w.lease.epoch
    && (w.pending.Some? && w.pending.value.0.Some? ==> w.pending.value.0.value > w.lease.epoch)
  }

  /** No answered renewal between `u` and `v` succeeded, and none stamped the clock. */
  ghost predicate NoRenewalSince(u: World, v: World) {
    && |u.successes| <= |v.successes| && u.successes == v.successes[..|u.successes|]
    && (forall k :: |u.successes| <= k < |v.successes| ==> !v.successes[k].1)
    && v.lease.lastRenewal == u.lease.lastRenewal
  }

  /** Once a newer epoch is in the store and no renewal is in flight, no
      answered renewal ever succeeds again, and the lease counts at most one
      conflict in its life. */
  lemma {:induction false} SupersededNeverRenews(w: World, evs: seq<Event>, later: seq<Event>, delay: real)
    requires StartsWell(w) && delay >= 0.0 && Prompt(w, evs + later, delay)
    requires Run(w, evs).superseded.Some? && Run(w, evs).pending.None?
    ensures Overtaken(Run(w, evs + later)) && NoRenewalSince(Run(w, evs), Run(w, evs + later))
    ensures Run(w, evs + later).lease.conflicts <= 1
  {
    RunKeepsInv(w, evs + later, delay);
    if later == [] {
      assert evs + later == evs;
    } else {
      var all := evs + later;
      var init := evs + later[..|later| - 1];
      assert all[..|all| - 1] == init;
      SupersededNeverRenews(w, evs, later[..|later| - 1], delay);
      OvertakenStep(Run(w, evs), Run(w, init), all[|all| - 1]);
    }
  }

  lemma OvertakenStep(u: World, v: World, e: Event)
    requires Overtaken(v) && NoRenewalSince(u, v)
    ensures Overtaken(Step(v, e)) && NoRenewalSince(u, Step(v, e))
  {}

  /** The timing bound: with renewals that take at most `delay` from read to
      stamp, a superseded lease permits no write later than TTL - margin after
      the later of the takeover (plus that delay) and its own creation. With
      `delay` 0 a renewal is one step. */
  lemma {:induction false} StopsInTime(w: World, evs: seq<Event>, delay: real)
    requires StartsWell(w) && delay >= 0.0 && Prompt(w, evs, delay)
    requires Run(w, evs).superseded.Some?
    ensures var v := Run(w, evs);
            v.now >= Max(v.superseded.value + delay, w.now) + (w.lease.ttl - w.lease.margin)
            ==> !MayWriteAt(v.lease, v.now)
  {
    RunKeepsInv(w, evs, delay);
    InvStopsInTime(Run(w, evs), w.now, delay);
  }

  lemma InvStopsInTime(v: World, created: real, delay: real)
    requires Inv(v, created, delay) && v.superseded.Some?
    ensures v.now >= Max(v.superseded.value + delay, created) + (v.lease.ttl - v.lease.margin)
            ==> !MayWriteAt(v.lease, v.now)
  {}

  /** The delay is not an artefact: a renewal that reads just before the
      takeover and stamps `delay` after it keeps writing until exactly that
      much later. */
  lemma SlowRenewalWritesOn(ttl: real, margin: real, delay: real)
    requires ttl > margin && delay > 0.0
    ensures var w := Start(1, 1, ttl, margin, 0.0, None);
            var evs := [ReadKey(true), Issue, Elapse(delay), Stamp];
            var v := Run(w, evs);
            && StartsWell(w)
            && v.superseded == Some(0.0)
            && (forall t: real :: MayWriteAt(v.lease, t) <==> t < delay + (ttl - margin))
  {
    var w := Start(1, 1, ttl, margin, 0.0, None);
    var evs := [ReadKey(true), Issue, Elapse(delay), Stamp];
    assert evs[..3] == [ReadKey(true), Issue, Elapse(delay)];
    assert evs[..3][..2] == [ReadKey(true), Issue];
    assert [ReadKey(true), Issue][..1] == [ReadKey(true)];
    var e1: seq<Event> := [ReadKey(true)];
    assert e1[..0] == [];
    assert Run(w, e1) == Step(w, ReadKey(true));
    assert Run(w, evs[..3][..2]) == Step(Run(w, e1), Issue);
    assert Run(w, evs[..3]) == Step(Run(w, evs[..3][..2]), Elapse(delay));
  }
}
