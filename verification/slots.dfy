/** Identity by claim. A worker's name is a slot it holds by compare-and-set;
    any number of processes claim, renew and release, a controller retires,
    and every get and every put is its own step. */
module Slots {
  import opened Variables
  import opened Decimals

  type Name = string
  type Inst = string

  datatype Slot = Slot(holder: Inst, until: real, released: bool, gen: nat)

  /** `Slot.from_items(name, None)`: what a row that does not exist reads as. */
  const Unclaimed := Slot("", 0.0, true, 0)

  predicate Lapsed(s: Slot, now: real) {
    !s.released && s.holder != "" && now > s.until
  }

  predicate Claimable(s: Slot, now: real) {
    s.released || s.holder == "" || now > s.until
  }

  /** Why a write is being prepared. */
  datatype Purpose = Claim(prefer: bool, now: real) | Renew | LetGo | Retire

  /** Between a get and its put: the slot as read, and the index read with it. */
  datatype Pending = Pending(why: Purpose, name: Name, cur: Slot, index: nat)

  datatype Proc = Proc(pending: Option<Pending>, slot: Option<Name>)

  /** `claims[n]` is history: who claimed `n`, in order. */
  datatype State = State(
    store: Store<Name, Slot>,
    procs: map<Inst, Proc>,
    claims: map<Name, seq<Inst>>)

  datatype Event =
    | BeginClaim(i: Inst, name: Name, prefer: bool, now: real)
    | BeginRenew(i: Inst)
    | BeginRelease(i: Inst)
    | BeginRetire(i: Inst, name: Name)         // a controller, under an id of its own
    | Write(i: Inst, wall: real, ttl: real)      // the pending write, at wall-clock `wall`

  const Idle := Proc(None, None)

  function Of(s: State, i: Inst): Proc {
    if i in s.procs then s.procs[i] else Idle
  }

  function SlotAt(s: State, n: Name): Slot {
    if n in s.store.rows then s.store.rows[n].items else Unclaimed
  }

  function ClaimsOf(s: State, n: Name): seq<Inst> {
    if n in s.claims then s.claims[n] else []
  }

  function With(s: State, i: Inst, p: Proc): State {
    s.(procs := s.procs[i := p])
  }

  function Begin(s: State, i: Inst, why: Purpose, n: Name): State {
    With(s, i, Of(s, i).(pending := Some(Pending(why, n, SlotAt(s, n), Index(s.store, n)))))
  }

  /** What the pending write would store. */
  function NewSlot(p: Pending, i: Inst, wall: real, ttl: real): Slot {
    match p.why
    case Claim(_, now) => Slot(i, now + ttl, false, p.cur.gen + 1)
    case Renew => Slot(i, wall + ttl, false, p.cur.gen)
    case LetGo => Slot(i, wall, true, p.cur.gen)
    case Retire => p.cur.(released := true)
  }

  function Complete(s: State, i: Inst, p: Pending, wall: real, ttl: real): State {
    var x := Of(s, i).(pending := None);
    if Accepts(s.store, p.name, Some(p.index)) then
      var t := s.(store := PutRow(s.store, p.name, NewSlot(p, i, wall, ttl)));
      match p.why
      case Claim(_, _) =>
        With(t, i, x.(slot := Some(p.name))).(claims := s.claims[p.name := ClaimsOf(s, p.name) + [i]])
      case LetGo => With(t, i, x.(slot := None))
      case _ => With(t, i, x)
    else
      With(s, i, if p.why.LetGo? then x.(slot := None) else x)
  }

  /** Instance ids are never empty. */
  function Step(s: State, e: Event): State {
    if e.i == "" then s else
    match e
    case BeginClaim(i, n, prefer, now) =>
      if !prefer && !Claimable(SlotAt(s, n), now) then s else Begin(s, i, Claim(prefer, now), n)
    case BeginRenew(i) =>
      var x := Of(s, i);
      if x.slot.Some? && SlotAt(s, x.slot.value).holder == i then Begin(s, i, Renew, x.slot.value) else s
    case BeginRelease(i) =>
      var x := Of(s, i);
      if x.slot.None? then s
      else if SlotAt(s, x.slot.value).holder == i then Begin(s, i, LetGo, x.slot.value)
      else With(s, i, x.(slot := None))
    case BeginRetire(i, n) =>
      if SlotAt(s, n).released then s else Begin(s, i, Retire, n)
    case Write(i, wall, ttl) =>
      if Of(s, i).pending.Some? then Complete(s, i, Of(s, i).pending.value, wall, ttl) else s
  }

  function Run(s: State, evs: seq<Event>): State {
    if evs == [] then s else Step(Run(s, evs[..|evs| - 1]), evs[|evs| - 1])
  }

  const Init := State(Store(map[], 1000), map[], map[])

  // ----- the invariant

  ghost predicate PendingOk(s: State, i: Inst, p: Pending) {
    && p.index <= s.store.raft
    && (p.index == 0 ==> p.cur == Unclaimed)
    && (p.name in s.store.rows && s.store.rows[p.name].index == p.index ==> s.store.rows[p.name].items == p.cur)
    && match p.why {
         case Claim(prefer, now) => i != "" && (prefer || Claimable(p.cur, now))
         case Retire => !p.cur.released
         case _ => i != "" && p.cur.holder == i
       }
  }

  ghost predicate RowOk(s: State, n: Name) {
    && (n in s.store.rows <==> ClaimsOf(s, n) != [])
    && SlotAt(s, n).gen == |ClaimsOf(s, n)|
    && (n in s.store.rows ==>
          SlotAt(s, n).holder != "" && SlotAt(s, n).holder == ClaimsOf(s, n)[|ClaimsOf(s, n)| - 1])
  }

  ghost predicate Inv(s: State) {
    && Valid(s.store)
    && (forall n :: RowOk(s, n))
    && (forall i :: i in s.procs && s.procs[i].pending.Some? ==> PendingOk(s, i, s.procs[i].pending.value))
  }

  lemma StepKeepsInv(s: State, e: Event)
    requires Inv(s)
    ensures Inv(Step(s, e))
  {
    if e.Write? && Of(s, e.i).pending.Some? {
      CompleteKeepsInv(s, e.i, Of(s, e.i).pending.value, e.wall, e.ttl);
    } else {
      var t := Step(s, e);
      forall n ensures RowOk(t, n) {
        assert RowOk(s, n);
      }
      forall j | j in t.procs && t.procs[j].pending.Some? ensures PendingOk(t, j, t.procs[j].pending.value) {
        if j in s.procs && s.procs[j].pending == t.procs[j].pending {
          assert PendingOk(s, j, s.procs[j].pending.value);
        }
      }
    }
  }

  lemma CompleteKeepsInv(s: State, i: Inst, p: Pending, wall: real, ttl: real)
    requires Inv(s) && Of(s, i).pending == Some(p)
    ensures Inv(Complete(s, i, p, wall, ttl))
  {
    var t := Complete(s, i, p, wall, ttl);
    forall n ensures RowOk(t, n) {
      CompleteKeepsRow(s, i, p, wall, ttl, n);
    }
    CompleteKeepsPending(s, i, p, wall, ttl);
  }

  /** A write gives the one row it touches a fresh index. */
  lemma CompleteMovesOneRow(s: State, i: Inst, p: Pending, wall: real, ttl: real)
    requires Valid(s.store)
    ensures var t := Complete(s, i, p, wall, ttl);
            && Valid(t.store) && s.store.raft <= t.store.raft
            && (forall n :: n in t.store.rows ==>
                  (n in s.store.rows && t.store.rows[n] == s.store.rows[n]) || t.store.rows[n].index > s.store.raft)
  {
    hide NewSlot;
    var t := Complete(s, i, p, wall, ttl);
    PutKeepsValid(s.store, p.name, NewSlot(p, i, wall, ttl));
    assert t.store == s.store || t.store == PutRow(s.store, p.name, NewSlot(p, i, wall, ttl));
    hide Complete, Accepts, Of;
  }

  /** A write clears its own pending step and leaves those of others. */
  lemma CompleteLeavesOthers(s: State, i: Inst, p: Pending, wall: real, ttl: real)
    ensures var t := Complete(s, i, p, wall, ttl);
            forall j :: j in t.procs && t.procs[j].pending.Some? ==> j in s.procs && t.procs[j] == s.procs[j]
  {
    hide NewSlot, Accepts, PutRow, ClaimsOf;
    var t := Complete(s, i, p, wall, ttl);
    assert i in t.procs && t.procs == s.procs[i := t.procs[i]];
    assert t.procs[i].pending.None?;
    hide Complete, Of;
  }

  lemma CompleteKeepsPending(s: State, i: Inst, p: Pending, wall: real, ttl: real)
    requires Inv(s) && Of(s, i).pending == Some(p)
    ensures var t := Complete(s, i, p, wall, ttl);
            && Valid(t.store)
            && (forall j :: j in t.procs && t.procs[j].pending.Some? ==> PendingOk(t, j, t.procs[j].pending.value))
  {
    hide Complete, RowOk, PendingOk;
    var t := Complete(s, i, p, wall, ttl);
    CompleteMovesOneRow(s, i, p, wall, ttl);
    CompleteLeavesOthers(s, i, p, wall, ttl);
    forall j | j in t.procs && t.procs[j].pending.Some? ensures PendingOk(t, j, t.procs[j].pending.value) {
      PendingSurvives(s, t, j, s.procs[j].pending.value);
    }
  }

  /** A write to one slot gets a fresh index, so it cannot confirm an old read. */
  lemma PendingSurvives(s: State, t: State, j: Inst, q: Pending)
    requires PendingOk(s, j, q) && s.store.raft <= t.store.raft
    requires forall n :: n in t.store.rows ==>
      (n in s.store.rows && t.store.rows[n] == s.store.rows[n]) || t.store.rows[n].index > s.store.raft
    ensures PendingOk(t, j, q)
  {}

  lemma CompleteKeepsRow(s: State, i: Inst, p: Pending, wall: real, ttl: real, n: Name)
    requires Inv(s) && Of(s, i).pending == Some(p)
    ensures RowOk(Complete(s, i, p, wall, ttl), n)
  {
    assert RowOk(s, n);
    if Accepts(s.store, p.name, Some(p.index)) && n == p.name {
      AcceptedSawCurrent(s, i, p);
    }
  }

  /** An accepted write was prepared from the slot as it still is. */
  lemma AcceptedSawCurrent(s: State, i: Inst, p: Pending)
    requires Inv(s) && PendingOk(s, i, p)
    requires Accepts(s.store, p.name, Some(p.index))
    ensures p.cur == SlotAt(s, p.name)
  {}

  lemma {:induction false} RunKeepsInv(evs: seq<Event>)
    ensures Inv(Run(Init, evs))
  {
    if evs == [] {
      forall n ensures RowOk(Init, n) {}
    } else {
      RunKeepsInv(evs[..|evs| - 1]);
      StepKeepsInv(Run(Init, evs[..|evs| - 1]), evs[|evs| - 1]);
    }
  }

  // ----- who may have a slot

  /** Somebody's: held, not let go of, and not past its time. */
  predicate Held(s: Slot, now: real) {
    s.holder != "" && !s.released && now <= s.until
  }

  /** A claim without a preference goes for exactly the slots that are nobody's;
      one with a preference for any. */
  lemma ClaimGoesFor(s: State, i: Inst, n: Name, prefer: bool, now: real)
    requires i != ""
    ensures var t := Step(s, BeginClaim(i, n, prefer, now));
            if !prefer && Held(SlotAt(s, n), now) then t == s
            else Of(t, i).pending == Some(Pending(Claim(prefer, now), n, SlotAt(s, n), Index(s.store, n)))
  {}

  /** What a read and a write do, with nobody in between: a claim makes the row
      this process's, in its next generation; a renewal gives its holder more
      time; a release and a retirement say that it is let go of. A process
      renews and releases only what the row says is its own. */
  lemma ReadThenWrite(s: State, i: Inst, n: Name, now: real, wall: real, ttl: real)
    requires i != ""
    ensures var t := Step(Step(s, BeginClaim(i, n, true, now)), Write(i, wall, ttl));
            SlotAt(t, n) == Slot(i, now + ttl, false, SlotAt(s, n).gen + 1) && Of(t, i).slot == Some(n)
    ensures Of(s, i).slot == Some(n) ==>
              var t := Step(Step(s, BeginRenew(i)), Write(i, wall, ttl));
              SlotAt(s, n).holder == i ==>
                SlotAt(t, n) == Slot(i, wall + ttl, false, SlotAt(s, n).gen) && Of(t, i).slot == Some(n)
    ensures Of(s, i).slot == Some(n) && SlotAt(s, n).holder != i ==> Step(s, BeginRenew(i)) == s
    ensures Of(s, i).slot == Some(n) ==>
              var t := Step(Step(s, BeginRelease(i)), Write(i, wall, ttl));
              SlotAt(s, n).holder == i ==>
                SlotAt(t, n) == Slot(i, wall, true, SlotAt(s, n).gen) && Of(t, i).slot == None
    ensures Of(s, i).slot == Some(n) && SlotAt(s, n).holder != i ==>
              var t := Step(s, BeginRelease(i)); t.store == s.store && Of(t, i) == Of(s, i).(slot := None)
    ensures var t := Step(Step(s, BeginRetire(i, n)), Write(i, wall, ttl));
            !SlotAt(s, n).released ==>
              var row := SlotAt(s, n); SlotAt(t, n) == Slot(row.holder, row.until, true, row.gen)
  {}

  /** A slot retired while its holder still had time is claimed at once, by a
      process with no preference. */
  lemma RetiredIsClaimed(ttl: real)
    requires ttl > 0.0
    ensures var evs := [BeginClaim("a", "w-1", false, 0.0), Write("a", 0.0, ttl), BeginRetire("c", "w-1"),
                        Write("c", 0.0, ttl), BeginClaim("b", "w-1", false, ttl / 2.0), Write("b", ttl / 2.0, ttl)];
            && SlotAt(Run(Init, evs[..4]), "w-1") == Slot("a", ttl, true, 1)
            && SlotAt(Run(Init, evs), "w-1") == Slot("b", ttl / 2.0 + ttl, false, 2)
            && Of(Run(Init, evs), "b").slot == Some("w-1")
  {
    var e1, e2 := BeginClaim("a", "w-1", false, 0.0), Write("a", 0.0, ttl);
    var e3, e4 := BeginRetire("c", "w-1"), Write("c", 0.0, ttl);
    var e5, e6 := BeginClaim("b", "w-1", false, ttl / 2.0), Write("b", ttl / 2.0, ttl);
    var evs := [e1, e2, e3, e4, e5, e6];
    var none: seq<Event> := [];
    assert [e1][..0] == none && [e1, e2][..1] == [e1] && [e1, e2, e3][..2] == [e1, e2];
    assert evs[..4][..3] == [e1, e2, e3] && evs[..5][..4] == evs[..4] && evs[..6] == evs;
    assert Run(Init, [e1]) == Step(Run(Init, none), e1);
    assert Run(Init, [e1, e2]) == Step(Run(Init, [e1]), e2);
    assert SlotAt(Run(Init, [e1, e2]), "w-1") == Slot("a", ttl, false, 1);
    assert Run(Init, [e1, e2, e3]) == Step(Run(Init, [e1, e2]), e3);
    assert Run(Init, evs[..4]) == Step(Run(Init, [e1, e2, e3]), e4);
    assert Run(Init, evs[..5]) == Step(Run(Init, evs[..4]), e5);
    assert Run(Init, evs) == Step(Run(Init, evs[..5]), e6);
  }

  // ----- generations and holders

  /** `gen` counts the successful claims of a slot and its holder is always
      the instance that made the latest one, whatever renewals, releases and
      retirements happened in between. */
  lemma GenCountsClaims(evs: seq<Event>, n: Name)
    ensures var s := Run(Init, evs);
            && SlotAt(s, n).gen == |ClaimsOf(s, n)|
            && (ClaimsOf(s, n) != [] ==> SlotAt(s, n).holder == ClaimsOf(s, n)[|ClaimsOf(s, n)| - 1])
            && (n in s.store.rows <==> ClaimsOf(s, n) != [])
  {
    RunKeepsInv(evs);
    assert RowOk(Run(Init, evs), n);
  }

  /** `e` is a renewal or release by `i` that the store accepts for slot `n`. */
  ghost predicate KeepsSlot(s: State, e: Event, i: Inst, n: Name) {
    && e.Write? && e.i == i
    && Of(s, i).pending.Some?
    && var p := Of(s, i).pending.value;
       p.name == n && (p.why.Renew? || p.why.LetGo?) && Accepts(s.store, n, Some(p.index))
  }

  ghost predicate Claims(s: State, e: Event, i: Inst, n: Name) {
    && e.Write? && e.i == i
    && Of(s, i).pending.Some?
    && var p := Of(s, i).pending.value;
       p.name == n && p.why.Claim? && Accepts(s.store, n, Some(p.index))
  }

  ghost predicate NeverReclaims(s: State, evs: seq<Event>, i: Inst, n: Name) {
    evs != [] ==>
      && NeverReclaims(s, evs[..|evs| - 1], i, n)
      && !Claims(Run(s, evs[..|evs| - 1]), evs[|evs| - 1], i, n)
  }

  lemma {:induction false} RunFrom(s: State, evs: seq<Event>)
    requires Inv(s)
    ensures Inv(Run(s, evs))
  {
    if evs != [] {
      RunFrom(s, evs[..|evs| - 1]);
      StepKeepsInv(Run(s, evs[..|evs| - 1]), evs[|evs| - 1]);
    }
  }

  /** A superseded instance, as long as it does not claim the slot again, is
      not its holder and cannot renew or release it: not even with a write it
      prepared before it was superseded. */
  lemma {:induction false} SupersededStaysOut(s: State, evs: seq<Event>, i: Inst, n: Name)
    requires Inv(s) && SlotAt(s, n).holder != i && n in s.store.rows
    requires NeverReclaims(s, evs, i, n)
    ensures SlotAt(Run(s, evs), n).holder != i && n in Run(s, evs).store.rows
    ensures forall e :: !KeepsSlot(Run(s, evs), e, i, n)
  {
    if evs != [] {
      var init := evs[..|evs| - 1];
      SupersededStaysOut(s, init, i, n);
      RunFrom(s, init);
      HolderChangesOnlyByClaim(Run(s, init), evs[|evs| - 1], i, n);
    }
    RunFrom(s, evs);
    forall e ensures !KeepsSlot(Run(s, evs), e, i, n) {
      if KeepsSlot(Run(s, evs), e, i, n) {
        AcceptedSawCurrent(Run(s, evs), i, Of(Run(s, evs), i).pending.value);
      }
    }
  }

  lemma HolderChangesOnlyByClaim(s: State, e: Event, i: Inst, n: Name)
    requires Inv(s) && n in s.store.rows && SlotAt(s, n).holder != i
    requires !Claims(s, e, i, n)
    ensures SlotAt(Step(s, e), n).holder != i && n in Step(s, e).store.rows
  {
    if e.Write? && Of(s, e.i).pending.Some? {
      var p := Of(s, e.i).pending.value;
      if Accepts(s.store, p.name, Some(p.index)) {
        AcceptedSawCurrent(s, e.i, p);
      }
    }
  }

  // ----- claims without a preference, within one TTL

  /** Every claim reads its clock in [t0, t0 + ttl], has no preference, and
      nothing is released, retired or renewed into the past. */
  ghost predicate InWindow(evs: seq<Event>, t0: real, ttl: real) {
    forall k :: 0 <= k < |evs| ==>
      match evs[k] {
        case BeginClaim(_, _, prefer, now) => !prefer && t0 <= now <= t0 + ttl
        case Write(_, wall, ttl') => wall >= t0 && ttl' == ttl
        case BeginRenew(_) => true
        case _ => false
      }
  }

  ghost predicate HeldThrough(s: State, i: Inst, n: Name, t: real) {
    SlotAt(s, n).holder == i && !SlotAt(s, n).released && SlotAt(s, n).until >= t
  }

  ghost predicate WindowInv(s: State, t0: real, ttl: real) {
    && (forall i :: i in s.procs && s.procs[i].slot.Some? ==>
          i != "" && HeldThrough(s, i, s.procs[i].slot.value, t0 + ttl))
    && (forall i :: i in s.procs && s.procs[i].pending.Some? ==>
          var p := s.procs[i].pending.value;
          || p.why.Renew?
          || (p.why.Claim? && !p.why.prefer && t0 <= p.why.now <= t0 + ttl))
  }

  lemma {:induction false} WindowRun(s: State, evs: seq<Event>, t0: real, ttl: real)
    requires Inv(s) && WindowInv(s, t0, ttl) && InWindow(evs, t0, ttl)
    ensures WindowInv(Run(s, evs), t0, ttl)
  {
    if evs != [] {
      var init := evs[..|evs| - 1];
      WindowRun(s, init, t0, ttl);
      RunFrom(s, init);
      WindowStep(Run(s, init), evs[|evs| - 1], t0, ttl);
    }
  }

  lemma WindowStep(s: State, e: Event, t0: real, ttl: real)
    requires Inv(s) && WindowInv(s, t0, ttl) && InWindow([e], t0, ttl)
    ensures WindowInv(Step(s, e), t0, ttl)
  {
    assert [e][0] == e;
    if e.Write? && Of(s, e.i).pending.Some? {
      var p := Of(s, e.i).pending.value;
      if Accepts(s.store, p.name, Some(p.index)) {
        AcceptedSawCurrent(s, e.i, p);
        var t := Step(s, e);
        forall j | j in t.procs && t.procs[j].slot.Some?
          ensures j != "" && HeldThrough(t, j, t.procs[j].slot.value, t0 + ttl)
        {
          if j != e.i {
            assert j in s.procs && HeldThrough(s, j, s.procs[j].slot.value, t0 + ttl);
          }
        }
      }
    }
  }

  /** Processes that claim without a preference within one slot TTL, with no
      release or retirement, end with pairwise distinct names: from any store,
      in any interleaving, lapsed and released rows included. */
  lemma NamesPairwiseDistinct(s: State, evs: seq<Event>, t0: real, ttl: real, i: Inst, j: Inst)
    requires Inv(s) && s.procs == map[]
    requires InWindow(evs, t0, ttl)
    requires i != j && Of(Run(s, evs), i).slot.Some? && Of(Run(s, evs), j).slot.Some?
    ensures Of(Run(s, evs), i).slot != Of(Run(s, evs), j).slot
  {
    WindowRun(s, evs, t0, ttl);
    var t := Run(s, evs);
    assert HeldThrough(t, i, t.procs[i].slot.value, t0 + ttl);
    assert HeldThrough(t, j, t.procs[j].slot.value, t0 + ttl);
  }

  /** One second past the TTL and the promise is gone: two live processes with
      one name, the first of which finds out on its next renewal. */
  lemma AfterTheTtlNamesCollide(ttl: real)
    requires ttl > 0.0
    ensures var evs := [BeginClaim("a", "w-1", false, 0.0), Write("a", 0.0, ttl),
                        BeginClaim("b", "w-1", false, ttl + 1.0), Write("b", ttl + 1.0, ttl)];
            Of(Run(Init, evs), "a").slot == Of(Run(Init, evs), "b").slot == Some("w-1")
  {
    var a1, a2 := BeginClaim("a", "w-1", false, 0.0), Write("a", 0.0, ttl);
    var b1, b2 := BeginClaim("b", "w-1", false, ttl + 1.0), Write("b", ttl + 1.0, ttl);
    var evs := [a1, a2, b1, b2];
    assert evs[..3] == [a1, a2, b1] && evs[..3][..2] == [a1, a2] && [a1, a2][..1] == [a1];
    var none: seq<Event> := [];
    assert [a1][..0] == none;
    assert Run(Init, [a1]) == Step(Run(Init, none), a1);
    assert Run(Init, [a1, a2]) == Step(Run(Init, [a1]), a2);
    assert Run(Init, evs[..3]) == Step(Run(Init, [a1, a2]), b1);
    assert Run(Init, evs) == Step(Run(Init, evs[..3]), b2);
  }

  // ----- which slot a process tries first

  /** `name.rsplit("-", 1)[-1]` as a number, 0 if it is not one. */
  function SlotNumber(name: Name): nat {
    var tail := AfterLastDash(name);
    if IsDecimal(tail) then Value(tail) else 0
  }

  function AfterLastDash(s: string): string {
    if s == "" || s[|s| - 1] == '-' then "" else AfterLastDash(s[..|s| - 1]) + [s[|s| - 1]]
  }

  function MaxNumber(names: seq<Name>): (m: nat)
    ensures forall n :: n in names ==> SlotNumber(n) <= m
    ensures m == 0 || exists n :: n in names && SlotNumber(n) == m
  {
    if names == [] then 0
    else
      var m, k := MaxNumber(names[..|names| - 1]), SlotNumber(names[|names| - 1]);
      if k > m then k else m
  }

  function NextName(names: seq<Name>): Name {
    "w-" + Decimal(MaxNumber(names) + 1)
  }

  lemma {:induction false} NoDashBefore(pre: string, tail: string)
    requires pre != "" && pre[|pre| - 1] == '-'
    requires forall k :: 0 <= k < |tail| ==> tail[k] != '-'
    ensures AfterLastDash(pre + tail) == tail
  {
    if tail == "" {
      assert pre + tail == pre;
    } else {
      var n := |tail| - 1;
      NoDashBefore(pre, tail[..n]);
      assert (pre + tail)[..|pre + tail| - 1] == pre + tail[..n];
    }
  }

  /** The number of a name the worker writes is read back; other tails count as 0. */
  lemma NumberReadsBack(n: nat, name: Name)
    ensures SlotNumber("w-" + Decimal(n)) == n
    ensures !IsDecimal(AfterLastDash(name)) ==> SlotNumber(name) == 0
  {
    DecimalReadsBack(n);
    NoDashBefore("w-", Decimal(n));
  }

  /** The unused number a claim falls back to really is unused. */
  lemma NextNameIsUnused(names: seq<Name>)
    ensures NextName(names) !in names
    ensures SlotNumber(NextName(names)) == MaxNumber(names) + 1
  {
    var tail := Decimal(MaxNumber(names) + 1);
    DecimalReadsBack(MaxNumber(names) + 1);
    NoDashBefore("w-", tail);
  }
}
