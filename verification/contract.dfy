/** What every subsystem shares over the store: read-modify-write by CAS, and a
    worker that claims its name, keeps it, lets it go, and takes epochs. */
module Contract {
  import opened Epochs
  import opened Leases
  import opened Records
  import opened Slots
  import opened StableSort
  import opened Variables

  // ----- Controller.write

  /** The new row; or the row as it was, when there was nothing to change; or
      an exception, after a conflict on every try. */
  datatype Outcome<+V> = Wrote(v: V) | Unchanged(was: Option<V>) | GaveUp

  /** `others[k]` is what every other client does between this caller's k-th
      read and its k-th write. A write that lands has changed the row as it was
      at that moment, whoever wrote it last; one that does not has written
      nothing at all. Every try before the last was overtaken, and a call that
      gives up was overtaken every time. */
  method Write<V>(vars: FakeVariables<string, V>, path: string, mutate: Option<V> -> Option<V>,
          others: seq<seq<Op<string, V>>>)
    returns (r: Outcome<V>, ghost tries: nat)
    requires Valid(vars.State())
    modifies vars
    ensures tries <= |others| && (r.Wrote? ==> tries > 0)
    ensures AllOvertaken(old(vars.State()), others, path, if r.Wrote? then tries - 1 else tries)
    ensures r.Wrote? ==> !Variables.Overtaken(old(vars.State()), others, path, tries - 1)
    ensures r.Wrote? ==>
              var before := ApplyAll(old(vars.State()), Flatten(others[..tries]));
              mutate(Items(before, path)) == Some(r.v) && vars.State() == PutRow(before, path, r.v)
    ensures !r.Wrote? ==> vars.State() == ApplyAll(old(vars.State()), Flatten(others[..tries]))
    ensures r.Unchanged? ==> r.was == Items(vars.State(), path) && mutate(r.was) == None
    ensures r.GaveUp? ==> tries == |others|
  {
    tries := 0;
    ghost var s := vars.State();
    assert AllOvertaken(s, others, path, 0);
    hide AllOvertaken;
    for k := 0 to |others|
      invariant tries == k
      invariant vars.State() == ApplyAll(s, Flatten(others[..k]))
      invariant AllOvertaken(s, others, path, k)
    {
      ghost var atRead := vars.State();
      RunKeepsValid(s, Flatten(others[..k]));
      var items, idx := vars.Get(path);
      var new_ := mutate(items);
      if new_.None? {
        return Unchanged(items), tries;
      }
      vars.Others(others[k]);
      assert others[..k + 1][..k] == others[..k];
      ApplyAllConcat(s, Flatten(others[..k]), others[k]);
      StillAsRead(atRead, others[k], path);
      var index := vars.PutItems(path, new_.value, Some(idx));
      tries := tries + 1;
      if index.Some? {
        return Wrote(new_.value), tries;
      }
      OneMoreOvertaken(s, others, path, k);
    }
    r := GaveUp;
  }

  /** An accepted write finds the row as it was read. */
  lemma StillAsRead<V>(atRead: Store<string, V>, ops: seq<Op<string, V>>, path: string)
    requires Valid(atRead)
    ensures Accepts(ApplyAll(atRead, ops), path, Some(Index(atRead, path))) ==>
              Items(ApplyAll(atRead, ops), path) == Items(atRead, path)
  {
    CasAcceptedExactlyWhen(atRead, ops, path);
    TouchedMovesIndex(atRead, ops, path);
  }

  // ----- assignments

  const NoUnits: Assignment<string> := Assignment({}, 0)

  function Read(items: Option<Assignment<string>>): Assignment<string> {
    if items.Some? then items.value else NoUnits
  }

  function Adding(unit: string): Option<Assignment<string>> -> Option<Assignment<string>> {
    (items: Option<Assignment<string>>) =>
      var a := Read(items);
      if unit in a.units then None else Some(Assignment(a.units + {unit}, a.rev + 1))
  }

  function Removing(unit: string): Option<Assignment<string>> -> Option<Assignment<string>> {
    (items: Option<Assignment<string>>) =>
      var a := Read(items);
      if unit !in a.units then None else Some(Assignment(a.units - {unit}, a.rev + 1))
  }

  /** Unless it gave up, the unit is listed, and no other unit came or went. */
  method AssignAdd(vars: FakeVariables<string, Assignment<string>>, worker: string, unit: string,
          others: seq<seq<Op<string, Assignment<string>>>>)
    returns (r: Outcome<Assignment<string>>, ghost tries: nat)
    requires Valid(vars.State())
    modifies vars
    ensures tries <= |others|
    ensures r.GaveUp? ==> tries == |others| && AllOvertaken(old(vars.State()), others, worker, tries)
    ensures var before := ApplyAll(old(vars.State()), Flatten(others[..tries]));
            && (r.Wrote? ==> vars.State() == PutRow(before, worker, r.v))
            && (!r.Wrote? ==> vars.State() == before)
            && (!r.GaveUp? ==>
                  Read(Items(vars.State(), worker)).units == Read(Items(before, worker)).units + {unit})
            && (r.Wrote? ==>
                  && unit !in Read(Items(before, worker)).units
                  && r.v.rev == Read(Items(before, worker)).rev + 1)
  {
    r, tries := Write(vars, worker, Adding(unit), others);
  }

  method AssignRemove(vars: FakeVariables<string, Assignment<string>>, worker: string, unit: string,
          others: seq<seq<Op<string, Assignment<string>>>>)
    returns (r: Outcome<Assignment<string>>, ghost tries: nat)
    requires Valid(vars.State())
    modifies vars
    ensures tries <= |others|
    ensures r.GaveUp? ==> tries == |others| && AllOvertaken(old(vars.State()), others, worker, tries)
    ensures var before := ApplyAll(old(vars.State()), Flatten(others[..tries]));
            && (r.Wrote? ==> vars.State() == PutRow(before, worker, r.v))
            && (!r.Wrote? ==> vars.State() == before)
            && (!r.GaveUp? ==>
                  Read(Items(vars.State(), worker)).units == Read(Items(before, worker)).units - {unit})
            && (r.Wrote? ==>
                  && unit in Read(Items(before, worker)).units
                  && r.v.rev == Read(Items(before, worker)).rev + 1)
  {
    r, tries := Write(vars, worker, Removing(unit), others);
  }

  // ----- which slot a process tries first

  function SlotIn(s: Store<Name, Slot>, n: Name): Slot {
    if n in s.rows then s.rows[n].items else Unclaimed
  }

  datatype Known = Known(name: Name, slot: Slot)

  function LapsedAt(now: real): Known -> bool {
    (k: Known) => Lapsed(k.slot, now)
  }

  function FreeAt(now: real): Known -> bool {
    (k: Known) => Claimable(k.slot, now) && !Lapsed(k.slot, now)
  }

  function ByUntil(k: Known): Key {
    Key(k.slot.until, 0.0)
  }

  function ByNumber(k: Known): Key {
    Key(SlotNumber(k.name) as real, 0.0)
  }

  function NamesOf(ks: seq<Known>): seq<Name> {
    if ks == [] then [] else NamesOf(ks[..|ks| - 1]) + [ks[|ks| - 1].name]
  }

  /** Lapsed slots first, the longest lapsed leading: their assignments wait.
      Then the free ones by number, then an unused number. */
  function Candidates(known: seq<Known>, prefer: Option<Name>, now: real): seq<Name> {
    if prefer.Some? then [prefer.value]
    else NamesOf(Sorted(Filter(known, LapsedAt(now)), ByUntil))
         + NamesOf(Sorted(Filter(known, FreeAt(now)), ByNumber))
         + [NextName(NamesOf(known))]
  }

  lemma {:induction false} NamesOfAre(ks: seq<Known>)
    ensures |NamesOf(ks)| == |ks| && forall i :: 0 <= i < |ks| ==> NamesOf(ks)[i] == ks[i].name
  {
    if ks != [] {
      NamesOfAre(ks[..|ks| - 1]);
    }
  }

  lemma PreferredOnly(known: seq<Known>, prefer: Option<Name>, now: real)
    ensures prefer.Some? ==> Candidates(known, prefer, now) == [prefer.value]
  {}

  // ----- the worker's side

  /** What other clients do before a read, and between it and the write. */
  datatype Gap = Gap(before: seq<Op<Name, Slot>>, between: seq<Op<Name, Slot>>)

  /** One round of claiming: what the listing returned, and the gaps. */
  datatype Round = Round(known: seq<Known>, gaps: seq<Gap>)

  /** One candidate tried, and what other clients did around its read. */
  datatype Attempt = Attempt(cand: Name, gap: Gap)

  predicate WellMatched(rounds: seq<Round>, prefer: Option<Name>, now: real) {
    forall i :: 0 <= i < |rounds| ==> |rounds[i].gaps| == |Candidates(rounds[i].known, prefer, now)|
  }

  function AttemptsOf(r: Round, prefer: Option<Name>, now: real): (tries: seq<Attempt>)
    requires |r.gaps| == |Candidates(r.known, prefer, now)|
    ensures |tries| == |r.gaps|
  {
    seq(|r.gaps|, j requires 0 <= j < |r.gaps| => Attempt(Candidates(r.known, prefer, now)[j], r.gaps[j]))
  }

  /** Every candidate of every round, in the order they are tried. */
  function AllAttempts(rounds: seq<Round>, prefer: Option<Name>, now: real): seq<Attempt>
    requires WellMatched(rounds, prefer, now)
  {
    if rounds == [] then []
    else AllAttempts(rounds[..|rounds| - 1], prefer, now) + AttemptsOf(rounds[|rounds| - 1], prefer, now)
  }

  /** Everything other clients did during these tries. */
  function Meanwhile(tries: seq<Attempt>): seq<Op<Name, Slot>> {
    if tries == [] then []
    else
      var gap := tries[|tries| - 1].gap;
      Meanwhile(tries[..|tries| - 1]) + (gap.before + gap.between)
  }

  /** Begun in `s`, the try finds the slot not to be had when it reads it, or
      is overtaken before it writes. */
  predicate Refused(s: Store<Name, Slot>, a: Attempt, preferred: bool, now: real) {
    var atRead := ApplyAll(s, a.gap.before);
    || (!preferred && !Claimable(SlotIn(atRead, a.cand), now))
    || !Accepts(ApplyAll(atRead, a.gap.between), a.cand, Some(Index(atRead, a.cand)))
  }

  predicate AllRefused(s: Store<Name, Slot>, tries: seq<Attempt>, preferred: bool, now: real) {
    tries != [] ==>
      var init := tries[..|tries| - 1];
      && AllRefused(s, init, preferred, now)
      && Refused(ApplyAll(s, Meanwhile(init)), tries[|tries| - 1], preferred, now)
  }

  /** The write of a claim: the row, as it is at that moment, is there to be had
      or preferred, and becomes the next generation of itself. */
  ghost predicate Takes(before: Store<Name, Slot>, after: Store<Name, Slot>, n: Name, s: Slot, preferred: bool,
          now: real)
  {
    && (!preferred ==> Claimable(SlotIn(before, n), now))
    && s.gen == SlotIn(before, n).gen + 1
    && after == PutRow(before, n, s)
  }

  /** One more try, begun where the others ended. */
  lemma MeanwhileOne(s: Store<Name, Slot>, tries: seq<Attempt>, a: Attempt)
    ensures ApplyAll(s, Meanwhile(tries + [a])) ==
            ApplyAll(ApplyAll(s, Meanwhile(tries)), a.gap.before + a.gap.between)
  {
    assert (tries + [a])[..|tries|] == tries;
    ApplyAllConcat(s, Meanwhile(tries), a.gap.before + a.gap.between);
  }

  /** The first `k` tries were refused, and nothing was written but by others. */
  ghost predicate NoneTaken(s: Store<Name, Slot>, all: seq<Attempt>, k: nat, after: Store<Name, Slot>, preferred: bool,
          now: real)
  {
    k <= |all| && AllRefused(s, all[..k], preferred, now) && after == ApplyAll(s, Meanwhile(all[..k]))
  }

  /** The last of the first `k` tries took its slot, and only it could; those
      before it were refused. */
  ghost predicate LastTaken(s: Store<Name, Slot>, all: seq<Attempt>, k: nat, after: Store<Name, Slot>, n: Name,
          mine: Slot, preferred: bool, now: real)
  {
    && 0 < k <= |all| && n == all[k - 1].cand
    && AllRefused(s, all[..k - 1], preferred, now)
    && !Refused(ApplyAll(s, Meanwhile(all[..k - 1])), all[k - 1], preferred, now)
    && Takes(ApplyAll(s, Meanwhile(all[..k])), after, n, mine, preferred, now)
  }

  lemma OneMoreRefused(s: Store<Name, Slot>, all: seq<Attempt>, k: nat, at: Store<Name, Slot>, a: Attempt,
          preferred: bool, now: real)
    requires k < |all| && all[k] == a
    requires NoneTaken(s, all, k, at, preferred, now) && Refused(at, a, preferred, now)
    ensures NoneTaken(s, all, k + 1, ApplyAll(at, a.gap.before + a.gap.between), preferred, now)
  {
    assert all[..k + 1][..k] == all[..k] && all[..k + 1] == all[..k] + [a];
    MeanwhileOne(s, all[..k], a);
  }

  lemma OneMoreTaken(s: Store<Name, Slot>, all: seq<Attempt>, k: nat, at: Store<Name, Slot>, a: Attempt,
          after: Store<Name, Slot>, mine: Slot, preferred: bool, now: real)
    requires k < |all| && all[k] == a
    requires NoneTaken(s, all, k, at, preferred, now) && !Refused(at, a, preferred, now)
    requires Takes(ApplyAll(at, a.gap.before + a.gap.between), after, a.cand, mine, preferred, now)
    ensures LastTaken(s, all, k + 1, after, a.cand, mine, preferred, now)
  {
    assert all[..k + 1] == all[..k] + [a];
    MeanwhileOne(s, all[..k], a);
  }

  lemma StaysValid(s: Store<Name, Slot>, all: seq<Attempt>, k: nat, at: Store<Name, Slot>, preferred: bool, now: real)
    requires Valid(s) && NoneTaken(s, all, k, at, preferred, now)
    ensures Valid(at)
  {
    ApplyAllValid(s, Meanwhile(all[..k]));
  }

  /** The tries of round `r` are those from the `from`-th on. */
  ghost predicate TriesOf(all: seq<Attempt>, from: nat, r: Round, prefer: Option<Name>, now: real) {
    var cands := Candidates(r.known, prefer, now);
    && |r.gaps| == |cands| && from + |r.gaps| <= |all|
    && forall j :: 0 <= j < |r.gaps| ==> all[from + j] == Attempt(cands[j], r.gaps[j])
  }

  function TriesBefore(rounds: seq<Round>, i: nat): nat
    requires i <= |rounds|
  {
    if i == 0 then 0 else TriesBefore(rounds, i - 1) + |rounds[i - 1].gaps|
  }

  lemma TriesExtend(all: seq<Attempt>, more: seq<Attempt>, from: nat, r: Round, prefer: Option<Name>, now: real)
    requires TriesOf(all, from, r, prefer, now)
    ensures TriesOf(all + more, from, r, prefer, now)
  {
    hide Candidates;
  }

  lemma TriesLast(all: seq<Attempt>, r: Round, prefer: Option<Name>, now: real)
    requires |r.gaps| == |Candidates(r.known, prefer, now)|
    ensures TriesOf(all + AttemptsOf(r, prefer, now), |all|, r, prefer, now)
  {
    hide Candidates;
  }

  lemma {:induction false} TriesInOrder(rounds: seq<Round>, prefer: Option<Name>, now: real, i: nat)
    requires WellMatched(rounds, prefer, now)
    ensures |AllAttempts(rounds, prefer, now)| == TriesBefore(rounds, |rounds|)
    ensures i < |rounds| ==> TriesOf(AllAttempts(rounds, prefer, now), TriesBefore(rounds, i), rounds[i], prefer, now)
    decreases |rounds|
  {
    if rounds != [] {
      hide Candidates, AttemptsOf, TriesOf;
      var n := |rounds| - 1;
      var init := AllAttempts(rounds[..n], prefer, now);
      TriesInOrder(rounds[..n], prefer, now, i);
      SameBefore(rounds, n, n);
      if i < n {
        SameBefore(rounds, n, i);
        TriesExtend(init, AttemptsOf(rounds[n], prefer, now), TriesBefore(rounds, i), rounds[i], prefer, now);
      } else if i == n {
        TriesLast(init, rounds[n], prefer, now);
      }
    }
  }

  lemma {:induction false} SameBefore(rounds: seq<Round>, n: nat, i: nat)
    requires i <= n <= |rounds|
    ensures TriesBefore(rounds[..n], i) == TriesBefore(rounds, i)
  {
    if i > 0 {
      SameBefore(rounds, n, i - 1);
    }
  }

  class Worker {
    const instance: Inst
    const slotTtl: real
    const leaseTtl: real
    const leaseMargin: real
    var name: Option<Name>
    var slot: Option<Slot>
    var epochs: map<Unit, nat>
    var leases: map<Unit, LeaseState>

    constructor (instance: Inst, slotTtl: real, leaseTtl: real, leaseMargin: real)
      ensures this.instance == instance && this.slotTtl == slotTtl
      ensures this.leaseTtl == leaseTtl && this.leaseMargin == leaseMargin
      ensures name == None && slot == None && epochs == map[] && leases == map[]
    {
      this.instance, this.slotTtl, this.leaseTtl, this.leaseMargin := instance, slotTtl, leaseTtl, leaseMargin;
      name, slot, epochs, leases := None, None, map[], map[];
    }

    /** This process's hold on a slot from `now` on, in whatever generation. */
    ghost predicate IsMine(n: Name, now: real)
      reads this
    {
      name == Some(n) && slot.Some? && slot == Some(Slot(instance, now + slotTtl, false, slot.value.gen))
    }

    /** `tries` is how many of all the candidates of all rounds were tried. A
        name claimed was, at the moment of the write, in the state it was read
        in: claimable, unless preferred; the write is the next generation of
        that very row. Each try before it was refused; with no name all were,
        and nothing was written. */
    method ClaimSlot(vars: FakeVariables<Name, Slot>, prefer: Option<Name>, now: real, rounds: seq<Round>)
      returns (got: Option<Name>, ghost tries: nat)
      requires Valid(vars.State()) && WellMatched(rounds, prefer, now)
      modifies vars, this`name, this`slot
      ensures var all := AllAttempts(rounds, prefer, now);
              && (got.None? ==>
                    && tries == |all| && name == old(name) && slot == old(slot)
                    && NoneTaken(old(vars.State()), all, tries, vars.State(), prefer.Some?, now))
              && (got.Some? ==>
                    && (prefer.Some? ==> got == prefer) && IsMine(got.value, now)
                    && LastTaken(old(vars.State()), all, tries, vars.State(), got.value, slot.value, prefer.Some?, now))
    {
      ghost var s, all := vars.State(), AllAttempts(rounds, prefer, now);
      tries := 0;
      assert NoneTaken(s, all, 0, s, prefer.Some?, now);
      hide AllAttempts, Candidates, NoneTaken, LastTaken, Valid, TriesOf;
      for i := 0 to |rounds|
        invariant tries == TriesBefore(rounds, i) && name == old(name) && slot == old(slot)
        invariant NoneTaken(s, all, tries, vars.State(), prefer.Some?, now)
      {
        TriesInOrder(rounds, prefer, now, i);
        got, tries := ClaimRound(vars, prefer, now, rounds[i], s, all, tries);
        if got.Some? {
          return;
        }
      }
      TriesInOrder(rounds, prefer, now, |rounds|);
      got := None;
    }

    /** One round, after the first `from` tries since the store was `s`. */
    method ClaimRound(vars: FakeVariables<Name, Slot>, prefer: Option<Name>, now: real, round: Round,
            ghost s: Store<Name, Slot>, ghost all: seq<Attempt>, ghost from: nat)
      returns (got: Option<Name>, ghost tries: nat)
      requires TriesOf(all, from, round, prefer, now)
      requires Valid(s) && NoneTaken(s, all, from, vars.State(), prefer.Some?, now)
      modifies vars, this`name, this`slot
      ensures got.None? ==>
                && tries == from + |round.gaps| && name == old(name) && slot == old(slot)
                && NoneTaken(s, all, tries, vars.State(), prefer.Some?, now)
      ensures got.Some? ==>
                && (prefer.Some? ==> got == prefer) && IsMine(got.value, now)
                && LastTaken(s, all, tries, vars.State(), got.value, slot.value, prefer.Some?, now)
    {
      var candidates := Candidates(round.known, prefer, now);
      PreferredOnly(round.known, prefer, now);
      hide Candidates, NoneTaken, LastTaken, Takes, Valid, Refused;
      tries := from;
      for j := 0 to |candidates|
        invariant tries == from + j && name == old(name) && slot == old(slot)
        invariant NoneTaken(s, all, tries, vars.State(), prefer.Some?, now)
      {
        ghost var at, a := vars.State(), all[from + j];
        StaysValid(s, all, tries, at, prefer.Some?, now);
        got := TryClaim(vars, candidates[j], prefer.Some?, now, round.gaps[j]);
        if got.Some? {
          OneMoreTaken(s, all, tries, at, a, vars.State(), slot.value, prefer.Some?, now);
          tries := tries + 1;
          return;
        }
        OneMoreRefused(s, all, tries, at, a, prefer.Some?, now);
        tries := tries + 1;
      }
      got := None;
    }

    /** One try: a read, and a write of what was read as this instance's next
        generation, with the other clients acting before and between. */
    method TryClaim(vars: FakeVariables<Name, Slot>, cand: Name, preferred: bool, now: real, gap: Gap)
      returns (got: Option<Name>)
      requires Valid(vars.State())
      modifies vars, this`name, this`slot
      ensures got.None? <==> Refused(old(vars.State()), Attempt(cand, gap), preferred, now)
      ensures got.None? ==>
                vars.State() == ApplyAll(old(vars.State()), gap.before + gap.between)
                && name == old(name) && slot == old(slot)
      ensures got.Some? ==>
                && got == Some(cand) && IsMine(cand, now)
                && Takes(ApplyAll(old(vars.State()), gap.before + gap.between), vars.State(), cand, slot.value,
                         preferred, now)
    {
      hide Claimable;
      ApplyAllConcat(vars.State(), gap.before, gap.between);
      ApplyAllValid(vars.State(), gap.before);
      vars.Others(gap.before);
      ghost var atRead := vars.State();
      var items, idx := vars.Get(cand);
      var cur := if items.Some? then items.value else Unclaimed;
      vars.Others(gap.between);
      if !preferred && !Claimable(cur, now) {
        return None;
      }
      var s := Slot(instance, now + slotTtl, false, cur.gen + 1);
      AcceptedUnchanged(atRead, gap.between, cand);
      var index := vars.PutItems(cand, s, Some(idx));
      if index.None? {
        return None;
      }
      slot, name := Some(s), Some(cand);
      got := Some(cand);
    }

    /** True exactly when the slot was still this instance's when read and
        nobody wrote the row before the write; the generation stays. */
    method RenewSlot(vars: FakeVariables<Name, Slot>, wall: real, between: seq<Op<Name, Slot>>) returns (ok: bool)
      requires Valid(vars.State()) && (slot.Some? ==> name.Some?)
      modifies vars, this`slot
      ensures slot.None? <==> old(slot).None?
      ensures old(slot).None? ==> ok && vars.State() == old(vars.State())
      ensures old(slot).Some? ==>
                var atRead, before := old(vars.State()), ApplyAll(old(vars.State()), between);
                var n := name.value;
                && (SlotIn(atRead, n).holder != instance ==> !ok && vars.State() == atRead && slot == old(slot))
                && (SlotIn(atRead, n).holder == instance ==>
                      && (ok <==> Accepts(before, n, Some(Index(atRead, n))))
                      && (!ok ==> vars.State() == before && slot == old(slot))
                      && (ok ==>
                            && SlotIn(before, n).holder == instance
                            && slot == Some(Slot(instance, wall + slotTtl, false, SlotIn(before, n).gen))
                            && vars.State() == PutRow(before, n, slot.value)))
    {
      if slot.None? {
        return true;
      }
      ghost var atRead := vars.State();
      var items, idx := vars.Get(name.value);
      var cur := if items.Some? then items.value else Unclaimed;
      if cur.holder != instance {
        return false;
      }
      var s := Slot(instance, wall + slotTtl, false, cur.gen);
      vars.Others(between);
      AcceptedUnchanged(atRead, between, name.value);
      var index := vars.PutItems(name.value, s, Some(idx));
      if index.Some? {
        slot := Some(s);
      }
      ok := index.Some?;
    }

    /** An orderly stop: the row says `released`, if it was still this
        instance's to say. A slot somebody else holds is left alone. */
    method ReleaseSlot(vars: FakeVariables<Name, Slot>, wall: real, between: seq<Op<Name, Slot>>)
      requires Valid(vars.State()) && (slot.Some? ==> name.Some?)
      modifies vars, this`slot
      ensures slot == None
      ensures old(slot).None? ==> vars.State() == old(vars.State())
      ensures old(slot).Some? ==>
                var atRead, before := old(vars.State()), ApplyAll(old(vars.State()), between);
                var n := name.value;
                vars.State() ==
                  if SlotIn(atRead, n).holder != instance then atRead
                  else if !Accepts(before, n, Some(Index(atRead, n))) then before
                  else PutRow(before, n, Slot(instance, wall, true, SlotIn(before, n).gen))
    {
      if slot.None? {
        return;
      }
      ghost var atRead := vars.State();
      var items, idx := vars.Get(name.value);
      var cur := if items.Some? then items.value else Unclaimed;
      if cur.holder == instance {
        vars.Others(between);
        AcceptedUnchanged(atRead, between, name.value);
        var _ := vars.PutItems(name.value, Slot(instance, wall, true, cur.gen), Some(idx));
      }
      slot := None;
    }

    /** A new epoch for a new writer, and a lease on it, stamped afterwards. */
    method TakeEpoch(vars: FakeVariables<Unit, nat>, unit: Unit, others: seq<seq<Op<Unit, nat>>>, stamp: real)
      returns (e: Option<nat>, ghost tries: nat)
      requires Valid(vars.State())
      modifies vars, this`epochs, this`leases
      ensures tries <= |others| && (if e.Some? then tries > 0 else tries == |others|)
      ensures AllOvertaken(old(vars.State()), others, unit, if e.Some? then tries - 1 else tries)
      ensures e.None? ==> epochs == old(epochs) && leases == old(leases)
                          && vars.State() == ApplyAll(old(vars.State()), Flatten(others))
      ensures e.Some? ==>
                var before := ApplyAll(old(vars.State()), Flatten(others[..tries]));
                && e.value == Current(before, unit) + 1
                && vars.State() == PutRow(before, unit, e.value)
                && epochs == old(epochs)[unit := e.value]
                && leases == old(leases)[unit := NewLease(e.value, leaseTtl, leaseMargin, stamp)]
    {
      var r;
      r, tries := NextEpoch(vars, unit, others);
      if r.None? {
        return None, tries;
      }
      epochs := epochs[unit := r.value.0];
      leases := leases[unit := NewLease(r.value.0, leaseTtl, leaseMargin, stamp)];
      e := Some(r.value.0);
    }
  }

  lemma ApplyAllValid(s: Store<Name, Slot>, ops: seq<Op<Name, Slot>>)
    requires Valid(s)
    ensures Valid(ApplyAll(s, ops))
  {
    RunKeepsValid(s, ops);
  }

  /** A write that is accepted finds the slot as it was read. */
  lemma AcceptedUnchanged(atRead: Store<Name, Slot>, ops: seq<Op<Name, Slot>>, n: Name)
    requires Valid(atRead)
    ensures Accepts(ApplyAll(atRead, ops), n, Some(Index(atRead, n))) ==>
        SlotIn(ApplyAll(atRead, ops), n) == SlotIn(atRead, n)
  {
    CasAcceptedExactlyWhen(atRead, ops, n);
    TouchedMovesIndex(atRead, ops, n);
  }

  /** `retire`: marks a slot released, keeping its holder and generation. */
  function Retiring(): Option<Slot> -> Option<Slot> {
    (items: Option<Slot>) =>
      var s := if items.Some? then items.value else Unclaimed;
      if s.released then None else Some(s.(released := true))
  }

  method RetireSlot(vars: FakeVariables<Name, Slot>, n: Name, others: seq<seq<Op<Name, Slot>>>)
    returns (r: Outcome<Slot>, ghost tries: nat)
    requires Valid(vars.State())
    modifies vars
    ensures tries <= |others|
    ensures r.GaveUp? ==> tries == |others| && AllOvertaken(old(vars.State()), others, n, tries)
    ensures var before := ApplyAll(old(vars.State()), Flatten(others[..tries]));
            && (!r.Wrote? ==> vars.State() == before)
            && (r.Wrote? ==> !SlotIn(before, n).released
                             && vars.State() == PutRow(before, n, SlotIn(before, n).(released := true)))
            && (!r.GaveUp? ==> SlotIn(vars.State(), n) == SlotIn(before, n).(released := true))
  {
    r, tries := Write(vars, n, Retiring(), others);
  }
}
