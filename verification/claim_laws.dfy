/** Which slot a process without a preference may have, and in what order it
    tries them. */
module ClaimLaws {
  import opened Contract
  import opened Slots
  import opened StableSort
  import opened Variables

  /** Its holder's time is over, and nobody let go of it. */
  predicate RanOut(s: Slot, now: real) {
    s.holder != "" && !s.released && s.until < now
  }

  /** Those that ran out first, the longest ago leading; the rest by number. */
  predicate Before(a: Known, b: Known, now: real) {
    if RanOut(a.slot, now) != RanOut(b.slot, now) then RanOut(a.slot, now)
    else if RanOut(a.slot, now) then a.slot.until <= b.slot.until
    else SlotNumber(a.name) <= SlotNumber(b.name)
  }

  lemma ClaimableIs(s: Slot, now: real)
    ensures Claimable(s, now) <==> !Held(s, now)
    ensures Lapsed(s, now) <==> RanOut(s, now)
  {}

  /** Without a preference: the slots tried are exactly those that are nobody's,
      released ones whatever their time, each once, in this order; and after
      all of them a name that nobody has. */
  lemma CandidatesAre(known: seq<Known>, now: real) returns (order: seq<Known>)
    ensures var all := Candidates(known, None, now);
            && |all| == |order| + 1
            && (forall i :: 0 <= i < |order| ==> all[i] == order[i].name)
            && (forall k :: k in known ==> k.name != all[|order|])
    ensures forall k: Known :: multiset(order)[k] == if Held(k.slot, now) then 0 else multiset(known)[k]
    ensures forall i, j :: 0 <= i < j < |order| ==> Before(order[i], order[j], now)
  {
    var lapsed, free := Sorted(Filter(known, LapsedAt(now)), ByUntil), Sorted(Filter(known, FreeAt(now)), ByNumber);
    order := lapsed + free;
    assert Candidates(known, None, now) == NamesOf(lapsed) + NamesOf(free) + [NextName(NamesOf(known))];
    NamesOfAre(lapsed);
    NamesOfAre(free);
    NamesOfAre(known);
    NextNameIsUnused(NamesOf(known));
    hide NamesOf, NextName, Candidates;
    ClaimableAreOrdered(known, now);
    assert forall k :: k in known ==> k.name in NamesOf(known);
  }

  lemma ClaimableAreOrdered(known: seq<Known>, now: real)
    ensures var order := Sorted(Filter(known, LapsedAt(now)), ByUntil) + Sorted(Filter(known, FreeAt(now)), ByNumber);
            && (forall k: Known :: multiset(order)[k] == if Held(k.slot, now) then 0 else multiset(known)[k])
            && (forall i, j :: 0 <= i < j < |order| ==> Before(order[i], order[j], now))
  {
    var lapsed, free := Sorted(Filter(known, LapsedAt(now)), ByUntil), Sorted(Filter(known, FreeAt(now)), ByNumber);
    assert multiset(lapsed + free) == multiset(lapsed) + multiset(free);
    forall k: Known
      ensures multiset(lapsed)[k] + multiset(free)[k] == if Held(k.slot, now) then 0 else multiset(known)[k]
    {
      PartCounts(known, LapsedAt(now), ByUntil, k);
      PartCounts(known, FreeAt(now), ByNumber, k);
    }
    SortedOrdered(Filter(known, LapsedAt(now)), ByUntil);
    SortedOrdered(Filter(known, FreeAt(now)), ByNumber);
    PartHolds(known, LapsedAt(now), ByUntil);
    PartHolds(known, FreeAt(now), ByNumber);
    hide Sorted, Filter, SlotNumber;
    InTurn(lapsed, free, now);
  }

  lemma PartCounts(known: seq<Known>, p: Known -> bool, key: Known -> Key, k: Known)
    ensures multiset(Sorted(Filter(known, p), key))[k] == if p(k) then multiset(known)[k] else 0
  {
    SortedSame(Filter(known, p), key);
    FilterCounts(known, p, k);
  }

  lemma PartHolds(known: seq<Known>, p: Known -> bool, key: Known -> Key)
    ensures forall i :: 0 <= i < |Sorted(Filter(known, p), key)| ==> p(Sorted(Filter(known, p), key)[i])
  {
    var s := Sorted(Filter(known, p), key);
    SortedSame(Filter(known, p), key);
    hide Sorted;
    forall i | 0 <= i < |s| ensures p(s[i]) {
      assert s[i] in multiset(s);
      FilterIn(known, p, s[i]);
    }
  }

  lemma InTurn(lapsed: seq<Known>, free: seq<Known>, now: real)
    requires forall i :: 0 <= i < |lapsed| ==> RanOut(lapsed[i].slot, now)
    requires forall i :: 0 <= i < |free| ==> !RanOut(free[i].slot, now)
    requires Ordered(lapsed, ByUntil) && Ordered(free, ByNumber)
    ensures var order := lapsed + free; forall i, j :: 0 <= i < j < |order| ==> Before(order[i], order[j], now)
  {
    hide SlotNumber, RanOut;
    var order := lapsed + free;
    forall i, j | 0 <= i < j < |order| ensures Before(order[i], order[j], now) {
      if j < |lapsed| {
        assert Leq(ByUntil(lapsed[i]), ByUntil(lapsed[j]));
      } else if |lapsed| <= i {
        assert Leq(ByNumber(free[i - |lapsed|]), ByNumber(free[j - |lapsed|]));
      }
    }
  }

  /** A try fails exactly when the slot is somebody's at the read, unless it is
      preferred, or another client has written the row by the time of the
      write: and not by making and deleting it. */
  lemma RefusedExactlyWhen(s: Store<Name, Slot>, a: Attempt, preferred: bool, now: real)
    requires Valid(s)
    ensures var atRead := ApplyAll(s, a.gap.before);
            var atWrite := ApplyAll(atRead, a.gap.between);
            Refused(s, a, preferred, now) <==>
            || (!preferred && Held(SlotIn(atRead, a.cand), now))
            || (Touched(atRead, a.gap.between, a.cand) && (a.cand in atRead.rows || a.cand in atWrite.rows))
  {
    var atRead := ApplyAll(s, a.gap.before);
    ApplyAllValid(s, a.gap.before);
    CasAcceptedExactlyWhen(atRead, a.gap.between, a.cand);
    ClaimableIs(SlotIn(atRead, a.cand), now);
  }

  /** What is taken without a preference was nobody's at the write. */
  lemma TakenWasNobodys(s: Store<Name, Slot>, all: seq<Attempt>, k: nat, after: Store<Name, Slot>, n: Name, mine: Slot,
          now: real)
    requires LastTaken(s, all, k, after, n, mine, false, now)
    ensures var row := SlotIn(ApplyAll(s, Meanwhile(all[..k])), n);
            row.released || row.holder == "" || row.until < now
  {
    ClaimableIs(SlotIn(ApplyAll(s, Meanwhile(all[..k])), n), now);
  }

  /** A row that says released, as a retirement and a release leave it, is
      among the candidates whatever its time, and a try on it that nobody
      overtakes takes it. */
  lemma LetGoIsTaken(s: Store<Name, Slot>, known: seq<Known>, n: Name, now: real)
    requires Valid(s) && SlotIn(s, n).released && Known(n, SlotIn(s, n)) in known
    ensures exists i :: 0 <= i < |Candidates(known, None, now)| - 1 && Candidates(known, None, now)[i] == n
    ensures !Refused(s, Attempt(n, Gap([], [])), false, now)
  {
    var order := CandidatesAre(known, now);
    var k := Known(n, SlotIn(s, n));
    assert k in multiset(order);
    var i :| 0 <= i < |order| && order[i] == k;
    assert Candidates(known, None, now)[i] == n;
    RefusedExactlyWhen(s, Attempt(n, Gap([], [])), false, now);
  }

  /** A row written is read as written, and no other; a row that is not there
      reads as nobody's. */
  lemma WrittenSlotIsRead(s: Store<Name, Slot>, n: Name, v: Slot, m: Name)
    ensures SlotIn(PutRow(s, n, v), m) == if m == n then v else SlotIn(s, m)
    ensures m !in s.rows ==> forall now :: !Held(SlotIn(s, m), now)
  {}

  predicate RefusedAt(s: Store<Name, Slot>, tries: seq<Attempt>, i: nat, preferred: bool, now: real)
    requires i < |tries|
  {
    Refused(ApplyAll(s, Meanwhile(tries[..i])), tries[i], preferred, now)
  }

  lemma RefusedAtPrefix(s: Store<Name, Slot>, tries: seq<Attempt>, n: nat, i: nat, preferred: bool, now: real)
    requires i < n <= |tries|
    ensures RefusedAt(s, tries[..n], i, preferred, now) == RefusedAt(s, tries, i, preferred, now)
  {
    assert tries[..n][..i] == tries[..i];
    hide Refused, Meanwhile;
  }

  /** That all were refused says of each that it was, begun where those before
      it left the store. */
  lemma {:induction false} RefusedEach(s: Store<Name, Slot>, tries: seq<Attempt>, preferred: bool, now: real)
    ensures AllRefused(s, tries, preferred, now) <==>
            forall i :: 0 <= i < |tries| ==> RefusedAt(s, tries, i, preferred, now)
  {
    if tries != [] {
      var n := |tries| - 1;
      assert AllRefused(s, tries, preferred, now) <==>
             AllRefused(s, tries[..n], preferred, now) && RefusedAt(s, tries, n, preferred, now);
      hide *;
      RefusedEach(s, tries[..n], preferred, now);
      forall i | 0 <= i < n
        ensures RefusedAt(s, tries[..n], i, preferred, now) == RefusedAt(s, tries, i, preferred, now)
      {
        RefusedAtPrefix(s, tries, n, i, preferred, now);
      }
    }
  }
}
