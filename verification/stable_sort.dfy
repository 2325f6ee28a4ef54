/** `sorted(xs, key=...)`, by a pair: stable. */
module StableSort {

  datatype Key = Key(major: real, minor: real)

  predicate Leq(a: Key, b: Key) {
    a.major < b.major || (a.major == b.major && a.minor <= b.minor)
  }

  /** Behind every element whose key is not greater. */
  function Insert<T>(s: seq<T>, x: T, key: T -> Key): seq<T> {
    if s == [] || Leq(key(s[|s| - 1]), key(x)) then s + [x]
    else Insert(s[..|s| - 1], x, key) + [s[|s| - 1]]
  }

  function Sorted<T>(s: seq<T>, key: T -> Key): seq<T> {
    if s == [] then [] else Insert(Sorted(s[..|s| - 1], key), s[|s| - 1], key)
  }

  ghost predicate Ordered<T>(s: seq<T>, key: T -> Key) {
    forall i, j :: 0 <= i < j < |s| ==> Leq(key(s[i]), key(s[j]))
  }

  function Filter<T>(s: seq<T>, p: T -> bool): seq<T> {
    if s == [] then []
    else if p(s[|s| - 1]) then Filter(s[..|s| - 1], p) + [s[|s| - 1]]
    else Filter(s[..|s| - 1], p)
  }

  lemma {:induction false} InsertAdds<T>(s: seq<T>, x: T, key: T -> Key)
    ensures multiset(Insert(s, x, key)) == multiset(s) + multiset{x}
  {
    if s != [] && !Leq(key(s[|s| - 1]), key(x)) {
      InsertAdds(s[..|s| - 1], x, key);
      assert s == s[..|s| - 1] + [s[|s| - 1]];
    }
  }

  lemma {:induction false} InsertKeepsOrder<T>(s: seq<T>, x: T, key: T -> Key)
    requires Ordered(s, key)
    ensures Ordered(Insert(s, x, key), key)
  {
    if s != [] && !Leq(key(s[|s| - 1]), key(x)) {
      var init, last := s[..|s| - 1], s[|s| - 1];
      InsertKeepsOrder(init, x, key);
      InsertAdds(init, x, key);
      var t := Insert(init, x, key);
      forall i | 0 <= i < |t| ensures Leq(key(t[i]), key(last)) {
        assert t[i] in multiset(t);
        if t[i] != x {
          assert t[i] in init;
          var j :| 0 <= j < |init| && init[j] == t[i];
          assert s[j] == t[i];
        }
      }
    }
  }

  lemma {:induction false} SortedSame<T>(s: seq<T>, key: T -> Key)
    ensures multiset(Sorted(s, key)) == multiset(s)
  {
    if s != [] {
      var init, last := s[..|s| - 1], s[|s| - 1];
      SortedSame(init, key);
      InsertAdds(Sorted(init, key), last, key);
      assert s == init + [last];
    }
  }

  lemma {:induction false} SortedOrdered<T>(s: seq<T>, key: T -> Key)
    ensures Ordered(Sorted(s, key), key)
  {
    if s != [] {
      SortedOrdered(s[..|s| - 1], key);
      InsertKeepsOrder(Sorted(s[..|s| - 1], key), s[|s| - 1], key);
    }
  }

  /** Sorting what is in order changes nothing. */
  lemma {:induction false} SortedFixed<T>(s: seq<T>, key: T -> Key)
    requires Ordered(s, key)
    ensures Sorted(s, key) == s
  {
    if s != [] {
      SortedFixed(s[..|s| - 1], key);
      assert s == s[..|s| - 1] + [s[|s| - 1]];
    }
  }

  lemma {:induction false} FilterAppend<T>(a: seq<T>, b: seq<T>, p: T -> bool)
    ensures Filter(a + b, p) == Filter(a, p) + Filter(b, p)
  {
    if b == [] {
      assert a + b == a;
    } else {
      assert (a + b)[..|a + b| - 1] == a + b[..|b| - 1];
      FilterAppend(a, b[..|b| - 1], p);
    }
  }

  lemma {:induction false} FilterIn<T>(s: seq<T>, p: T -> bool, x: T)
    ensures x in Filter(s, p) <==> x in s && p(x)
  {
    if s != [] {
      FilterIn(s[..|s| - 1], p, x);
      assert s == s[..|s| - 1] + [s[|s| - 1]];
    }
  }

  lemma {:induction false} FilterHolds<T>(s: seq<T>, p: T -> bool)
    ensures forall i :: 0 <= i < |Filter(s, p)| ==> p(Filter(s, p)[i])
  {
    if s != [] {
      FilterHolds(s[..|s| - 1], p);
    }
  }

  lemma {:induction false} FilterAll<T>(s: seq<T>, p: T -> bool)
    requires forall i :: 0 <= i < |s| ==> p(s[i])
    ensures Filter(s, p) == s
  {
    if s != [] {
      FilterAll(s[..|s| - 1], p);
      assert s == s[..|s| - 1] + [s[|s| - 1]];
    }
  }

  lemma {:induction false} FilterNone<T>(s: seq<T>, p: T -> bool)
    requires forall i :: 0 <= i < |s| ==> !p(s[i])
    ensures Filter(s, p) == []
  {
    if s != [] {
      FilterNone(s[..|s| - 1], p);
    }
  }

  lemma {:induction false} FilterCounts<T>(s: seq<T>, p: T -> bool, x: T)
    ensures multiset(Filter(s, p))[x] == if p(x) then multiset(s)[x] else 0
  {
    if s != [] {
      FilterCounts(s[..|s| - 1], p, x);
      assert s == s[..|s| - 1] + [s[|s| - 1]];
    }
  }

  // ----- one element at a time

  lemma FilterOne<T>(s: seq<T>, x: T, p: T -> bool)
    ensures Filter(s + [x], p) == if p(x) then Filter(s, p) + [x] else Filter(s, p)
  {
    assert (s + [x])[..|s|] == s;
  }

  lemma SortedOne<T>(s: seq<T>, x: T, key: T -> Key)
    ensures Sorted(s + [x], key) == Insert(Sorted(s, key), x, key)
  {
    assert (s + [x])[..|s|] == s;
  }

  lemma InsertOne<T>(s: seq<T>, last: T, x: T, key: T -> Key)
    ensures Insert(s + [last], x, key) ==
            if Leq(key(last), key(x)) then s + [last, x] else Insert(s, x, key) + [last]
  {
    assert (s + [last])[..|s|] == s;
    assert s + [last] + [x] == s + [last, x];
  }

  lemma InsertBehindAll<T>(s: seq<T>, x: T, key: T -> Key)
    requires forall y :: y in s ==> Leq(key(y), key(x))
    ensures Insert(s, x, key) == s + [x]
  {
    if s != [] {
      assert s[|s| - 1] in s;
    }
  }

  lemma FilterInsertBehind<T>(s: seq<T>, x: T, key: T -> Key, p: T -> bool)
    requires forall y :: y in s ==> Leq(key(y), key(x))
    ensures Filter(Insert(s, x, key), p) == if p(x) then Insert(Filter(s, p), x, key) else Filter(s, p)
  {
    InsertBehindAll(s, x, key);
    FilterOne(s, x, p);
    forall y | y in Filter(s, p) ensures Leq(key(y), key(x)) {
      FilterIn(s, p, y);
    }
    InsertBehindAll(Filter(s, p), x, key);
  }

  lemma FilterInsertBefore<T>(init: seq<T>, last: T, x: T, key: T -> Key, p: T -> bool)
    requires !Leq(key(last), key(x))
    requires Filter(Insert(init, x, key), p) == if p(x) then Insert(Filter(init, p), x, key) else Filter(init, p)
    ensures var s := init + [last];
            Filter(Insert(s, x, key), p) == if p(x) then Insert(Filter(s, p), x, key) else Filter(s, p)
  {
    InsertOne(init, last, x, key);
    FilterOne(Insert(init, x, key), last, p);
    FilterOne(init, last, p);
    InsertOne(Filter(init, p), last, x, key);
  }

  /** A stable sort and a filter commute. */
  lemma {:induction false} FilterInsert<T>(s: seq<T>, x: T, key: T -> Key, p: T -> bool)
    requires Ordered(s, key)
    ensures Filter(Insert(s, x, key), p) == if p(x) then Insert(Filter(s, p), x, key) else Filter(s, p)
  {
    hide Insert, Filter;
    if s == [] || Leq(key(s[|s| - 1]), key(x)) {
      forall y | y in s ensures Leq(key(y), key(x)) {
        var j :| 0 <= j < |s| && s[j] == y;
        assert j < |s| - 1 ==> Leq(key(s[j]), key(s[|s| - 1]));
      }
      FilterInsertBehind(s, x, key, p);
    } else {
      var init, last := s[..|s| - 1], s[|s| - 1];
      FilterInsert(init, x, key, p);
      FilterInsertBefore(init, last, x, key, p);
      assert s == init + [last];
    }
  }

  lemma {:induction false} FilterSorted<T>(s: seq<T>, key: T -> Key, p: T -> bool)
    ensures Filter(Sorted(s, key), p) == Sorted(Filter(s, p), key)
  {
    if s != [] {
      var init, last := s[..|s| - 1], s[|s| - 1];
      assert s == init + [last];
      FilterSorted(init, key, p);
      SortedOrdered(init, key);
      SortedOne(init, last, key);
      FilterInsert(Sorted(init, key), last, key, p);
      FilterOne(init, last, p);
      SortedOne(Filter(init, p), last, key);
    }
  }

  lemma SortedAppend<T>(a: seq<T>, b: seq<T>, x: T, key: T -> Key)
    ensures Sorted(a + (b + [x]), key) == Insert(Sorted(a + b, key), x, key)
  {
    SortedOne(a + b, x, key);
    assert (a + b) + [x] == a + (b + [x]);
  }

  lemma SortedPrefixStep<T>(a: seq<T>, sa: seq<T>, b: seq<T>, x: T, key: T -> Key)
    requires Sorted(sa + b, key) == Sorted(a + b, key)
    ensures Sorted(sa + (b + [x]), key) == Sorted(a + (b + [x]), key)
  {
    SortedAppend(a, b, x, key);
    SortedAppend(sa, b, x, key);
  }

  /** Sorting a prefix first does not change the answer. */
  lemma {:induction false} SortedPrefix<T>(a: seq<T>, b: seq<T>, key: T -> Key)
    ensures Sorted(Sorted(a, key) + b, key) == Sorted(a + b, key)
  {
    hide Sorted;
    if b == [] {
      SortedOrdered(a, key);
      SortedFixed(Sorted(a, key), key);
      assert a + b == a && Sorted(a, key) + b == Sorted(a, key);
    } else {
      var init, last := b[..|b| - 1], b[|b| - 1];
      SortedPrefix(a, init, key);
      SortedPrefixStep(a, Sorted(a, key), init, last, key);
      assert b == init + [last];
    }
  }
}
