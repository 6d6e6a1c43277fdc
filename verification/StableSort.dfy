/** A stable sort, as every sorted list of the repository is made. */
module StableSort {
  ghost predicate TotalPreorder<T(!new)>(le: (T, T) -> bool) {
    && (forall x, y :: le(x, y) || le(y, x))
    && (forall x, y, z :: le(x, y) && le(y, z) ==> le(x, z))
  }

  ghost predicate Sorted<T>(xs: seq<T>, le: (T, T) -> bool) {
    forall i, j :: 0 <= i < j < |xs| ==> le(xs[i], xs[j])
  }

  // x goes behind everything that does not sort strictly after it.
  function Insert<T>(xs: seq<T>, x: T, le: (T, T) -> bool): seq<T> {
    if xs == [] || le(xs[|xs| - 1], x) then xs + [x]
    else Insert(xs[..|xs| - 1], x, le) + [xs[|xs| - 1]]
  }

  function Sort<T>(xs: seq<T>, le: (T, T) -> bool): seq<T> {
    if xs == [] then [] else Insert(Sort(xs[..|xs| - 1], le), xs[|xs| - 1], le)
  }

  lemma {:induction false} InsertSorts<T(!new)>(xs: seq<T>, x: T, le: (T, T) -> bool)
    requires TotalPreorder(le) && Sorted(xs, le)
    ensures Sorted(Insert(xs, x, le), le)
    ensures multiset(Insert(xs, x, le)) == multiset(xs) + multiset{x}
    ensures forall y :: y in Insert(xs, x, le) <==> y == x || y in xs
  {
    if xs != [] {
      var front, last := xs[..|xs| - 1], xs[|xs| - 1];
      assert xs == front + [last];
      assert forall y :: y in front ==> le(y, last);
      if le(last, x) {
        assert forall y :: y in xs ==> le(y, x);
      } else {
        InsertSorts(front, x, le);
        assert forall y :: y in Insert(front, x, le) ==> le(y, last);
      }
    }
  }

  lemma {:induction false} SortSorts<T(!new)>(xs: seq<T>, le: (T, T) -> bool)
    requires TotalPreorder(le)
    ensures Sorted(Sort(xs, le), le) && |Sort(xs, le)| == |xs|
    ensures multiset(Sort(xs, le)) == multiset(xs)
    ensures forall y :: y in Sort(xs, le) <==> y in xs
  {
    if xs != [] {
      SortSorts(xs[..|xs| - 1], le);
      InsertSorts(Sort(xs[..|xs| - 1], le), xs[|xs| - 1], le);
      assert xs == xs[..|xs| - 1] + [xs[|xs| - 1]];
      assert |Sort(xs, le)| == |multiset(Sort(xs, le))|;
    }
  }

  // Those that sort neither before nor after the key.
  function Ties<T>(xs: seq<T>, key: T, le: (T, T) -> bool): seq<T> {
    if xs == [] then []
    else
      var (front, last) := (Ties(xs[..|xs| - 1], key, le), xs[|xs| - 1]);
      if le(last, key) && le(key, last) then front + [last] else front
  }

  lemma TiesAppend<T>(xs: seq<T>, x: T, key: T, le: (T, T) -> bool)
    ensures Ties(xs + [x], key, le) == if le(x, key) && le(key, x) then Ties(xs, key, le) + [x] else Ties(xs, key, le)
  {
    assert (xs + [x])[..|xs|] == xs;
  }

  lemma {:induction false} InsertKeepsTies<T(!new)>(xs: seq<T>, x: T, key: T, le: (T, T) -> bool)
    requires TotalPreorder(le)
    ensures Ties(Insert(xs, x, le), key, le) ==
      if le(x, key) && le(key, x) then Ties(xs, key, le) + [x] else Ties(xs, key, le)
  {
    if xs == [] || le(xs[|xs| - 1], x) {
      TiesAppend(xs, x, key, le);
    } else {
      var front, last := xs[..|xs| - 1], xs[|xs| - 1];
      InsertKeepsTies(front, x, key, le);
      TiesAppend(Insert(front, x, le), last, key, le);
    }
  }

  /** Elements that tie keep their input order. */
  lemma {:induction false} SortIsStable<T(!new)>(xs: seq<T>, key: T, le: (T, T) -> bool)
    requires TotalPreorder(le)
    ensures Ties(Sort(xs, le), key, le) == Ties(xs, key, le)
  {
    if xs != [] {
      SortIsStable(xs[..|xs| - 1], key, le);
      InsertKeepsTies(Sort(xs[..|xs| - 1], le), xs[|xs| - 1], key, le);
    }
  }

  /** A sorted sequence stays as it is. */
  lemma {:induction false} SortIdentity<T>(xs: seq<T>, le: (T, T) -> bool)
    requires Sorted(xs, le)
    ensures Sort(xs, le) == xs
  {
    if xs != [] {
      SortIdentity(xs[..|xs| - 1], le);
    }
  }

  /******* Filtering *******/

  function Filter<T>(xs: seq<T>, p: T -> bool): seq<T> {
    if xs == [] then []
    else
      var (rest, last) := (Filter(xs[..|xs| - 1], p), xs[|xs| - 1]);
      if p(last) then rest + [last] else rest
  }

  lemma FilterAppend<T>(xs: seq<T>, x: T, p: T -> bool)
    ensures Filter(xs + [x], p) == if p(x) then Filter(xs, p) + [x] else Filter(xs, p)
  {
    assert (xs + [x])[..|xs|] == xs;
  }

  lemma {:induction false} FilterHas<T>(xs: seq<T>, p: T -> bool, x: T)
    ensures x in Filter(xs, p) <==> x in xs && p(x)
  {
    if xs != [] {
      FilterHas(xs[..|xs| - 1], p, x);
      assert xs == xs[..|xs| - 1] + [xs[|xs| - 1]];
    }
  }

  lemma {:induction false} FiltersCommute<T>(xs: seq<T>, p: T -> bool, q: T -> bool)
    ensures Filter(Filter(xs, p), q) == Filter(Filter(xs, q), p)
  {
    if xs != [] {
      var front, last := xs[..|xs| - 1], xs[|xs| - 1];
      FiltersCommute(front, p, q);
      FilterAppend(Filter(front, p), last, q);
      FilterAppend(Filter(front, q), last, p);
    }
  }

  lemma InsertAtEnd<T>(xs: seq<T>, x: T, le: (T, T) -> bool)
    requires forall y :: y in xs ==> le(y, x)
    ensures Insert(xs, x, le) == xs + [x]
  {
    assert xs != [] ==> xs[|xs| - 1] in xs;
  }

  lemma InsertBeforeLast<T>(xs: seq<T>, last: T, x: T, le: (T, T) -> bool)
    requires !le(last, x)
    ensures Insert(xs + [last], x, le) == Insert(xs, x, le) + [last]
  {
    assert (xs + [last])[..|xs|] == xs;
  }

  lemma SortedFront<T>(xs: seq<T>, le: (T, T) -> bool)
    requires Sorted(xs, le) && xs != []
    ensures Sorted(xs[..|xs| - 1], le)
  {
  }

  lemma {:induction false} InsertFilter<T(!new)>(xs: seq<T>, x: T, p: T -> bool, le: (T, T) -> bool)
    requires TotalPreorder(le) && Sorted(xs, le)
    ensures Filter(Insert(xs, x, le), p) == if p(x) then Insert(Filter(xs, p), x, le) else Filter(xs, p)
  {
    hide TotalPreorder, Sorted, Filter, Insert;
    if xs == [] || le(xs[|xs| - 1], x) {
      AllBelowLast(xs, x, le);
      InsertAtEnd(xs, x, le);
      FilterAppend(xs, x, p);
      forall y | y in Filter(xs, p)
        ensures le(y, x)
      {
        FilterHas(xs, p, y);
      }
      InsertAtEnd(Filter(xs, p), x, le);
    } else {
      var front, last := xs[..|xs| - 1], xs[|xs| - 1];
      assert xs == front + [last];
      SortedFront(xs, le);
      InsertFilter(front, x, p, le);
      InsertBeforeLast(front, last, x, le);
      FilterAppend(Insert(front, x, le), last, p);
      FilterAppend(front, last, p);
      InsertBeforeLast(Filter(front, p), last, x, le);
    }
  }

  lemma AllBelowLast<T(!new)>(xs: seq<T>, x: T, le: (T, T) -> bool)
    requires TotalPreorder(le) && Sorted(xs, le) && (xs == [] || le(xs[|xs| - 1], x))
    ensures forall y :: y in xs ==> le(y, x)
  {
    forall y | y in xs
      ensures le(y, x)
    {
      var i :| 0 <= i < |xs| && xs[i] == y;
      assert i < |xs| - 1 ==> le(xs[i], xs[|xs| - 1]);
    }
  }

  /** Sorting and leaving out commute. */
  lemma {:induction false} SortFilter<T(!new)>(xs: seq<T>, p: T -> bool, le: (T, T) -> bool)
    requires TotalPreorder(le)
    ensures Sort(Filter(xs, p), le) == Filter(Sort(xs, le), p)
  {
    if xs != [] {
      var front, last := xs[..|xs| - 1], xs[|xs| - 1];
      SortFilter(front, p, le);
      SortSorts(front, le);
      InsertFilter(Sort(front, le), last, p, le);
      var kept := Filter(front, p);
      assert (kept + [last])[..|kept|] == kept;
    }
  }

  /******* Places *******/

  // An element with its place in a sequence.
  datatype Slot<T> = Slot(index: nat, value: T)

  function Slots<T>(xs: seq<T>): (slots: seq<Slot<T>>)
    ensures |slots| == |xs| && forall i :: 0 <= i < |xs| ==> slots[i] == Slot(i, xs[i])
  {
    seq(|xs|, i requires 0 <= i < |xs| => Slot(i, xs[i]))
  }

  function Values<T>(slots: seq<Slot<T>>): (values: seq<T>)
    ensures |values| == |slots| && forall i :: 0 <= i < |slots| ==> values[i] == slots[i].value
  {
    seq(|slots|, i requires 0 <= i < |slots| => slots[i].value)
  }

  lemma SameLength<T>(xs: seq<T>, ys: seq<T>)
    requires multiset(xs) == multiset(ys)
    ensures |xs| == |ys|
  {
    assert |xs| == |multiset(xs)| == |multiset(ys)| == |ys|;
  }

  // The last of one listing, found and left out of another listing of the same elements.
  lemma DropFromListing<T>(xs: seq<T>, ys: seq<T>) returns (k: nat)
    requires multiset(xs) == multiset(ys) && xs != []
    ensures k < |ys| && ys == ys[..k] + [xs[|xs| - 1]] + ys[k + 1..]
    ensures xs == xs[..|xs| - 1] + [xs[|xs| - 1]]
    ensures multiset(xs[..|xs| - 1]) == multiset(ys[..k] + ys[k + 1..])
  {
    var last := xs[|xs| - 1];
    assert xs == xs[..|xs| - 1] + [last];
    assert last in multiset(ys);
    k :| k < |ys| && ys[k] == last;
    assert ys == ys[..k] + [last] + ys[k + 1..];
    assert multiset(xs[..|xs| - 1]) == multiset(xs) - multiset{last};
    assert multiset(ys[..k] + ys[k + 1..]) == multiset(ys) - multiset{last};
  }

  lemma ValuesConcat<T>(a: seq<Slot<T>>, b: seq<Slot<T>>)
    ensures Values(a + b) == Values(a) + Values(b)
  {
  }

  lemma {:induction false} ValuesOfBag<T>(order: seq<Slot<T>>, slots: seq<Slot<T>>)
    requires multiset(order) == multiset(slots)
    ensures multiset(Values(order)) == multiset(Values(slots))
  {
    hide Values;
    SameLength(order, slots);
    if order != [] {
      var k := DropFromListing(order, slots);
      var front, last := order[..|order| - 1], order[|order| - 1];
      ValuesOfBag(front, slots[..k] + slots[k + 1..]);
      ValuesConcat(front, [last]);
      ValuesWithout(slots, k);
    }
  }

  lemma ValuesWithout<T>(slots: seq<Slot<T>>, k: nat)
    requires k < |slots|
    ensures multiset(Values(slots)) == multiset(Values(slots[..k] + slots[k + 1..])) + multiset(Values([slots[k]]))
  {
    hide Values;
    assert slots == (slots[..k] + [slots[k]]) + slots[k + 1..];
    ValuesConcat(slots[..k] + [slots[k]], slots[k + 1..]);
    ValuesConcat(slots[..k], [slots[k]]);
    ValuesConcat(slots[..k], slots[k + 1..]);
  }
}
