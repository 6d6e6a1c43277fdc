/** A set of integers as an increasing list. */
module SortedSets {
  predicate Increasing(xs: seq<int>) {
    forall i, j :: 0 <= i < j < |xs| ==> xs[i] < xs[j]
  }

  predicate IsMin(m: int, s: set<int>) {
    m in s && forall x :: x in s ==> m <= x
  }

  lemma HasElement(s: set<int>)
    requires s != {}
    ensures exists x :: x in s
  {
    assert (forall x :: x !in s) ==> s == {};
  }

  lemma {:induction false} MinExists(s: set<int>)
    requires s != {}
    ensures exists m :: IsMin(m, s)
    decreases |s|
  {
    HasElement(s);
    var m :| m in s;
    if s == {m} {
      assert IsMin(m, s);
    } else {
      MinExists(s - {m});
      var n :| IsMin(n, s - {m});
      var k := if m <= n then m else n;
      forall x | x in s
        ensures k <= x
      {
        assert x == m || x in s - {m};
      }
      assert IsMin(k, s);
    }
  }

  function SortedInts(s: set<int>): seq<int>
    decreases |s|
  {
    if s == {} then []
    else
      MinExists(s);
      var m :| m in s && IsMin(m, s);
      [m] + SortedInts(s - {m})
  }

  lemma SortedStartsWithMin(s: set<int>)
    requires s != {}
    ensures SortedInts(s) != [] && IsMin(SortedInts(s)[0], s)
    ensures SortedInts(s)[1..] == SortedInts(s - {SortedInts(s)[0]})
  {
  }

  lemma {:induction false} SortedIntsMembers(s: set<int>)
    ensures forall x :: x in SortedInts(s) <==> x in s
    ensures |SortedInts(s)| == |s|
    decreases |s|
  {
    if s != {} {
      SortedStartsWithMin(s);
      var all := SortedInts(s);
      SortedIntsMembers(s - {all[0]});
      assert all == [all[0]] + all[1..];
    }
  }

  lemma {:induction false} SortedIntsIncrease(s: set<int>)
    ensures Increasing(SortedInts(s))
    decreases |s|
  {
    hide Increasing;
    if s == {} {
      assert Increasing([]) by { NothingIncreases(); }
    } else {
      SortedStartsWithMin(s);
      var m, rest := SortedInts(s)[0], SortedInts(s)[1..];
      SortedIntsIncrease(s - {m});
      SortedIntsMembers(s - {m});
      assert SortedInts(s) == [m] + rest;
      forall k | 0 <= k < |rest|
        ensures m < rest[k]
      {
        assert rest[k] in SortedInts(s - {m});
      }
      PrependIncreasing(m, rest);
    }
  }

  lemma NothingIncreases()
    ensures Increasing([])
  {
  }

  lemma PrependIncreasing(m: int, rest: seq<int>)
    requires Increasing(rest) && forall k :: 0 <= k < |rest| ==> m < rest[k]
    ensures Increasing([m] + rest)
  {
  }

  function UpTo(s: set<int>, limit: int): set<int> {
    set x | x in s && x <= limit
  }

  // The sorted list of the elements up to a limit starts the sorted list of all.
  lemma {:induction false} SortedPrefix(s: set<int>, limit: int)
    ensures SortedInts(UpTo(s, limit)) <= SortedInts(s)
    ensures forall i :: |SortedInts(UpTo(s, limit))| <= i < |SortedInts(s)| ==> SortedInts(s)[i] > limit
    decreases |s|
  {
    if s != {} {
      SortedStartsWithMin(s);
      var m, rest := SortedInts(s)[0], SortedInts(s)[1..];
      assert SortedInts(s) == [m] + rest;
      if m <= limit {
        SortedPrefix(s - {m}, limit);
        MinOfLow(s, m, limit);
      } else {
        assert UpTo(s, limit) == {};
        SortedIntsMembers(s);
        assert forall i :: 0 <= i < |SortedInts(s)| ==> SortedInts(s)[i] in SortedInts(s);
      }
    }
  }

  lemma MinOfLow(s: set<int>, m: int, limit: int)
    requires IsMin(m, s) && m <= limit
    ensures SortedInts(UpTo(s, limit)) == [m] + SortedInts(UpTo(s - {m}, limit))
  {
    var low := UpTo(s, limit);
    assert IsMin(m, low) && UpTo(s - {m}, limit) == low - {m};
    SortedStartsWithMin(low);
    assert SortedInts(low)[0] == m;
    assert SortedInts(low) == [m] + SortedInts(low)[1..];
  }
}
