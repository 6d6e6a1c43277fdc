/**
 The continuous ranked probability score of a sample of draws, computed from the sorted draws, against
 its definition by pairwise distances; and the quantiles reported with it.  Arithmetic is exact.
 */
module Crps {
  import opened Reals
  import opened StableSort

  predicate AtMost(x: real, y: real) { x <= y }

  // A product, and the facts about it that the proofs need.
  function Times(c: real, x: real): real { c * x }

  lemma TimesAdds(c: real, x: real, y: real)
    ensures Times(c, x + y) == Times(c, x) + Times(c, y)
    ensures Times(c + 1.0, x) == Times(c, x) + x
    ensures Times(0.0, x) == 0.0
    ensures c >= 0.0 && x >= 0.0 ==> Times(c, x) >= 0.0
  {
  }

  // The sum of (2 i - m - 1) x_i, with i counted from one.
  function Weighted(xs: seq<real>, m: int): real {
    if xs == [] then 0.0
    else Weighted(xs[..|xs| - 1], m) + Times((2 * |xs| - m - 1) as real, xs[|xs| - 1])
  }

  // The summed distance of a sample from a point.
  function Distance(xs: seq<real>, y: real): real {
    if xs == [] then 0.0 else Distance(xs[..|xs| - 1], y) + AbsReal(xs[|xs| - 1] - y)
  }

  // The summed distance over all pairs of a draw from one sample and a draw from the other.
  function Pairs(xs: seq<real>, ys: seq<real>): real {
    if xs == [] then 0.0 else Pairs(xs[..|xs| - 1], ys) + Distance(ys, xs[|xs| - 1])
  }

  function Count(xs: seq<real>): real { |xs| as real }

  function Mean(total: real, xs: seq<real>): real
    requires xs != []
  {
    total / Count(xs)
  }

  function HalfPairwise(draws: seq<real>): real
    requires draws != []
  {
    Weighted(Sort(draws, AtMost), |draws|) / (Count(draws) * Count(draws))
  }

  function Score(draws: seq<real>, actual: real): real
    requires draws != []
  {
    Mean(Distance(draws, actual), draws) - HalfPairwise(draws)
  }

  /******* The sorted form is the pairwise form *******/

  lemma DistanceAppend(xs: seq<real>, x: real, y: real)
    ensures Distance(xs + [x], y) == Distance(xs, y) + AbsReal(x - y)
  {
    assert (xs + [x])[..|xs|] == xs;
  }

  lemma {:induction false} PairsAppendRight(xs: seq<real>, ys: seq<real>, y: real)
    ensures Pairs(xs, ys + [y]) == Pairs(xs, ys) + Distance(xs, y)
  {
    if xs != [] {
      PairsAppendRight(xs[..|xs| - 1], ys, y);
      DistanceAppend(ys, y, xs[|xs| - 1]);
    }
  }

  lemma PairsAppend(xs: seq<real>, x: real)
    ensures Pairs(xs + [x], xs + [x]) == Pairs(xs, xs) + 2.0 * Distance(xs, x)
  {
    var all := xs + [x];
    assert all[..|xs|] == xs;
    PairsAppendRight(xs, xs, x);
    DistanceAppend(xs, x, x);
  }

  lemma {:induction false} WeightedShift(xs: seq<real>, m: int)
    ensures Weighted(xs, m + 1) == Weighted(xs, m) - Sum(xs)
  {
    hide Times;
    if xs != [] {
      WeightedShift(xs[..|xs| - 1], m);
      var c := (2 * |xs| - m - 2) as real;
      assert (2 * |xs| - (m + 1) - 1) as real == c && (2 * |xs| - m - 1) as real == c + 1.0;
      TimesAdds(c, xs[|xs| - 1], 0.0);
    }
  }

  // Seen from a point beyond them all, distances need no absolute value.
  lemma {:induction false} DistanceFromAbove(xs: seq<real>, y: real)
    requires forall i :: 0 <= i < |xs| ==> xs[i] <= y
    ensures Distance(xs, y) == Times(Count(xs), y) - Sum(xs)
  {
    hide Times;
    TimesAdds(0.0, y, 0.0);
    if xs != [] {
      var front := xs[..|xs| - 1];
      DistanceFromAbove(front, y);
      assert Count(xs) == Count(front) + 1.0;
      TimesAdds(Count(front), y, 0.0);
    }
  }

  lemma SortedFront(xs: seq<real>)
    requires Sorted(xs, AtMost) && xs != []
    ensures Sorted(xs[..|xs| - 1], AtMost)
    ensures forall i :: 0 <= i < |xs| - 1 ==> xs[i] <= xs[|xs| - 1]
  {
    assert forall i :: 0 <= i < |xs| - 1 ==> AtMost(xs[i], xs[|xs| - 1]);
  }

  // One more draw above all others.
  lemma WeightedAppend(xs: seq<real>, y: real)
    ensures Weighted(xs + [y], |xs| + 1) == Weighted(xs, |xs|) - Sum(xs) + Times(Count(xs), y)
  {
    hide Times, Sum;
    assert (xs + [y])[..|xs|] == xs;
    WeightedShift(xs, |xs|);
    assert (2 * (|xs| + 1) - (|xs| + 1) - 1) as real == Count(xs);
  }

  lemma {:induction false} SortedPairs(xs: seq<real>)
    requires Sorted(xs, AtMost)
    ensures Pairs(xs, xs) == 2.0 * Weighted(xs, |xs|)
  {
    hide Sorted, AtMost, Count, Distance, Sum, Times;
    if xs != [] {
      var front, last := xs[..|xs| - 1], xs[|xs| - 1];
      assert xs == front + [last];
      SortedFront(xs);
      SortedPairs(front);
      PairsAppend(front, last);
      DistanceFromAbove(front, last);
      WeightedAppend(front, last);
      assert |front| + 1 == |xs|;
    }
  }

  /******* Sorting keeps every sum *******/

  lemma {:induction false} InsertKeepsDistance(xs: seq<real>, x: real, y: real)
    ensures Distance(Insert(xs, x, AtMost), y) == Distance(xs, y) + AbsReal(x - y)
  {
    if xs == [] || AtMost(xs[|xs| - 1], x) {
      DistanceAppend(xs, x, y);
    } else {
      InsertKeepsDistance(xs[..|xs| - 1], x, y);
      DistanceAppend(Insert(xs[..|xs| - 1], x, AtMost), xs[|xs| - 1], y);
    }
  }

  lemma {:induction false} InsertKeepsPairs(xs: seq<real>, x: real)
    ensures Pairs(Insert(xs, x, AtMost), Insert(xs, x, AtMost)) == Pairs(xs, xs) + 2.0 * Distance(xs, x)
  {
    if xs == [] || AtMost(xs[|xs| - 1], x) {
      PairsAppend(xs, x);
    } else {
      var front, last := xs[..|xs| - 1], xs[|xs| - 1];
      assert xs == front + [last];
      InsertKeepsPairs(front, x);
      InsertKeepsDistance(front, x, last);
      PairsAppend(Insert(front, x, AtMost), last);
      PairsAppend(front, last);
    }
  }

  lemma {:induction false} SortKeepsSums(xs: seq<real>, y: real)
    ensures Distance(Sort(xs, AtMost), y) == Distance(xs, y)
    ensures Pairs(Sort(xs, AtMost), Sort(xs, AtMost)) == Pairs(xs, xs)
  {
    if xs != [] {
      var front, last := xs[..|xs| - 1], xs[|xs| - 1];
      assert xs == front + [last];
      SortKeepsSums(front, y);
      SortKeepsSums(front, last);
      InsertKeepsDistance(Sort(front, AtMost), last, y);
      InsertKeepsPairs(Sort(front, AtMost), last);
      PairsAppend(front, last);
    }
  }

  lemma AtMostIsTotalPreorder()
    ensures TotalPreorder(AtMost)
  {
  }

  lemma SortSortsDraws(draws: seq<real>)
    ensures Sorted(Sort(draws, AtMost), AtMost) && |Sort(draws, AtMost)| == |draws|
    ensures multiset(Sort(draws, AtMost)) == multiset(draws)
  {
    hide TotalPreorder, Sorted, Sort, AtMost;
    AtMostIsTotalPreorder();
    SortSorts(draws, AtMost);
  }

  lemma HalfOver(p: real, w: real, n: real)
    requires p == 2.0 * w && n > 0.0
    ensures w / n == p / (2.0 * n)
  {
  }

  /** The coefficient sum over the sorted draws is half the mean distance of two draws. */
  lemma HalfPairwiseIsMeanPairDistance(draws: seq<real>)
    requires draws != []
    ensures HalfPairwise(draws) == Pairs(draws, draws) / (2.0 * (Count(draws) * Count(draws)))
  {
    hide Sort, Sorted, Weighted, Pairs, Distance, AtMost;
    var ordered := Sort(draws, AtMost);
    SortSortsDraws(draws);
    SortedPairs(ordered);
    SortKeepsSums(draws, 0.0);
    HalfOver(Pairs(draws, draws), Weighted(ordered, |draws|), Count(draws) * Count(draws));
  }

  /** The score is its definition: the mean error less half the mean distance of two draws. */
  lemma ScoreIsDefinition(draws: seq<real>, actual: real)
    requires draws != []
    ensures Score(draws, actual) ==
      Sum(Errors(draws, actual)) / Count(draws)
      - Sum(seq(|draws|, i requires 0 <= i < |draws| => Sum(Errors(draws, draws[i])))) / (2.0 * (Count(draws) * Count(draws)))
  {
    hide HalfPairwise, Pairs, Distance, Errors;
    HalfPairwiseIsMeanPairDistance(draws);
    DistanceIsSum(draws, actual);
    PairsIsSum(draws, draws);
  }

  function Errors(xs: seq<real>, y: real): seq<real> {
    seq(|xs|, i requires 0 <= i < |xs| => AbsReal(xs[i] - y))
  }

  lemma {:induction false} DistanceIsSum(xs: seq<real>, y: real)
    ensures Distance(xs, y) == Sum(Errors(xs, y))
  {
    if xs != [] {
      DistanceIsSum(xs[..|xs| - 1], y);
      assert Errors(xs, y)[..|xs| - 1] == Errors(xs[..|xs| - 1], y);
    }
  }

  lemma {:induction false} PairsIsSum(xs: seq<real>, ys: seq<real>)
    ensures Pairs(xs, ys) == Sum(seq(|xs|, i requires 0 <= i < |xs| => Sum(Errors(ys, xs[i]))))
  {
    hide Errors, Distance;
    if xs != [] {
      var front := xs[..|xs| - 1];
      PairsIsSum(front, ys);
      var (all, sums) := (seq(|xs|, i requires 0 <= i < |xs| => Sum(Errors(ys, xs[i]))),
                          seq(|front|, i requires 0 <= i < |front| => Sum(Errors(ys, front[i]))));
      assert all[..|front|] == sums;
      DistanceIsSum(ys, xs[|front|]);
    }
  }

  /******* Order of the draws *******/

  lemma {:induction false} SortedIsUnique(xs: seq<real>, ys: seq<real>)
    requires Sorted(xs, AtMost) && Sorted(ys, AtMost) && multiset(xs) == multiset(ys)
    ensures xs == ys
  {
    hide Sorted, AtMost;
    SameLength(xs, ys);
    if xs != [] {
      SameLast(xs, ys);
      SameFront(xs, ys);
      SortedFront(xs);
      SortedFront(ys);
      SortedIsUnique(xs[..|xs| - 1], ys[..|ys| - 1]);
      assert xs == xs[..|xs| - 1] + [xs[|xs| - 1]];
    }
  }

  lemma SameLast(xs: seq<real>, ys: seq<real>)
    requires Sorted(xs, AtMost) && Sorted(ys, AtMost) && multiset(xs) == multiset(ys) && xs != [] && ys != []
    ensures xs[|xs| - 1] == ys[|ys| - 1]
  {
    hide Sorted, AtMost;
    LastIsGreatest(xs, ys[|ys| - 1]);
    LastIsGreatest(ys, xs[|xs| - 1]);
  }

  lemma SameFront(xs: seq<real>, ys: seq<real>)
    requires multiset(xs) == multiset(ys) && xs != [] && ys != [] && xs[|xs| - 1] == ys[|ys| - 1]
    ensures multiset(xs[..|xs| - 1]) == multiset(ys[..|ys| - 1])
  {
    DropLast(xs);
    DropLast(ys);
  }

  lemma LastIsGreatest(xs: seq<real>, y: real)
    requires xs != [] && Sorted(xs, AtMost)
    ensures y in multiset(xs) ==> y <= xs[|xs| - 1]
    ensures xs[|xs| - 1] in multiset(xs)
  {
    if y in multiset(xs) {
      var i :| 0 <= i < |xs| && xs[i] == y;
      assert i < |xs| - 1 ==> AtMost(xs[i], xs[|xs| - 1]);
    }
  }

  lemma DropLast(xs: seq<real>)
    requires xs != []
    ensures multiset(xs[..|xs| - 1]) == multiset(xs) - multiset{xs[|xs| - 1]}
  {
    assert xs == xs[..|xs| - 1] + [xs[|xs| - 1]];
  }

  /** The score depends on the draws as a collection, not on their order. */
  lemma ScoreIgnoresOrder(draws: seq<real>, others: seq<real>, actual: real)
    requires draws != [] && multiset(draws) == multiset(others)
    ensures others != [] && Score(draws, actual) == Score(others, actual)
  {
    hide Sort, Sorted, Weighted, Pairs, Distance, AtMost;
    SameLength(draws, others);
    SameSort(draws, others);
    SortKeepsSums(draws, actual);
    SortKeepsSums(others, actual);
    assert Count(draws) == Count(others);
    assert HalfPairwise(draws) == HalfPairwise(others);
  }

  lemma SameSort(draws: seq<real>, others: seq<real>)
    requires multiset(draws) == multiset(others)
    ensures Sort(draws, AtMost) == Sort(others, AtMost)
  {
    hide Sort, Sorted, AtMost;
    SortSortsDraws(draws);
    SortSortsDraws(others);
    SortedIsUnique(Sort(draws, AtMost), Sort(others, AtMost));
  }

  /******* Sign *******/

  lemma {:induction false} DistanceTriangle(xs: seq<real>, y: real, a: real)
    ensures 0.0 <= Distance(xs, y) <= Distance(xs, a) + Times(Count(xs), AbsReal(y - a))
  {
    hide Times;
    TimesAdds(0.0, AbsReal(y - a), 0.0);
    if xs != [] {
      var front := xs[..|xs| - 1];
      DistanceTriangle(front, y, a);
      assert Count(xs) == Count(front) + 1.0;
      TimesAdds(Count(front), AbsReal(y - a), 0.0);
    }
  }

  // Pairs are at most as far apart as both are from a point, and a draw is at no distance from itself.
  lemma {:induction false} PairsTriangle(xs: seq<real>, a: real)
    ensures Pairs(xs, xs) <= 2.0 * Times(Count(xs) - 1.0, Distance(xs, a))
  {
    hide Times;
    if xs == [] {
      TimesIsZero(-1.0);
    } else {
      var front, last := xs[..|xs| - 1], xs[|xs| - 1];
      assert xs == front + [last];
      PairsTriangle(front, a);
      PairsAppend(front, last);
      DistanceTriangle(front, last, a);
      DistanceAppend(front, last, a);
      var n, d, e := Count(front), Distance(front, a), AbsReal(last - a);
      assert Count(xs) - 1.0 == n;
      TimesAdds(n - 1.0, d, 0.0);
      TimesAdds(n, d, e);
    }
  }

  lemma TimesIsZero(c: real)
    ensures Times(c, 0.0) == 0.0
  {
  }

  lemma {:induction false} DistanceZero(xs: seq<real>, a: real)
    ensures Distance(xs, a) >= 0.0
    ensures Distance(xs, a) == 0.0 <==> forall i :: 0 <= i < |xs| ==> xs[i] == a
  {
    if xs != [] {
      DistanceZero(xs[..|xs| - 1], a);
      assert forall i :: 0 <= i < |xs| - 1 ==> xs[i] == xs[..|xs| - 1][i];
    }
  }

  lemma ScoreArithmetic(p: real, d: real, n: real)
    requires n >= 1.0 && d >= 0.0 && p <= 2.0 * ((n - 1.0) * d)
    ensures d / n - p / (2.0 * (n * n)) >= d / (n * n)
  {
    var m := n * n;
    assert m > 0.0;
    assert p / (2.0 * m) <= ((n - 1.0) * d) / m by {
      assert p / (2.0 * m) * m == p / 2.0;
      assert ((n - 1.0) * d) / m * m == (n - 1.0) * d;
    }
    assert d / n == (n * d) / m by {
      assert (n * d) / m * m == n * d;
      assert d / n * m == d * n;
    }
    assert (n * d) / m - ((n - 1.0) * d) / m == d / m;
  }

  /** The score is never negative: it is at least the mean error over the number of draws. */
  lemma ScoreIsNotNegative(draws: seq<real>, actual: real)
    requires draws != []
    ensures Score(draws, actual) >= Distance(draws, actual) / (Count(draws) * Count(draws)) >= 0.0
  {
    hide HalfPairwise, Pairs, Distance;
    HalfPairwiseIsMeanPairDistance(draws);
    PairsTriangle(draws, actual);
    DistanceZero(draws, actual);
    assert Times(Count(draws) - 1.0, Distance(draws, actual)) == (Count(draws) - 1.0) * Distance(draws, actual);
    ScoreArithmetic(Pairs(draws, draws), Distance(draws, actual), Count(draws));
  }

  /** Only a sample that is all at the actual value scores zero. */
  lemma ScoreIsZeroIffExact(draws: seq<real>, actual: real)
    requires draws != []
    ensures Score(draws, actual) == 0.0 <==> forall i :: 0 <= i < |draws| ==> draws[i] == actual
  {
    hide Sort;
    ScoreIsNotNegative(draws, actual);
    DistanceZero(draws, actual);
    var d, m := Distance(draws, actual), Count(draws) * Count(draws);
    if d == 0.0 {
      AllEqualPairs(draws, actual);
      HalfPairwiseIsMeanPairDistance(draws);
    } else {
      Positive(d, m);
    }
  }

  lemma Positive(d: real, m: real)
    requires d > 0.0 && m > 0.0
    ensures d / m > 0.0
  {
  }

  lemma AllEqualPairs(xs: seq<real>, a: real)
    requires Distance(xs, a) == 0.0
    ensures Pairs(xs, xs) == 0.0
  {
    PairsTriangle(xs, a);
    PairsNotNegative(xs, xs);
  }

  lemma {:induction false} PairsNotNegative(xs: seq<real>, ys: seq<real>)
    ensures Pairs(xs, ys) >= 0.0
  {
    if xs != [] {
      PairsNotNegative(xs[..|xs| - 1], ys);
      DistanceTriangle(ys, xs[|xs| - 1], 0.0);
    }
  }

  /******* Quantiles *******/

  // The point a part t of the way from a to b.
  function Blend(a: real, b: real, t: real): real {
    a + t * (b - a)
  }

  lemma BlendIncreases(a: real, b: real, t: real, u: real)
    requires a <= b && 0.0 <= t <= u <= 1.0
    ensures a <= Blend(a, b, t) <= Blend(a, b, u) <= b
  {
    var gap := b - a;
    assert 0.0 <= t * gap && 0.0 <= (u - t) * gap && 0.0 <= (1.0 - u) * gap;
    assert u * gap == t * gap + (u - t) * gap;
    assert gap == u * gap + (1.0 - u) * gap;
  }

  // The value at a position between two neighbours of a sorted sample.
  function Between(ordered: seq<real>, position: real): real
    requires 0.0 <= position && position.Floor < |ordered|
  {
    var low := position.Floor;
    Blend(ordered[low], ordered[if low + 1 < |ordered| then low + 1 else low], position - low as real)
  }

  // The last index of a sample of n, as a number.
  function LastIndex(n: nat): real { n as real - 1.0 }

  function Position(n: nat, p: real): (h: real)
    requires n > 0 && 0.0 <= p <= 1.0
    ensures 0.0 <= h && h.Floor < n
  {
    ScaleInRange(LastIndex(n), p);
    Times(p, LastIndex(n))
  }

  lemma ScaleInRange(scale: real, p: real)
    requires scale >= 0.0 && 0.0 <= p <= 1.0
    ensures 0.0 <= Times(p, scale) <= scale
  {
    TimesAdds(p, scale, 0.0);
    TimesAdds(1.0 - p, scale, 0.0);
    assert Times(1.0 - p, scale) == scale - Times(p, scale);
  }

  lemma PositionIncreases(n: nat, p: real, q: real)
    requires n > 0 && 0.0 <= p <= q <= 1.0
    ensures Position(n, p) <= Position(n, q)
  {
    ScaleIncreases(LastIndex(n), p, q);
  }

  lemma ScaleIncreases(scale: real, p: real, q: real)
    requires scale >= 0.0 && p <= q
    ensures Times(p, scale) <= Times(q, scale)
  {
    TimesAdds(q - p, scale, 0.0);
    assert Times(q - p, scale) == Times(q, scale) - Times(p, scale);
  }

  // The quantile by linear interpolation between order statistics.
  function Quantile(draws: seq<real>, p: real): real
    requires draws != [] && 0.0 <= p <= 1.0
  {
    var ordered := Sort(draws, AtMost);
    SortSortsDraws(draws);
    Between(ordered, Position(|ordered|, p))
  }

  lemma SortedAt(ordered: seq<real>, i: nat, j: nat)
    requires Sorted(ordered, AtMost) && i <= j < |ordered|
    ensures ordered[i] <= ordered[j]
  {
    assert i < j ==> AtMost(ordered[i], ordered[j]);
  }

  lemma BetweenIncreases(ordered: seq<real>, from: real, onto: real)
    requires Sorted(ordered, AtMost) && 0.0 <= from <= onto && onto.Floor < |ordered|
    ensures Between(ordered, from) <= Between(ordered, onto)
  {
    hide AtMost, Sorted, Blend;
    var a, b := from.Floor, onto.Floor;
    var a', b' := if a + 1 < |ordered| then a + 1 else a, if b + 1 < |ordered| then b + 1 else b;
    SortedAt(ordered, a, a');
    SortedAt(ordered, b, b');
    if a == b {
      BlendIncreases(ordered[a], ordered[a'], from - a as real, onto - a as real);
    } else {
      BlendIncreases(ordered[a], ordered[a'], from - a as real, from - a as real);
      BlendIncreases(ordered[b], ordered[b'], onto - b as real, onto - b as real);
      SortedAt(ordered, a', b);
    }
  }

  /** A quantile lies between the two order statistics around its position, as far from the lower as the position
      is from its index; at an index it is that order statistic. */
  lemma QuantileInterpolates(draws: seq<real>, ordered: seq<real>, p: real, k: nat)
    requires 0.0 <= p <= 1.0 && k < |draws| && multiset(ordered) == multiset(draws) && Sorted(ordered, AtMost)
    ensures |ordered| == |draws|
    ensures var h := Times(p, LastIndex(|draws|));
      && (h == k as real ==> Quantile(draws, p) == ordered[k])
      && (k + 1 < |draws| && k as real <= h <= (k + 1) as real ==>
            Quantile(draws, p) == Blend(ordered[k], ordered[k + 1], h - k as real))
  {
    hide Sort, Sorted, AtMost, Between, Blend, Times, LastIndex;
    SortSortsDraws(draws);
    SameLength(ordered, draws);
    SortedIsUnique(ordered, Sort(draws, AtMost));
    BetweenMeans(ordered, Position(|draws|, p), k);
  }

  lemma BetweenMeans(ordered: seq<real>, h: real, k: nat)
    requires k < |ordered| && 0.0 <= h && h.Floor < |ordered|
    ensures h == k as real ==> Between(ordered, h) == ordered[k]
    ensures k + 1 < |ordered| && k as real <= h <= (k + 1) as real ==>
      Between(ordered, h) == Blend(ordered[k], ordered[k + 1], h - k as real)
  {
    if h == h.Floor as real {
      BlendEnds(ordered[h.Floor], ordered[if h.Floor + 1 < |ordered| then h.Floor + 1 else h.Floor]);
    }
    if k + 1 < |ordered| {
      BlendEnds(ordered[k], ordered[k + 1]);
    }
  }

  lemma BlendEnds(a: real, b: real)
    ensures Blend(a, b, 0.0) == a && Blend(a, b, 1.0) == b
  {
  }

  /** Quantiles do not cross. */
  lemma QuantilesAreOrdered(draws: seq<real>, p: real, q: real)
    requires draws != [] && 0.0 <= p <= q <= 1.0
    ensures Quantile(draws, p) <= Quantile(draws, q)
  {
    hide Sort, Sorted, AtMost, Between, Position;
    SortSortsDraws(draws);
    PositionIncreases(|draws|, p, q);
    BetweenIncreases(Sort(draws, AtMost), Position(|draws|, p), Position(|draws|, q));
  }

  /** Quantiles do not depend on the order of the draws. */
  lemma QuantileIgnoresOrder(draws: seq<real>, others: seq<real>, p: real)
    requires draws != [] && 0.0 <= p <= 1.0 && multiset(draws) == multiset(others)
    ensures others != [] && Quantile(others, p) == Quantile(draws, p)
  {
    hide Sort, Sorted, AtMost, Between, Position;
    SameLength(draws, others);
    SameSort(draws, others);
  }
}
