/** Ranks with ties averaged, as rank correlations use them. */
module MidRanks {
  import opened StableSort
  import opened Counting

  // A value with its place in the array.
  type Place = Slot<real>

  predicate ValueBefore(x: Place, y: Place) { x.value <= y.value }

  // Any order that sorts the values; which of several equal ones comes first is left open.
  ghost predicate Orders(order: seq<Place>, values: seq<real>) {
    multiset(order) == multiset(Slots(values)) && Sorted(order, ValueBefore)
  }

  /******* The definition *******/

  // One more than the smaller values, plus half of the other equal ones.
  function MidRank(values: seq<real>, v: real): real {
    Below(values, v) as real + (Equal(values, v) as real + 1.0) / 2.0
  }

  /******* The loop *******/

  // A maximal run of equal values in a sorted order.
  ghost predicate IsTieGroup(order: seq<Place>, from: nat, end: nat) {
    && from < end <= |order|
    && (forall k :: from <= k < end ==> order[k].value == order[from].value)
    && (from > 0 ==> order[from - 1].value < order[from].value)
    && (end < |order| ==> order[end].value != order[from].value)
  }

  lemma {:induction false} PrefixCounts(order: seq<Place>, from: nat, end: nat, n: nat)
    requires Sorted(order, ValueBefore) && IsTieGroup(order, from, end) && n <= |order|
    ensures Below(Values(order)[..n], order[from].value) == if n <= from then n else from
    ensures Equal(Values(order)[..n], order[from].value) == if n <= from then 0 else if n <= end then n - from else end - from
  {
    hide IsTieGroup, Sorted, ValueBefore;
    GroupInOrder(order, from, end);
    if n > 0 {
      PrefixCounts(order, from, end, n - 1);
      var values := Values(order);
      assert values[..n][..n - 1] == values[..n - 1];
      InGroup(order, from, end, n - 1);
    }
  }

  lemma GroupInOrder(order: seq<Place>, from: nat, end: nat)
    requires IsTieGroup(order, from, end)
    ensures from < end <= |order|
  {
  }

  lemma InGroup(order: seq<Place>, from: nat, end: nat, k: nat)
    requires Sorted(order, ValueBefore) && IsTieGroup(order, from, end) && k < |order|
    ensures order[k].value < order[from].value <==> k < from
    ensures order[k].value == order[from].value <==> from <= k < end
  {
    if k < from - 1 {
      assert ValueBefore(order[k], order[from - 1]);
    } else if k >= end {
      assert ValueBefore(order[from], order[end]);
      assert k > end ==> ValueBefore(order[end], order[k]);
    }
  }

  // The average position of a tie group is the mid-rank of its value.
  lemma GroupRank(values: seq<real>, order: seq<Place>, from: nat, end: nat)
    requires Orders(order, values) && IsTieGroup(order, from, end)
    ensures MidRank(values, order[from].value) == (from + end - 1) as real / 2.0 + 1.0
  {
    hide Below, Equal;
    var v := order[from].value;
    PrefixCounts(order, from, end, |order|);
    assert Values(order)[..|order|] == Values(order);
    ValuesOfBag(order, Slots(values));
    assert Values(Slots(values)) == values;
    CountsOfBag(Values(order), values, v);
  }

  /** The ranks computed along any sorting order are the mid-ranks: how ties are ordered does not matter. */
  method RanksAlong(values: seq<real>, order: seq<Place>) returns (ranks: array<real>)
    requires Orders(order, values)
    ensures fresh(ranks) && ranks.Length == |values|
    ensures forall i :: 0 <= i < |values| ==> ranks[i] == MidRank(values, values[i])
  {
    hide Orders, MidRank, IsTieGroup, Sorted;
    OrderSlots(values, order);
    ranks := new real[|values|];
    var index := 0;
    while index < |values|
      invariant index <= |values| && StartsGroup(order, index)
      invariant forall k :: 0 <= k < index ==> ranks[order[k].index] == MidRank(values, order[k].value)
    {
      var end := index + 1;
      while end < |values| && order[end].value == order[index].value
        invariant index < end <= |values|
        invariant forall k :: index <= k < end ==> order[k].value == order[index].value
      {
        end := end + 1;
      }
      TieGroup(values, order, index, end);
      var rank := (index + end - 1) as real / 2.0 + 1.0;
      for k := index to end
        invariant forall j :: 0 <= j < k ==> ranks[order[j].index] == MidRank(values, order[j].value)
      {
        ranks[order[k].index] := rank;
      }
      index := end;
    }
    forall i | 0 <= i < |values|
      ensures ranks[i] == MidRank(values, values[i])
    {
      SlotInOrder(values, order, i);
    }
  }

  // The value before a position is smaller.
  ghost predicate StartsGroup(order: seq<Place>, index: nat) {
    0 < index < |order| ==> order[index - 1].value < order[index].value
  }

  lemma OrderSlots(values: seq<real>, order: seq<Place>)
    requires Orders(order, values)
    ensures |order| == |values|
    ensures forall k :: 0 <= k < |order| ==> order[k].index < |values| && order[k].value == values[order[k].index]
  {
    SameLength(order, Slots(values));
    forall k | 0 <= k < |order|
      ensures order[k].index < |values| && order[k].value == values[order[k].index]
    {
      assert order[k] in multiset(order);
      assert order[k] in Slots(values);
    }
  }

  lemma SlotInOrder(values: seq<real>, order: seq<Place>, i: nat)
    requires Orders(order, values) && i < |values|
    ensures exists k :: 0 <= k < |order| && order[k] == Slot(i, values[i])
  {
    assert Slots(values)[i] in multiset(order);
    assert Slot(i, values[i]) in order;
  }

  lemma TieGroup(values: seq<real>, order: seq<Place>, index: nat, end: nat)
    requires Orders(order, values) && index < end <= |order| && StartsGroup(order, index)
    requires forall k :: index <= k < end ==> order[k].value == order[index].value
    requires end < |order| ==> order[end].value != order[index].value
    ensures StartsGroup(order, end)
    ensures forall k :: index <= k < end ==> MidRank(values, order[k].value) == (index + end - 1) as real / 2.0 + 1.0
  {
    hide MidRank;
    assert end < |order| ==> ValueBefore(order[end - 1], order[end]);
    GroupRank(values, order, index, end);
  }

  method AverageRanks(values: seq<real>) returns (ranks: array<real>)
    ensures fresh(ranks) && ranks.Length == |values|
    ensures forall i :: 0 <= i < |values| ==> ranks[i] == MidRank(values, values[i])
  {
    hide MidRank, Sort, Sorted;
    StableOrder(values);
    ranks := RanksAlong(values, Sort(Slots(values), ValueBefore));
  }

  lemma StableOrder(values: seq<real>)
    ensures Orders(Sort(Slots(values), ValueBefore), values)
  {
    hide Sort;
    assert TotalPreorder(ValueBefore);
    SortSorts(Slots(values), ValueBefore);
  }

  /******* Properties of mid-ranks *******/

  // Everything up to a value lies below any larger one.
  lemma {:induction false} RanksFollowValues(values: seq<real>, a: real, b: real)
    requires a <= b
    ensures Below(values, a) + Equal(values, a) <= Below(values, b) + Equal(values, b)
    ensures a < b ==> Below(values, a) + Equal(values, a) <= Below(values, b)
  {
    if values != [] {
      RanksFollowValues(values[..|values| - 1], a, b);
    }
  }

  lemma {:induction false} EqualToItself(values: seq<real>, i: nat)
    requires i < |values|
    ensures Equal(values, values[i]) >= 1
  {
    if i < |values| - 1 {
      EqualToItself(values[..|values| - 1], i);
    }
  }

  /** Ranks order the values as they are: smaller below larger, equal at the same rank. */
  lemma RankOrder(values: seq<real>, i: nat, j: nat)
    requires i < |values| && j < |values|
    ensures MidRank(values, values[i]) < MidRank(values, values[j]) <==> values[i] < values[j]
    ensures MidRank(values, values[i]) == MidRank(values, values[j]) <==> values[i] == values[j]
  {
    hide Below, Equal;
    EqualToItself(values, i);
    EqualToItself(values, j);
    if values[i] < values[j] {
      RanksFollowValues(values, values[i], values[j]);
    } else if values[j] < values[i] {
      RanksFollowValues(values, values[j], values[i]);
    }
  }

  function RankSum(values: seq<real>, of: seq<real>): real {
    if of == [] then 0.0 else RankSum(values, of[..|of| - 1]) + MidRank(values, of[|of| - 1])
  }

  // A new value moves the ranks of the larger ones by one and of the equal ones by a half.
  lemma {:induction false} RankSumGrows(values: seq<real>, of: seq<real>, x: real)
    ensures RankSum(values + [x], of) == RankSum(values, of) + (|of| - Below(of, x)) as real - Equal(of, x) as real / 2.0
  {
    if of != [] {
      var v := of[|of| - 1];
      RankSumGrows(values, of[..|of| - 1], x);
      CountsAppend(values, x, v);
    }
  }

  /** The ranks of n values sum to n (n + 1) / 2, with or without ties. */
  lemma {:induction false} RanksSum(values: seq<real>)
    ensures RankSum(values, values) == (|values| * (|values| + 1)) as real / 2.0
  {
    if values != [] {
      var front, x := values[..|values| - 1], values[|values| - 1];
      assert values == front + [x];
      RanksSum(front);
      RankSumGrows(front, front, x);
      CountsAppend(front, x, x);
      var n := |front|;
      assert (n + 1) * (n + 2) == n * (n + 1) + 2 * (n + 1);
    }
  }

  /** Ranks are unchanged by reordering the array, value by value. */
  lemma RanksIgnoreOrder(values: seq<real>, others: seq<real>, v: real)
    requires multiset(values) == multiset(others)
    ensures MidRank(values, v) == MidRank(others, v)
  {
    CountsOfBag(values, others, v);
  }
}
