/** Feature series: points appended in any order, sorted once, and looked up as of a moment by bisection. */
module SeriesLookup {
  import opened Options
  import opened StableSort

  datatype Point = Point(time: int, value: real)

  // A point with its place in the order of appending.
  type Place = Slot<Point>

  predicate SlotBefore(x: Place, y: Place) {
    x.value.time < y.value.time || (x.value.time == y.value.time && x.index <= y.index)
  }

  lemma SlotBeforeIsTotalPreorder()
    ensures TotalPreorder(SlotBefore)
  {
  }

  // The newest point known at a moment; of equally new ones the one appended last.
  function Newest(points: seq<Point>, origin: int): Option<Point> {
    if points == [] then None
    else
      var (rest, last) := (Newest(points[..|points| - 1], origin), points[|points| - 1]);
      if last.time <= origin && (rest.None? || rest.value.time <= last.time) then Some(last) else rest
  }

  function AsOf(points: seq<Point>, origin: int, maxAge: int): Option<(real, int)> {
    var newest := Newest(points, origin);
    if newest.None? || origin - newest.value.time > maxAge then None
    else Some((newest.value.value, origin - newest.value.time))
  }

  class Series {
    var points: seq<Point>
    ghost var appended: seq<Point>   // in the order of appending

    constructor ()
      ensures points == appended == []
    {
      points, appended := [], [];
    }

    ghost predicate Finalized()
      reads this
    {
      points == Ordered(appended)
    }

    method Append(p: Point)
      modifies this
      ensures points == old(points) + [p] && appended == old(appended) + [p]
    {
      points, appended := points + [p], appended + [p];
    }

    /** The same points, by time, and those of one time in the order they were appended in. */
    method Finalize()
      requires points == appended
      modifies this`points
      ensures Finalized()
      ensures |points| == |appended| && multiset(points) == multiset(appended)
      ensures forall i, j :: 0 <= i < j < |points| ==> points[i].time <= points[j].time
      ensures forall t :: AtTime(points, t) == AtTime(appended, t)
    {
      hide Ordered, AtTime;
      OrderedTimes(points);
      OrderedPoints(points);
      forall t: int
        ensures AtTime(Ordered(points), t) == AtTime(points, t)
      {
        OrderedKeepsTies(points, t);
      }
      points := Ordered(points);
    }

    /** The lookup by bisection is the newest point known at the moment, unless it is too old. */
    method LatestFromSeries(origin: int, maxAge: int) returns (r: Option<(real, int)>)
      requires Finalized()
      ensures r == AsOf(appended, origin, maxAge)
    {
      hide Newest, Ordered;
      OrderedTimes(appended);
      var low, high := 0, |points|;
      while low < high
        invariant 0 <= low <= high <= |points|
        invariant forall k :: 0 <= k < low ==> points[k].time <= origin
        invariant forall k :: high <= k < |points| ==> points[k].time > origin
      {
        var middle := (low + high) / 2;
        if origin < points[middle].time {
          high := middle;
        } else {
          low := middle + 1;
        }
      }
      NewestIsLast(appended, origin, low);
      r := None;
      if low > 0 {
        var age := origin - points[low - 1].time;
        if 0 <= age <= maxAge {
          r := Some((points[low - 1].value, age));
        }
      }
    }
  }

  // Sorted by time, then by order of appending.
  function Ordered(points: seq<Point>): seq<Point> {
    Values(Sort(Slots(points), SlotBefore))
  }

  lemma SortedSlots(points: seq<Point>)
    ensures var order := Sort(Slots(points), SlotBefore);
      Sorted(order, SlotBefore) && |order| == |points| && forall s :: s in order <==> s in Slots(points)
  {
    hide Sort, SlotBefore, TotalPreorder;
    SlotBeforeIsTotalPreorder();
    SortSorts(Slots(points), SlotBefore);
  }

  function AtTime(points: seq<Point>, t: int): seq<Point> {
    Filter(points, (p: Point) => p.time == t)
  }

  lemma OrderedPoints(points: seq<Point>)
    ensures multiset(Ordered(points)) == multiset(points)
  {
    hide Sort, SlotBefore, TotalPreorder;
    SlotBeforeIsTotalPreorder();
    SortSorts(Slots(points), SlotBefore);
    ValuesOfBag(Sort(Slots(points), SlotBefore), Slots(points));
    assert Values(Slots(points)) == points;
  }

  lemma {:induction false} FilterValues(slots: seq<Place>, t: int)
    ensures Values(Filter(slots, (s: Place) => s.value.time == t)) == AtTime(Values(slots), t)
  {
    if slots != [] {
      var front, last := slots[..|slots| - 1], slots[|slots| - 1];
      FilterValues(front, t);
      assert Values(slots) == Values(front) + [last.value];
      FilterAppend(Values(front), last.value, (p: Point) => p.time == t);
    }
  }

  lemma {:induction false} SlotsOfOneTime(points: seq<Point>, t: int, n: nat)
    requires n <= |points|
    ensures var same := Filter(Slots(points)[..n], (s: Place) => s.value.time == t);
      Sorted(same, SlotBefore) && forall s :: s in same ==> s.index < n && s.value.time == t
  {
    if n > 0 {
      SlotsOfOneTime(points, t, n - 1);
      assert Slots(points)[..n][..n - 1] == Slots(points)[..n - 1];
      var before := Filter(Slots(points)[..n - 1], (s: Place) => s.value.time == t);
      assert forall i :: 0 <= i < |before| ==> before[i] in before;
    }
  }

  lemma OrderedKeepsTies(points: seq<Point>, t: int)
    ensures AtTime(Ordered(points), t) == AtTime(points, t)
  {
    hide Sort, SlotBefore, TotalPreorder, Filter;
    var p := (s: Place) => s.value.time == t;
    SlotBeforeIsTotalPreorder();
    SortFilter(Slots(points), p, SlotBefore);
    SlotsOfOneTime(points, t, |points|);
    assert Slots(points)[..|points|] == Slots(points);
    SortIdentity(Filter(Slots(points), p), SlotBefore);
    FilterValues(Sort(Slots(points), SlotBefore), t);
    FilterValues(Slots(points), t);
    assert Values(Slots(points)) == points;
  }

  lemma OrderedTimes(points: seq<Point>)
    ensures |Ordered(points)| == |points|
    ensures forall i, j :: 0 <= i < j < |points| ==> Ordered(points)[i].time <= Ordered(points)[j].time
  {
    hide Sort;
    SortedSlots(points);
    var order := Sort(Slots(points), SlotBefore);
    forall i, j | 0 <= i < j < |points|
      ensures Ordered(points)[i].time <= Ordered(points)[j].time
    {
      assert SlotBefore(order[i], order[j]);
    }
  }

  // What the newest point is, by place.
  ghost predicate IsNewest(points: seq<Point>, origin: int, b: nat) {
    && b < |points| && points[b].time <= origin
    && forall k :: 0 <= k < |points| && points[k].time <= origin
        ==> points[k].time < points[b].time || (points[k].time == points[b].time && k <= b)
  }

  lemma {:induction false} NewestMeans(points: seq<Point>, origin: int)
    ensures Newest(points, origin).None? ==> forall k :: 0 <= k < |points| ==> points[k].time > origin
    ensures Newest(points, origin).Some? ==> exists b: nat :: IsNewest(points, origin, b) && points[b] == Newest(points, origin).value
  {
    if points != [] {
      var front, last := points[..|points| - 1], |points| - 1;
      NewestMeans(front, origin);
      assert forall k :: 0 <= k < last ==> points[k] == front[k];
      if Newest(front, origin).Some? {
        var b: nat :| IsNewest(front, origin, b) && front[b] == Newest(front, origin).value;
        var c := if points[last].time <= origin && front[b].time <= points[last].time then last else b;
        assert IsNewest(points, origin, c) && points[c] == Newest(points, origin).value;
      } else if points[last].time <= origin {
        assert IsNewest(points, origin, last) && points[last] == Newest(points, origin).value;
      }
    }
  }

  lemma NewestIsUnique(points: seq<Point>, origin: int, a: nat, b: nat)
    requires IsNewest(points, origin, a) && IsNewest(points, origin, b)
    ensures a == b
  {
  }

  // In the sorted series the newest known point stands last among the known ones.
  lemma NewestIsLast(points: seq<Point>, origin: int, n: nat)
    requires n <= |Ordered(points)|
    requires forall k :: 0 <= k < n ==> Ordered(points)[k].time <= origin
    requires forall k :: n <= k < |Ordered(points)| ==> Ordered(points)[k].time > origin
    ensures n == 0 <==> Newest(points, origin).None?
    ensures n > 0 ==> Newest(points, origin) == Some(Ordered(points)[n - 1])
  {
    hide Sort, Newest;
    SortedSlots(points);
    NewestMeans(points, origin);
    var order := Sort(Slots(points), SlotBefore);
    if n > 0 {
      var last := order[n - 1];
      assert last in Slots(points);
      assert IsNewest(points, origin, last.index) by {
        LastKnownIsNewest(points, origin, n);
      }
      if Newest(points, origin).Some? {
        var b: nat :| IsNewest(points, origin, b) && points[b] == Newest(points, origin).value;
        NewestIsUnique(points, origin, last.index, b);
      }
    } else {
      forall k | 0 <= k < |points|
        ensures points[k].time > origin
      {
        var s := Slots(points)[k];
        assert s in order;
        var a :| 0 <= a < |order| && order[a] == s;
        assert Ordered(points)[a] == s.value;
      }
    }
  }

  lemma LastKnownIsNewest(points: seq<Point>, origin: int, n: nat)
    requires 0 < n <= |Ordered(points)|
    requires forall k :: 0 <= k < n ==> Ordered(points)[k].time <= origin
    requires forall k :: n <= k < |Ordered(points)| ==> Ordered(points)[k].time > origin
    ensures |Sort(Slots(points), SlotBefore)| == |Ordered(points)|
    ensures IsNewest(points, origin, Sort(Slots(points), SlotBefore)[n - 1].index)
  {
    hide Sort;
    SortedSlots(points);
    var order := Sort(Slots(points), SlotBefore);
    var last := order[n - 1];
    assert last in Slots(points);
    assert Ordered(points)[n - 1] == last.value;
    forall k | 0 <= k < |points| && points[k].time <= origin
      ensures points[k].time < last.value.time || (points[k].time == last.value.time && k <= last.index)
    {
      var s := Slots(points)[k];
      assert s in order;
      var a :| 0 <= a < |order| && order[a] == s;
      assert Ordered(points)[a] == s.value;
      assert a < n - 1 ==> SlotBefore(order[a], order[n - 1]);
    }
  }

  /******* No look-ahead *******/

  function Known(points: seq<Point>, origin: int): seq<Point> {
    Filter(points, (p: Point) => p.time <= origin)
  }

  lemma {:induction false} NewestOfKnown(points: seq<Point>, origin: int)
    ensures Newest(points, origin) == Newest(Known(points, origin), origin)
    ensures forall p :: p in Known(points, origin) ==> p.time <= origin
  {
    if points != [] {
      var front, last := points[..|points| - 1], points[|points| - 1];
      NewestOfKnown(front, origin);
      var known := Known(front, origin);
      assert (known + [last])[..|known|] == known;
    }
  }

  /** A lookup sees only what was known at its moment: later points change nothing. */
  lemma LookupIsCausal(points: seq<Point>, others: seq<Point>, origin: int, maxAge: int)
    requires Known(points, origin) == Known(others, origin)
    ensures AsOf(points, origin, maxAge) == AsOf(others, origin, maxAge)
  {
    NewestOfKnown(points, origin);
    NewestOfKnown(others, origin);
  }
}
