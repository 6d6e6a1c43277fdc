/**
 The prequential conformal adjustment: each prediction interval is widened by an order statistic of how
 far earlier outcomes of the same method and horizon fell outside their own intervals.
 */
module Conformal {
  import opened Options
  import opened Reals
  import opened StableSort
  import opened Counting
  import opened Crps

  datatype Interval = Interval(lower: real, upper: real)

  datatype Key = Key(method_: nat, horizon: nat)

  datatype Row = Row(session: int, key: Key, raw: Option<Interval>, actual: real)

  // A row with its place in the list.
  type Place = Slot<Row>

  const ALPHA: real := 0.2
  const MINIMUM_SCORES: nat := 5

  /******* The order of the pass *******/

  // The sort key: session, then horizon, then method.
  predicate KeyBefore(x: Place, y: Place) {
    var (a, b) := (x.value, y.value);
    a.session < b.session || (a.session == b.session &&
      (a.key.horizon < b.key.horizon || (a.key.horizon == b.key.horizon && a.key.method_ <= b.key.method_)))
  }

  // The same, with ties in list order.
  predicate SlotBefore(x: Place, y: Place) {
    KeyBefore(x, y) && (KeyBefore(y, x) ==> x.index <= y.index)
  }

  ghost predicate IndexesIncrease(slots: seq<Place>) {
    forall i, j :: 0 <= i < j < |slots| ==> slots[i].index < slots[j].index
  }

  ghost predicate IndexesDistinct(slots: seq<Place>) {
    forall i, j :: 0 <= i < j < |slots| ==> slots[i].index != slots[j].index
  }

  lemma SlotOrders()
    ensures TotalPreorder(KeyBefore) && TotalPreorder(SlotBefore)
  {
  }

  lemma {:induction false} InsertByEither(slots: seq<Place>, x: Place)
    requires forall y :: y in slots ==> y.index < x.index
    ensures Insert(slots, x, KeyBefore) == Insert(slots, x, SlotBefore)
  {
    hide KeyBefore;
    if slots != [] {
      assert slots[|slots| - 1] in slots;
      InsertByEither(slots[..|slots| - 1], x);
    }
  }

  // A stable sort by the key is a sort by key and place.
  lemma {:induction false} StableSortByPlace(slots: seq<Place>)
    requires IndexesIncrease(slots)
    ensures Sort(slots, KeyBefore) == Sort(slots, SlotBefore)
  {
    hide KeyBefore, SlotBefore, TotalPreorder;
    if slots != [] {
      var front, last := slots[..|slots| - 1], slots[|slots| - 1];
      StableSortByPlace(front);
      SlotOrders();
      SortSorts(front, KeyBefore);
      assert forall y :: y in front ==> y.index < last.index;
      InsertByEither(Sort(front, KeyBefore), last);
    }
  }

  lemma {:induction false} InsertKeepsDistinct(slots: seq<Place>, x: Place)
    requires IndexesDistinct(slots) && forall i :: 0 <= i < |slots| ==> slots[i].index != x.index
    ensures var r := Insert(slots, x, SlotBefore);
      |r| == |slots| + 1 && IndexesDistinct(r) && forall y :: y in r <==> y in slots || y == x
  {
    hide SlotBefore;
    if slots != [] && !SlotBefore(slots[|slots| - 1], x) {
      var front, last := slots[..|slots| - 1], slots[|slots| - 1];
      InsertKeepsDistinct(front, x);
      assert slots == front + [last];
      var r := Insert(front, x, SlotBefore);
      assert forall i :: 0 <= i < |r| ==> r[i] in r;
      assert forall y :: y in front ==> y.index != last.index;
    }
  }

  lemma {:induction false} SortKeepsDistinct(slots: seq<Place>)
    requires IndexesDistinct(slots)
    ensures var r := Sort(slots, SlotBefore);
      |r| == |slots| && IndexesDistinct(r) && forall y :: y in r <==> y in slots
  {
    hide SlotBefore;
    if slots != [] {
      var front, last := slots[..|slots| - 1], slots[|slots| - 1];
      assert slots == front + [last];
      SortKeepsDistinct(front);
      var r := Sort(front, SlotBefore);
      forall i | 0 <= i < |r|
        ensures r[i].index != last.index
      {
        assert r[i] in front;
      }
      InsertKeepsDistinct(r, last);
    }
  }

  /******* Scores *******/

  // How far an outcome fell outside its interval.
  function Miss(raw: Interval, actual: real): real {
    MaxReal(MaxReal(raw.lower - actual, actual - raw.upper), 0.0)
  }

  predicate Counts(t: Place, key: Key) {
    t.value.key == key && t.value.raw.Some?
  }

  // The scores of one method and horizon.
  function ScoresOf(slots: seq<Place>, key: Key): seq<real> {
    if slots == [] then []
    else
      var (rest, last) := (ScoresOf(slots[..|slots| - 1], key), slots[|slots| - 1]);
      if Counts(last, key) then rest + [Miss(last.value.raw.value, last.value.actual)] else rest
  }

  // Of an earlier session, or of the same session and earlier in the list.
  predicate Earlier(t: Place, s: Place) {
    t.value.session < s.value.session || (t.value.session == s.value.session && t.index < s.index)
  }

  // The scores that a row may use.
  function EarlierScores(slots: seq<Place>, s: Place): seq<real> {
    if slots == [] then []
    else
      var (rest, last) := (EarlierScores(slots[..|slots| - 1], s), slots[|slots| - 1]);
      if Counts(last, s.value.key) && Earlier(last, s) then rest + [Miss(last.value.raw.value, last.value.actual)] else rest
  }

  lemma EarlierAppend(slots: seq<Place>, t: Place, s: Place)
    ensures EarlierScores(slots + [t], s) ==
      if Counts(t, s.value.key) && Earlier(t, s) then EarlierScores(slots, s) + [Miss(t.value.raw.value, t.value.actual)] else EarlierScores(slots, s)
  {
    assert (slots + [t])[..|slots|] == slots;
  }

  function ScoreBag(t: Place, s: Place): multiset<real> {
    if Counts(t, s.value.key) && Earlier(t, s) then multiset{Miss(t.value.raw.value, t.value.actual)} else multiset{}
  }

  lemma {:induction false} InsertKeepsScores(slots: seq<Place>, x: Place, s: Place)
    ensures multiset(EarlierScores(Insert(slots, x, SlotBefore), s)) == multiset(EarlierScores(slots, s)) + ScoreBag(x, s)
  {
    hide SlotBefore, Counts, Earlier, EarlierScores, Miss;
    if slots == [] || SlotBefore(slots[|slots| - 1], x) {
      EarlierAppend(slots, x, s);
    } else {
      var front, last := slots[..|slots| - 1], slots[|slots| - 1];
      assert slots == front + [last];
      InsertKeepsScores(front, x, s);
      EarlierAppend(front, last, s);
      EarlierAppend(Insert(front, x, SlotBefore), last, s);
    }
  }

  lemma {:induction false} SortKeepsScores(slots: seq<Place>, s: Place)
    ensures multiset(EarlierScores(Sort(slots, SlotBefore), s)) == multiset(EarlierScores(slots, s))
  {
    hide SlotBefore, Counts, Earlier, Miss;
    if slots != [] {
      var front, last := slots[..|slots| - 1], slots[|slots| - 1];
      assert slots == front + [last];
      SortKeepsScores(front, s);
      InsertKeepsScores(Sort(front, SlotBefore), last, s);
      EarlierAppend(front, last, s);
    }
  }

  // In sorted order, what may be used is what has been seen.
  lemma {:induction false} SeenIsEarlier(order: seq<Place>, k: nat, n: nat)
    requires Sorted(order, SlotBefore) && IndexesDistinct(order) && k < |order| && n <= |order|
    ensures EarlierScores(order[..n], order[k]) == ScoresOf(order[..if n <= k then n else k], order[k].value.key)
  {
    hide SlotBefore, KeyBefore, Counts, Earlier, Miss;
    if n > 0 {
      SeenIsEarlier(order, k, n - 1);
      assert order[..n][..n - 1] == order[..n - 1];
      EarlierByOrder(order, n - 1, k);
    }
  }

  lemma EarlierByOrder(order: seq<Place>, a: nat, k: nat)
    requires Sorted(order, SlotBefore) && IndexesDistinct(order) && a < |order| && k < |order|
    ensures Counts(order[a], order[k].value.key) ==> (Earlier(order[a], order[k]) <==> a < k)
  {
    assert a < k ==> SlotBefore(order[a], order[k]);
    assert k < a ==> SlotBefore(order[k], order[a]);
  }

  /******* The adjustment *******/

  function Ceiling(x: real): int { -((-x).Floor) }

  function Rank(n: nat): (r: nat)
    requires n > 0
    ensures r < n
  {
    var wanted := Ceiling(((n + 1) as real) * (1.0 - ALPHA)) - 1;
    if n - 1 <= wanted then n - 1 else wanted
  }

  function Adjustment(scores: seq<real>): real
    requires scores != []
  {
    SortSortsDraws(scores);
    Sort(scores, AtMost)[Rank(|scores|)]
  }

  function Widened(raw: Option<Interval>, scores: seq<real>): Option<Interval> {
    if raw.None? || |scores| < MINIMUM_SCORES then None
    else Some(Interval(raw.value.lower - Adjustment(scores), raw.value.upper + Adjustment(scores)))
  }

  // The adjusted interval of a row of a list.
  function Conformal(rows: seq<Row>, i: nat): Option<Interval>
    requires i < |rows|
  {
    Widened(rows[i].raw, EarlierScores(Slots(rows), Slot(i, rows[i])))
  }

  lemma WidenedIgnoresOrder(raw: Option<Interval>, scores: seq<real>, others: seq<real>)
    requires multiset(scores) == multiset(others)
    ensures Widened(raw, scores) == Widened(raw, others)
  {
    hide Sort, AtMost, Rank;
    SameLength(scores, others);
    SameSort(scores, others);
  }

  // What the pass computes for the k-th row in its order.
  lemma PassIsConformal(rows: seq<Row>, k: nat)
    requires k < |rows|
    ensures var order := Sort(Slots(rows), KeyBefore);
      && |order| == |rows| && order[k].index < |rows| && order[k] == Slots(rows)[order[k].index]
      && Widened(order[k].value.raw, ScoresOf(order[..k], order[k].value.key)) == Conformal(rows, order[k].index)
  {
    hide KeyBefore, SlotBefore, TotalPreorder, Widened, EarlierScores, ScoresOf, Sort;
    var slots := Slots(rows);
    var order := Sort(slots, SlotBefore);
    StableSortByPlace(slots);
    SlotOrders();
    SortSorts(slots, SlotBefore);
    SortKeepsDistinct(slots);
    assert order[k] in slots;
    SeenIsEarlier(order, k, |order|);
    assert order[..|order|] == order;
    SortKeepsScores(slots, order[k]);
    WidenedIgnoresOrder(order[k].value.raw, ScoresOf(order[..k], order[k].value.key), EarlierScores(slots, order[k]));
  }

  class Prediction {
    const row: Row
    var conformal: Option<Interval>

    constructor (row: Row)
      ensures this.row == row
    {
      this.row := row;
      conformal := None;
    }
  }

  function RowsOf(predictions: seq<Prediction>): (rows: seq<Row>)
    ensures |rows| == |predictions| && forall i :: 0 <= i < |rows| ==> rows[i] == predictions[i].row
  {
    seq(|predictions|, i requires 0 <= i < |predictions| => predictions[i].row)
  }

  function HistoryOf(history: map<Key, seq<real>>, key: Key): seq<real> {
    if key in history then history[key] else []
  }

  method AddPrequentialConformal(predictions: seq<Prediction>)
    requires forall i, j :: 0 <= i < j < |predictions| ==> predictions[i] != predictions[j]
    modifies predictions
    ensures forall i :: 0 <= i < |predictions| ==> predictions[i].conformal == Conformal(RowsOf(predictions), i)
  {
    hide KeyBefore, Widened, Conformal, Sort, ScoresOf, Miss;
    var history: map<Key, seq<real>> := map[];
    var rows := RowsOf(predictions);
    var order := Sort(Slots(rows), KeyBefore);
    PassOrder(rows);
    HistoryStart();
    assert order[..0] == [];
    for k := 0 to |order|
      invariant HistoryIs(history, order[..k])
      invariant forall a :: 0 <= a < k ==> predictions[order[a].index].conformal == Conformal(rows, order[a].index)
    {
      var row := predictions[order[k].index];
      var scores := HistoryOf(history, row.row.key);
      ghost var was := history;
      assert scores == ScoresOf(order[..k], row.row.key);
      PassIsConformal(rows, k);
      row.conformal := Widened(row.row.raw, scores);
      if row.row.raw.Some? {
        history := history[row.row.key := scores + [Miss(row.row.raw.value, row.row.actual)]];
      }
      HistoryStep(was, history, order, k);
    }
    forall i | 0 <= i < |predictions|
      ensures predictions[i].conformal == Conformal(rows, i)
    {
      assert Slots(rows)[i] in order;
    }
  }

  lemma PassOrder(rows: seq<Row>)
    ensures var order := Sort(Slots(rows), KeyBefore);
      && |order| == |rows| && IndexesDistinct(order)
      && (forall k :: 0 <= k < |order| ==> order[k].index < |rows| && order[k].value == rows[order[k].index])
      && (forall s :: s in order <==> s in Slots(rows))
  {
    hide KeyBefore, SlotBefore, Sort;
    StableSortByPlace(Slots(rows));
    SortKeepsDistinct(Slots(rows));
    var order := Sort(Slots(rows), KeyBefore);
    forall k | 0 <= k < |order|
      ensures order[k].index < |rows| && order[k].value == rows[order[k].index]
    {
      assert order[k] in Slots(rows);
    }
  }

  // The history holds the scores of what was seen.
  ghost predicate HistoryIs(history: map<Key, seq<real>>, seen: seq<Place>) {
    forall key :: HistoryOf(history, key) == ScoresOf(seen, key)
  }

  lemma HistoryStep(history: map<Key, seq<real>>, next: map<Key, seq<real>>, order: seq<Place>, k: nat)
    requires k < |order| && HistoryIs(history, order[..k])
    requires var row := order[k].value;
      next == if row.raw.None? then history
              else history[row.key := HistoryOf(history, row.key) + [Miss(row.raw.value, row.actual)]]
    ensures HistoryIs(next, order[..k + 1])
  {
    hide Miss;
    var row := order[k].value;
    assert order[..k + 1][..k] == order[..k] && order[..k + 1][k] == order[k];
    forall key
      ensures HistoryOf(next, key) == ScoresOf(order[..k + 1], key)
    {
      assert HistoryOf(history, key) == ScoresOf(order[..k], key);
      assert Counts(order[k], key) <==> row.raw.Some? && key == row.key;
    }
  }

  lemma HistoryStart()
    ensures HistoryIs(map[], [])
  {
  }

  /******* What the adjustment promises *******/

  function CountAtMost(xs: seq<real>, y: real): nat {
    Below(xs, y) + Equal(xs, y)
  }

  lemma {:induction false} SortedCounts(xs: seq<real>, k: nat, n: nat)
    requires Sorted(xs, AtMost) && k < |xs| && n <= |xs|
    ensures CountAtMost(xs[..n], xs[k]) >= if n <= k then n else k + 1
    ensures Below(xs[..n], xs[k]) <= if n <= k then n else k
  {
    if n > 0 {
      SortedCounts(xs, k, n - 1);
      assert xs[..n][..n - 1] == xs[..n - 1];
      assert n - 1 < k ==> AtMost(xs[n - 1], xs[k]);
      assert k < n - 1 ==> AtMost(xs[k], xs[n - 1]);
    }
  }

  /** The adjustment is one of the scores; more than its rank of them lie at or below it, at most its rank
      strictly below. */
  lemma AdjustmentIsOrderStatistic(scores: seq<real>)
    requires scores != []
    ensures Adjustment(scores) in scores
    ensures Below(scores, Adjustment(scores)) <= Rank(|scores|) < CountAtMost(scores, Adjustment(scores))
  {
    hide AtMost, Sorted, Rank, Sort;
    var ordered := Sort(scores, AtMost);
    SortSortsDraws(scores);
    var a := Adjustment(scores);
    assert a in multiset(ordered);
    assert ordered[..|ordered|] == ordered;
    SortedCounts(ordered, Rank(|scores|), |ordered|);
    CountsOfBag(ordered, scores, a);
  }

  // The rank asks for four fifths of one more than the number of scores, rounded up, or for all of them.
  lemma RankCovers(n: nat)
    requires n > 0
    ensures Rank(n) + 1 == n || (((n + 1) as real) * 0.8 <= (Rank(n) + 1) as real < ((n + 1) as real) * 0.8 + 1.0)
    ensures Rank(n) + 1 < n <==> 4 * (n + 1) <= 5 * (n - 1)
  {
    var x := ((n + 1) as real) * 0.8;
    assert 1.0 - ALPHA == 0.8;
    assert -x - 1.0 < (-x).Floor as real <= -x;
  }

  // How many of the earlier rows would have been covered by an interval widened by an adjustment.
  function CoveredCount(slots: seq<Place>, s: Place, adjustment: real): nat {
    if slots == [] then 0
    else
      var t := slots[|slots| - 1];
      CoveredCount(slots[..|slots| - 1], s, adjustment) + One(Counts(t, s.value.key) && Earlier(t, s) && Covers(t.value, adjustment))
  }

  predicate Covers(row: Row, adjustment: real) {
    row.raw.Some? && row.raw.value.lower - adjustment <= row.actual <= row.raw.value.upper + adjustment
  }

  lemma {:induction false} CoveredAreSmallScores(slots: seq<Place>, s: Place, adjustment: real)
    requires adjustment >= 0.0
    ensures CoveredCount(slots, s, adjustment) == CountAtMost(EarlierScores(slots, s), adjustment)
  {
    hide Earlier;
    if slots != [] {
      var front, t := slots[..|slots| - 1], slots[|slots| - 1];
      CoveredAreSmallScores(front, s, adjustment);
      if Counts(t, s.value.key) {
        CountsAppend(EarlierScores(front, s), Miss(t.value.raw.value, t.value.actual), adjustment);
      }
    }
  }

  lemma {:induction false} ScoresAreNotNegative(slots: seq<Place>, s: Place)
    ensures forall i :: 0 <= i < |EarlierScores(slots, s)| ==> EarlierScores(slots, s)[i] >= 0.0
  {
    hide Counts, Earlier;
    if slots != [] {
      ScoresAreNotNegative(slots[..|slots| - 1], s);
    }
  }

  /** The adjusted interval: present exactly when the raw one is and five earlier scores are known; never
      narrower than the raw one; and widened enough to have covered at least n, or four fifths of n + 1, of
      the n earlier outcomes. */
  lemma ConformalCovers(rows: seq<Row>, i: nat)
    requires i < |rows|
    ensures var s := Slot(i, rows[i]);
      var scores := EarlierScores(Slots(rows), s);
      && (Conformal(rows, i).Some? <==> rows[i].raw.Some? && |scores| >= MINIMUM_SCORES)
      && (Conformal(rows, i).Some? ==>
            var (raw, wide) := (rows[i].raw.value, Conformal(rows, i).value);
            && wide.lower <= raw.lower && raw.upper <= wide.upper
            && raw.lower - wide.lower == wide.upper - raw.upper == Adjustment(scores)
            && (CoveredCount(Slots(rows), s, raw.lower - wide.lower) == |scores|
                || ((|scores| + 1) as real) * 0.8 <= CoveredCount(Slots(rows), s, raw.lower - wide.lower) as real))
  {
    hide EarlierScores, Adjustment, CoveredCount, Rank;
    var s := Slot(i, rows[i]);
    var scores := EarlierScores(Slots(rows), s);
    if |scores| >= MINIMUM_SCORES {
      var a := Adjustment(scores);
      AdjustmentIsOrderStatistic(scores);
      ScoresAreNotNegative(Slots(rows), s);
      CoveredAreSmallScores(Slots(rows), s, a);
      RankCovers(|scores|);
      CountAtMostBound(scores, a);
    }
  }

  lemma {:induction false} CountAtMostBound(xs: seq<real>, y: real)
    ensures CountAtMost(xs, y) <= |xs|
  {
    if xs != [] {
      CountAtMostBound(xs[..|xs| - 1], y);
    }
  }

  /******* Causality *******/

  // One row for each session, method and horizon.
  ghost predicate OneRowEach(rows: seq<Row>) {
    forall i, j :: 0 <= i < j < |rows| ==> rows[i].session != rows[j].session || rows[i].key != rows[j].key
  }

  // The rows of one method and horizon from sessions before a given one.
  function Before(rows: seq<Row>, session: int, key: Key): seq<Row> {
    if rows == [] then []
    else
      var (rest, last) := (Before(rows[..|rows| - 1], session, key), rows[|rows| - 1]);
      if last.session < session && last.key == key then rest + [last] else rest
  }

  function MissesOf(rows: seq<Row>): seq<real> {
    if rows == [] then []
    else
      var (rest, last) := (MissesOf(rows[..|rows| - 1]), rows[|rows| - 1]);
      if last.raw.Some? then rest + [Miss(last.raw.value, last.actual)] else rest
  }

  lemma {:induction false} EarlierIsBefore(rows: seq<Row>, i: nat, n: nat)
    requires OneRowEach(rows) && i < |rows| && n <= |rows|
    ensures EarlierScores(Slots(rows)[..n], Slot(i, rows[i])) == MissesOf(Before(rows[..n], rows[i].session, rows[i].key))
  {
    hide Miss;
    if n > 0 {
      EarlierIsBefore(rows, i, n - 1);
      assert Slots(rows)[..n][..n - 1] == Slots(rows)[..n - 1];
      assert rows[..n][..n - 1] == rows[..n - 1];
      var rest := Before(rows[..n - 1], rows[i].session, rows[i].key);
      assert (rest + [rows[n - 1]])[..|rest|] == rest;
    }
  }

  /** A row's adjusted interval depends only on its own interval and on strictly earlier sessions of the same
      method and horizon, whatever else the two lists hold, and in whatever order. */
  lemma ConformalIsCausal(rows: seq<Row>, others: seq<Row>, i: nat, j: nat)
    requires OneRowEach(rows) && OneRowEach(others) && i < |rows| && j < |others|
    requires rows[i].session == others[j].session && rows[i].key == others[j].key && rows[i].raw == others[j].raw
    requires multiset(Before(rows, rows[i].session, rows[i].key)) == multiset(Before(others, rows[i].session, rows[i].key))
    ensures Conformal(rows, i) == Conformal(others, j)
  {
    hide Widened, EarlierScores, Before, MissesOf;
    EarlierIsBefore(rows, i, |rows|);
    EarlierIsBefore(others, j, |others|);
    assert Slots(rows)[..|rows|] == Slots(rows) && Slots(others)[..|others|] == Slots(others);
    assert rows[..|rows|] == rows && others[..|others|] == others;
    var mine, theirs := Before(rows, rows[i].session, rows[i].key), Before(others, rows[i].session, rows[i].key);
    MissesOfBag(mine, theirs);
    WidenedIgnoresOrder(rows[i].raw, MissesOf(mine), MissesOf(theirs));
  }

  // Rows in another order have the same scores in another order.
  lemma {:induction false} MissesOfBag(rows: seq<Row>, others: seq<Row>)
    requires multiset(rows) == multiset(others)
    ensures multiset(MissesOf(rows)) == multiset(MissesOf(others))
  {
    hide MissesOf;
    SameLength(rows, others);
    if rows != [] {
      var k := DropFromListing(rows, others);
      var front, last := rows[..|rows| - 1], rows[|rows| - 1];
      MissesOfBag(front, others[..k] + others[k + 1..]);
      MissesAppend(front, [last]);
      MissesWithout(others, k);
    }
  }

  lemma MissesWithout(rows: seq<Row>, k: nat)
    requires k < |rows|
    ensures multiset(MissesOf(rows)) == multiset(MissesOf(rows[..k] + rows[k + 1..])) + multiset(MissesOf([rows[k]]))
  {
    hide MissesOf;
    assert rows == (rows[..k] + [rows[k]]) + rows[k + 1..];
    MissesAppend(rows[..k] + [rows[k]], rows[k + 1..]);
    MissesAppend(rows[..k], [rows[k]]);
    MissesAppend(rows[..k], rows[k + 1..]);
  }

  lemma {:induction false} MissesAppend(rows: seq<Row>, more: seq<Row>)
    ensures MissesOf(rows + more) == MissesOf(rows) + MissesOf(more)
  {
    hide Miss;
    if more == [] {
      assert rows + more == rows;
    } else {
      MissesAppend(rows, more[..|more| - 1]);
      assert (rows + more)[..|rows + more| - 1] == rows + more[..|more| - 1];
    }
  }
}
