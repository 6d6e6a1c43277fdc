/**
 The deduplication of sweeps: sweeps of one direction that follow each other within five minutes become
 one event, which keeps the most important level's record, every level's name and the outermost extreme.
 */
module SweepClusters {
  import opened Options
  import opened Reals
  import opened SweepDetector
  import opened StableSort

  const STEP: int := 5 * MINUTE

  function Priority(name: LevelName): nat {
    match name
    case PDH => 0
    case PDL => 0
    case ONH => 1
    case ONL => 1
    case OR15H => 2
    case OR15L => 2
  }

  // Every level name, by priority and then by name.
  const NAMES: seq<LevelName> := [PDH, PDL, ONH, ONL, OR15H, OR15L]

  function Rank(name: LevelName): (r: nat)
    ensures r < |NAMES| && NAMES[r] == name
  {
    match name
    case PDH => 0
    case PDL => 1
    case ONH => 2
    case ONL => 3
    case OR15H => 4
    case OR15L => 5
  }

  function FirstPriority(e: Event): nat {
    if e.names == [] then 0 else Priority(e.names[0])
  }

  predicate Before(x: Event, y: Event) {
    x.sweepAt < y.sweepAt || (x.sweepAt == y.sweepAt &&
      (x.direction < y.direction || (x.direction == y.direction && FirstPriority(x) <= FirstPriority(y))))
  }

  /******* Clusters *******/

  predicate Joins(cluster: seq<Event>, e: Event) {
    cluster != [] && cluster[0].direction == e.direction && e.sweepAt - cluster[|cluster| - 1].sweepAt <= STEP
  }

  function Groups(events: seq<Event>): seq<seq<Event>> {
    if events == [] then []
    else Extend(Groups(events[..|events| - 1]), events[|events| - 1])
  }

  function Extend(groups: seq<seq<Event>>, e: Event): seq<seq<Event>> {
    if groups != [] && Joins(groups[|groups| - 1], e)
    then groups[..|groups| - 1] + [groups[|groups| - 1] + [e]]
    else groups + [[e]]
  }

  function Flat<T>(groups: seq<seq<T>>): seq<T> {
    if groups == [] then [] else Flat(groups[..|groups| - 1]) + groups[|groups| - 1]
  }

  // Sweeps of one direction, each at most a step behind the one before.
  ghost predicate IsRun(cluster: seq<Event>) {
    && cluster != []
    && (forall i :: 0 <= i < |cluster| ==> cluster[i].direction == cluster[0].direction)
    && (forall i, j :: 0 <= i && j == i + 1 && j < |cluster| ==> cluster[j].sweepAt - cluster[i].sweepAt <= STEP)
  }

  // Runs that cannot be joined to their neighbours.
  ghost predicate AreMaximalRuns(groups: seq<seq<Event>>) {
    && (forall k :: 0 <= k < |groups| ==> IsRun(groups[k]))
    && (forall k, l :: 0 <= k && l == k + 1 && l < |groups| ==> !Joins(groups[k], groups[l][0]))
  }

  lemma FlatAppend<T>(groups: seq<seq<T>>, last: seq<T>)
    ensures Flat(groups + [last]) == Flat(groups) + last
  {
    assert (groups + [last])[..|groups|] == groups;
  }

  lemma RunExtends(cluster: seq<Event>, e: Event)
    requires IsRun(cluster) && Joins(cluster, e)
    ensures IsRun(cluster + [e])
  {
  }

  lemma MaximalExtends(groups: seq<seq<Event>>, e: Event)
    requires AreMaximalRuns(groups)
    ensures AreMaximalRuns(Extend(groups, e))
  {
    hide IsRun, Joins;
    if groups != [] && Joins(groups[|groups| - 1], e) {
      RunExtends(groups[|groups| - 1], e);
      assert IsRun(groups[|groups| - 1]);
      LastRunNotEmpty(groups);
    } else {
      assert IsRun([e]) by { AloneIsRun(e); }
    }
  }

  lemma AloneIsRun(e: Event)
    ensures IsRun([e])
  {
  }

  lemma LastRunNotEmpty(groups: seq<seq<Event>>)
    requires AreMaximalRuns(groups) && groups != []
    ensures groups[|groups| - 1] != []
  {
    assert IsRun(groups[|groups| - 1]);
  }

  /** The clusters cut the events into maximal runs, in order, leaving nothing out. */
  lemma {:induction false} GroupsAreMaximalRuns(events: seq<Event>)
    ensures AreMaximalRuns(Groups(events)) && Flat(Groups(events)) == events
  {
    hide AreMaximalRuns, Joins;
    if events != [] {
      var front, e := events[..|events| - 1], events[|events| - 1];
      GroupsAreMaximalRuns(front);
      var groups := Groups(front);
      MaximalExtends(groups, e);
      assert events == front + [e];
      if groups != [] && Joins(groups[|groups| - 1], e) {
        var rest, last := groups[..|groups| - 1], groups[|groups| - 1];
        FlatAppend(rest, last + [e]);
        assert groups == rest + [last];
      } else {
        FlatAppend(groups, [e]);
      }
    } else {
      assert AreMaximalRuns([]) by { NoRuns(); }
    }
  }

  lemma NoRuns()
    ensures AreMaximalRuns([])
  {
  }

  // A cut into maximal runs is what the loop builds, so there is only one.
  lemma {:induction false} MaximalRunsAreUnique(groups: seq<seq<Event>>)
    requires AreMaximalRuns(groups)
    ensures Groups(Flat(groups)) == groups
  {
    if groups != [] {
      var rest, last := groups[..|groups| - 1], groups[|groups| - 1];
      MaximalRunsAreUnique(rest);
      GroupsOfRun(rest, last, |last|);
      assert last[..|last|] == last;
      assert groups == rest + [last];
    }
  }

  lemma {:induction false} GroupsOfRun(rest: seq<seq<Event>>, last: seq<Event>, n: nat)
    requires Groups(Flat(rest)) == rest && IsRun(last) && 0 < n <= |last|
    requires rest != [] ==> !Joins(rest[|rest| - 1], last[0])
    ensures Groups(Flat(rest) + last[..n]) == rest + [last[..n]]
  {
    hide Flat, IsRun, Joins, Groups;
    var all, front := Flat(rest) + last[..n], Flat(rest) + last[..n - 1];
    assert all == front + [last[n - 1]];
    GroupsOfOneMore(front, last[n - 1]);
    if n == 1 {
      assert front == Flat(rest);
      assert last[..1] == [last[0]];
    } else {
      GroupsOfRun(rest, last, n - 1);
      RunJoins(last, n - 1);
      assert last[..n - 1] + [last[n - 1]] == last[..n];
      assert (rest + [last[..n - 1]])[..|rest|] == rest;
    }
  }

  lemma GroupsOfOneMore(events: seq<Event>, e: Event)
    ensures Groups(events + [e]) == Extend(Groups(events), e)
  {
    assert (events + [e])[..|events|] == events;
  }

  lemma RunJoins(cluster: seq<Event>, n: nat)
    requires IsRun(cluster) && 0 < n < |cluster|
    ensures Joins(cluster[..n], cluster[n])
  {
    assert cluster[..n][n - 1] == cluster[n - 1];
  }

  /******* The event of a cluster *******/

  // The first event of the highest priority.
  function Chosen(cluster: seq<Event>): Event
    requires cluster != []
  {
    if |cluster| == 1 then cluster[0]
    else
      var (best, last) := (Chosen(cluster[..|cluster| - 1]), cluster[|cluster| - 1]);
      if FirstPriority(last) < FirstPriority(best) then last else best
  }

  function NamesOf(e: Event): set<LevelName> {
    set i | 0 <= i < |e.names| :: e.names[i]
  }

  function NamesIn(cluster: seq<Event>): set<LevelName> {
    if cluster == [] then {}
    else NamesIn(cluster[..|cluster| - 1]) + NamesOf(cluster[|cluster| - 1])
  }

  // The names of a listing that are in a set, in the order of the listing.
  function Pick(all: seq<LevelName>, names: set<LevelName>): seq<LevelName> {
    if all == [] then []
    else (if all[0] in names then [all[0]] else []) + Pick(all[1..], names)
  }

  function Outermost(cluster: seq<Event>, direction: int): real
    requires cluster != []
  {
    if |cluster| == 1 then cluster[0].extreme
    else
      var (rest, last) := (Outermost(cluster[..|cluster| - 1], direction), cluster[|cluster| - 1].extreme);
      if direction < 0 then MaxReal(rest, last) else MinReal(rest, last)
  }

  function Merge(cluster: seq<Event>): Event
    requires cluster != []
  {
    var chosen := Chosen(cluster);
    chosen.(names := Pick(NAMES, NamesIn(cluster)), extreme := Outermost(cluster, chosen.direction))
  }

  function MergeAll(groups: seq<seq<Event>>): seq<Event>
    requires forall k :: 0 <= k < |groups| ==> groups[k] != []
  {
    seq(|groups|, k requires 0 <= k < |groups| => Merge(groups[k]))
  }

  lemma {:induction false} GroupsNotEmpty(events: seq<Event>)
    ensures forall k :: 0 <= k < |Groups(events)| ==> Groups(events)[k] != []
  {
    if events != [] {
      GroupsNotEmpty(events[..|events| - 1]);
    }
  }

  function Deduplicated(events: seq<Event>): seq<Event> {
    var groups := Groups(Sort(events, Before));
    GroupsNotEmpty(Sort(events, Before));
    MergeAll(groups)
  }

  method Deduplicate(events: seq<Event>) returns (output: seq<Event>)
    ensures output == Deduplicated(events)
  {
    hide Extend, Joins, Sort, Merge;
    var sorted := Sort(events, Before);
    var grouped: seq<seq<Event>> := [];
    for i := 0 to |sorted|
      invariant grouped == Groups(sorted[..i])
    {
      assert sorted[..i + 1][..i] == sorted[..i];
      grouped := Extend(grouped, sorted[i]);
    }
    assert sorted[..|sorted|] == sorted;
    GroupsNotEmpty(sorted);
    output := [];
    for i := 0 to |grouped|
      invariant output == MergeAll(grouped[..i])
    {
      output := output + [Merge(grouped[i])];
    }
    assert grouped[..|grouped|] == grouped;
  }

  // Names in order and without repetition, as raw and merged events have them.
  ghost predicate NamesInOrder(names: seq<LevelName>) {
    forall i, j :: 0 <= i < j < |names| ==> Rank(names[i]) < Rank(names[j])
  }

  ghost predicate Named(e: Event) {
    e.names != [] && NamesInOrder(e.names)
  }

  lemma {:induction false} PickHas(all: seq<LevelName>, names: set<LevelName>, n: LevelName)
    ensures n in Pick(all, names) <==> n in all && n in names
  {
    if all != [] {
      PickHas(all[1..], names, n);
      assert all == [all[0]] + all[1..];
    }
  }

  lemma {:induction false} PickKeepsOrder(all: seq<LevelName>, names: set<LevelName>)
    requires NamesInOrder(all)
    ensures NamesInOrder(Pick(all, names))
  {
    hide NamesInOrder, Rank;
    if all == [] {
      assert Pick(all, names) == all;
    } else {
      TailInOrder(all);
      var rest := Pick(all[1..], names);
      PickKeepsOrder(all[1..], names);
      forall n | n in rest
        ensures Rank(all[0]) < Rank(n)
      {
        PickHas(all[1..], names, n);
      }
      if all[0] in names {
        PrependInOrder(all[0], rest);
        assert Pick(all, names) == [all[0]] + rest;
      } else {
        assert Pick(all, names) == rest;
      }
    }
  }

  lemma TailInOrder(all: seq<LevelName>)
    requires NamesInOrder(all) && all != []
    ensures NamesInOrder(all[1..]) && forall n :: n in all[1..] ==> Rank(all[0]) < Rank(n)
  {
    hide Rank;
  }

  lemma PrependInOrder(first: LevelName, rest: seq<LevelName>)
    requires NamesInOrder(rest) && forall n :: n in rest ==> Rank(first) < Rank(n)
    ensures NamesInOrder([first] + rest)
  {
    hide Rank;
  }

  lemma RankOfPlace(i: nat)
    requires i < |NAMES|
    ensures Rank(NAMES[i]) == i
  {
  }

  lemma NamesAreInOrder()
    ensures NamesInOrder(NAMES) && forall n :: n in NAMES
  {
    hide NAMES, Rank;
    forall i, j | 0 <= i < j < |NAMES|
      ensures Rank(NAMES[i]) < Rank(NAMES[j])
    {
      RankOfPlace(i);
      RankOfPlace(j);
    }
    forall n: LevelName
      ensures n in NAMES
    {
      assert NAMES[Rank(n)] == n;
    }
  }

  // The listing of a set of names.
  lemma PickMeans(names: set<LevelName>)
    ensures NamesInOrder(Pick(NAMES, names)) && forall n :: n in Pick(NAMES, names) <==> n in names
  {
    hide Pick, NamesInOrder;
    NamesAreInOrder();
    PickKeepsOrder(NAMES, names);
    forall n: LevelName
      ensures n in Pick(NAMES, names) <==> n in names
    {
      PickHas(NAMES, names, n);
    }
  }

  // There is one ordered listing of a set of names.
  lemma {:induction false} OrderedListingIsUnique(a: seq<LevelName>, b: seq<LevelName>)
    requires NamesInOrder(a) && NamesInOrder(b) && forall n :: n in a <==> n in b
    ensures a == b
  {
    NoneIn(a);
    NoneIn(b);
    if a != [] && b != [] {
      assert a[0] in b && b[0] in a;
      assert a[0] == b[0];
      assert forall n :: n in a[1..] <==> n in a && n != a[0];
      assert forall n :: n in b[1..] <==> n in b && n != b[0];
      OrderedListingIsUnique(a[1..], b[1..]);
    }
  }

  lemma NoneIn(names: seq<LevelName>)
    ensures (forall n :: n !in names) ==> names == []
  {
    if names != [] {
      assert names[0] in names;
    }
  }

  // The first of the events with the highest priority.
  ghost predicate IsBest(cluster: seq<Event>, i: nat) {
    && i < |cluster|
    && (forall j :: 0 <= j < i ==> FirstPriority(cluster[i]) < FirstPriority(cluster[j]))
    && (forall j :: 0 <= j < |cluster| ==> FirstPriority(cluster[i]) <= FirstPriority(cluster[j]))
  }

  lemma BestOfLonger(cluster: seq<Event>, i: nat)
    requires cluster != [] && IsBest(cluster[..|cluster| - 1], i)
    ensures IsBest(cluster, if FirstPriority(cluster[|cluster| - 1]) < FirstPriority(cluster[i]) then |cluster| - 1 else i)
  {
    hide FirstPriority;
    var front := cluster[..|cluster| - 1];
    assert forall j :: 0 <= j < |front| ==> cluster[j] == front[j];
  }

  lemma {:induction false} ChosenIsBest(cluster: seq<Event>) returns (i: nat)
    requires cluster != []
    ensures IsBest(cluster, i) && Chosen(cluster) == cluster[i]
  {
    hide FirstPriority;
    i := 0;
    if |cluster| > 1 {
      i := ChosenIsBest(cluster[..|cluster| - 1]);
      BestOfLonger(cluster, i);
      if FirstPriority(cluster[|cluster| - 1]) < FirstPriority(cluster[i]) {
        i := |cluster| - 1;
      }
    }
  }

  lemma {:induction false} NamesInMeans(cluster: seq<Event>, n: LevelName)
    ensures n in NamesIn(cluster) <==> exists i :: 0 <= i < |cluster| && n in cluster[i].names
  {
    if cluster != [] {
      NamesInMeans(cluster[..|cluster| - 1], n);
    }
  }

  lemma {:induction false} OutermostDominates(cluster: seq<Event>, direction: int)
    requires cluster != []
    ensures forall i :: 0 <= i < |cluster| ==>
      if direction < 0 then cluster[i].extreme <= Outermost(cluster, direction) else Outermost(cluster, direction) <= cluster[i].extreme
    ensures exists i :: 0 <= i < |cluster| && cluster[i].extreme == Outermost(cluster, direction)
  {
    assert |cluster| == 1 ==> cluster[0].extreme == Outermost(cluster, direction);
    if |cluster| > 1 {
      var front := cluster[..|cluster| - 1];
      OutermostDominates(front, direction);
      var i :| 0 <= i < |front| && front[i].extreme == Outermost(front, direction);
      forall j | 0 <= j < |front|
        ensures if direction < 0 then cluster[j].extreme <= Outermost(front, direction) else Outermost(front, direction) <= cluster[j].extreme
      {
        assert cluster[j] == front[j];
      }
      assert cluster[i].extreme == Outermost(cluster, direction) || cluster[|cluster| - 1].extreme == Outermost(cluster, direction);
    }
  }

  /** What a cluster becomes: the record of its first event of the highest priority, with the names of all
      its events and the extreme that dominates all of theirs. */
  lemma MergeMeans(cluster: seq<Event>)
    requires IsRun(cluster) && forall i :: 0 <= i < |cluster| ==> Named(cluster[i])
    ensures var m := Merge(cluster);
      && (exists i: nat :: IsBest(cluster, i) && m == cluster[i].(names := m.names, extreme := m.extreme)
                      && FirstPriority(m) == FirstPriority(cluster[i]))
      && Named(m) && (forall n :: n in m.names <==> n in NamesIn(cluster))
      && m.direction == cluster[0].direction
      && (forall i :: 0 <= i < |cluster| ==> if m.direction < 0 then cluster[i].extreme <= m.extreme else m.extreme <= cluster[i].extreme)
      && (exists i :: 0 <= i < |cluster| && cluster[i].extreme == m.extreme)
  {
    hide Outermost, Chosen, NamesIn, Pick, NamesInOrder, FirstPriority;
    var m := Merge(cluster);
    var i := ChosenIsBest(cluster);
    PickMeans(NamesIn(cluster));
    OutermostDominates(cluster, Chosen(cluster).direction);
    MergedPriority(cluster, i, m);
    assert m == cluster[i].(names := m.names, extreme := m.extreme);
  }

  lemma RankGivesPriority(a: LevelName, b: LevelName)
    ensures Rank(a) <= Rank(b) ==> Priority(a) <= Priority(b)
  {
  }

  // Merging the names keeps the priority of the best event.
  lemma MergedPriority(cluster: seq<Event>, i: nat, m: Event)
    requires forall j :: 0 <= j < |cluster| ==> Named(cluster[j])
    requires IsBest(cluster, i)
    requires NamesInOrder(m.names) && forall n :: n in m.names <==> n in NamesIn(cluster)
    ensures m.names != [] && FirstPriority(m) == FirstPriority(cluster[i])
  {
    hide NamesIn;
    var own := cluster[i].names[0];
    NamesInMeans(cluster, own);
    assert own in m.names;
    var first := m.names[0];
    NamesInMeans(cluster, first);
    var j :| 0 <= j < |cluster| && first in cluster[j].names;
    FirstIsLeast(cluster[j].names, first);
    FirstIsLeast(m.names, own);
  }

  lemma FirstIsLeast(names: seq<LevelName>, n: LevelName)
    requires NamesInOrder(names) && n in names
    ensures Priority(names[0]) <= Priority(n)
  {
    RankGivesPriority(names[0], n);
  }

  /******* The whole pass *******/

  lemma BeforeIsTotalPreorder()
    ensures TotalPreorder(Before)
  {
  }

  lemma {:induction false} InFlat<T>(groups: seq<seq<T>>, x: T)
    ensures x in Flat(groups) <==> exists k :: 0 <= k < |groups| && x in groups[k]
  {
    if groups != [] {
      InFlat(groups[..|groups| - 1], x);
    }
  }

  lemma {:induction false} SortedFlat(groups: seq<seq<Event>>, k: nat, l: nat)
    requires Sorted(Flat(groups), Before) && k <= l < |groups|
    ensures Sorted(groups[k], Before)
    ensures k < l ==> forall x, y :: x in groups[k] && y in groups[l] ==> Before(x, y)
  {
    hide Before;
    var rest, last := groups[..|groups| - 1], groups[|groups| - 1];
    var flat := Flat(groups);
    assert flat == Flat(rest) + last;
    assert Sorted(Flat(rest), Before) by {
      assert forall i :: 0 <= i < |Flat(rest)| ==> flat[i] == Flat(rest)[i];
    }
    if l < |rest| {
      SortedFlat(rest, k, l);
    } else {
      assert Sorted(last, Before) by {
        assert forall i :: 0 <= i < |last| ==> flat[|Flat(rest)| + i] == last[i];
      }
      if k < l {
        SortedFlat(rest, k, k);
        forall x, y | x in groups[k] && y in last
          ensures Before(x, y)
        {
          assert rest[k] == groups[k];
          InFlat(rest, x);
          var i :| 0 <= i < |Flat(rest)| && Flat(rest)[i] == x;
          var j :| 0 <= j < |last| && last[j] == y;
          assert flat[i] == x && flat[|Flat(rest)| + j] == y;
        }
      }
    }
  }

  // What follows from a cluster being a sorted run, for its merged event.
  lemma MergedBetween(cluster: seq<Event>)
    requires IsRun(cluster) && Sorted(cluster, Before) && forall i :: 0 <= i < |cluster| ==> Named(cluster[i])
    ensures var m := Merge(cluster);
      && cluster[0].sweepAt <= m.sweepAt <= cluster[|cluster| - 1].sweepAt
      && m.direction == cluster[0].direction && Named(m)
  {
    hide Merge, Named, IsRun, Sorted;
    var i := MergedFrom(cluster);
    SortedEnds(cluster, i);
  }

  lemma MergedFrom(cluster: seq<Event>) returns (i: nat)
    requires IsRun(cluster) && forall i :: 0 <= i < |cluster| ==> Named(cluster[i])
    ensures var m := Merge(cluster);
      i < |cluster| && m.sweepAt == cluster[i].sweepAt && m.direction == cluster[0].direction && Named(m)
  {
    hide Merge, Named, FirstPriority, NamesIn;
    MergeMeans(cluster);
    var m := Merge(cluster);
    i :| IsBest(cluster, i) && m == cluster[i].(names := m.names, extreme := m.extreme);
  }

  lemma SortedEnds(cluster: seq<Event>, i: nat)
    requires Sorted(cluster, Before) && i < |cluster|
    ensures cluster[0].sweepAt <= cluster[i].sweepAt <= cluster[|cluster| - 1].sweepAt
  {
    assert i > 0 ==> Before(cluster[0], cluster[i]);
    assert i < |cluster| - 1 ==> Before(cluster[i], cluster[|cluster| - 1]);
  }

  // Events that are in order, with those of one direction more than a step apart.
  ghost predicate Apart(x: Event, y: Event) {
    Before(x, y) && (x.direction == y.direction ==> y.sweepAt - x.sweepAt > STEP)
  }

  lemma MergedApart(a: seq<Event>, b: seq<Event>)
    requires IsRun(a) && Sorted(a, Before) && (forall i :: 0 <= i < |a| ==> Named(a[i]))
    requires IsRun(b) && Sorted(b, Before) && (forall i :: 0 <= i < |b| ==> Named(b[i]))
    requires !Joins(a, b[0]) && Before(a[|a| - 1], b[0])
    ensures Apart(Merge(a), Merge(b))
  {
    hide Merge, Named;
    MergedBetween(a);
    MergedBetween(b);
    assert a[|a| - 1].sweepAt <= b[0].sweepAt;
    assert a[0].direction == a[|a| - 1].direction;
  }

  ghost predicate AllNamed(events: seq<Event>) {
    forall i :: 0 <= i < |events| ==> Named(events[i])
  }

  // The clusters of a set of events: sorted, named, maximal, nothing left out.
  lemma ClustersOf(events: seq<Event>, k: nat)
    requires AllNamed(events) && k < |Groups(Sort(events, Before))|
    ensures var groups := Groups(Sort(events, Before));
      && IsRun(groups[k]) && Sorted(groups[k], Before) && AllNamed(groups[k])
      && (k > 0 ==> groups[k - 1] != [] && !Joins(groups[k - 1], groups[k][0]) && Before(groups[k - 1][|groups[k - 1]| - 1], groups[k][0]))
  {
    hide Groups, Sort, IsRun, Before, Named, Joins;
    var sorted := Sort(events, Before);
    var groups := Groups(sorted);
    BeforeIsTotalPreorder();
    SortSorts(events, Before);
    GroupsAreMaximalRuns(sorted);
    GroupsNotEmpty(sorted);
    SortedFlat(groups, k, k);
    forall i | 0 <= i < |groups[k]|
      ensures Named(groups[k][i])
    {
      InFlat(groups, groups[k][i]);
      assert groups[k][i] in events;
    }
    if k > 0 {
      SortedFlat(groups, k - 1, k);
      assert groups[k - 1][|groups[k - 1]| - 1] in groups[k - 1] && groups[k][0] in groups[k];
    }
  }

  /** Kept events of one direction that stand next to each other are more than five minutes apart, and the
      output is in order. */
  lemma KeptAreApart(events: seq<Event>, k: nat)
    requires AllNamed(events) && 0 < k < |Deduplicated(events)|
    ensures Apart(Deduplicated(events)[k - 1], Deduplicated(events)[k])
  {
    hide Merge, Named, Groups, Sort, IsRun, Before, Joins, Apart;
    GroupsNotEmpty(Sort(events, Before));
    ClustersOf(events, k - 1);
    ClustersOf(events, k);
    var groups := Groups(Sort(events, Before));
    MergedApart(groups[k - 1], groups[k]);
  }

  lemma KeptAreNamed(events: seq<Event>)
    requires AllNamed(events)
    ensures AllNamed(Deduplicated(events))
  {
    hide Merge, Named, Groups, Sort, IsRun, Before;
    GroupsNotEmpty(Sort(events, Before));
    forall k | 0 <= k < |Deduplicated(events)|
      ensures Named(Deduplicated(events)[k])
    {
      ClustersOf(events, k);
      MergedBetween(Groups(Sort(events, Before))[k]);
    }
  }

  /** No level name is lost and none is made up. */
  lemma NamesConserved(events: seq<Event>, n: LevelName)
    requires AllNamed(events)
    ensures n in NamesIn(Deduplicated(events)) <==> n in NamesIn(events)
  {
    hide Merge, Groups, Sort, IsRun, Before, NamesIn, Named;
    var sorted := Sort(events, Before);
    var groups, output := Groups(sorted), Deduplicated(events);
    NamesInMeans(output, n);
    NamesInMeans(events, n);
    BeforeIsTotalPreorder();
    SortSorts(events, Before);
    GroupsAreMaximalRuns(sorted);
    GroupsNotEmpty(sorted);
    if n in NamesIn(output) {
      var k :| 0 <= k < |output| && n in output[k].names;
      ClustersOf(events, k);
      MergeMeans(groups[k]);
      NamesInMeans(groups[k], n);
      var i :| 0 <= i < |groups[k]| && n in groups[k][i].names;
      InFlat(groups, groups[k][i]);
      assert groups[k][i] in events;
    }
    if n in NamesIn(events) {
      var i :| 0 <= i < |events| && n in events[i].names;
      assert events[i] in Flat(groups);
      InFlat(groups, events[i]);
      var k :| 0 <= k < |groups| && events[i] in groups[k];
      ClustersOf(events, k);
      MergeMeans(groups[k]);
      NamesInMeans(groups[k], n);
      assert n in output[k].names;
    }
  }

  lemma {:induction false} AdjacentSorted(events: seq<Event>)
    requires forall k :: 0 < k < |events| ==> Before(events[k - 1], events[k])
    ensures Sorted(events, Before)
  {
    if |events| > 1 {
      var front := events[..|events| - 1];
      AdjacentSorted(front);
      forall i | 0 <= i < |events| - 1
        ensures Before(events[i], events[|events| - 1])
      {
        assert events[i] == front[i] && events[|events| - 2] == front[|front| - 1];
        assert Before(events[|events| - 2], events[|events| - 1]);
      }
      assert forall i :: 0 <= i < |front| ==> events[i] == front[i];
    }
  }

  function Singletons(events: seq<Event>): seq<seq<Event>> {
    seq(|events|, k requires 0 <= k < |events| => [events[k]])
  }

  lemma {:induction false} FlatSingletons(events: seq<Event>)
    ensures Flat(Singletons(events)) == events
  {
    if events != [] {
      var front := events[..|events| - 1];
      FlatSingletons(front);
      assert Singletons(events)[..|events| - 1] == Singletons(front);
    }
  }

  lemma MergeAlone(e: Event)
    requires Named(e)
    ensures Merge([e]) == e
  {
    hide Pick;
    assert NamesIn([e][..0]) == {};
    PickMeans(NamesIn([e]));
    OrderedListingIsUnique(Pick(NAMES, NamesIn([e])), e.names);
  }

  lemma {:induction false} MergeSingletons(events: seq<Event>)
    requires AllNamed(events)
    ensures MergeAll(Singletons(events)) == events
  {
    hide Merge, Named;
    forall k | 0 <= k < |events|
      ensures MergeAll(Singletons(events))[k] == events[k]
    {
      MergeAlone(events[k]);
    }
  }

  /** Deduplicating twice changes nothing more. */
  lemma DeduplicationIsIdempotent(events: seq<Event>)
    requires AllNamed(events)
    ensures Deduplicated(Deduplicated(events)) == Deduplicated(events)
  {
    hide Merge, Named, Groups, Sort, Before, AllNamed;
    var kept := Deduplicated(events);
    forall k | 0 < k < |kept|
      ensures Apart(kept[k - 1], kept[k])
    {
      KeptAreApart(events, k);
    }
    AdjacentSorted(kept);
    SortIdentity(kept, Before);
    MaximalRunsAreUnique(Singletons(kept));
    FlatSingletons(kept);
    KeptAreNamed(events);
    MergeSingletons(kept);
  }

  /******* When deduplication is causal *******/

  // A sweep that leaves a kept event as it is: no better level, no new name, no outer extreme.
  predicate AddsNothing(kept: Event, e: Event) {
    && FirstPriority(kept) <= FirstPriority(e)
    && (forall i :: 0 <= i < |e.names| ==> e.names[i] in kept.names)
    && (if kept.direction < 0 then e.extreme <= kept.extreme else kept.extreme <= e.extreme)
  }

  predicate AllAddNothing(kept: Event, more: seq<Event>) {
    forall i :: 0 <= i < |more| ==> AddsNothing(kept, more[i])
  }

  // The sweeps at the start of `future` that go on joining a cluster.
  function Continuation(cluster: seq<Event>, future: seq<Event>): seq<Event>
    decreases |future|
  {
    if future == [] || !Joins(cluster, future[0]) then []
    else [future[0]] + Continuation(cluster + [future[0]], future[1..])
  }

  lemma {:induction false} LaterKeepsEarlierGroups(past: seq<Event>, future: seq<Event>, k: nat)
    requires k < |Groups(past)| - 1
    ensures k < |Groups(past + future)| - 1 && Groups(past + future)[k] == Groups(past)[k]
  {
    hide Groups, Joins;
    if future == [] {
      assert past + future == past;
    } else {
      var front, e := future[..|future| - 1], future[|future| - 1];
      LaterKeepsEarlierGroups(past, front, k);
      GroupsOfOneMore(past + front, e);
      assert past + future == past + front + [e];
    }
  }

  // The last cluster of the past grows by its continuation; those before it stay.
  lemma {:induction false} LastGroupContinues(past: seq<Event>, future: seq<Event>)
    requires past != []
    ensures var (groups, all) := (Groups(past), Groups(past + future));
      && groups != [] && |groups| <= |all|
      && all[..|groups| - 1] == groups[..|groups| - 1]
      && all[|groups| - 1] == groups[|groups| - 1] + Continuation(groups[|groups| - 1], future)
    decreases |future|
  {
    hide Joins, Groups;
    PastHasGroups(past);
    var groups, last := Groups(past), |Groups(past)| - 1;
    forall k | 0 <= k < last
      ensures k < |Groups(past + future)| - 1 && Groups(past + future)[k] == groups[k]
    {
      LaterKeepsEarlierGroups(past, future, k);
    }
    if future == [] {
      assert past + future == past;
      assert groups[last] + [] == groups[last];
    } else {
      var e, rest := future[0], future[1..];
      assert past + future == past + [e] + rest;
      GroupsOfOneMore(past, e);
      LastGroupContinues(past + [e], rest);
      if Joins(groups[last], e) {
        assert groups[last] + [e] + Continuation(groups[last] + [e], rest) == groups[last] + Continuation(groups[last], future);
      } else {
        LaterKeepsEarlierGroups(past + [e], rest, last);
        assert groups[last] + [] == groups[last];
      }
    }
  }

  lemma PastHasGroups(past: seq<Event>)
    requires past != []
    ensures Groups(past) != []
  {
  }

  lemma JoiningNothing(cluster: seq<Event>, e: Event)
    requires IsRun(cluster) && AllNamed(cluster) && AddsNothing(Merge(cluster), e)
    ensures Merge(cluster + [e]) == Merge(cluster)
  {
    hide FirstPriority, IsRun, NamesIn, Pick, Named;
    MergeMeans(cluster);
    var longer := cluster + [e];
    assert longer[..|cluster|] == cluster && longer[|cluster|] == e;
    ChosenPriority(cluster);
    NoNewNames(cluster, e);
  }

  lemma ChosenPriority(cluster: seq<Event>)
    requires IsRun(cluster) && AllNamed(cluster)
    ensures FirstPriority(Merge(cluster)) == FirstPriority(Chosen(cluster))
  {
    hide Outermost, Chosen, NamesIn, Pick, NamesInOrder, FirstPriority;
    var i := ChosenIsBest(cluster);
    PickMeans(NamesIn(cluster));
    MergedPriority(cluster, i, Merge(cluster));
  }

  lemma NoNewNames(cluster: seq<Event>, e: Event)
    requires forall i :: 0 <= i < |e.names| ==> e.names[i] in Pick(NAMES, NamesIn(cluster))
    ensures NamesIn(cluster + [e]) == NamesIn(cluster)
  {
    hide Pick;
    PickMeans(NamesIn(cluster));
    assert (cluster + [e])[..|cluster|] == cluster;
  }

  // A cluster's event stays when the cluster grows exactly if nothing it grows by adds to the event.
  lemma {:induction false} GrowingKeepsEvent(cluster: seq<Event>, more: seq<Event>)
    requires IsRun(cluster + more) && AllNamed(cluster + more) && cluster != []
    ensures Merge(cluster + more) == Merge(cluster) <==> AllAddNothing(Merge(cluster), more)
    decreases |more|
  {
    hide Merge, AddsNothing, Named;
    if Merge(cluster + more) == Merge(cluster) {
      forall i | 0 <= i < |more|
        ensures AddsNothing(Merge(cluster), more[i])
      {
        MemberAddsNothing(cluster + more, |cluster| + i);
      }
    }
    if AllAddNothing(Merge(cluster), more) {
      if more == [] {
        assert cluster + more == cluster;
      } else {
        var front := more[..|more| - 1];
        RunPrefix(cluster + more, |cluster + front|);
        assert (cluster + more)[..|cluster + front|] == cluster + front;
        assert cluster + more == (cluster + front) + [more[|more| - 1]];
        GrowingKeepsEvent(cluster, front);
        JoiningNothing(cluster + front, more[|more| - 1]);
      }
    }
  }

  lemma RunPrefix(cluster: seq<Event>, n: nat)
    requires IsRun(cluster) && AllNamed(cluster) && 0 < n <= |cluster|
    ensures IsRun(cluster[..n]) && AllNamed(cluster[..n])
  {
    hide Named;
  }

  // No member adds anything to the event of its own cluster.
  lemma MemberAddsNothing(cluster: seq<Event>, i: nat)
    requires IsRun(cluster) && AllNamed(cluster) && i < |cluster|
    ensures AddsNothing(Merge(cluster), cluster[i])
  {
    hide Merge, Named, NamesIn, FirstPriority;
    MergeMeans(cluster);
    forall n | 0 <= n < |cluster[i].names|
      ensures cluster[i].names[n] in Merge(cluster).names
    {
      NamesInMeans(cluster, cluster[i].names[n]);
    }
  }

  // The kept events of a sorted past are all still kept, and first, when later sweeps arrive.
  ghost predicate StaysKept(past: seq<Event>, future: seq<Event>) {
    Deduplicated(past) <= Deduplicated(past + future)
  }

  // What a caller can look at: the sweeps that join the last cluster of the past, and its event.
  ghost predicate NothingAdded(past: seq<Event>, future: seq<Event>) {
    past == [] ||
      var groups := Groups(past);
      groups != [] && groups[|groups| - 1] != []
      && AllAddNothing(Merge(groups[|groups| - 1]), Continuation(groups[|groups| - 1], future))
  }

  /** Exactly when the pass is causal: what was kept of a past stays, whatever comes later, if and only if no
      later sweep that joins the past's last cluster has a better level than its event, a name the event
      lacks, or an extreme beyond the event's. */
  lemma StaysKeptIff(past: seq<Event>, future: seq<Event>)
    requires AllNamed(past + future) && Sorted(past + future, Before)
    ensures StaysKept(past, future) <==> NothingAdded(past, future)
  {
    hide Groups, Merge, Before, Named, IsRun, Sort, AllAddNothing, Continuation;
    assert forall i :: 0 <= i < |past| ==> (past + future)[i] == past[i];
    SortIdentity(past + future, Before);
    SortIdentity(past, Before);
    GroupsNotEmpty(past);
    GroupsNotEmpty(past + future);
    if past != [] {
      LastGroupContinues(past, future);
      var groups, all, last := Groups(past), Groups(past + future), |Groups(past)| - 1;
      forall k | 0 <= k < last
        ensures all[k] == groups[k]
      {
        assert all[..last][k] == groups[..last][k];
      }
      ClustersOf(past + future, last);
      GrowingKeepsEvent(groups[last], Continuation(groups[last], future));
      PrefixByLast(MergeAll(groups), MergeAll(all));
    } else {
      assert Deduplicated(past) == [] by { NothingKept(); }
    }
  }

  lemma PrefixByLast<T>(a: seq<T>, b: seq<T>)
    requires 0 < |a| <= |b| && forall k :: 0 <= k < |a| - 1 ==> a[k] == b[k]
    ensures a <= b <==> a[|a| - 1] == b[|a| - 1]
  {
  }

  lemma NothingKept()
    ensures Deduplicated([]) == []
  {
  }

  /** The same for one more sweep: it joins the last cluster, or it does not. */
  lemma NextSweepStaysKeptIff(past: seq<Event>, e: Event)
    requires past != [] && AllNamed(past + [e]) && Sorted(past + [e], Before)
    ensures var last := Groups(past)[|Groups(past)| - 1];
      last != [] && (StaysKept(past, [e]) <==> !Joins(last, e) || AddsNothing(Merge(last), e))
  {
    hide Groups, Merge, Joins, AddsNothing, Named, Before, StaysKept;
    PastHasGroups(past);
    GroupsNotEmpty(past);
    StaysKeptIff(past, [e]);
    var groups := Groups(past);
    ContinuationOfOne(groups[|groups| - 1], e);
  }

  lemma ContinuationOfOne(cluster: seq<Event>, e: Event)
    ensures Continuation(cluster, [e]) == if Joins(cluster, e) then [e] else []
  {
    hide Joins;
    assert Continuation(cluster + [e], []) == [];
  }

  /******* Any events, and any moment *******/

  // The sweeps known by a moment, in the order they were given.
  function KnownBy(events: seq<Event>, until: int): seq<Event> {
    Filter(events, (e: Event) => e.sweepAt <= until)
  }

  /** For any events and any moment: deduplicating what was known by then gives the first of the events that
      are kept in the end, if and only if nothing that came later adds to the last of them. */
  lemma DeduplicationIsCausalIff(events: seq<Event>, until: int)
    requires AllNamed(events)
    ensures var (sorted, known) := (Sort(events, Before), KnownBy(Sort(events, Before), until));
      && |known| <= |sorted|
      && (Deduplicated(KnownBy(events, until)) <= Deduplicated(events) <==> NothingAdded(known, sorted[|known|..]))
  {
    hide Sort, Groups, Merge, Before, Named, NothingAdded, Filter;
    var p := (e: Event) => e.sweepAt <= until;
    var sorted := Sort(events, Before);
    BeforeIsTotalPreorder();
    SortSorts(events, Before);
    SortFilter(events, p, Before);
    KnownIsPrefix(sorted, until);
    var known := KnownBy(sorted, until);
    assert sorted == known + sorted[|known|..];
    forall i | 0 <= i < |sorted|
      ensures Named(sorted[i])
    {
      assert sorted[i] in events;
    }
    assert forall i :: 0 <= i < |known| ==> sorted[i] == known[i];
    StaysKeptIff(known, sorted[|known|..]);
    SortIdentity(known, Before);
    SortIdentity(sorted, Before);
  }

  lemma {:induction false} KnownIsPrefix(sorted: seq<Event>, until: int)
    requires Sorted(sorted, Before)
    ensures var known := KnownBy(sorted, until); |known| <= |sorted| && known == sorted[..|known|]
    ensures forall i :: |KnownBy(sorted, until)| <= i < |sorted| ==> sorted[i].sweepAt > until
  {
    if sorted != [] {
      var front, last := sorted[..|sorted| - 1], sorted[|sorted| - 1];
      KnownIsPrefix(front, until);
      assert forall i :: 0 <= i < |front| ==> Before(sorted[i], last);
      assert forall i :: 0 <= i < |front| ==> sorted[i] == front[i];
    }
  }

  /** The pass is not causal: a later sweep can move the extreme, and the time, of a kept event. */
  lemma LaterSweepChangesKeptEvent(first: Event, later: Event)
    requires Named(first) && Named(later) && first.direction == later.direction
    requires first.sweepAt < later.sweepAt <= first.sweepAt + STEP
    requires FirstPriority(later) < FirstPriority(first)
    ensures Deduplicated([first]) == [first]
    ensures |Deduplicated([first, later])| == 1 && Deduplicated([first, later])[0].sweepAt == later.sweepAt
  {
    hide Named, Merge, Deduplicated;
    RunIsMerged([first]);
    RunIsMerged([first, later]);
    MergeAlone(first);
    ChosenOfTwo(first, later);
  }

  lemma ChosenOfTwo(first: Event, later: Event)
    requires FirstPriority(later) < FirstPriority(first)
    ensures Merge([first, later]).sweepAt == later.sweepAt
  {
    hide FirstPriority, Pick, NamesIn;
    var both := [first, later];
    assert both[..1] == [first] && both[1] == later;
    assert Chosen([first]) == first;
    assert Chosen(both) == later;
  }

  lemma RunIsMerged(run: seq<Event>)
    requires Sorted(run, Before) && IsRun(run)
    ensures Deduplicated(run) == [Merge(run)]
  {
    hide Merge, IsRun, Before, Groups, Sort;
    SortIdentity(run, Before);
    GroupsOfOneRun(run);
  }

  lemma GroupsOfOneRun(cluster: seq<Event>)
    requires IsRun(cluster)
    ensures Groups(cluster) == [cluster]
  {
    assert Flat([cluster][..0]) == [];
    assert Flat([cluster]) == cluster;
    MaximalRunsAreUnique([cluster]);
  }
}
