/**
 One day of the sweep study: every level's sweep, the deduplication of a day's sweeps, and the stages of those
 that are kept; and exactly when none of it looks ahead.
 */
module SweepStudy {
  import opened Options
  import opened StableSort
  import opened SweepDetector
  import opened SweepClusters

  datatype Day = Day(levels: seq<Level>, contract: Contract, latest: int)

  // The raw sweeps, in the order of the levels.
  function Sweeps(bars: seq<Bar>, levels: seq<Level>, contract: Contract, latest: int): seq<Event> {
    if levels == [] then []
    else
      var (rest, event) := (Sweeps(bars, levels[..|levels| - 1], contract, latest),
                            Detect(bars, levels[|levels| - 1], contract, latest));
      if event.Some? then rest + [event.value] else rest
  }

  function RawOf(bars: seq<Bar>, day: Day): seq<Event> {
    Sweeps(bars, day.levels, day.contract, day.latest)
  }

  function Kept(bars: seq<Bar>, day: Day): seq<Event> {
    Deduplicated(RawOf(bars, day))
  }

  // An event as the detector reports it: its time is that of its bar, and no stage is attached.
  ghost predicate IsRaw(e: Event, bars: seq<Bar>) {
    Unconfirmed(e, bars) && e.sweepAt == bars[e.sweep].availableAt
  }

  lemma {:induction false} SweepsAreRaw(bars: seq<Bar>, levels: seq<Level>, contract: Contract, latest: int)
    requires TimesIncrease(bars)
    ensures AllNamed(Sweeps(bars, levels, contract, latest))
    ensures forall e :: e in Sweeps(bars, levels, contract, latest) ==> IsRaw(e, bars)
  {
    hide Detect, Rank;
    if levels != [] {
      SweepsAreRaw(bars, levels[..|levels| - 1], contract, latest);
      ReportedIsRaw(bars, levels[|levels| - 1], contract, latest);
    }
  }

  lemma ReportedIsRaw(bars: seq<Bar>, level: Level, contract: Contract, latest: int)
    requires TimesIncrease(bars)
    ensures var r := Detect(bars, level, contract, latest); r.Some? ==> IsRaw(r.value, bars) && Named(r.value)
  {
    hide Detect, PenetratedAt, Reclaims, AtrBefore, Penetrates, PriorMove;
    SweepIsSound(bars, level, contract, latest);
  }

  // A kept event is a raw one but for its names and its extreme.
  lemma KeptAreRaw(bars: seq<Bar>, day: Day, k: nat)
    requires TimesIncrease(bars) && k < |Kept(bars, day)|
    ensures IsRaw(Kept(bars, day)[k], bars)
  {
    hide Sweeps, Groups, Sort, Merge, IsRun, Named, IsRaw, Before;
    var raw := RawOf(bars, day);
    SweepsAreRaw(bars, day.levels, day.contract, day.latest);
    GroupsNotEmpty(Sort(raw, Before));
    var cluster := Groups(Sort(raw, Before))[k];
    ClustersOf(raw, k);
    MergeMeans(cluster);
    var m := Merge(cluster);
    var i: nat :| IsBest(cluster, i) && m == cluster[i].(names := m.names, extreme := m.extreme);
    ClusterMembers(raw, k, cluster[i]);
    RenamedIsRaw(cluster[i], m, bars);
  }

  lemma ClusterMembers(events: seq<Event>, k: nat, e: Event)
    requires k < |Groups(Sort(events, Before))| && e in Groups(Sort(events, Before))[k]
    ensures e in events
  {
    hide Groups, Sort, Before;
    BeforeIsTotalPreorder();
    SortSorts(events, Before);
    GroupsAreMaximalRuns(Sort(events, Before));
    InFlat(Groups(Sort(events, Before)), e);
  }

  lemma RenamedIsRaw(e: Event, m: Event, bars: seq<Bar>)
    requires IsRaw(e, bars) && m == e.(names := m.names, extreme := m.extreme)
    ensures IsRaw(m, bars)
  {
  }

  /******* The day *******/

  function Study(bars: seq<Bar>, day: Day): seq<Event>
    requires TimesIncrease(bars)
  {
    seq(|Kept(bars, day)|, k requires 0 <= k < |Kept(bars, day)| =>
      KeptAreRaw(bars, day, k);
      Attach(Kept(bars, day)[k], bars, day.contract))
  }

  method StudyDay(bars: seq<Bar>, day: Day) returns (events: seq<Event>)
    requires TimesIncrease(bars)
    ensures events == Study(bars, day)
  {
    hide Detect, Attach, TimesIncrease, IsRaw;
    var raw: seq<Event> := [];
    for i := 0 to |day.levels|
      invariant raw == Sweeps(bars, day.levels[..i], day.contract, day.latest)
    {
      assert day.levels[..i + 1][..i] == day.levels[..i];
      var event := DetectLevelSweep(bars, day.levels[i], day.contract, day.latest);
      if event.Some? {
        raw := raw + [event.value];
      }
    }
    assert day.levels[..|day.levels|] == day.levels;
    var kept := Deduplicate(raw);
    events := [];
    for k := 0 to |kept|
      invariant |events| == k && forall j :: 0 <= j < k ==> events[j] == Study(bars, day)[j]
    {
      RawInRange(bars, day, k);
      var event := AttachConfirmations(kept[k], bars, day.contract);
      events := events + [event];
    }
  }

  lemma RawInRange(bars: seq<Bar>, day: Day, k: nat)
    requires TimesIncrease(bars) && k < |Kept(bars, day)|
    ensures Kept(bars, day)[k].penetration <= |bars|
  {
    hide Kept, TimesIncrease;
    KeptAreRaw(bars, day, k);
  }

  /** The raw sweeps are those the detector finds at some level, one for each level where it finds one. */
  lemma {:induction false} SweepsAreFound(bars: seq<Bar>, levels: seq<Level>, contract: Contract, latest: int)
    ensures forall e :: e in Sweeps(bars, levels, contract, latest) <==>
      exists k :: 0 <= k < |levels| && Detect(bars, levels[k], contract, latest) == Some(e)
    ensures |Sweeps(bars, levels, contract, latest)| == |set k | 0 <= k < |levels| && Detect(bars, levels[k], contract, latest).Some?|
  {
    hide Detect;
    if levels != [] {
      var front, last := levels[..|levels| - 1], |levels| - 1;
      SweepsAreFound(bars, front, contract, latest);
      assert forall k :: 0 <= k < last ==> front[k] == levels[k];
      var (all, fewer) := (set k | 0 <= k < |levels| && Detect(bars, levels[k], contract, latest).Some?,
                           set k | 0 <= k < last && Detect(bars, front[k], contract, latest).Some?);
      assert all == if Detect(bars, levels[last], contract, latest).Some? then fewer + {last} else fewer;
    }
  }

  /** The signals of a day: for each event that is kept and each stage, the bar that the stage asks for, if any. */
  lemma SignalsOfDay(bars: seq<Bar>, day: Day, k: nat, stage: Stage, i: nat)
    requires TimesIncrease(bars) && k < |Kept(bars, day)|
    ensures |Study(bars, day)| == |Kept(bars, day)| && Unconfirmed(Kept(bars, day)[k], bars)
    ensures StageIndex(Study(bars, day)[k], stage) == Some(i) <==> IsSignal(Kept(bars, day)[k], bars, day.contract, stage, i)
  {
    hide Kept, Attach, IsSignal, TimesIncrease, StageIndex;
    KeptAreRaw(bars, day, k);
    SignalIff(Kept(bars, day)[k], bars, day.contract, stage, i);
  }

  /******* No look-ahead *******/

  lemma SweepKnown(bars: seq<Bar>, n: nat, e: Event)
    requires TimesIncrease(bars) && 0 < n <= |bars| && IsRaw(e, bars)
    ensures e.sweep < n <==> e.sweepAt <= bars[n - 1].availableAt
  {
    assert e.sweep < n - 1 ==> bars[e.sweep].availableAt < bars[n - 1].availableAt;
    assert e.sweep > n - 1 ==> bars[n - 1].availableAt < bars[e.sweep].availableAt;
  }

  /** The raw sweeps of the first n bars are those of the whole day that were known by the n-th. */
  lemma {:induction false} SweepsAreCausal(bars: seq<Bar>, n: nat, levels: seq<Level>, contract: Contract, latest: int)
    requires TimesIncrease(bars) && 0 < n <= |bars|
    ensures Sweeps(bars[..n], levels, contract, latest) == KnownBy(Sweeps(bars, levels, contract, latest), bars[n - 1].availableAt)
  {
    hide Detect, TimesIncrease, IsRaw;
    if levels != [] {
      var front, level := levels[..|levels| - 1], levels[|levels| - 1];
      SweepsAreCausal(bars, n, front, contract, latest);
      SweepIsCausal(bars, n, level, contract, latest);
      ReportedIsRaw(bars, level, contract, latest);
      var r := Detect(bars, level, contract, latest);
      if r.Some? {
        SweepKnown(bars, n, r.value);
        FilterAppend(Sweeps(bars, front, contract, latest), r.value, (e: Event) => e.sweepAt <= bars[n - 1].availableAt);
      }
    }
  }

  lemma {:induction false} FlatConcat<T>(a: seq<seq<T>>, b: seq<seq<T>>)
    ensures Flat(a + b) == Flat(a) + Flat(b)
  {
    if b == [] {
      assert a + b == a;
    } else {
      var front, last := b[..|b| - 1], b[|b| - 1];
      FlatConcat(a, front);
      FlatAppend(a + front, last);
      FlatAppend(front, last);
      assert a + b == (a + front) + [last] && b == front + [last];
    }
  }

  // The clusters of the past, as they are in the end, hold at least the past.
  lemma PastClusters(past: seq<Event>, future: seq<Event>)
    ensures |Groups(past)| <= |Groups(past + future)|
    ensures past <= Flat(Groups(past + future)[..|Groups(past)|])
  {
    hide Groups, Continuation;
    var groups, all := Groups(past), Groups(past + future);
    if past == [] {
      NoGroups();
    } else {
      LastGroupContinues(past, future);
      GroupsAreMaximalRuns(past);
      var front, last := groups[..|groups| - 1], groups[|groups| - 1];
      var tail := Continuation(last, future);
      assert all[..|groups|] == front + [last + tail];
      assert groups == front + [last];
      FlatAppend(front, last + tail);
      FlatAppend(front, last);
      assert Flat(all[..|groups|]) == past + tail;
    }
  }

  // Clusters behind the last one of the past hold only later events.
  lemma LaterClusters(past: seq<Event>, future: seq<Event>, j: nat, e: Event)
    requires |Groups(past)| <= j < |Groups(past + future)| && e in Groups(past + future)[j]
    ensures e in future
  {
    hide Groups, Flat;
    var all, m := Groups(past + future), |Groups(past)|;
    PastClusters(past, future);
    GroupsAreMaximalRuns(past + future);
    FlatConcat(all[..m], all[m..]);
    assert all == all[..m] + all[m..];
    assert all[j] == all[m..][j - m];
    InFlat(all[m..], e);
    BehindPrefix(past, future, Flat(all[..m]), Flat(all[m..]), e);
  }

  lemma BehindPrefix<T>(past: seq<T>, future: seq<T>, front: seq<T>, rest: seq<T>, e: T)
    requires past + future == front + rest && past <= front && e in rest
    ensures e in future
  {
    var i :| 0 <= i < |rest| && rest[i] == e;
    assert (front + rest)[|front| + i] == e;
    assert (past + future)[|front| + i] == future[|front| + i - |past|];
  }

  lemma NoGroups()
    ensures Groups([]) == []
  {
  }

  // Merged from known events, an event is known; from later ones, it is not.
  lemma MergedKnown(events: seq<Event>, until: int, k: nat)
    requires AllNamed(events) && k < |Deduplicated(events)|
    ensures (forall e :: e in Groups(Sort(events, Before))[k] ==> e.sweepAt <= until) ==> Deduplicated(events)[k].sweepAt <= until
    ensures (forall e :: e in Groups(Sort(events, Before))[k] ==> e.sweepAt > until) ==> Deduplicated(events)[k].sweepAt > until
  {
    hide Groups, Sort, Merge, IsRun, Named, Before;
    GroupsNotEmpty(Sort(events, Before));
    ClustersOf(events, k);
    MergedBetween(Groups(Sort(events, Before))[k]);
  }

  lemma KeptAreSorted(events: seq<Event>)
    requires AllNamed(events)
    ensures Sorted(Deduplicated(events), Before)
  {
    hide Deduplicated, Before, AllNamed;
    var kept := Deduplicated(events);
    forall k | 0 < k < |kept|
      ensures Before(kept[k - 1], kept[k])
    {
      KeptAreApart(events, k);
    }
    AdjacentSorted(kept);
  }

  /** For any events and any moment: what is kept of the events known by then is what is known by then of the
      events kept in the end, if and only if nothing that came later adds to the last of them. */
  lemma KeptIsCausalIff(events: seq<Event>, until: int)
    requires AllNamed(events)
    ensures var (sorted, known) := (Sort(events, Before), KnownBy(Sort(events, Before), until));
      && |known| <= |sorted|
      && (Deduplicated(KnownBy(events, until)) == KnownBy(Deduplicated(events), until) <==> NothingAdded(known, sorted[|known|..]))
  {
    hide Sort, Groups, Merge, Before, Named, NothingAdded, Filter, Deduplicated;
    DeduplicationIsCausalIff(events, until);
    KeptAreSorted(events);
    KnownIsPrefix(Deduplicated(events), until);
    var early, kept := Deduplicated(KnownBy(events, until)), Deduplicated(events);
    if early <= kept {
      EarlyAreTheKnown(events, until);
      var known := KnownBy(kept, until);
      assert |known| == |early|;
      assert known == early;
    }
  }

  // If what is kept early comes first in the end, it is exactly what is known of it.
  lemma EarlyAreTheKnown(events: seq<Event>, until: int)
    requires AllNamed(events) && Deduplicated(KnownBy(events, until)) <= Deduplicated(events)
    ensures |KnownBy(Deduplicated(events), until)| == |Deduplicated(KnownBy(events, until))|
  {
    hide Sort, Groups, Merge, Before, Named, Filter, Deduplicated;
    var early, kept := Deduplicated(KnownBy(events, until)), Deduplicated(events);
    EarlyAreKnown(events, until);
    LateAreLater(events, until);
    KeptAreSorted(events);
    KnownIsPrefix(kept, until);
    var known := KnownBy(kept, until);
    forall i | 0 <= i < |known|
      ensures kept[i].sweepAt <= until
    {
      assert known[i] == kept[i] && known[i] in known;
      FilterHas(kept, (e: Event) => e.sweepAt <= until, known[i]);
    }
    forall i | 0 <= i < |early|
      ensures kept[i].sweepAt <= until
    {
      assert early[i] == kept[i];
    }
    SameCut(kept, |early|, |known|, until);
  }

  lemma SameCut(kept: seq<Event>, a: nat, b: nat, until: int)
    requires a <= |kept| && b <= |kept|
    requires forall i :: 0 <= i < a ==> kept[i].sweepAt <= until
    requires forall i :: a <= i < |kept| ==> kept[i].sweepAt > until
    requires forall i :: 0 <= i < b ==> kept[i].sweepAt <= until
    requires forall i :: b <= i < |kept| ==> kept[i].sweepAt > until
    ensures a == b
  {
    var least := if a <= b then a else b;
    assert least < |kept| ==> kept[least].sweepAt <= until || kept[least].sweepAt > until;
  }

  lemma EarlyAreKnown(events: seq<Event>, until: int)
    requires AllNamed(events)
    ensures var early := Deduplicated(KnownBy(events, until));
      forall k :: 0 <= k < |early| ==> early[k].sweepAt <= until
  {
    hide Sort, Groups, Merge, Before, Named, Filter, Deduplicated;
    var known := KnownBy(events, until);
    KnownAreNamed(events, until);
    forall k | 0 <= k < |Deduplicated(known)|
      ensures Deduplicated(known)[k].sweepAt <= until
    {
      KeptCount(known);
      forall e | e in Groups(Sort(known, Before))[k]
        ensures e.sweepAt <= until
      {
        ClusterMembers(known, k, e);
        FilterHas(events, (e: Event) => e.sweepAt <= until, e);
      }
      MergedKnown(known, until, k);
    }
  }

  lemma KnownAreNamed(events: seq<Event>, until: int)
    requires AllNamed(events)
    ensures AllNamed(KnownBy(events, until))
  {
    hide Named, Filter;
    var known := KnownBy(events, until);
    forall i | 0 <= i < |known|
      ensures Named(known[i])
    {
      FilterHas(events, (e: Event) => e.sweepAt <= until, known[i]);
      assert known[i] in events;
    }
  }

  lemma KeptCount(events: seq<Event>)
    ensures |Deduplicated(events)| == |Groups(Sort(events, Before))|
  {
    hide Sort, Groups, Merge;
    GroupsNotEmpty(Sort(events, Before));
  }

  lemma LateAreLater(events: seq<Event>, until: int)
    requires AllNamed(events)
    ensures forall j :: |Deduplicated(KnownBy(events, until))| <= j < |Deduplicated(events)| ==> Deduplicated(events)[j].sweepAt > until
  {
    hide Sort, Groups, Merge, Before, Named, Filter, Deduplicated;
    var p := (e: Event) => e.sweepAt <= until;
    var sorted := Sort(events, Before);
    BeforeIsTotalPreorder();
    SortSorts(events, Before);
    SortFilter(events, p, Before);
    KnownIsPrefix(sorted, until);
    var past := KnownBy(sorted, until);
    var future := sorted[|past|..];
    assert sorted == past + future;
    KeptCount(KnownBy(events, until));
    KeptCount(events);
    forall j | |Groups(past)| <= j < |Groups(sorted)|
      ensures Deduplicated(events)[j].sweepAt > until
    {
      forall e | e in Groups(sorted)[j]
        ensures e.sweepAt > until
      {
        LaterClusters(past, future, j, e);
        var i :| 0 <= i < |future| && future[i] == e;
        assert sorted[|past| + i] == e;
      }
      MergedKnown(events, until, j);
    }
  }

  /** Exactly when a day's study does not look ahead: what is kept of the first n bars is what is known by then
      of what is kept in the end, if and only if no sweep of a later bar adds to the last event kept by then. */
  lemma StudyIsCausalIff(bars: seq<Bar>, n: nat, day: Day)
    requires TimesIncrease(bars) && 0 < n <= |bars|
    ensures var until := bars[n - 1].availableAt;
      var sorted := Sort(RawOf(bars, day), Before);
      var known := KnownBy(sorted, until);
      && |known| <= |sorted|
      && (Kept(bars[..n], day) == KnownBy(Kept(bars, day), until) <==> NothingAdded(known, sorted[|known|..]))
  {
    hide Sort, Before, NothingAdded, Filter, Deduplicated, TimesIncrease, AllNamed, IsRaw, Sweeps;
    SweepsAreRaw(bars, day.levels, day.contract, day.latest);
    SweepsAreCausal(bars, n, day.levels, day.contract, day.latest);
    KeptIsCausalIff(RawOf(bars, day), bars[n - 1].availableAt);
  }

  lemma PrefixIncreases(bars: seq<Bar>, n: nat)
    requires TimesIncrease(bars) && n <= |bars|
    ensures TimesIncrease(bars[..n])
  {
  }

  // What is known of the final events comes first among them.
  lemma KnownComesFirst(bars: seq<Bar>, n: nat, day: Day, k: nat)
    requires TimesIncrease(bars) && 0 < n <= |bars| && k < |Kept(bars, day)|
    ensures var (kept, known) := (Kept(bars, day), KnownBy(Kept(bars, day), bars[n - 1].availableAt));
      && IsRaw(kept[k], bars) && |known| <= |kept|
      && (k < |known| ==> known[k] == kept[k] && kept[k].sweep < n)
      && (k >= |known| ==> kept[k].sweep >= n)
  {
    hide Deduplicated, Filter, TimesIncrease, IsRaw, AllNamed, Before, Sweeps;
    var kept, until := Kept(bars, day), bars[n - 1].availableAt;
    var known := KnownBy(kept, until);
    KeptAreRaw(bars, day, k);
    SweepsAreRaw(bars, day.levels, day.contract, day.latest);
    KeptAreSorted(RawOf(bars, day));
    KnownIsPrefix(kept, until);
    SweepKnown(bars, n, kept[k]);
    if k < |known| {
      assert known[k] in known;
      FilterHas(kept, (e: Event) => e.sweepAt <= until, known[k]);
    }
  }

  lemma StagesFollowSweep(e: Event, bars: seq<Bar>, contract: Contract, n: nat, stage: Stage)
    requires Unconfirmed(e, bars) && e.sweep >= n
    ensures Below(StageIndex(Attach(e, bars, contract), stage), n).None?
  {
    hide Attach;
    SweepStays(e, bars, contract);
    StagesAreOrdered(e, bars, contract);
  }

  lemma SweepStays(e: Event, bars: seq<Bar>, contract: Contract)
    requires Unconfirmed(e, bars)
    ensures Attach(e, bars, contract).sweep == e.sweep
  {
    hide FindMss, FindDisplacement, FindGap, FindRetrace, GapEdges, PriorMove, Reference;
  }

  /** And then every signal is causal: for each stage, the signals up to bar n of the whole day's events are
      those the first n bars give, event by event, and none is missing or new. */
  lemma SignalsAreCausal(bars: seq<Bar>, n: nat, day: Day, k: nat, stage: Stage)
    requires TimesIncrease(bars) && 0 < n <= |bars| && k < |Study(bars, day)|
    requires Kept(bars[..n], day) == KnownBy(Kept(bars, day), bars[n - 1].availableAt)
    ensures TimesIncrease(bars[..n])
      && |Study(bars[..n], day)| <= |Study(bars, day)|
      && Below(StageIndex(Study(bars, day)[k], stage), n) ==
           if k < |Study(bars[..n], day)| then StageIndex(Study(bars[..n], day)[k], stage) else None
  {
    hide Kept, TimesIncrease, Attach, StageIndex, Filter;
    PrefixIncreases(bars, n);
    var e := Kept(bars, day)[k];
    KnownComesFirst(bars, n, day, k);
    if k < |Kept(bars[..n], day)| {
      AttachIsCausal(e, bars, day.contract, n, stage);
    } else {
      StagesFollowSweep(e, bars, day.contract, n, stage);
    }
  }
}
