/**
 Five-minute bars from the replay's samples, and the forward paths attached after scoring.
 */
module FiveMinuteBars {
  import opened Options
  import opened Reals
  import opened QuoteReplay
  import opened StableSort
  import opened SortedSets

  datatype Bar = Bar(start: int, end: int, open: real, high: real, low: real, close: real, count: nat,
                     maxGap: int, leading: int, trailing: int, provider: Provider, rth: bool,
                     gapBefore: bool, ok: bool)

  // Production limits and the market calendar, imported by the replay and not modelled.
  datatype Limits = Limits(minSamples: nat, maxGap: int, maxEdge: int)

  type Calendar = int -> bool

  /******* Buckets *******/

  predicate InBucket(s: Sample, start: int) {
    FiveMinuteStart(s.point.source) == start && s.tick <= start + FIVE_MINUTES
  }

  function BucketOf(samples: seq<Sample>, start: int): seq<Sample> {
    if samples == [] then []
    else
      var (front, last) := (BucketOf(samples[..|samples| - 1], start), samples[|samples| - 1]);
      if InBucket(last, start) then front + [last] else front
  }

  function StartSet(samples: seq<Sample>): set<int> {
    set s | s in samples && InBucket(s, FiveMinuteStart(s.point.source)) :: FiveMinuteStart(s.point.source)
  }

  /******* Sorting *******/

  predicate RowBefore(a: Sample, b: Sample) {
    a.point.source < b.point.source || (a.point.source == b.point.source && a.tick <= b.tick)
  }

  function SortRows(rows: seq<Sample>): seq<Sample> {
    Sort(rows, RowBefore)
  }

  lemma SortRowsKeeps(rows: seq<Sample>)
    ensures |SortRows(rows)| == |rows| && forall s :: s in SortRows(rows) <==> s in rows
    ensures forall i, j :: 0 <= i < j < |rows| ==> RowBefore(SortRows(rows)[i], SortRows(rows)[j])
  {
    assert TotalPreorder(RowBefore);
    SortSorts(rows, RowBefore);
  }

  // Rows in increasing source order, as the sampler produces them, stay as they are.
  lemma SortRowsIdentity(rows: seq<Sample>)
    requires WellSampled(rows)
    ensures SortRows(rows) == rows
  {
    SortIdentity(rows, RowBefore);
  }

  /******* One bar *******/

  function Prices(rows: seq<Sample>): (prices: seq<real>)
    ensures |prices| == |rows| && forall i :: 0 <= i < |rows| ==> prices[i] == rows[i].point.price
  {
    seq(|rows|, i requires 0 <= i < |rows| => rows[i].point.price)
  }

  // The gap between a row and its predecessor.
  function GapAt(rows: seq<Sample>, i: nat): int
    requires 0 < i < |rows|
  {
    rows[i].point.source - rows[i - 1].point.source
  }

  function MaxGap(rows: seq<Sample>): int {
    if |rows| <= 1 then 0
    else if |rows| == 2 then GapAt(rows, 1)
    else Max(MaxGap(rows[..|rows| - 1]), GapAt(rows, |rows| - 1))
  }

  function GapSum(rows: seq<Sample>): int {
    if |rows| <= 1 then 0 else GapSum(rows[..|rows| - 1]) + GapAt(rows, |rows| - 1)
  }

  function CountOf(rows: seq<Sample>, provider: Provider): nat {
    |set i | 0 <= i < |rows| && rows[i].point.provider == provider|
  }

  predicate Outranks(rows: seq<Sample>, p: Provider, q: Provider) {
    CountOf(rows, p) > CountOf(rows, q) || (CountOf(rows, p) == CountOf(rows, q) && p.order >= q.order)
  }

  // The provider with the most rows; among equals, the last by name.
  function TopProvider(all: seq<Sample>, rows: seq<Sample>): Provider
    requires rows != []
  {
    if |rows| == 1 then rows[0].point.provider
    else
      var (best, p) := (TopProvider(all, rows[..|rows| - 1]), rows[|rows| - 1].point.provider);
      if Outranks(all, best, p) then best else p
  }

  function MakeBar(start: int, bucket: seq<Sample>, limits: Limits, isRth: Calendar): Bar
    requires bucket != []
  {
    SortRowsKeeps(bucket);
    var rows := SortRows(bucket);
    var leading := rows[0].point.source - start;
    var trailing := start + FIVE_MINUTES - rows[|rows| - 1].point.source;
    var ok := |rows| >= limits.minSamples && MaxGap(rows) <= limits.maxGap
              && 0 <= leading <= limits.maxEdge && 0 <= trailing <= limits.maxEdge;
    Bar(start, start + FIVE_MINUTES, rows[0].point.price, Highest(Prices(rows)), Lowest(Prices(rows)), rows[|rows| - 1].point.price,
        |rows|, MaxGap(rows), leading, trailing, TopProvider(rows, rows), isRth(start), false, ok)
  }

  /******* All bars *******/

  lemma {:induction false} BucketMembers(samples: seq<Sample>, start: int)
    ensures forall s :: s in BucketOf(samples, start) <==> s in samples && InBucket(s, start)
  {
    if samples != [] {
      BucketMembers(samples[..|samples| - 1], start);
      assert samples == samples[..|samples| - 1] + [samples[|samples| - 1]];
    }
  }

  lemma StartHasBucket(samples: seq<Sample>, start: int)
    ensures start in StartSet(samples) <==> BucketOf(samples, start) != []
  {
    BucketMembers(samples, start);
    if start in StartSet(samples) {
      var s :| s in samples && InBucket(s, FiveMinuteStart(s.point.source)) && FiveMinuteStart(s.point.source) == start;
      assert s in BucketOf(samples, start);
    }
    assert BucketOf(samples, start) != [] ==> BucketOf(samples, start)[0] in BucketOf(samples, start);
  }

  function BarAt(samples: seq<Sample>, start: int, limits: Limits, isRth: Calendar): Bar
    requires start in StartSet(samples)
  {
    StartHasBucket(samples, start);
    MakeBar(start, BucketOf(samples, start), limits, isRth)
  }

  // A bar follows a gap unless the previous bar is the one just before it and is ok.
  function WithGap(bars: seq<Bar>, i: nat): Bar
    requires i < |bars|
  {
    bars[i].(gapBefore := i > 0 && (bars[i].start != bars[i - 1].start + FIVE_MINUTES || !bars[i - 1].ok))
  }

  function Provisional(samples: seq<Sample>, limits: Limits, isRth: Calendar): seq<Bar> {
    var starts := SortedInts(StartSet(samples));
    SortedIntsMembers(StartSet(samples));
    seq(|starts|, i requires 0 <= i < |starts| => assert starts[i] in starts; BarAt(samples, starts[i], limits, isRth))
  }

  function Bars(samples: seq<Sample>, limits: Limits, isRth: Calendar): seq<Bar> {
    var bars := Provisional(samples, limits, isRth);
    seq(|bars|, i requires 0 <= i < |bars| => WithGap(bars, i))
  }

  method BarsFromSamples(samples: seq<Sample>, limits: Limits, isRth: Calendar) returns (result: seq<Bar>)
    ensures result == Bars(samples, limits, isRth)
  {
    hide Provisional;
    var provisional := ProvisionalBars(samples, limits, isRth);
    result := [];
    var previous: Option<Bar> := None;
    for i := 0 to |provisional|
      invariant |result| == i && forall k :: 0 <= k < i ==> result[k] == WithGap(provisional, k)
      invariant previous.Some? <==> i > 0
      invariant i > 0 ==> previous.value.start == provisional[i - 1].start && previous.value.ok == provisional[i - 1].ok
    {
      var bar := provisional[i];
      bar := bar.(gapBefore := previous.Some?
                               && (bar.start != previous.value.start + FIVE_MINUTES || !previous.value.ok));
      result := result + [bar];
      previous := Some(bar);
    }
  }

  method ProvisionalBars(samples: seq<Sample>, limits: Limits, isRth: Calendar) returns (provisional: seq<Bar>)
    ensures provisional == Provisional(samples, limits, isRth)
  {
    hide MakeBar, StartSet, BucketOf;
    var buckets := Bucketed(samples);
    var starts := SortedInts(buckets.Keys);
    SortedIntsMembers(buckets.Keys);
    provisional := [];
    for i := 0 to |starts|
      invariant |provisional| == i
      invariant forall k :: 0 <= k < i ==> starts[k] in StartSet(samples) && provisional[k] == BarAt(samples, starts[k], limits, isRth)
    {
      assert starts[i] in starts;
      StartHasBucket(samples, starts[i]);
      provisional := provisional + [MakeBar(starts[i], buckets[starts[i]], limits, isRth)];
    }
  }

  method Bucketed(samples: seq<Sample>) returns (buckets: map<int, seq<Sample>>)
    ensures buckets.Keys == StartSet(samples)
    ensures forall start :: start in buckets ==> buckets[start] == BucketOf(samples, start)
  {
    buckets := map[];
    for i := 0 to |samples|
      invariant buckets.Keys == StartSet(samples[..i])
      invariant forall start :: start in buckets ==> buckets[start] == BucketOf(samples[..i], start)
    {
      var s := samples[i];
      var start := FiveMinuteStart(s.point.source);
      assert samples[..i + 1][..i] == samples[..i];
      StartHasBucket(samples[..i], start);
      if s.tick <= start + FIVE_MINUTES {
        buckets := buckets[start := (if start in buckets then buckets[start] else []) + [s]];
      }
      assert samples[..i + 1] == samples[..i] + [s];
    }
    assert samples[..|samples|] == samples;
  }

  /******* No look-ahead *******/

  function BarsUntil(bars: seq<Bar>, until: int): seq<Bar> {
    if bars == [] then []
    else
      var (front, last) := (BarsUntil(bars[..|bars| - 1], until), bars[|bars| - 1]);
      if last.end <= until then front + [last] else front
  }

  lemma {:induction false} BarsUntilPrefix(bars: seq<Bar>, count: nat, until: int)
    requires count <= |bars|
    requires forall i :: 0 <= i < count ==> bars[i].end <= until
    requires forall i :: count <= i < |bars| ==> bars[i].end > until
    ensures BarsUntil(bars, until) == bars[..count]
  {
    if bars != [] {
      var front := bars[..|bars| - 1];
      if count == |bars| {
        BarsUntilPrefix(front, |front|, until);
      } else {
        BarsUntilPrefix(front, count, until);
      }
    }
  }

  // A bar that ends by T is built from samples taken by T.
  lemma {:induction false} BucketFromSamplesUntil(samples: seq<Sample>, start: int, until: int)
    requires start + FIVE_MINUTES <= until
    ensures BucketOf(SamplesUntil(samples, until), start) == BucketOf(samples, start)
  {
    if samples != [] {
      var front, last := samples[..|samples| - 1], samples[|samples| - 1];
      BucketFromSamplesUntil(front, start, until);
      if last.tick <= until {
        assert (SamplesUntil(front, until) + [last])[..|SamplesUntil(front, until)|] == SamplesUntil(front, until);
      }
    }
  }

  lemma StartsAgree(a: seq<Sample>, b: seq<Sample>, until: int)
    requires SamplesUntil(a, until) == SamplesUntil(b, until)
    ensures UpTo(StartSet(a), until - FIVE_MINUTES) == UpTo(StartSet(b), until - FIVE_MINUTES)
  {
    forall start | start <= until - FIVE_MINUTES
      ensures start in StartSet(a) <==> start in StartSet(b)
    {
      BucketFromSamplesUntil(a, start, until);
      BucketFromSamplesUntil(b, start, until);
      StartHasBucket(a, start);
      StartHasBucket(b, start);
    }
  }

  lemma ProvisionalAgree(a: seq<Sample>, b: seq<Sample>, limits: Limits, isRth: Calendar, until: int, i: nat)
    requires SamplesUntil(a, until) == SamplesUntil(b, until)
    requires i < |SortedInts(UpTo(StartSet(a), until - FIVE_MINUTES))|
    ensures i < |Provisional(a, limits, isRth)| && i < |Provisional(b, limits, isRth)|
    ensures Provisional(a, limits, isRth)[i] == Provisional(b, limits, isRth)[i]
    ensures Provisional(a, limits, isRth)[i].end <= until
  {
    var low := UpTo(StartSet(a), until - FIVE_MINUTES);
    StartsAgree(a, b, until);
    SortedPrefix(StartSet(a), until - FIVE_MINUTES);
    SortedPrefix(StartSet(b), until - FIVE_MINUTES);
    SortedIntsMembers(low);
    var start := SortedInts(low)[i];
    assert start in SortedInts(low);
    assert SortedInts(StartSet(a))[i] == start && SortedInts(StartSet(b))[i] == start;
    BucketFromSamplesUntil(a, start, until);
    BucketFromSamplesUntil(b, start, until);
  }

  // The bars that end by T are the first ones, as many as there are started buckets that old.
  lemma BarsUntilIsPrefix(samples: seq<Sample>, limits: Limits, isRth: Calendar, until: int)
    ensures var count := |SortedInts(UpTo(StartSet(samples), until - FIVE_MINUTES))|;
      count <= |Bars(samples, limits, isRth)| && BarsUntil(Bars(samples, limits, isRth), until) == Bars(samples, limits, isRth)[..count]
  {
    var count := |SortedInts(UpTo(StartSet(samples), until - FIVE_MINUTES))|;
    var starts := SortedInts(StartSet(samples));
    SortedPrefix(StartSet(samples), until - FIVE_MINUTES);
    var bars := Bars(samples, limits, isRth);
    forall i | 0 <= i < |bars|
      ensures bars[i].end == starts[i] + FIVE_MINUTES
    {
    }
    forall i | 0 <= i < count
      ensures bars[i].end <= until
    {
      ProvisionalAgree(samples, samples, limits, isRth, until, i);
    }
    BarsUntilPrefix(bars, count, until);
  }

  /** Bars that end by T, with their gap flags, depend only on the samples taken by T. */
  lemma NoLookAheadInBars(a: seq<Sample>, b: seq<Sample>, limits: Limits, isRth: Calendar, until: int)
    requires SamplesUntil(a, until) == SamplesUntil(b, until)
    ensures BarsUntil(Bars(a, limits, isRth), until) == BarsUntil(Bars(b, limits, isRth), until)
  {
    hide Provisional, StartSet, UpTo, SortedInts, SamplesUntil, BarsUntil;
    StartsAgree(a, b, until);
    BarsUntilIsPrefix(a, limits, isRth, until);
    BarsUntilIsPrefix(b, limits, isRth, until);
    var count := |SortedInts(UpTo(StartSet(a), until - FIVE_MINUTES))|;
    forall i | 0 <= i < count
      ensures Bars(a, limits, isRth)[i] == Bars(b, limits, isRth)[i]
    {
      ProvisionalAgree(a, b, limits, isRth, until, i);
      if i > 0 {
        ProvisionalAgree(a, b, limits, isRth, until, i - 1);
      }
    }
  }

  /** The whole replay is causal: bars that end by T depend only on quotes received by T. */
  lemma NoLookAhead(a: seq<Point>, b: seq<Point>, ticks: seq<int>, limits: Limits, isRth: Calendar, until: int)
    requires Increasing(ticks) && AgreeUntil(a, b, until)
    ensures BarsUntil(Bars(EsSamples(a, ticks), limits, isRth), until) == BarsUntil(Bars(EsSamples(b, ticks), limits, isRth), until)
  {
    NoLookAheadInSamples(a, b, ticks, until);
    NoLookAheadInBars(EsSamples(a, ticks), EsSamples(b, ticks), limits, isRth, until);
  }

  /******* Coverage and conservation *******/

  // The inner gaps add up to the time between the first and the last row.
  lemma {:induction false} GapsTelescope(rows: seq<Sample>)
    requires rows != []
    ensures GapSum(rows) == rows[|rows| - 1].point.source - rows[0].point.source
  {
    if |rows| > 1 {
      GapsTelescope(rows[..|rows| - 1]);
    }
  }

  lemma {:induction false} MaxGapBounds(rows: seq<Sample>, i: nat)
    requires 0 < i < |rows|
    ensures GapAt(rows, i) <= MaxGap(rows)
  {
    if |rows| > 2 && i < |rows| - 1 {
      MaxGapBounds(rows[..|rows| - 1], i);
    }
  }

  lemma {:induction false} TopProviderWins(all: seq<Sample>, rows: seq<Sample>)
    requires rows != []
    ensures forall s :: s in rows ==> Outranks(all, TopProvider(all, rows), s.point.provider)
  {
    if |rows| > 1 {
      TopProviderWins(all, rows[..|rows| - 1]);
      assert rows == rows[..|rows| - 1] + [rows[|rows| - 1]];
    }
  }

  /** A bar's gaps cover its five minutes, open and close lie between low and high, and the named
      provider has the most rows. */
  lemma BarCoverage(start: int, bucket: seq<Sample>, limits: Limits, isRth: Calendar)
    requires bucket != []
    ensures var (bar, rows) := (MakeBar(start, bucket, limits, isRth), SortRows(bucket));
      && bar.leading + GapSum(rows) + bar.trailing == FIVE_MINUTES
      && bar.low <= bar.open <= bar.high && bar.low <= bar.close <= bar.high
      && (exists s :: s in bucket && s.point.price == bar.high) && (exists s :: s in bucket && s.point.price == bar.low)
      && bar.count == |bucket|
      && forall s :: s in bucket ==> bar.low <= s.point.price <= bar.high && Outranks(rows, bar.provider, s.point.provider)
  {
    var rows := SortRows(bucket);
    SortRowsKeeps(bucket);
    GapsTelescope(rows);
    TopProviderWins(rows, rows);
    var prices := Prices(rows);
    ExtremesOf(prices);
    var top :| 0 <= top < |prices| && prices[top] == Highest(prices);
    var bottom :| 0 <= bottom < |prices| && prices[bottom] == Lowest(prices);
    assert rows[top] in bucket && rows[bottom] in bucket;
    forall s | s in bucket
      ensures Lowest(prices) <= s.point.price <= Highest(prices) && s in rows
    {
      var i :| 0 <= i < |rows| && rows[i] == s;
      assert prices[i] == s.point.price;
    }
  }

  // The samples of a bucket stay in their order.
  lemma {:induction false} BucketIsWellSampled(samples: seq<Sample>, start: int)
    requires WellSampled(samples)
    ensures WellSampled(BucketOf(samples, start))
    ensures forall s :: s in BucketOf(samples, start) ==> s in samples
  {
    if samples != [] {
      var front, last := samples[..|samples| - 1], samples[|samples| - 1];
      assert WellSampled(front) by {
        assert forall s :: s in front ==> s in samples;
      }
      BucketIsWellSampled(front, start);
      assert last in samples;
      forall s | s in BucketOf(front, start)
        ensures s in samples && s.point.source < last.point.source && s.tick < last.tick
      {
        assert s in front;
        var i :| 0 <= i < |front| && front[i] == s;
        assert samples[i] == s;
      }
    }
  }

  /** A bar of the replay opens at its first sample, in the order they were taken, and closes at its last. */
  lemma BarOpensFirstClosesLast(samples: seq<Sample>, start: int, limits: Limits, isRth: Calendar)
    requires WellSampled(samples) && start in StartSet(samples)
    ensures var (bucket, bar) := (BucketOf(samples, start), BarAt(samples, start, limits, isRth));
      && bucket != [] && bar.open == bucket[0].point.price && bar.close == bucket[|bucket| - 1].point.price
      && bar.leading == bucket[0].point.source - start
      && bar.trailing == start + FIVE_MINUTES - bucket[|bucket| - 1].point.source
  {
    hide Sort, WellSampled, BucketOf, StartSet, MaxGap, TopProvider, Highest, Lowest, Prices;
    StartHasBucket(samples, start);
    BucketIsWellSampled(samples, start);
    SortRowsIdentity(BucketOf(samples, start));
  }

  lemma {:induction false} MaxGapAttained(rows: seq<Sample>)
    ensures |rows| <= 1 ==> MaxGap(rows) == 0
    ensures |rows| > 1 ==> exists i :: 0 < i < |rows| && GapAt(rows, i) == MaxGap(rows)
  {
    if |rows| == 2 {
      assert GapAt(rows, 1) == MaxGap(rows);
    } else if |rows| > 2 {
      var front := rows[..|rows| - 1];
      MaxGapAttained(front);
      var i :| 0 < i < |front| && GapAt(front, i) == MaxGap(front);
      assert GapAt(rows, i) == GapAt(front, i);
      assert GapAt(rows, if MaxGap(front) >= GapAt(rows, |rows| - 1) then i else |rows| - 1) == MaxGap(rows);
    }
  }

  /** The bars of the replay come in order of time, one for each five minutes that hold a sample. */
  lemma BarsAreTheStarts(samples: seq<Sample>, limits: Limits, isRth: Calendar, start: int)
    ensures var bars := Bars(samples, limits, isRth);
      && (forall i, j :: 0 <= i < j < |bars| ==> bars[i].start < bars[j].start)
      && ((exists i :: 0 <= i < |bars| && bars[i].start == start) <==> exists s :: s in samples && InBucket(s, start))
  {
    hide SortedInts, WithGap, BarAt, StartSet, InBucket, BucketOf;
    var (bars, starts) := (Bars(samples, limits, isRth), SortedInts(StartSet(samples)));
    BarStarts(samples, limits, isRth);
    SortedIntsIncrease(StartSet(samples));
    SortedIntsMembers(StartSet(samples));
    StartHasSample(samples, start);
    if start in starts {
      var i :| 0 <= i < |starts| && starts[i] == start;
      assert bars[i].start == start;
    }
    if i :| 0 <= i < |bars| && bars[i].start == start {
      assert starts[i] in starts;
    }
  }

  lemma StartHasSample(samples: seq<Sample>, start: int)
    ensures start in StartSet(samples) <==> exists s :: s in samples && InBucket(s, start)
  {
    if s :| s in samples && InBucket(s, start) {
      assert InBucket(s, FiveMinuteStart(s.point.source));
    }
  }

  /** Each field of a bar of the replay, read off its samples in the order they were taken, and its gap flag,
      read off the bar before it. */
  lemma BarMeans(samples: seq<Sample>, limits: Limits, isRth: Calendar, i: nat)
    requires WellSampled(samples) && i < |Bars(samples, limits, isRth)|
    ensures var bars := Bars(samples, limits, isRth);
      var (bar, bucket) := (bars[i], BucketOf(samples, bars[i].start));
      && bucket != [] && bar.end == bar.start + FIVE_MINUTES && bar.count == |bucket| && bar.rth == isRth(bar.start)
      && bar.open == bucket[0].point.price && bar.close == bucket[|bucket| - 1].point.price
      && bar.leading == bucket[0].point.source - bar.start && bar.trailing == bar.end - bucket[|bucket| - 1].point.source
      && (|bucket| == 1 ==> bar.maxGap == 0)
      && (|bucket| > 1 ==> exists k :: 0 < k < |bucket| && GapAt(bucket, k) == bar.maxGap)
      && (forall k :: 0 < k < |bucket| ==> GapAt(bucket, k) <= bar.maxGap)
      && (forall s :: s in bucket ==> bar.low <= s.point.price <= bar.high && Outranks(bucket, bar.provider, s.point.provider))
      && (exists s :: s in bucket && s.point.price == bar.high) && (exists s :: s in bucket && s.point.price == bar.low)
      && (bar.ok <==> && bar.count >= limits.minSamples && bar.maxGap <= limits.maxGap
                      && 0 <= bar.leading <= limits.maxEdge && 0 <= bar.trailing <= limits.maxEdge)
      && (bar.gapBefore <==> i > 0 && (bars[i - 1].end != bar.start || !bars[i - 1].ok))
  {
    hide SortedInts, StartSet, BucketOf, WellSampled, MakeBar;
    var starts := SortedInts(StartSet(samples));
    SortedIntsMembers(StartSet(samples));
    BarStarts(samples, limits, isRth);
    assert starts[i] in starts;
    BucketBar(samples, starts[i], limits, isRth);
  }

  lemma BucketBar(samples: seq<Sample>, start: int, limits: Limits, isRth: Calendar)
    requires WellSampled(samples) && start in StartSet(samples)
    ensures var (bar, bucket) := (BarAt(samples, start, limits, isRth), BucketOf(samples, start));
      && bucket != [] && bar.start == start && bar.end == start + FIVE_MINUTES && bar.count == |bucket| && bar.rth == isRth(start)
      && bar.open == bucket[0].point.price && bar.close == bucket[|bucket| - 1].point.price
      && bar.leading == bucket[0].point.source - start && bar.trailing == bar.end - bucket[|bucket| - 1].point.source
      && (|bucket| == 1 ==> bar.maxGap == 0)
      && (|bucket| > 1 ==> exists k :: 0 < k < |bucket| && GapAt(bucket, k) == bar.maxGap)
      && (forall k :: 0 < k < |bucket| ==> GapAt(bucket, k) <= bar.maxGap)
      && (forall s :: s in bucket ==> bar.low <= s.point.price <= bar.high && Outranks(bucket, bar.provider, s.point.provider))
      && (exists s :: s in bucket && s.point.price == bar.high) && (exists s :: s in bucket && s.point.price == bar.low)
      && (bar.ok <==> && bar.count >= limits.minSamples && bar.maxGap <= limits.maxGap
                      && 0 <= bar.leading <= limits.maxEdge && 0 <= bar.trailing <= limits.maxEdge)
      && !bar.gapBefore
  {
    hide Sort, WellSampled, BucketOf, StartSet, MaxGap, TopProvider, Highest, Lowest, Prices, Outranks, GapAt;
    StartHasBucket(samples, start);
    BucketIsWellSampled(samples, start);
    var bucket := BucketOf(samples, start);
    SortRowsIdentity(bucket);
    BarCoverage(start, bucket, limits, isRth);
    MaxGapAttained(bucket);
    forall k | 0 < k < |bucket|
      ensures GapAt(bucket, k) <= MaxGap(bucket)
    {
      MaxGapBounds(bucket, k);
    }
  }

  // The first row at or after a time.
  lemma FirstAtOrAfter(rows: seq<Sample>, at: int) returns (i: nat)
    ensures i <= |rows|
    ensures forall k :: 0 <= k < i ==> rows[k].point.source < at
    ensures i < |rows| ==> rows[i].point.source >= at
  {
    i := 0;
    while i < |rows| && rows[i].point.source < at
      invariant i <= |rows| && forall k :: 0 <= k < i ==> rows[k].point.source < at
    {
      i := i + 1;
    }
  }

  /** An ok bar has no stretch longer than the larger gap limit without a sample. */
  lemma OkBarHasNoHole(start: int, bucket: seq<Sample>, limits: Limits, isRth: Calendar, from: int, to: int)
    requires bucket != [] && MakeBar(start, bucket, limits, isRth).ok
    requires start <= from <= to <= start + FIVE_MINUTES
    requires to - from > Max(limits.maxGap, limits.maxEdge)
    ensures exists s :: s in bucket && from <= s.point.source <= to
  {
    var rows := SortRows(bucket);
    SortRowsKeeps(bucket);
    var i := FirstAtOrAfter(rows, from);
    if 0 < i < |rows| {
      MaxGapBounds(rows, i);
    }
    assert i < |rows| && from <= rows[i].point.source <= to;
    assert rows[i] in bucket;
  }

  /** Every sample of the replay lands in exactly one bar, the one its source time falls in. */
  lemma EverySampleInOneBar(samples: seq<Sample>, limits: Limits, isRth: Calendar, s: Sample)
    requires WellSampled(samples) && s in samples
    ensures var bars := Bars(samples, limits, isRth);
      exists i :: 0 <= i < |bars| && bars[i].start <= s.point.source < bars[i].end && s in BucketOf(samples, bars[i].start)
        && forall j :: 0 <= j < |bars| && s in BucketOf(samples, bars[j].start) ==> j == i
  {
    hide SortedInts, WithGap, MakeBar, BucketOf, WellSampled;
    var start := FiveMinuteStart(s.point.source);
    var starts := SortedInts(StartSet(samples));
    SampleStarts(samples, s);
    SortedIntsMembers(StartSet(samples));
    assert start in starts;
    var i :| 0 <= i < |starts| && starts[i] == start;
    BucketMembers(samples, start);
    BarStarts(samples, limits, isRth);
    var bars := Bars(samples, limits, isRth);
    forall j | 0 <= j < |bars| && s in BucketOf(samples, bars[j].start)
      ensures j == i
    {
      BucketMembers(samples, bars[j].start);
      StartsDiffer(samples, i, j);
    }
  }

  lemma SampleStarts(samples: seq<Sample>, s: Sample)
    requires WellSampled(samples) && s in samples
    ensures FiveMinuteStart(s.point.source) in StartSet(samples) && InBucket(s, FiveMinuteStart(s.point.source))
  {
  }

  lemma BarStarts(samples: seq<Sample>, limits: Limits, isRth: Calendar)
    ensures var (bars, starts) := (Bars(samples, limits, isRth), SortedInts(StartSet(samples)));
      && |bars| == |starts|
      && forall i :: 0 <= i < |bars| ==> bars[i].start == starts[i] && bars[i].end == starts[i] + FIVE_MINUTES
  {
    hide SortedInts, StartSet, BucketOf;
  }

  lemma StartsDiffer(samples: seq<Sample>, i: nat, j: nat)
    requires i < |SortedInts(StartSet(samples))| && j < |SortedInts(StartSet(samples))|
    ensures SortedInts(StartSet(samples))[i] == SortedInts(StartSet(samples))[j] ==> i == j
  {
    hide SortedInts, StartSet;
    SortedIntsIncrease(StartSet(samples));
  }

  /******* Forward paths *******/

  datatype ForwardPath =
    | OriginMissing
    | TargetMissing
    | Path(ready: bool, endpoint: real, high: real, low: real, observed: nat, expected: nat)

  function Highs(bars: seq<Bar>): (highs: seq<real>)
    ensures |highs| == |bars| && forall i :: 0 <= i < |bars| ==> highs[i] == bars[i].high
  {
    seq(|bars|, i requires 0 <= i < |bars| => bars[i].high)
  }

  function Lows(bars: seq<Bar>): (lows: seq<real>)
    ensures |lows| == |bars| && forall i :: 0 <= i < |bars| ==> lows[i] == bars[i].low
  {
    seq(|bars|, i requires 0 <= i < |bars| => bars[i].low)
  }

  // The ends of the ok bars after the origin, up to the target.
  function PathEnds(byEnd: map<int, Bar>, origin: int, target: int): set<int> {
    set end | end in byEnd && origin < end <= target && byEnd[end].ok
  }

  // The bars at the given ends, earliest first.
  function BarsAt(byEnd: map<int, Bar>, ends: set<int>): seq<Bar>
    requires ends <= byEnd.Keys
    decreases |ends|
  {
    if ends == {} then []
    else
      MinExists(ends);
      var m :| m in ends && IsMin(m, ends);
      [byEnd[m]] + BarsAt(byEnd, ends - {m})
  }

  lemma {:induction false} BarsAtMembers(byEnd: map<int, Bar>, ends: set<int>)
    requires ends <= byEnd.Keys
    ensures |BarsAt(byEnd, ends)| == |ends|
    ensures forall e :: e in ends ==> byEnd[e] in BarsAt(byEnd, ends)
    decreases |ends|
  {
    if ends != {} {
      MinExists(ends);
      var m :| m in ends && IsMin(m, ends);
      BarsAtMembers(byEnd, ends - {m});
    }
  }

  function PathBars(byEnd: map<int, Bar>, origin: int, target: int): seq<Bar> {
    BarsAt(byEnd, PathEnds(byEnd, origin, target))
  }

  lemma TargetOnPath(byEnd: map<int, Bar>, origin: int, target: int)
    requires origin < target && target in byEnd && byEnd[target].ok
    ensures byEnd[target] in PathBars(byEnd, origin, target)
  {
    BarsAtMembers(byEnd, PathEnds(byEnd, origin, target));
  }

  function Forward(byEnd: map<int, Bar>, origin: Option<int>, horizon: nat): ForwardPath
    requires horizon > 0
  {
    if origin.None? || origin.value !in byEnd || !byEnd[origin.value].ok then OriginMissing
    else
      var target := origin.value + horizon * 60 * SECOND;
      if target !in byEnd || !byEnd[target].ok then TargetMissing
      else
        var path := PathBars(byEnd, origin.value, target);
        TargetOnPath(byEnd, origin.value, target);
        var close := byEnd[origin.value].close;
        Path(|path| == horizon / 5, byEnd[target].close - close, Highest(Highs(path)) - close, Lowest(Lows(path)) - close,
             |path|, horizon / 5)
  }

  // The bar ends a complete path of n bars would have.
  function Slots(origin: int, n: nat): set<int> {
    if n == 0 then {} else Slots(origin, n - 1) + {origin + n * FIVE_MINUTES}
  }

  lemma {:induction false} SlotsBelow(origin: int, n: nat)
    ensures forall e :: e in Slots(origin, n) ==> e <= origin + n * FIVE_MINUTES
  {
    if n > 0 {
      SlotsBelow(origin, n - 1);
      NextSlot(n);
    }
  }

  lemma NextSlot(n: nat)
    requires n > 0
    ensures (n - 1) * FIVE_MINUTES + FIVE_MINUTES == n * FIVE_MINUTES
  {
  }

  lemma {:induction false} SlotsCount(origin: int, n: nat)
    ensures |Slots(origin, n)| == n
  {
    if n > 0 {
      SlotsCount(origin, n - 1);
      SlotsBelow(origin, n - 1);
      NextSlot(n);
      assert origin + n * FIVE_MINUTES !in Slots(origin, n - 1);
    }
  }

  lemma {:induction false} SlotsHave(origin: int, n: nat, k: nat)
    requires 1 <= k <= n
    ensures origin + k * FIVE_MINUTES in Slots(origin, n)
  {
    if k < n {
      SlotsHave(origin, n - 1, k);
    }
  }

  lemma {:induction false} GridInSlots(origin: int, n: nat, e: int)
    requires origin < e <= origin + n * FIVE_MINUTES && e % FIVE_MINUTES == 0 && origin % FIVE_MINUTES == 0
    ensures e in Slots(origin, n)
  {
    if e <= origin + (n - 1) * FIVE_MINUTES {
      GridInSlots(origin, n - 1, e);
    }
  }

  lemma {:induction false} SubsetOfSameSize<T>(a: set<T>, b: set<T>)
    requires a <= b
    ensures |a| <= |b| && (|a| == |b| <==> a == b)
  {
    assert b == a + (b - a);
    assert |b| == |a| + |b - a|;
  }

  lemma BarWithinPath(bars: seq<Bar>, bar: Bar)
    requires bar in bars
    ensures Lowest(Lows(bars)) <= bar.low && bar.high <= Highest(Highs(bars))
  {
    var i :| 0 <= i < |bars| && bars[i] == bar;
    ExtremesOf(Highs(bars));
    ExtremesOf(Lows(bars));
    assert Highs(bars)[i] == bar.high && Lows(bars)[i] == bar.low;
  }

  lemma {:induction false} BarsAtOnly(byEnd: map<int, Bar>, ends: set<int>)
    requires ends <= byEnd.Keys
    ensures forall b :: b in BarsAt(byEnd, ends) ==> exists e :: e in ends && byEnd[e] == b
    decreases |ends|
  {
    if ends != {} {
      MinExists(ends);
      var m :| m in ends && IsMin(m, ends);
      BarsAtOnly(byEnd, ends - {m});
      assert m in ends;
    }
  }

  /** What a forward path is: missing exactly if the bar at its origin or its target is missing or not ok; else the
      close at the target, and the extremes of the ok bars behind the origin up to it, all from the origin's close. */
  lemma ForwardMeans(byEnd: map<int, Bar>, origin: Option<int>, horizon: nat)
    requires horizon > 0
    ensures var path := Forward(byEnd, origin, horizon);
      && (path.OriginMissing? <==> origin.None? || origin.value !in byEnd || !byEnd[origin.value].ok)
      && (path.TargetMissing? <==> !path.OriginMissing? && (origin.value + horizon * 60 * SECOND !in byEnd
                                                            || !byEnd[origin.value + horizon * 60 * SECOND].ok))
      && (path.Path? ==>
            var (target, close) := (origin.value + horizon * 60 * SECOND, byEnd[origin.value].close);
            var ends := PathEnds(byEnd, origin.value, target);
            && path.endpoint == byEnd[target].close - close
            && (forall e :: e in ends ==> path.low <= byEnd[e].low - close && byEnd[e].high - close <= path.high)
            && (exists e :: e in ends && path.high == byEnd[e].high - close)
            && (exists e :: e in ends && path.low == byEnd[e].low - close)
            && path.observed == |ends| && path.expected == horizon / 5 && (path.ready <==> |ends| == horizon / 5))
  {
    hide BarsAt, Highest, Lowest;
    var path := Forward(byEnd, origin, horizon);
    if path.Path? {
      var target := origin.value + horizon * 60 * SECOND;
      var ends := PathEnds(byEnd, origin.value, target);
      var bars := BarsAt(byEnd, ends);
      BarsAtMembers(byEnd, ends);
      BarsAtOnly(byEnd, ends);
      TargetOnPath(byEnd, origin.value, target);
      ExtremesOf(Highs(bars));
      ExtremesOf(Lows(bars));
      forall e | e in ends
        ensures Lowest(Lows(bars)) <= byEnd[e].low && byEnd[e].high <= Highest(Highs(bars))
      {
        BarWithinPath(bars, byEnd[e]);
      }
      var i :| 0 <= i < |bars| && Highs(bars)[i] == Highest(Highs(bars));
      var j :| 0 <= j < |bars| && Lows(bars)[j] == Lowest(Lows(bars));
      assert bars[i] in bars && bars[j] in bars;
    }
  }

  /** With bar ends on the five-minute grid, a path never has more bars than the horizon holds, is
      ready exactly when every slot up to the target holds an ok bar, and brackets its endpoint. */
  lemma ForwardPathComplete(byEnd: map<int, Bar>, origin: int, horizon: nat)
    requires horizon > 0 && horizon % 5 == 0
    requires forall end :: end in byEnd ==>
               end % FIVE_MINUTES == 0 && byEnd[end].low <= byEnd[end].close <= byEnd[end].high
    requires Forward(byEnd, Some(origin), horizon).Path?
    ensures var path := Forward(byEnd, Some(origin), horizon);
      && path.observed <= path.expected == horizon / 5
      && path.low <= path.endpoint <= path.high
      && (path.ready <==> forall k :: 1 <= k <= horizon / 5 ==>
            origin + k * FIVE_MINUTES in byEnd && byEnd[origin + k * FIVE_MINUTES].ok)
  {
    hide BarsAt, Slots, Highest, Lowest;
    var n, target := horizon / 5, origin + horizon * 60 * SECOND;
    assert target == origin + n * FIVE_MINUTES;
    BarsAtMembers(byEnd, PathEnds(byEnd, origin, target));
    PathCount(byEnd, origin, n);
    TargetOnPath(byEnd, origin, target);
    BarWithinPath(PathBars(byEnd, origin, target), byEnd[target]);
  }

  // The ends of a path are among its slots, and all of them exactly if they are as many.
  lemma PathCount(byEnd: map<int, Bar>, origin: int, n: nat)
    requires forall end :: end in byEnd ==> end % FIVE_MINUTES == 0
    requires origin % FIVE_MINUTES == 0
    ensures var ends := PathEnds(byEnd, origin, origin + n * FIVE_MINUTES);
      && |ends| <= n
      && (|ends| == n <==> forall k :: 1 <= k <= n ==> origin + k * FIVE_MINUTES in byEnd && byEnd[origin + k * FIVE_MINUTES].ok)
  {
    var ends := PathEnds(byEnd, origin, origin + n * FIVE_MINUTES);
    SlotsCount(origin, n);
    forall e | e in ends
      ensures e in Slots(origin, n)
    {
      GridInSlots(origin, n, e);
    }
    SubsetOfSameSize(ends, Slots(origin, n));
    forall k | 1 <= k <= n
      ensures origin + k * FIVE_MINUTES in Slots(origin, n)
    {
      SlotsHave(origin, n, k);
    }
    if forall k :: 1 <= k <= n ==> origin + k * FIVE_MINUTES in byEnd && byEnd[origin + k * FIVE_MINUTES].ok {
      SlotsAreEnds(byEnd, origin, n, n);
    }
  }

  lemma {:induction false} SlotsAreEnds(byEnd: map<int, Bar>, origin: int, n: nat, all: nat)
    requires n <= all
    requires forall k :: 1 <= k <= all ==> origin + k * FIVE_MINUTES in byEnd && byEnd[origin + k * FIVE_MINUTES].ok
    ensures Slots(origin, n) <= PathEnds(byEnd, origin, origin + all * FIVE_MINUTES)
  {
    if n > 0 {
      SlotsAreEnds(byEnd, origin, n - 1, all);
    }
  }

  lemma BarAtOnGrid(samples: seq<Sample>, start: int, limits: Limits, isRth: Calendar)
    requires start in StartSet(samples)
    ensures var bar := BarAt(samples, start, limits, isRth);
      bar.end == start + FIVE_MINUTES && bar.end % FIVE_MINUTES == 0 && bar.low <= bar.close <= bar.high
  {
    hide StartSet, FiveMinuteStart;
    StartHasBucket(samples, start);
    StartOnGrid(samples, start);
    BarCoverage(start, BucketOf(samples, start), limits, isRth);
  }

  lemma StartOnGrid(samples: seq<Sample>, start: int)
    requires start in StartSet(samples)
    ensures (start + FIVE_MINUTES) % FIVE_MINUTES == 0
  {
    var s :| s in samples && FiveMinuteStart(s.point.source) == start;
    assert start % FIVE_MINUTES == 0;
  }

  // The bars of the replay meet those conditions.
  lemma ReplayBarsOnGrid(samples: seq<Sample>, limits: Limits, isRth: Calendar, i: nat)
    requires i < |Bars(samples, limits, isRth)|
    ensures var bar := Bars(samples, limits, isRth)[i];
      bar.end % FIVE_MINUTES == 0 && bar.low <= bar.close <= bar.high
  {
    hide BarAt, StartSet, SortedInts;
    var starts := SortedInts(StartSet(samples));
    SortedIntsMembers(StartSet(samples));
    assert starts[i] in starts;
    BarAtOnGrid(samples, starts[i], limits, isRth);
  }

  /******* Same-time range baselines *******/

  // The baseline updater is imported; any state and any update will do.
  type Updater<!State> = (State, seq<Bar>, int) -> State

  // One session: the bars outside regular hours, then each regular bar in turn.
  function SessionState<State>(state: State, prefix: seq<Bar>, regular: seq<Bar>, update: Updater<State>): State
    decreases |regular|
  {
    if regular == [] then state
    else
      var seen := prefix + [regular[0]];
      SessionState(update(state, seen, regular[0].end), seen, regular[1..], update)
  }

  predicate EndsBefore(a: Bar, b: Bar) { a.end <= b.end }

  // The bars of regular hours, by their ends, and the others as they come.
  function Regular(bars: seq<Bar>): seq<Bar> {
    Sort(Filter(bars, (bar: Bar) => bar.rth), EndsBefore)
  }

  function Irregular(bars: seq<Bar>): seq<Bar> {
    Filter(bars, (bar: Bar) => !bar.rth)
  }

  function AfterDay<State>(state: State, bars: seq<Bar>, update: Updater<State>): State {
    SessionState(state, Irregular(bars), Regular(bars), update)
  }

  lemma {:induction false} SessionSteps<State>(state: State, prefix: seq<Bar>, regular: seq<Bar>, update: Updater<State>)
    returns (states: seq<State>)
    ensures |states| == |regular| + 1 && states[0] == state && states[|regular|] == SessionState(state, prefix, regular, update)
    ensures forall k :: 0 <= k < |regular| ==> states[k + 1] == update(states[k], prefix + regular[..k + 1], regular[k].end)
    decreases |regular|
  {
    if regular == [] {
      states := [state];
    } else {
      var seen := prefix + [regular[0]];
      var rest := SessionSteps(update(state, seen, regular[0].end), seen, regular[1..], update);
      states := [state] + rest;
      assert prefix + regular[..1] == seen;
      forall k | 0 < k < |regular|
        ensures states[k + 1] == update(states[k], prefix + regular[..k + 1], regular[k].end)
      {
        assert seen + regular[1..][..k] == prefix + regular[..k + 1];
        assert rest[k - 1 + 1] == update(rest[k - 1], seen + regular[1..][..k], regular[1..][k - 1].end);
      }
    }
  }

  /** A session updates the state once for each regular bar, with every irregular bar, the regular ones up to it, and
      its end; the regular bars are taken by their ends. */
  lemma DaySteps<State>(state: State, bars: seq<Bar>, update: Updater<State>) returns (regular: seq<Bar>, states: seq<State>)
    ensures Sorted(regular, EndsBefore) && multiset(regular) == multiset(Filter(bars, (bar: Bar) => bar.rth))
    ensures |states| == |regular| + 1 && states[0] == state && states[|regular|] == AfterDay(state, bars, update)
    ensures forall k :: 0 <= k < |regular| ==>
      states[k + 1] == update(states[k], Filter(bars, (bar: Bar) => !bar.rth) + regular[..k + 1], regular[k].end)
  {
    regular := Regular(bars);
    assert TotalPreorder(EndsBefore);
    SortSorts(Filter(bars, (bar: Bar) => bar.rth), EndsBefore);
    states := SessionSteps(state, Irregular(bars), regular, update);
  }

  // The state after the days before index i.
  function StateBefore<State>(empty: State, barsByDay: seq<seq<Bar>>, i: nat, update: Updater<State>): State
    requires i <= |barsByDay|
  {
    if i == 0 then empty else AfterDay(StateBefore(empty, barsByDay, i - 1, update), barsByDay[i - 1], update)
  }

  /** The state is snapshotted before each session is added to it. */
  method AdvanceRangeBaselines<State>(empty: State, barsByDay: seq<seq<Bar>>, update: Updater<State>)
    returns (snapshots: seq<State>, state: State)
    ensures |snapshots| == |barsByDay|
    ensures forall i :: 0 <= i < |barsByDay| ==> snapshots[i] == StateBefore(empty, barsByDay, i, update)
    ensures state == StateBefore(empty, barsByDay, |barsByDay|, update)
  {
    hide AfterDay;
    snapshots, state := [], empty;
    for day := 0 to |barsByDay|
      invariant |snapshots| == day && state == StateBefore(empty, barsByDay, day, update)
      invariant forall i :: 0 <= i < day ==> snapshots[i] == StateBefore(empty, barsByDay, i, update)
    {
      snapshots := snapshots + [state];
      state := AddDay(state, barsByDay[day], update);
    }
  }

  // One session's bars are added one after the other.
  method AddDay<State>(before: State, bars: seq<Bar>, update: Updater<State>) returns (state: State)
    ensures state == AfterDay(before, bars, update)
  {
    state := before;
    var regular, prefix := Regular(bars), Irregular(bars);
    for i := 0 to |regular|
      invariant SessionState(state, prefix, regular[i..], update) == AfterDay(before, bars, update)
    {
      prefix := prefix + [regular[i]];
      state := update(state, prefix, regular[i].end);
      assert regular[i..][1..] == regular[i + 1..];
    }
  }
}
