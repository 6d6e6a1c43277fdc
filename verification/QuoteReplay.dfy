/**
 The causal replay of a quote stream: a stable sort by receipt time, a cursor that feeds a
 latest-quote table, and a freshest-quote choice at every tick.

 Times are integers (microseconds).
 */
module QuoteReplay {
  import opened Options
  import opened StableSort
  import opened SortedSets

  // A provider name, by its place in the alphabetical order of names.
  datatype Provider = Provider(order: int)

  datatype Point = Point(provider: Provider, instrument: string, source: int, received: int,
                         price: real, volume: Option<real>)

  // A sampled quote and the tick that sampled it.
  datatype Sample = Sample(tick: int, point: Point)

  // One minute of the replay: the freshest quote per instrument, and of ES per provider.
  datatype MarketRow = MarketRow(tick: int, instruments: map<string, Point>, esByProvider: map<Provider, Point>)

  const SECOND: int := 1_000_000
  const QUOTE_MAX_AGE: int := 90 * SECOND
  const FIVE_MINUTES: int := 300 * SECOND
  const IBKR: Provider := Provider(0)
  const SCHWAB: Provider := Provider(1)
  const ES: string := "future:ES"

  function FiveMinuteStart(at: int): (start: int)
    ensures start <= at < start + FIVE_MINUTES && start % FIVE_MINUTES == 0
  {
    var stamp := at / SECOND;
    (stamp - stamp % 300) * SECOND
  }

  function TickRange(first: int, final: int, step: int): (ticks: seq<int>)
    requires step > 0
  {
    var count := (final - first) / step + 1;
    if count <= 0 then [] else seq(count, i requires 0 <= i < count => first + i * step)
  }

  /** The ticks are the times between the two ends, a whole number of steps after the first, in order. */
  lemma TicksAreGrid(first: int, final: int, step: int, n: nat)
    requires step > 0
    ensures Increasing(TickRange(first, final, step))
    ensures forall t :: t in TickRange(first, final, step) ==> first <= t <= final
    ensures first + n * step <= final <==> n < |TickRange(first, final, step)|
    ensures n < |TickRange(first, final, step)| ==> TickRange(first, final, step)[n] == first + n * step
  {
    StepsFit(final - first, step, n);
    var ticks := TickRange(first, final, step);
    forall i, j | 0 <= i < j < |ticks|
      ensures ticks[i] < ticks[j]
    {
      Scaled(i, j, step);
    }
    forall i | 0 <= i < |ticks|
      ensures first <= ticks[i] <= final
    {
      Scaled(0, i, step);
      Scaled(i, (final - first) / step, step);
    }
  }

  lemma StepsFit(span: int, step: int, n: nat)
    requires step > 0
    ensures n * step <= span <==> n <= span / step
  {
    var q := span / step;
    assert q * step <= span < q * step + step;
    if n <= q {
      Scaled(n, q, step);
    } else {
      Scaled(q + 1, n, step);
      assert (q + 1) * step == q * step + step;
    }
  }

  lemma Scaled(i: int, j: int, step: int)
    requires i <= j && step > 0
    ensures i * step <= j * step && (i < j ==> i * step < j * step)
  {
  }

  /******* The latest-quote table *******/

  // A table keeps one point for each instrument and provider, in order of first insertion.
  type Latest = seq<Point>

  predicate SameKey(p: Point, q: Point) {
    p.instrument == q.instrument && p.provider == q.provider
  }

  predicate Newer(p: Point, q: Point) {
    p.source > q.source || (p.source == q.source && p.received > q.received)
  }

  function UpdateLatest(latest: Latest, point: Point): Latest {
    if latest == [] then [point]
    else if SameKey(latest[0], point) then [if Newer(point, latest[0]) then point else latest[0]] + latest[1..]
    else [latest[0]] + UpdateLatest(latest[1..], point)
  }

  function LatestAfter(events: seq<Point>): Latest {
    if events == [] then [] else UpdateLatest(LatestAfter(events[..|events| - 1]), events[|events| - 1])
  }

  function Max(a: int, b: int): int {
    if a >= b then a else b
  }

  predicate Eligible(p: Point, tick: int) {
    && p.received <= tick && p.source <= tick
    && Max(tick - p.source, tick - p.received) <= QUOTE_MAX_AGE
  }

  function TieRank(provider: Provider): int {
    if provider == IBKR then 2 else if provider == SCHWAB then 1 else 0
  }

  predicate Candidate(p: Point, instrument: string, tick: int, provider: Option<Provider>) {
    && p.instrument == instrument && (provider.None? || p.provider == provider.value)
    && Eligible(p, tick)
  }

  predicate Fresher(p: Point, q: Point) {
    p.source > q.source || (p.source == q.source && TieRank(p.provider) > TieRank(q.provider))
  }

  // The first of the freshest candidates, in table order.
  function Freshest(latest: Latest, instrument: string, tick: int, provider: Option<Provider>): Option<Point> {
    if latest == [] then None
    else
      var (best, p) := (Freshest(latest[..|latest| - 1], instrument, tick, provider), latest[|latest| - 1]);
      if !Candidate(p, instrument, tick, provider) then best
      else if best.None? || Fresher(p, best.value) then Some(p) else best
  }

  /******* The table refines a scan of everything received *******/

  predicate Distinct(latest: Latest) {
    latest != [] ==> (forall q :: q in latest[1..] ==> !SameKey(latest[0], q)) && Distinct(latest[1..])
  }

  function Entry(latest: Latest, key: Point): Option<Point> {
    if latest == [] then None
    else if SameKey(latest[0], key) then Some(latest[0])
    else Entry(latest[1..], key)
  }

  lemma {:induction false} EntryOfMember(latest: Latest, p: Point)
    requires Distinct(latest) && p in latest
    ensures Entry(latest, p) == Some(p)
  {
    if latest[0] != p {
      assert p in latest[1..];
      EntryOfMember(latest[1..], p);
    }
  }

  lemma {:induction false} EntryIsMember(latest: Latest, key: Point)
    ensures Entry(latest, key).Some? ==> Entry(latest, key).value in latest && SameKey(Entry(latest, key).value, key)
  {
    if latest != [] && !SameKey(latest[0], key) {
      EntryIsMember(latest[1..], key);
    }
  }

  lemma {:induction false} UpdateEntry(latest: Latest, point: Point, key: Point)
    ensures Entry(UpdateLatest(latest, point), key) ==
      if SameKey(key, point) then
        if Entry(latest, key).None? || Newer(point, Entry(latest, key).value) then Some(point) else Entry(latest, key)
      else Entry(latest, key)
  {
    if latest != [] && !SameKey(latest[0], point) {
      UpdateEntry(latest[1..], point, key);
    }
  }

  lemma {:induction false} UpdateStaysDistinct(latest: Latest, point: Point)
    requires Distinct(latest)
    ensures Distinct(UpdateLatest(latest, point))
    ensures forall q :: q in UpdateLatest(latest, point) ==> q == point || q in latest
  {
    if latest != [] && !SameKey(latest[0], point) {
      UpdateStaysDistinct(latest[1..], point);
    }
  }

  // The newest event of a key: an event of that key that no event of the key is newer than.
  predicate NewestOfKey(p: Point, events: seq<Point>) {
    p in events && forall q :: q in events && SameKey(p, q) ==> !Newer(q, p)
  }

  /** Each key's entry in the table is the newest event of that key, and is missing only if there is none. */
  lemma {:induction false} LatestIsNewest(events: seq<Point>, key: Point)
    ensures Distinct(LatestAfter(events))
    ensures var entry := Entry(LatestAfter(events), key);
      && (entry.Some? ==> SameKey(entry.value, key) && NewestOfKey(entry.value, events))
      && (entry.None? ==> forall q :: q in events ==> !SameKey(q, key))
  {
    if events != [] {
      var before, e := events[..|events| - 1], events[|events| - 1];
      LatestIsNewest(before, key);
      UpdateStaysDistinct(LatestAfter(before), e);
      UpdateEntry(LatestAfter(before), e, key);
      assert events == before + [e];
    }
  }

  lemma {:induction false} FreshestIsBestInTable(latest: Latest, instrument: string, tick: int, provider: Option<Provider>)
    ensures var r := Freshest(latest, instrument, tick, provider);
      && (r.None? ==> forall q :: q in latest ==> !Candidate(q, instrument, tick, provider))
      && (r.Some? ==> r.value in latest && Candidate(r.value, instrument, tick, provider))
      && (r.Some? ==> forall q :: q in latest && Candidate(q, instrument, tick, provider) ==> !Fresher(q, r.value))
  {
    if latest != [] {
      FreshestIsBestInTable(latest[..|latest| - 1], instrument, tick, provider);
      assert latest == latest[..|latest| - 1] + [latest[|latest| - 1]];
    }
  }

  // At least as fresh: by source time, then provider rank, then receipt time of one provider.
  predicate AtLeastAsFresh(p: Point, q: Point) {
    || p.source > q.source
    || (p.source == q.source && TieRank(p.provider) > TieRank(q.provider))
    || (p.source == q.source && TieRank(p.provider) == TieRank(q.provider) && (p.provider == q.provider ==> p.received >= q.received))
  }

  /** r answers a scan of all events: a freshest candidate, or none exactly if there is none. */
  predicate Answers(r: Option<Point>, events: seq<Point>, instrument: string, tick: int, provider: Option<Provider>) {
    && (r.None? ==> forall q :: q in events ==> !Candidate(q, instrument, tick, provider))
    && (r.Some? ==> r.value in events && Candidate(r.value, instrument, tick, provider))
    && (r.Some? ==> forall q :: q in events && Candidate(q, instrument, tick, provider) ==> AtLeastAsFresh(r.value, q))
  }

  // Some key's newest quote is a candidate and at least as fresh as q: nothing hides q.
  predicate Represented(q: Point, events: seq<Point>, instrument: string, tick: int, provider: Option<Provider>) {
    exists n :: n in events && NewestOfKey(n, events) && Candidate(n, instrument, tick, provider) && AtLeastAsFresh(n, q)
  }

  // Every entry of the table is the newest event of its key.
  lemma TableHoldsNewest(events: seq<Point>, p: Point)
    ensures p in LatestAfter(events) ==> NewestOfKey(p, events)
    ensures NewestOfKey(p, events) ==>
      exists e :: e in LatestAfter(events) && SameKey(e, p) && e.source == p.source && e.received == p.received
  {
    var latest := LatestAfter(events);
    LatestIsNewest(events, p);
    EntryIsMember(latest, p);
    if p in latest {
      EntryOfMember(latest, p);
    }
    if NewestOfKey(p, events) {
      var e := Entry(latest, p).value;
      assert !Newer(e, p) && !Newer(p, e);
    }
  }

  // What is at least as fresh as the best of the table is not fresher than it.
  lemma FreshnessSteps(r: Point, e: Point, q: Point)
    requires !Fresher(e, r) && AtLeastAsFresh(e, q) && (SameKey(r, q) ==> !Newer(q, r)) && r.instrument == q.instrument
    ensures AtLeastAsFresh(r, q)
  {
  }

  /** Exactly when the incrementally kept table answers the scan, for any provider or all of them: when every
      candidate is represented by the newest quote of its own key, or of another. */
  lemma FreshestIsRightIff(events: seq<Point>, instrument: string, tick: int, provider: Option<Provider>)
    ensures Answers(Freshest(LatestAfter(events), instrument, tick, provider), events, instrument, tick, provider) <==>
      forall q :: q in events && Candidate(q, instrument, tick, provider) ==> Represented(q, events, instrument, tick, provider)
  {
    hide Eligible, AtLeastAsFresh, Fresher, NewestOfKey, LatestAfter;
    var latest := LatestAfter(events);
    var r := Freshest(latest, instrument, tick, provider);
    FreshestIsBestInTable(latest, instrument, tick, provider);
    if r.Some? {
      TableHoldsNewest(events, r.value);
      NewestIsEvent(r.value, events);
    }
    forall q | q in events && Candidate(q, instrument, tick, provider) && Represented(q, events, instrument, tick, provider)
      ensures r.Some? && AtLeastAsFresh(r.value, q)
    {
      var n :| n in events && NewestOfKey(n, events) && Candidate(n, instrument, tick, provider) && AtLeastAsFresh(n, q);
      TableHoldsNewest(events, n);
      var e :| e in latest && SameKey(e, n) && e.source == n.source && e.received == n.received;
      SameTimesSameRole(e, n, q, instrument, tick, provider);
      NewestIsNotOlder(r.value, events, q);
      FreshnessSteps(r.value, e, q);
    }
  }

  lemma NewestIsEvent(p: Point, events: seq<Point>)
    ensures NewestOfKey(p, events) ==> p in events
  {
  }

  lemma NewestIsNotOlder(p: Point, events: seq<Point>, q: Point)
    requires NewestOfKey(p, events) && q in events
    ensures SameKey(p, q) ==> !Newer(q, p)
  {
  }

  lemma SameTimesSameRole(e: Point, n: Point, q: Point, instrument: string, tick: int, provider: Option<Provider>)
    requires SameKey(e, n) && e.source == n.source && e.received == n.received
    ensures Candidate(e, instrument, tick, provider) == Candidate(n, instrument, tick, provider)
    ensures AtLeastAsFresh(e, q) == AtLeastAsFresh(n, q)
  {
  }

  /** The incrementally kept table answers the scan, provided no quote is stamped after its receipt. */
  lemma FreshestRefinesScan(events: seq<Point>, instrument: string, tick: int, provider: Option<Provider>)
    requires forall e :: e in events ==> e.received <= tick
    requires forall e :: e in events && e.instrument == instrument ==> e.source <= e.received
    ensures Answers(Freshest(LatestAfter(events), instrument, tick, provider), events, instrument, tick, provider)
  {
    hide LatestAfter, Answers;
    forall q | q in events && Candidate(q, instrument, tick, provider)
      ensures Represented(q, events, instrument, tick, provider)
    {
      LatestIsNewest(events, q);
      var n := Entry(LatestAfter(events), q).value;
      assert NewestOfKey(n, events) && SameKey(n, q) && !Newer(q, n);
    }
    FreshestIsRightIff(events, instrument, tick, provider);
  }

  /** For one provider the answer is right exactly when its newest quote is eligible, or none is. */
  lemma OneProviderIsRightIff(events: seq<Point>, key: Point, tick: int)
    requires key in events
    ensures var (newest, provider) := (Entry(LatestAfter(events), key), Some(key.provider));
      newest.Some? &&
      (Answers(Freshest(LatestAfter(events), key.instrument, tick, provider), events, key.instrument, tick, provider) <==>
         Eligible(newest.value, tick) || forall q :: q in events && SameKey(q, key) ==> !Eligible(q, tick))
  {
    hide LatestAfter, Answers, Eligible;
    LatestIsNewest(events, key);
    var newest := Entry(LatestAfter(events), key).value;
    forall q | q in events && Candidate(q, key.instrument, tick, Some(key.provider))
      ensures Represented(q, events, key.instrument, tick, Some(key.provider)) <==> Eligible(newest, tick)
    {
      NewestOfOneKey(events, newest, q, tick);
    }
    FreshestIsRightIff(events, key.instrument, tick, Some(key.provider));
  }

  lemma NewestOfOneKey(events: seq<Point>, newest: Point, q: Point, tick: int)
    requires NewestOfKey(newest, events) && q in events && SameKey(newest, q)
    ensures Represented(q, events, q.instrument, tick, Some(q.provider)) <==> Eligible(newest, tick)
  {
    assert !Newer(q, newest);
  }

  /** A quote stamped three seconds ahead, which the loader admits, hides an eligible older one. */
  lemma FutureStampHidesQuote()
    ensures var older := Point(IBKR, ES, 0, 0, 1.0, None);
      var ahead := Point(IBKR, ES, 4 * SECOND, SECOND, 1.0, None);
      && ahead.source <= ahead.received + 5 * SECOND
      && Candidate(older, ES, 2 * SECOND, None)
      && Freshest(LatestAfter([older, ahead]), ES, 2 * SECOND, None) == None
  {
    var older := Point(IBKR, ES, 0, 0, 1.0, None);
    var ahead := Point(IBKR, ES, 4 * SECOND, SECOND, 1.0, None);
    assert [older, ahead][..1] == [older] && [older][..0] == [];
    assert LatestAfter([older]) == [older];
    assert LatestAfter([older, ahead]) == [ahead];
    assert [ahead][..0] == [];
  }

  /******* The stable sort by receipt time *******/

  predicate SortsBefore(p: Point, q: Point) {
    || p.received < q.received
    || (p.received == q.received && p.source < q.source)
    || (p.received == q.received && p.source == q.source && p.provider.order <= q.provider.order)
  }

  function SortEvents(points: seq<Point>): seq<Point> {
    Sort(points, SortsBefore)
  }

  lemma EventsAreSorted(points: seq<Point>)
    ensures Sorted(SortEvents(points), SortsBefore) && multiset(SortEvents(points)) == multiset(points)
    ensures forall p :: p in SortEvents(points) <==> p in points
  {
    SortsBeforeIsTotal();
    SortSorts(points, SortsBefore);
  }

  lemma SortsBeforeIsTotal()
    ensures TotalPreorder(SortsBefore)
  {
  }

  /******* What is known by a time *******/

  function Known(points: seq<Point>, until: int): seq<Point> {
    Filter(points, (p: Point) => p.received <= until)
  }

  function OfInstrument(points: seq<Point>, instrument: string): seq<Point> {
    Filter(points, (p: Point) => p.instrument == instrument)
  }

  lemma KnownAppend(points: seq<Point>, p: Point, until: int)
    ensures Known(points + [p], until) == if p.received <= until then Known(points, until) + [p] else Known(points, until)
  {
    FilterAppend(points, p, (p: Point) => p.received <= until);
  }

  lemma KnownMembers(points: seq<Point>, until: int)
    ensures forall p :: p in Known(points, until) <==> p in points && p.received <= until
  {
    forall p: Point
      ensures p in Known(points, until) <==> p in points && p.received <= until
    {
      FilterHas(points, (p: Point) => p.received <= until, p);
    }
  }

  /** Sorting and forgetting the future commute. */
  lemma KnownOfSort(points: seq<Point>, until: int)
    ensures Known(SortEvents(points), until) == SortEvents(Known(points, until))
  {
    SortsBeforeIsTotal();
    SortFilter(points, (p: Point) => p.received <= until, SortsBefore);
  }

  lemma KnownOfInstrument(points: seq<Point>, instrument: string, until: int)
    ensures Known(OfInstrument(points, instrument), until) == OfInstrument(Known(points, until), instrument)
  {
    FiltersCommute(points, (p: Point) => p.instrument == instrument, (p: Point) => p.received <= until);
  }

  lemma {:induction false} KnownEarlier(points: seq<Point>, earlier: int, later: int)
    requires earlier <= later
    ensures Known(Known(points, later), earlier) == Known(points, earlier)
  {
    if points != [] {
      var (front, last) := (points[..|points| - 1], points[|points| - 1]);
      KnownEarlier(front, earlier, later);
      if last.received <= later {
        KnownAppend(Known(front, later), last, earlier);
      }
    }
  }

  // In a sorted sequence the known events are those before the cursor.
  lemma {:induction false} KnownIsPrefix(events: seq<Point>, cursor: nat, until: int)
    requires Sorted(events, SortsBefore) && cursor <= |events|
    requires forall i :: 0 <= i < cursor ==> events[i].received <= until
    requires cursor < |events| ==> events[cursor].received > until
    ensures Known(events, until) == events[..cursor]
  {
    if events != [] {
      var front := events[..|events| - 1];
      if cursor == |events| {
        KnownIsPrefix(front, |front|, until);
      } else {
        assert events[cursor].received <= events[|events| - 1].received;
        KnownIsPrefix(front, cursor, until);
      }
    }
  }

  /******* ES samples every five seconds *******/

  function EsEvents(points: seq<Point>): seq<Point> {
    SortEvents(OfInstrument(points, ES))
  }

  function PointAt(events: seq<Point>, tick: int): Option<Point> {
    Freshest(LatestAfter(Known(events, tick)), ES, tick, None)
  }

  // The samples taken up to the last tick, and the source time last accepted.
  function EsRun(events: seq<Point>, ticks: seq<int>): (run: (Option<int>, seq<Sample>)) {
    if ticks == [] then (None, [])
    else
      var (last, samples) := EsRun(events, ticks[..|ticks| - 1]);
      var tick := ticks[|ticks| - 1];
      EsStep(last, samples, PointAt(events, tick), tick)
  }

  function EsStep(last: Option<int>, samples: seq<Sample>, point: Option<Point>, tick: int): (Option<int>, seq<Sample>) {
    if point.None? || (last.Some? && point.value.source <= last.value) then (last, samples)
    else
      (Some(point.value.source),
       if tick <= FiveMinuteStart(point.value.source) + FIVE_MINUTES
       then samples + [Sample(tick, point.value)] else samples)
  }

  function EsSamples(points: seq<Point>, ticks: seq<int>): seq<Sample> {
    EsRun(EsEvents(points), ticks).1
  }

  lemma NothingYet(events: seq<Point>)
    ensures LatestAfter(events[..0]) == []
  {
  }

  method EsFiveSecondSamples(points: seq<Point>, ticks: seq<int>) returns (samples: seq<Sample>)
    requires Increasing(ticks)
    ensures samples == EsSamples(points, ticks)
    ensures SamplesWhatIsDue(samples, points, ticks)
  {
    hide SamplesWhatIsDue, Sorted, SortEvents, LatestAfter, Known, Freshest, OfInstrument;
    var events := EsEvents(points);
    EventsAreSorted(OfInstrument(points, ES));
    var latest: Latest := [];
    NothingYet(events);
    samples := [];
    var cursor := 0;
    var lastSource: Option<int> := None;
    for i := 0 to |ticks|
      invariant cursor <= |events| && latest == LatestAfter(events[..cursor])
      invariant i > 0 ==> forall k :: 0 <= k < cursor ==> events[k].received <= ticks[i - 1]
      invariant i == 0 ==> cursor == 0
      invariant (lastSource, samples) == EsRun(events, ticks[..i])
    {
      var tick := ticks[i];
      cursor, latest := Advance(events, cursor, latest, tick);
      KnownIsPrefix(events, cursor, tick);
      var point := Freshest(latest, ES, tick, None);
      assert ticks[..i + 1][..i] == ticks[..i];
      if point.None? || (lastSource.Some? && point.value.source <= lastSource.value) {
        continue;
      }
      lastSource := Some(point.value.source);
      if tick <= FiveMinuteStart(point.value.source) + FIVE_MINUTES {
        samples := samples + [Sample(tick, point.value)];
      }
    }
    assert ticks[..|ticks|] == ticks;
    EsSamplesAreDue(points, ticks);
  }

  // The inner cursor loop: everything received by the tick enters the table.
  method Advance(events: seq<Point>, start: nat, table: Latest, tick: int) returns (cursor: nat, latest: Latest)
    requires start <= |events| && table == LatestAfter(events[..start])
    requires forall k :: 0 <= k < start ==> events[k].received <= tick
    ensures start <= cursor <= |events| && latest == LatestAfter(events[..cursor])
    ensures forall k :: 0 <= k < cursor ==> events[k].received <= tick
    ensures cursor < |events| ==> events[cursor].received > tick
  {
    cursor, latest := start, table;
    while cursor < |events| && events[cursor].received <= tick
      invariant start <= cursor <= |events| && latest == LatestAfter(events[..cursor])
      invariant forall k :: 0 <= k < cursor ==> events[k].received <= tick
    {
      assert events[..cursor + 1][..cursor] == events[..cursor];
      latest := UpdateLatest(latest, events[cursor]);
      cursor := cursor + 1;
    }
  }

  /******* Market rows every minute *******/

  function InstrumentsAt(events: seq<Point>, tracked: set<string>, tick: int): map<string, Point> {
    map name | name in tracked && Freshest(LatestAfter(Known(events, tick)), name, tick, None).Some?
      :: Freshest(LatestAfter(Known(events, tick)), name, tick, None).value
  }

  function EsByProviderAt(events: seq<Point>, providers: set<Provider>, tick: int): map<Provider, Point> {
    map provider | provider in providers && Freshest(LatestAfter(Known(events, tick)), ES, tick, Some(provider)).Some?
      :: Freshest(LatestAfter(Known(events, tick)), ES, tick, Some(provider)).value
  }

  function RowAt(events: seq<Point>, providers: set<Provider>, tracked: set<string>, tick: int): MarketRow {
    MarketRow(tick, InstrumentsAt(events, tracked, tick), EsByProviderAt(events, providers, tick))
  }

  // The provider set is taken from the whole day.
  function ProvidersOf(points: seq<Point>): set<Provider> {
    set p | p in points :: p.provider
  }

  function MarketRows(points: seq<Point>, tracked: set<string>, ticks: seq<int>): seq<MarketRow> {
    seq(|ticks|, i requires 0 <= i < |ticks| => RowAt(SortEvents(points), ProvidersOf(points), tracked, ticks[i]))
  }

  method FreshInstruments(ghost events: seq<Point>, latest: Latest, tracked: set<string>, tick: int)
    returns (instruments: map<string, Point>)
    requires latest == LatestAfter(Known(events, tick))
    ensures instruments == InstrumentsAt(events, tracked, tick)
  {
    instruments := map[];
    var rest := tracked;
    while rest != {}
      invariant rest <= tracked
      invariant instruments == InstrumentsAt(events, tracked - rest, tick)
      decreases |rest|
    {
      var name :| name in rest;
      var point := Freshest(latest, name, tick, None);
      if point.Some? {
        instruments := instruments[name := point.value];
      }
      rest := rest - {name};
    }
    assert tracked - rest == tracked;
  }

  method FreshByProvider(ghost events: seq<Point>, latest: Latest, providers: set<Provider>, tick: int)
    returns (byProvider: map<Provider, Point>)
    requires latest == LatestAfter(Known(events, tick))
    ensures byProvider == EsByProviderAt(events, providers, tick)
  {
    byProvider := map[];
    var rest := providers;
    while rest != {}
      invariant rest <= providers
      invariant byProvider == EsByProviderAt(events, providers - rest, tick)
      decreases |rest|
    {
      var provider :| provider in rest;
      var point := Freshest(latest, ES, tick, Some(provider));
      if point.Some? {
        byProvider := byProvider[provider := point.value];
      }
      rest := rest - {provider};
    }
    assert providers - rest == providers;
  }

  method MarketSamples(points: seq<Point>, tracked: set<string>, ticks: seq<int>) returns (rows: seq<MarketRow>)
    requires Increasing(ticks)
    ensures rows == MarketRows(points, tracked, ticks)
  {
    hide Sorted, InstrumentsAt, EsByProviderAt, SortEvents, LatestAfter, Known, Freshest, ProvidersOf;
    var events := SortEvents(points);
    EventsAreSorted(points);
    var providers := ProvidersOf(points);
    var latest: Latest := [];
    rows := [];
    var cursor := 0;
    NothingYet(events);
    for i := 0 to |ticks|
      invariant cursor <= |events| && latest == LatestAfter(events[..cursor])
      invariant i > 0 ==> forall k :: 0 <= k < cursor ==> events[k].received <= ticks[i - 1]
      invariant i == 0 ==> cursor == 0
      invariant |rows| == i && forall k :: 0 <= k < i ==> rows[k] == RowAt(events, providers, tracked, ticks[k])
    {
      var tick := ticks[i];
      cursor, latest := Advance(events, cursor, latest, tick);
      KnownIsPrefix(events, cursor, tick);
      var instruments := FreshInstruments(events, latest, tracked, tick);
      var byProvider := FreshByProvider(events, latest, providers, tick);
      rows := rows + [MarketRow(tick, instruments, byProvider)];
    }
  }

  /******* What samples and rows say of the quotes received *******/

  // A quote received by the tick such that none received by the tick is newer of its instrument and provider.
  predicate NewestReceived(p: Point, points: seq<Point>, tick: int) {
    && p in points && p.received <= tick
    && forall q :: q in points && q.received <= tick && SameKey(p, q) ==> !Newer(q, p)
  }

  /** The quote a tick goes by: of the newest quotes of each provider, an eligible one that none is fresher than. */
  ghost predicate Shows(p: Point, points: seq<Point>, instrument: string, tick: int, provider: Option<Provider>) {
    && NewestReceived(p, points, tick) && Candidate(p, instrument, tick, provider)
    && forall q :: NewestReceived(q, points, tick) && Candidate(q, instrument, tick, provider) ==> !Fresher(q, p)
  }

  // The quote a tick goes by, or none exactly if there is none.
  ghost predicate ShowsAs(r: Option<Point>, points: seq<Point>, instrument: string, tick: int, provider: Option<Provider>) {
    && (r.Some? ==> Shows(r.value, points, instrument, tick, provider))
    && (r.None? ==> forall p :: !Shows(p, points, instrument, tick, provider))
  }

  // The events are the instrument's quotes received by the tick, in whatever order.
  ghost predicate HoldsReceived(events: seq<Point>, points: seq<Point>, instrument: string, tick: int) {
    forall p: Point :: p.instrument == instrument ==> (p in events <==> p in points && p.received <= tick)
  }

  lemma NewestIsReceived(events: seq<Point>, points: seq<Point>, instrument: string, tick: int, p: Point)
    requires HoldsReceived(events, points, instrument, tick) && p.instrument == instrument
    ensures NewestOfKey(p, events) <==> NewestReceived(p, points, tick)
  {
  }

  lemma FreshestShows(events: seq<Point>, points: seq<Point>, instrument: string, tick: int, provider: Option<Provider>)
    requires HoldsReceived(events, points, instrument, tick)
    ensures ShowsAs(Freshest(LatestAfter(events), instrument, tick, provider), points, instrument, tick, provider)
  {
    hide Eligible, Fresher, NewestOfKey, NewestReceived, LatestAfter, Freshest, HoldsReceived;
    var latest := LatestAfter(events);
    var r := Freshest(latest, instrument, tick, provider);
    FreshestIsBestInTable(latest, instrument, tick, provider);
    if r.Some? {
      TableHoldsNewest(events, r.value);
      NewestIsReceived(events, points, instrument, tick, r.value);
    }
    forall q | NewestReceived(q, points, tick) && Candidate(q, instrument, tick, provider)
      ensures r.Some? && !Fresher(q, r.value)
    {
      NewestIsReceived(events, points, instrument, tick, q);
      TableHoldsNewest(events, q);
      var e :| e in latest && SameKey(e, q) && e.source == q.source && e.received == q.received;
      SameTimesSameCandidate(e, q, instrument, tick, provider);
    }
  }

  lemma SameTimesSameCandidate(e: Point, q: Point, instrument: string, tick: int, provider: Option<Provider>)
    requires SameKey(e, q) && e.source == q.source && e.received == q.received
    ensures Candidate(e, instrument, tick, provider) == Candidate(q, instrument, tick, provider)
    ensures forall r :: Fresher(e, r) == Fresher(q, r)
  {
  }

  lemma EventsHoldReceived(points: seq<Point>, instrument: string, tick: int)
    ensures HoldsReceived(Known(SortEvents(points), tick), points, instrument, tick)
  {
    EventsAreSorted(points);
    KnownMembers(SortEvents(points), tick);
  }

  lemma EsEventsHoldReceived(points: seq<Point>, tick: int)
    ensures HoldsReceived(Known(EsEvents(points), tick), points, ES, tick)
  {
    EventsAreSorted(OfInstrument(points, ES));
    KnownMembers(EsEvents(points), tick);
    forall p: Point
      ensures p in OfInstrument(points, ES) <==> p in points && p.instrument == ES
    {
      FilterHas(points, (q: Point) => q.instrument == ES, p);
    }
  }

  ghost predicate ShownAt(p: Point, points: seq<Point>, ticks: seq<int>, i: nat)
    requires i < |ticks|
  {
    Shows(p, points, ES, ticks[i], None)
  }

  // Stamped later than what every earlier tick went by.
  ghost predicate Fresh(p: Point, points: seq<Point>, ticks: seq<int>, i: nat)
    requires i < |ticks|
  {
    forall j, q :: 0 <= j < i && ShownAt(q, points, ticks, j) ==> q.source < p.source
  }

  /** The quote to sample at tick i: what the tick goes by, later than before, and its bar has not ended. */
  ghost predicate Due(p: Point, points: seq<Point>, ticks: seq<int>, i: nat)
    requires i < |ticks|
  {
    && ShownAt(p, points, ticks, i) && Fresh(p, points, ticks, i)
    && ticks[i] <= FiveMinuteStart(p.source) + FIVE_MINUTES
  }

  /** Samples and due quotes are the same: every sample is one, and every tick with one is sampled. */
  ghost predicate SamplesWhatIsDue(samples: seq<Sample>, points: seq<Point>, ticks: seq<int>) {
    && (forall s :: s in samples ==> exists i :: 0 <= i < |ticks| && ticks[i] == s.tick && Due(s.point, points, ticks, i))
    && (forall i, p :: 0 <= i < |ticks| && Due(p, points, ticks, i) ==> exists s :: s in samples && s.tick == ticks[i])
  }

  // The latest stamp any tick so far went by.
  ghost predicate LastShown(last: Option<int>, points: seq<Point>, ticks: seq<int>) {
    && (forall j, q :: 0 <= j < |ticks| && ShownAt(q, points, ticks, j) ==> last.Some? && q.source <= last.value)
    && (last.Some? ==> exists j, q :: 0 <= j < |ticks| && ShownAt(q, points, ticks, j) && q.source == last.value)
  }

  lemma OneStamp(p: Point, q: Point, points: seq<Point>, instrument: string, tick: int, provider: Option<Provider>)
    requires Shows(p, points, instrument, tick, provider) && Shows(q, points, instrument, tick, provider)
    ensures p.source == q.source
  {
  }

  lemma ShownKept(points: seq<Point>, ticks: seq<int>)
    requires ticks != []
    ensures forall j, q :: 0 <= j < |ticks| - 1 ==> (ShownAt(q, points, ticks[..|ticks| - 1], j) <==> ShownAt(q, points, ticks, j))
  {
  }

  lemma FreshIff(last: Option<int>, points: seq<Point>, ticks: seq<int>, p: Point)
    requires ticks != [] && LastShown(last, points, ticks[..|ticks| - 1])
    ensures Fresh(p, points, ticks, |ticks| - 1) <==> last.None? || p.source > last.value
  {
    hide ShownAt;
    ShownKept(points, ticks);
    if last.Some? {
      var j, q :| 0 <= j < |ticks| - 1 && ShownAt(q, points, ticks[..|ticks| - 1], j) && q.source == last.value;
      assert ShownAt(q, points, ticks, j);
    }
  }

  lemma LastStep(last: Option<int>, after: Option<int>, points: seq<Point>, ticks: seq<int>, point: Option<Point>)
    requires ticks != [] && LastShown(last, points, ticks[..|ticks| - 1])
    requires ShowsAs(point, points, ES, ticks[|ticks| - 1], None)
    requires after == if point.None? || (last.Some? && point.value.source <= last.value) then last else Some(point.value.source)
    ensures LastShown(after, points, ticks)
  {
    hide Shows, ShownAt;
    ShownKept(points, ticks);
    var n := |ticks| - 1;
    forall q
      ensures ShownAt(q, points, ticks, n) ==> point.Some? && q.source == point.value.source
    {
      LastStamp(q, points, ticks, point);
    }
    if point.Some? && after != last {
      assert ShownAt(point.value, points, ticks, n) by { LastStamp(point.value, points, ticks, point); }
    } else if last.Some? {
      var j, q :| 0 <= j < n && ShownAt(q, points, ticks[..n], j) && q.source == last.value;
      assert ShownAt(q, points, ticks, j);
    }
  }

  lemma LastStamp(q: Point, points: seq<Point>, ticks: seq<int>, point: Option<Point>)
    requires ticks != [] && ShowsAs(point, points, ES, ticks[|ticks| - 1], None)
    ensures ShownAt(q, points, ticks, |ticks| - 1) ==> point.Some? && q.source == point.value.source
    ensures point == Some(q) ==> ShownAt(q, points, ticks, |ticks| - 1)
  {
    hide Shows;
    if Shows(q, points, ES, ticks[|ticks| - 1], None) {
      OneStamp(q, point.value, points, ES, ticks[|ticks| - 1], None);
    }
  }

  lemma DueKept(points: seq<Point>, ticks: seq<int>, i: nat, p: Point)
    requires i < |ticks| - 1
    ensures Due(p, points, ticks[..|ticks| - 1], i) <==> Due(p, points, ticks, i)
  {
    hide ShownAt, FiveMinuteStart;
    ShownKept(points, ticks);
    var front := ticks[..|ticks| - 1];
    forall j: nat, q | j < i
      ensures ShownAt(q, points, front, j) <==> ShownAt(q, points, ticks, j)
    {
    }
  }

  lemma SamplesStep(before: seq<Sample>, after: seq<Sample>, points: seq<Point>, ticks: seq<int>, point: Option<Point>)
    requires ticks != [] && SamplesWhatIsDue(before, points, ticks[..|ticks| - 1])
    requires ShowsAs(point, points, ES, ticks[|ticks| - 1], None)
    requires after == if point.Some? && Due(point.value, points, ticks, |ticks| - 1)
                      then before + [Sample(ticks[|ticks| - 1], point.value)] else before
    ensures SamplesWhatIsDue(after, points, ticks)
  {
    hide ShownAt, Shows, Due;
    var n := |ticks| - 1;
    forall s | s in after
      ensures exists i :: 0 <= i < |ticks| && ticks[i] == s.tick && Due(s.point, points, ticks, i)
    {
      if s in before {
        var i :| 0 <= i < n && ticks[..n][i] == s.tick && Due(s.point, points, ticks[..n], i);
        DueKept(points, ticks, i, s.point);
        assert ticks[i] == s.tick;
      }
    }
    forall i, p | 0 <= i < |ticks| && Due(p, points, ticks, i)
      ensures exists s :: s in after && s.tick == ticks[i]
    {
      if i < n {
        DueKept(points, ticks, i, p);
        var s :| s in before && s.tick == ticks[..n][i];
        assert s in after;
      } else {
        LastIsDue(points, ticks, p, point);
        assert Sample(ticks[n], point.value) in after;
      }
    }
  }

  // Whichever quote of the last stamp is due, the shown one is.
  lemma LastIsDue(points: seq<Point>, ticks: seq<int>, p: Point, point: Option<Point>)
    requires ticks != [] && Due(p, points, ticks, |ticks| - 1)
    requires ShowsAs(point, points, ES, ticks[|ticks| - 1], None)
    ensures point.Some? && Due(point.value, points, ticks, |ticks| - 1)
  {
    hide Shows, ShownAt, FiveMinuteStart;
    LastStamp(p, points, ticks, point);
    LastStamp(point.value, points, ticks, point);
  }

  /** The samples are exactly what is due, read off the quotes received and the ticks. */
  lemma {:induction false} EsSamplesAreDue(points: seq<Point>, ticks: seq<int>)
    ensures LastShown(EsRun(EsEvents(points), ticks).0, points, ticks)
    ensures SamplesWhatIsDue(EsSamples(points, ticks), points, ticks)
  {
    hide Shows, FiveMinuteStart, EsEvents, LastShown, SamplesWhatIsDue, Freshest, LatestAfter, Known, Fresh, HoldsReceived;
    if ticks == [] {
      NothingDue(points);
    } else {
      var front, tick := ticks[..|ticks| - 1], ticks[|ticks| - 1];
      EsSamplesAreDue(points, front);
      var point := PointAt(EsEvents(points), tick);
      EsEventsHoldReceived(points, tick);
      FreshestShows(Known(EsEvents(points), tick), points, ES, tick, None);
      var last := EsRun(EsEvents(points), front).0;
      if point.Some? {
        FreshIff(last, points, ticks, point.value);
      }
      LastStep(last, EsRun(EsEvents(points), ticks).0, points, ticks, point);
      SamplesStep(EsSamples(points, front), EsSamples(points, ticks), points, ticks, point);
    }
  }

  lemma NothingDue(points: seq<Point>)
    ensures LastShown(None, points, []) && SamplesWhatIsDue([], points, [])
  {
  }

  lemma NewerIsEligible(p: Point, q: Point, tick: int)
    requires Eligible(p, tick) && q.received <= tick && q.source <= q.received
    requires SameKey(p, q)
    ensures p.source <= q.source ==> Eligible(q, tick)
    ensures Newer(q, p) ==> !AtLeastAsFresh(p, q)
  {
  }

  lemma FreshnessIsOrder(p: Point, n: Point, q: Point)
    requires p.instrument == q.instrument && SameKey(n, q) && !Newer(q, n)
    ensures !Fresher(n, p) && (SameKey(p, q) ==> !Newer(q, p)) ==> AtLeastAsFresh(p, q)
    ensures AtLeastAsFresh(p, n) ==> !Fresher(n, p)
  {
  }

  // The newest quote received of q's instrument and provider.
  lemma {:induction false} NewestLike(q: Point, points: seq<Point>, tick: int) returns (n: Point)
    requires q in points && q.received <= tick
    ensures NewestReceived(n, points, tick) && SameKey(n, q)
  {
    hide Known, LatestAfter;
    KnownMembers(points, tick);
    LatestIsNewest(Known(points, tick), q);
    n := Entry(LatestAfter(Known(points, tick)), q).value;
  }

  /** With no quote of the instrument stamped after its receipt, what a tick goes by is what a scan of every quote
      received by it answers. */
  lemma ShownAnswersScan(points: seq<Point>, instrument: string, tick: int, provider: Option<Provider>, p: Point)
    requires forall e :: e in points && e.instrument == instrument && e.received <= tick ==> e.source <= e.received
    ensures Shows(p, points, instrument, tick, provider) <==> Answers(Some(p), Known(points, tick), instrument, tick, provider)
  {
    hide Known, Eligible, Fresher, AtLeastAsFresh;
    KnownMembers(points, tick);
    if Answers(Some(p), Known(points, tick), instrument, tick, provider) {
      forall q | q in points && q.received <= tick && SameKey(p, q)
        ensures !Newer(q, p)
      {
        NewerIsEligible(p, q, tick);
      }
      forall q | NewestReceived(q, points, tick) && Candidate(q, instrument, tick, provider)
        ensures !Fresher(q, p)
      {
        FreshnessIsOrder(p, q, q);
      }
    }
    if Shows(p, points, instrument, tick, provider) {
      forall q | q in points && q.received <= tick && Candidate(q, instrument, tick, provider)
        ensures AtLeastAsFresh(p, q)
      {
        var n := NewestLike(q, points, tick);
        NewerIsEligible(q, n, tick);
        FreshnessIsOrder(p, n, q);
      }
    }
  }

  /** Each row names exactly the tracked instruments, and of ES exactly the providers, that a quote received by its
      tick shows, and gives that quote. */
  lemma RowsShow(points: seq<Point>, tracked: set<string>, ticks: seq<int>, i: nat)
    requires i < |ticks|
    ensures |MarketRows(points, tracked, ticks)| == |ticks|
    ensures var row := MarketRows(points, tracked, ticks)[i];
      && row.tick == ticks[i]
      && (forall name :: name in row.instruments ==> name in tracked && Shows(row.instruments[name], points, name, ticks[i], None))
      && (forall name, p :: name in tracked && Shows(p, points, name, ticks[i], None) ==> name in row.instruments)
      && (forall provider :: provider in row.esByProvider ==> Shows(row.esByProvider[provider], points, ES, ticks[i], Some(provider)))
      && (forall provider, p :: Shows(p, points, ES, ticks[i], Some(provider)) ==> provider in row.esByProvider)
  {
    hide Shows, Freshest, LatestAfter, Known, SortEvents, HoldsReceived;
    var (events, tick) := (Known(SortEvents(points), ticks[i]), ticks[i]);
    forall name: string, provider: Option<Provider>
      ensures ShowsAs(Freshest(LatestAfter(events), name, tick, provider), points, name, tick, provider)
    {
      EventsHoldReceived(points, name, tick);
      FreshestShows(events, points, name, tick, provider);
    }
    forall provider, p | Shows(p, points, ES, tick, Some(provider))
      ensures provider in ProvidersOf(points)
    {
      ShownProvider(p, points, tick, provider);
    }
  }

  lemma ShownProvider(p: Point, points: seq<Point>, tick: int, provider: Provider)
    requires Shows(p, points, ES, tick, Some(provider))
    ensures provider in ProvidersOf(points)
  {
  }

  /******* No look-ahead *******/

  // Two quote streams that agree, in order, on everything received by T.
  predicate AgreeUntil(a: seq<Point>, b: seq<Point>, until: int) {
    Known(a, until) == Known(b, until)
  }

  function SamplesUntil(samples: seq<Sample>, until: int): seq<Sample> {
    if samples == [] then []
    else
      var (front, last) := (SamplesUntil(samples[..|samples| - 1], until), samples[|samples| - 1]);
      if last.tick <= until then front + [last] else front
  }

  lemma SortedAgreement(a: seq<Point>, b: seq<Point>, until: int, tick: int)
    requires AgreeUntil(a, b, until) && tick <= until
    ensures Known(SortEvents(a), tick) == Known(SortEvents(b), tick)
  {
    KnownOfSort(a, tick);
    KnownOfSort(b, tick);
    KnownEarlier(a, tick, until);
    KnownEarlier(b, tick, until);
  }

  lemma EsAgreement(a: seq<Point>, b: seq<Point>, until: int, tick: int)
    requires AgreeUntil(a, b, until) && tick <= until
    ensures PointAt(EsEvents(a), tick) == PointAt(EsEvents(b), tick)
  {
    KnownOfInstrument(a, ES, until);
    KnownOfInstrument(b, ES, until);
    SortedAgreement(OfInstrument(a, ES), OfInstrument(b, ES), until, tick);
  }

  lemma {:induction false} EsRunAgreement(a: seq<Point>, b: seq<Point>, ticks: seq<int>, until: int)
    requires AgreeUntil(a, b, until) && forall i :: 0 <= i < |ticks| ==> ticks[i] <= until
    ensures EsRun(EsEvents(a), ticks) == EsRun(EsEvents(b), ticks)
  {
    if ticks != [] {
      EsRunAgreement(a, b, ticks[..|ticks| - 1], until);
      EsAgreement(a, b, until, ticks[|ticks| - 1]);
    }
  }

  lemma {:induction false} SamplesUntilAll(events: seq<Point>, ticks: seq<int>, until: int)
    requires forall i :: 0 <= i < |ticks| ==> ticks[i] <= until
    ensures SamplesUntil(EsRun(events, ticks).1, until) == EsRun(events, ticks).1
  {
    if ticks != [] {
      var front := ticks[..|ticks| - 1];
      SamplesUntilAll(events, front, until);
      SamplesUntilAppend(EsRun(events, front).1, EsRun(events, ticks).1, until);
    }
  }

  lemma SamplesUntilAppend(before: seq<Sample>, after: seq<Sample>, until: int)
    requires after == before || (after != [] && after[..|after| - 1] == before)
    ensures SamplesUntil(after, until) ==
      if after != before && after[|after| - 1].tick <= until
      then SamplesUntil(before, until) + [after[|after| - 1]] else SamplesUntil(before, until)
  {
  }

  // Later ticks do not touch the samples taken by `until`.
  lemma {:induction false} SamplesUntilPrefix(events: seq<Point>, ticks: seq<int>, count: nat, until: int)
    requires count <= |ticks|
    requires forall i :: 0 <= i < count ==> ticks[i] <= until
    requires forall i :: count <= i < |ticks| ==> ticks[i] > until
    ensures SamplesUntil(EsRun(events, ticks).1, until) == EsRun(events, ticks[..count]).1
  {
    if count == |ticks| {
      assert ticks[..count] == ticks;
      SamplesUntilAll(events, ticks, until);
    } else {
      var front := ticks[..|ticks| - 1];
      SamplesUntilPrefix(events, front, count, until);
      assert front[..count] == ticks[..count];
      SamplesUntilAppend(EsRun(events, front).1, EsRun(events, ticks).1, until);
    }
  }

  lemma {:induction false} TicksSplit(ticks: seq<int>, until: int) returns (count: nat)
    requires Increasing(ticks)
    ensures count <= |ticks|
    ensures forall i :: 0 <= i < count ==> ticks[i] <= until
    ensures forall i :: count <= i < |ticks| ==> ticks[i] > until
  {
    if ticks == [] || ticks[|ticks| - 1] <= until {
      count := |ticks|;
    } else {
      count := TicksSplit(ticks[..|ticks| - 1], until);
    }
  }

  /** Five-second samples taken by T depend only on what was received by T. */
  lemma NoLookAheadInSamples(a: seq<Point>, b: seq<Point>, ticks: seq<int>, until: int)
    requires Increasing(ticks) && AgreeUntil(a, b, until)
    ensures SamplesUntil(EsSamples(a, ticks), until) == SamplesUntil(EsSamples(b, ticks), until)
  {
    var count := TicksSplit(ticks, until);
    SamplesUntilPrefix(EsEvents(a), ticks, count, until);
    SamplesUntilPrefix(EsEvents(b), ticks, count, until);
    EsRunAgreement(a, b, ticks[..count], until);
  }

  lemma EntryFromKnown(points: seq<Point>, tick: int, instrument: string, provider: Option<Provider>)
    ensures var r := Freshest(LatestAfter(Known(SortEvents(points), tick)), instrument, tick, provider);
      r.Some? ==> r.value.provider in ProvidersOf(Known(points, tick))
  {
    var known := Known(SortEvents(points), tick);
    var r := Freshest(LatestAfter(known), instrument, tick, provider);
    if r.Some? {
      FreshestIsBestInTable(LatestAfter(known), instrument, tick, provider);
      LatestIsNewest(known, r.value);
      EntryOfMember(LatestAfter(known), r.value);
      KnownMembers(SortEvents(points), tick);
      EventsAreSorted(points);
      KnownMembers(points, tick);
    }
  }

  // Providers that only appear later contribute no entry.
  lemma LaterProvidersAreSilent(points: seq<Point>, tick: int)
    ensures EsByProviderAt(SortEvents(points), ProvidersOf(points), tick) ==
            EsByProviderAt(SortEvents(points), ProvidersOf(Known(points, tick)), tick)
  {
    KnownMembers(points, tick);
    forall provider | provider in ProvidersOf(points) && Freshest(LatestAfter(Known(SortEvents(points), tick)), ES, tick, Some(provider)).Some?
      ensures provider in ProvidersOf(Known(points, tick))
    {
      EntryFromKnown(points, tick, ES, Some(provider));
      FreshestIsBestInTable(LatestAfter(Known(SortEvents(points), tick)), ES, tick, Some(provider));
    }
  }

  /** Market rows at ticks up to T depend only on what was received by T, although the provider set
      is that of the whole day. */
  lemma NoLookAheadInRows(a: seq<Point>, b: seq<Point>, tracked: set<string>, ticks: seq<int>, i: nat, until: int)
    requires AgreeUntil(a, b, until) && i < |ticks| && ticks[i] <= until
    ensures MarketRows(a, tracked, ticks)[i] == MarketRows(b, tracked, ticks)[i]
  {
    var tick := ticks[i];
    SortedAgreement(a, b, until, tick);
    KnownEarlier(a, tick, until);
    KnownEarlier(b, tick, until);
    LaterProvidersAreSilent(a, tick);
    LaterProvidersAreSilent(b, tick);
  }

  /******* What the samples look like *******/

  /** Sampled source times strictly increase, ticks strictly increase, and every sample is taken
      before its bar closes and is a quote of ES that was known and eligible at the tick. */
  predicate WellSampled(samples: seq<Sample>) {
    && (forall i, j :: 0 <= i < j < |samples| ==> samples[i].point.source < samples[j].point.source && samples[i].tick < samples[j].tick)
    && (forall s :: s in samples ==> s.tick <= FiveMinuteStart(s.point.source) + FIVE_MINUTES)
    && (forall s :: s in samples ==> Eligible(s.point, s.tick) && s.point.instrument == ES)
  }

  lemma {:induction false} SamplesAreWellSampled(events: seq<Point>, ticks: seq<int>)
    requires Increasing(ticks)
    ensures WellSampled(EsRun(events, ticks).1)
    ensures forall s :: s in EsRun(events, ticks).1 ==> s.tick in ticks
    ensures var (last, samples) := EsRun(events, ticks);
      forall s :: s in samples ==> last.Some? && s.point.source <= last.value
  {
    hide Freshest, LatestAfter, Eligible, FiveMinuteStart, Known;
    if ticks != [] {
      var front, tick := ticks[..|ticks| - 1], ticks[|ticks| - 1];
      SamplesAreWellSampled(events, front);
      FreshestIsBestInTable(LatestAfter(Known(events, tick)), ES, tick, None);
    }
  }
}
