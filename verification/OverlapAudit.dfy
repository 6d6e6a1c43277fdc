/**
 The audit before a warm start: the historical bars and the sampler's own bars must both hold the whole last
 session, bucket by bucket, and tell the same story wherever they overlap.

 The market calendar is a parameter.  A bar's start is a text; what is used of it is its identity and its
 place in the order of texts.
 */
module OverlapAudit {
  import opened Options
  import opened Reals
  import opened StableSort

  datatype Start = Start(place: int)

  // A bar of the historical feed, and a bar of the live state.
  datatype SeedBar = SeedBar(start: Start, day: string, end: Option<int>, close: Option<real>)
  datatype LiveBar = LiveBar(start: Start, day: string, end: Option<int>, rth: bool, ok: bool, ambiguous: bool,
                             identity: string, close: Option<real>)

  // The calendar's session of the cutoff day: its close, and how many five-minute bars it holds.
  datatype Session = Session(day: string, closeAt: int, expected: nat)

  datatype Audit = Audit(identity: string, cutoff: int, session: Option<Session>, rows: seq<SeedBar>, maxBars: nat,
                         minimum: int, maxDifference: real)

  const MINIMUM_OVERLAP: int := 6
  const GREATEST_DIFFERENCE: real := 2.0

  /******* What is compared *******/

  function LastRows(rows: seq<SeedBar>, maxBars: nat): seq<SeedBar> {
    if maxBars == 0 || |rows| <= maxBars then rows else rows[|rows| - maxBars..]
  }

  // Later rows of the same start replace earlier ones.
  function ByStart(rows: seq<SeedBar>): map<Start, SeedBar> {
    if rows == [] then map[]
    else
      var last := rows[|rows| - 1];
      ByStart(rows[..|rows| - 1])[last.start := last]
  }

  function SeedByStart(audit: Audit): map<Start, SeedBar> {
    ByStart(LastRows(audit.rows, audit.maxBars))
  }

  /** Each start is compared with the last row that bears it. */
  lemma {:induction false} ByStartMeans(rows: seq<SeedBar>, start: Start)
    ensures start in ByStart(rows) <==> exists i :: 0 <= i < |rows| && rows[i].start == start
    ensures start in ByStart(rows) ==>
      exists i :: 0 <= i < |rows| && rows[i].start == start && rows[i] == ByStart(rows)[start]
                  && forall j :: i < j < |rows| ==> rows[j].start != start
  {
    if rows != [] {
      var front, last := rows[..|rows| - 1], |rows| - 1;
      ByStartMeans(front, start);
      assert forall i :: 0 <= i < last ==> front[i] == rows[i];
      if rows[last].start == start {
        assert rows[last] == ByStart(rows)[start];
      } else if start in ByStart(front) {
        var i :| 0 <= i < last && front[i].start == start && front[i] == ByStart(front)[start]
                 && forall j :: i < j < last ==> front[j].start != start;
        assert rows[i] == ByStart(rows)[start];
      }
    }
  }

  predicate StartsBefore(a: LiveBar, b: LiveBar) { a.start.place <= b.start.place }

  function LiveRth(closed: seq<LiveBar>): seq<LiveBar> {
    Sort(Filter(closed, (b: LiveBar) => b.rth), StartsBefore)
  }

  function LiveOf(bars: seq<LiveBar>, day: string): seq<LiveBar> {
    Filter(bars, (b: LiveBar) => b.day == day)
  }

  function SeedOf(rows: seq<SeedBar>, day: string): seq<SeedBar> {
    Filter(rows, (r: SeedBar) => r.day == day)
  }

  function LiveStarts(bars: seq<LiveBar>): (starts: seq<Start>)
    ensures |starts| == |bars| && forall i :: 0 <= i < |bars| ==> starts[i] == bars[i].start
  {
    seq(|bars|, i requires 0 <= i < |bars| => bars[i].start)
  }

  function SeedStarts(rows: seq<SeedBar>): (starts: seq<Start>)
    ensures |starts| == |rows| && forall i :: 0 <= i < |rows| ==> starts[i] == rows[i].start
  {
    seq(|rows|, i requires 0 <= i < |rows| => rows[i].start)
  }

  function SetOf(starts: seq<Start>): set<Start> {
    set i | 0 <= i < |starts| :: starts[i]
  }

  /******* The session *******/

  ghost predicate AllDifferent(starts: seq<Start>) {
    forall i, j :: 0 <= i < j < |starts| ==> starts[i] != starts[j]
  }

  // As many different starts as starts: none occurs twice.
  lemma {:induction false} CountTellsDifferent(starts: seq<Start>)
    ensures |SetOf(starts)| <= |starts|
    ensures |SetOf(starts)| == |starts| <==> AllDifferent(starts)
  {
    if starts != [] {
      var front, last := starts[..|starts| - 1], starts[|starts| - 1];
      CountTellsDifferent(front);
      assert SetOf(starts) == SetOf(front) + {last};
      assert last in SetOf(front) <==> exists i :: 0 <= i < |front| && starts[i] == last;
      assert forall i :: 0 <= i < |front| ==> starts[i] == front[i];
    }
  }

  // Both sides hold each five-minute bar of the session exactly once.
  ghost predicate SessionComplete(live: seq<Start>, seed: seq<Start>, expected: nat) {
    && |live| == |seed| == expected
    && AllDifferent(live) && AllDifferent(seed)
    && forall s :: s in live <==> s in seed
  }

  method CheckSession(live: seq<Start>, seed: seq<Start>, expected: nat) returns (complete: bool)
    ensures complete <==> SessionComplete(live, seed, expected)
  {
    CountTellsDifferent(live);
    CountTellsDifferent(seed);
    SameSet(live, seed);
    complete := |seed| == expected && |live| == expected
                && |SetOf(seed)| == expected && |SetOf(live)| == expected && SetOf(live) == SetOf(seed);
  }

  lemma SameSet(a: seq<Start>, b: seq<Start>)
    ensures SetOf(a) == SetOf(b) <==> forall s :: s in a <==> s in b
  {
    assert forall s :: s in SetOf(a) <==> s in a;
    assert forall s :: s in SetOf(b) <==> s in b;
  }

  /******* The overlap *******/

  // A live bar that the seed also has.
  predicate Overlaps(bar: LiveBar, audit: Audit) { bar.start in SeedByStart(audit) }

  predicate Clean(bar: LiveBar, audit: Audit) { bar.ok && !bar.ambiguous && bar.identity == audit.identity }

  // Its evidence: good quality, the right contract, and both closes known.
  predicate Sound(bar: LiveBar, audit: Audit) {
    Overlaps(bar, audit) && Clean(bar, audit) && bar.close.Some? && SeedByStart(audit)[bar.start].close.Some?
  }

  function Difference(bar: LiveBar, audit: Audit): real
    requires Sound(bar, audit)
  {
    AbsReal(bar.close.value - SeedByStart(audit)[bar.start].close.value)
  }

  function OverlapCount(bars: seq<LiveBar>, audit: Audit): nat {
    if bars == [] then 0
    else OverlapCount(bars[..|bars| - 1], audit) + if Overlaps(bars[|bars| - 1], audit) then 1 else 0
  }

  /** As many overlaps as there are live bars with a seed. */
  lemma {:induction false} OverlapCountIs(bars: seq<LiveBar>, audit: Audit)
    ensures OverlapCount(bars, audit) == |set k | 0 <= k < |bars| && Overlaps(bars[k], audit)|
  {
    hide Overlaps;
    if bars != [] {
      var front, last := bars[..|bars| - 1], |bars| - 1;
      OverlapCountIs(front, audit);
      var (all, fewer) := (set k | 0 <= k < |bars| && Overlaps(bars[k], audit), set k | 0 <= k < last && Overlaps(front[k], audit));
      assert all == if Overlaps(bars[last], audit) then fewer + {last} else fewer;
    }
  }

  // Wherever they overlap, seed and live bars agree; and they overlap enough.
  ghost predicate OverlapAgrees(bars: seq<LiveBar>, audit: Audit) {
    && (forall k :: 0 <= k < |bars| && Overlaps(bars[k], audit)
          ==> Sound(bars[k], audit) && Difference(bars[k], audit) <= audit.maxDifference)
    && OverlapCount(bars, audit) >= audit.minimum
  }

  predicate LimitsAllowed(audit: Audit) {
    MINIMUM_OVERLAP <= audit.minimum && 0.0 <= audit.maxDifference <= GREATEST_DIFFERENCE
  }

  method CompareOverlap(bars: seq<LiveBar>, audit: Audit) returns (accepted: bool)
    requires LimitsAllowed(audit)
    ensures accepted <==> OverlapAgrees(bars, audit)
  {
    hide Sound, Overlaps, Difference;
    accepted := true;
    var count := 0;
    var greatest := 0.0;
    var k := 0;
    while k < |bars| && accepted
      invariant k <= |bars|
      invariant count == OverlapCount(bars[..k], audit)
      invariant accepted ==> forall j :: 0 <= j < k && Overlaps(bars[j], audit)
                               ==> Sound(bars[j], audit) && Difference(bars[j], audit) <= greatest
      invariant accepted && greatest != 0.0 ==>
        exists j :: 0 <= j < k && Overlaps(bars[j], audit) && Sound(bars[j], audit) && Difference(bars[j], audit) == greatest
      invariant !accepted ==> !OverlapAgrees(bars, audit)
    {
      assert bars[..k + 1][..k] == bars[..k];
      if Overlaps(bars[k], audit) {
        if Sound(bars[k], audit) {
          var difference := Difference(bars[k], audit);
          greatest := if greatest < difference then difference else greatest;
        } else {
          accepted := false;
        }
        count := count + 1;
      }
      k := k + 1;
    }
    if accepted {
      assert bars[..|bars|] == bars;
      accepted := count >= audit.minimum && greatest <= audit.maxDifference;
    }
  }

  /******* The audit *******/

  // Every live bar of the session is clean and has its seed among the last rows.
  ghost predicate SessionVerified(bars: seq<LiveBar>, audit: Audit) {
    forall b :: b in bars ==> Clean(b, audit) && Overlaps(b, audit)
  }

  method VerifySession(bars: seq<LiveBar>, audit: Audit) returns (verified: bool)
    ensures verified <==> SessionVerified(bars, audit)
  {
    hide Clean, Overlaps;
    verified := true;
    for k := 0 to |bars|
      invariant verified <==> forall j :: 0 <= j < k ==> Clean(bars[j], audit) && Overlaps(bars[j], audit)
    {
      verified := verified && Clean(bars[k], audit) && Overlaps(bars[k], audit);
    }
  }

  // A bar no other starts after, ending at the cutoff.
  ghost predicate ReachesCutoff(bars: seq<LiveBar>, audit: Audit) {
    bars != [] && bars[|bars| - 1].end == Some(audit.cutoff)
  }

  /** What an accepted audit says. */
  ghost predicate AuditAccepts(closed: Option<seq<LiveBar>>, audit: Audit) {
    && LimitsAllowed(audit) && closed.Some?
    && audit.session.Some? && audit.session.value.closeAt == audit.cutoff
    && var (bars, session) := (LiveRth(closed.value), audit.session.value);
    && SessionComplete(LiveStarts(LiveOf(bars, session.day)), SeedStarts(SeedOf(audit.rows, session.day)), session.expected)
    && |bars| >= audit.minimum && ReachesCutoff(bars, audit)
    && SessionVerified(LiveOf(bars, session.day), audit)
    && OverlapAgrees(bars, audit)
  }

  method AuditOverlap(closed: Option<seq<LiveBar>>, audit: Audit) returns (accepted: bool)
    ensures accepted <==> AuditAccepts(closed, audit)
  {
    hide SessionComplete, SessionVerified, OverlapAgrees, LiveRth, LiveOf, SeedOf;
    accepted := false;
    if LimitsAllowed(audit) && closed.Some? && audit.session.Some? && audit.session.value.closeAt == audit.cutoff {
      var bars, session := LiveRth(closed.value), audit.session.value;
      var today := LiveOf(bars, session.day);
      accepted := CheckSession(LiveStarts(today), SeedStarts(SeedOf(audit.rows, session.day)), session.expected);
      accepted := accepted && |bars| >= audit.minimum && |bars| > 0 && bars[|bars| - 1].end == Some(audit.cutoff);
      if accepted {
        accepted := VerifySession(today, audit);
      }
      if accepted {
        accepted := CompareOverlap(bars, audit);
      }
    }
  }

  /** What that means for the live bars themselves, whatever their order: the session's regular bars are all
      clean, each has its seed, no two share a start, there are as many as the session holds; and one that no
      other starts after ends at the cutoff. */
  lemma AcceptedMeans(closed: seq<LiveBar>, audit: Audit)
    requires AuditAccepts(Some(closed), audit)
    ensures audit.session.Some?
    ensures forall b :: b in closed && b.rth && b.day == audit.session.value.day ==> Clean(b, audit) && Overlaps(b, audit)
    ensures forall b :: b in closed && b.rth && Overlaps(b, audit) ==> Sound(b, audit) && Difference(b, audit) <= audit.maxDifference
    ensures exists b :: b in closed && b.rth && b.end == Some(audit.cutoff)
                        && forall c :: c in closed && c.rth ==> c.start.place <= b.start.place
  {
    hide Clean, Overlaps, Sound, Difference, Sort, SessionComplete;
    var day := audit.session.value.day;
    var bars := LiveRth(closed);
    RthMembers(closed);
    forall b | b in closed && b.rth && b.day == day
      ensures Clean(b, audit) && Overlaps(b, audit)
    {
      FilterHas(bars, (b: LiveBar) => b.day == day, b);
    }
    forall b | b in closed && b.rth && Overlaps(b, audit)
      ensures Sound(b, audit) && Difference(b, audit) <= audit.maxDifference
    {
      assert b in bars;
      var k :| 0 <= k < |bars| && bars[k] == b;
    }
    var last := bars[|bars| - 1];
    assert last in bars;
    forall c | c in closed && c.rth
      ensures c.start.place <= last.start.place
    {
      assert c in bars;
      var k :| 0 <= k < |bars| && bars[k] == c;
      assert k < |bars| - 1 ==> StartsBefore(bars[k], last);
    }
  }

  lemma RthMembers(closed: seq<LiveBar>)
    ensures Sorted(LiveRth(closed), StartsBefore)
    ensures forall b :: b in LiveRth(closed) <==> b in closed && b.rth
  {
    hide Sort;
    var rth := (b: LiveBar) => b.rth;
    assert TotalPreorder(StartsBefore);
    SortSorts(Filter(closed, rth), StartsBefore);
    forall b: LiveBar
      ensures b in Filter(closed, rth) <==> b in closed && b.rth
    {
      FilterHas(closed, rth, b);
    }
  }
}
