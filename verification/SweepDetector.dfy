/**
 The liquidity-sweep event detector: penetration, reclaim, structure break, displacement, fair-value
 gap and retrace, each found by a forward scan over one-minute bars.

 Times are in seconds.  Prices are exact.
 */
module SweepDetector {
  import opened Options
  import opened Reals

  datatype Bar = Bar(availableAt: int, open: real, high: real, low: real, close: real)

  datatype LevelName = PDH | PDL | ONH | ONL | OR15H | OR15L

  datatype Level = Level(name: LevelName, price: real, isHigh: bool, availableAt: int)

  datatype Contract = Contract(minimumPoints: real, minimumAtr: real, maximumExtensionAtr: real, reclaimBars: nat,
                               mssLookback: nat, mssDeadline: nat, mssBuffer: real, displacementAtr: real,
                               fvgMinimum: real, fvgFormation: nat, fvgRetrace: nat)

  datatype Event = Event(direction: int, names: seq<LevelName>, price: real, penetration: nat, sweep: nat,
                         extreme: real, sweepAt: int, atr: real, priorMove: real,
                         mss: Option<nat>, mssReference: Option<real>, displacement: Option<nat>,
                         fvgFormed: Option<nat>, fvgRetrace: Option<nat>, fvgLower: Option<real>, fvgUpper: Option<real>,
                         htfAligned: bool)

  datatype Stage = Sweep | SweepMss | SweepMssDisplacement | SweepMssDisplacementFvg | SweepMssDisplacementFvgHtf

  const MINUTE: int := 60

  /******* Bar arithmetic *******/

  function MinNat(a: nat, b: nat): nat { if a <= b then a else b }
  function MaxNat(a: nat, b: nat): nat { if a >= b then a else b }
  function MinusOrZero(a: nat, b: nat): nat { if a >= b then a - b else 0 }

  function Highs(bars: seq<Bar>): seq<real> {
    seq(|bars|, i requires 0 <= i < |bars| => bars[i].high)
  }

  function Lows(bars: seq<Bar>): seq<real> {
    seq(|bars|, i requires 0 <= i < |bars| => bars[i].low)
  }

  function HighOf(bars: seq<Bar>): real
    requires bars != []
  {
    Highest(Highs(bars))
  }

  function LowOf(bars: seq<Bar>): real
    requires bars != []
  {
    Lowest(Lows(bars))
  }

  function TrueRange(bars: seq<Bar>, i: nat): real
    requires i < |bars|
  {
    var previous := if i > 0 then bars[i - 1].close else bars[i].open;
    MaxReal(MaxReal(bars[i].high - bars[i].low, AbsReal(bars[i].high - previous)), AbsReal(bars[i].low - previous))
  }

  function RangeSum(bars: seq<Bar>, from: nat, to: nat): real
    requires from <= to <= |bars|
  {
    if from == to then 0.0 else RangeSum(bars, from, to - 1) + TrueRange(bars, to - 1)
  }

  // The mean true range of the (at most 14) bars before an index, from ten bars on.
  function AtrBefore(bars: seq<Bar>, index: nat): Option<real>
    requires index <= |bars|
  {
    var from := MinusOrZero(index, 14);
    if index < 3 || index - from < 10 then None
    else Some(RangeSum(bars, from, index) / ((index - from) as real))
  }

  function Ranges(bars: seq<Bar>, from: nat, end: nat): seq<real>
    requires from <= end <= |bars|
  {
    seq(end - from, i requires 0 <= i < end - from => TrueRange(bars, from + i))
  }

  lemma {:induction false} RangeSumIsSum(bars: seq<Bar>, from: nat, end: nat)
    requires from <= end <= |bars|
    ensures RangeSum(bars, from, end) == Sum(Ranges(bars, from, end))
  {
    hide TrueRange;
    if from < end {
      RangeSumIsSum(bars, from, end - 1);
      assert Ranges(bars, from, end)[..end - 1 - from] == Ranges(bars, from, end - 1);
    }
  }

  /** The average range before a bar is there from the tenth bar on: the mean of the true ranges of the fourteen bars
      before it, or of all when there are fewer. */
  lemma AtrMeans(bars: seq<Bar>, index: nat)
    requires index <= |bars|
    ensures AtrBefore(bars, index).Some? <==> index >= 10
    ensures index >= 10 ==>
      var count := MinNat(index, 14);
      AtrBefore(bars, index) == Some(Sum(Ranges(bars, index - count, index)) / (count as real))
  {
    hide TrueRange;
    if index >= 10 {
      RangeSumIsSum(bars, index - MinNat(index, 14), index);
    }
  }

  function PriorMove(bars: seq<Bar>, index: nat, minutes: nat): real
    requires index < |bars|
  {
    bars[index].close - bars[MinusOrZero(index, minutes)].close
  }

  // Two bar series that are the same up to an index.
  predicate AgreeBelow(a: seq<Bar>, b: seq<Bar>, n: nat) {
    n <= |a| && n <= |b| && a[..n] == b[..n]
  }

  lemma {:induction false} RangeSumAgrees(a: seq<Bar>, b: seq<Bar>, n: nat, from: nat, to: nat)
    requires AgreeBelow(a, b, n) && from <= to <= n
    ensures RangeSum(a, from, to) == RangeSum(b, from, to)
  {
    if from < to {
      RangeSumAgrees(a, b, n, from, to - 1);
      assert a[to - 1] == a[..n][to - 1] == b[to - 1];
      assert to - 1 > 0 ==> a[to - 2] == a[..n][to - 2] == b[to - 2];
    }
  }

  lemma AtrAgrees(a: seq<Bar>, b: seq<Bar>, n: nat, index: nat)
    requires AgreeBelow(a, b, n) && index <= n
    ensures AtrBefore(a, index) == AtrBefore(b, index)
  {
    RangeSumAgrees(a, b, n, MinusOrZero(index, 14), index);
  }

  lemma HighLowBounds(bars: seq<Bar>, i: nat)
    requires i < |bars|
    ensures LowOf(bars) <= bars[i].low && bars[i].high <= HighOf(bars)
  {
    ExtremesOf(Highs(bars));
    ExtremesOf(Lows(bars));
    assert Highs(bars)[i] == bars[i].high && Lows(bars)[i] == bars[i].low;
  }

  /******* The sweep *******/

  function Extension(bar: Bar, level: Level): real {
    if level.isHigh then bar.high - level.price else level.price - bar.low
  }

  predicate Penetrates(bar: Bar, level: Level, contract: Contract, atr: real) {
    MaxReal(contract.minimumPoints, contract.minimumAtr * atr) <= Extension(bar, level) <= contract.maximumExtensionAtr * atr
  }

  predicate Reclaims(bar: Bar, level: Level) {
    if level.isHigh then bar.close < level.price else bar.close > level.price
  }

  // The penetration in force at a bar: a recent one, or this bar's own.
  function PenetrationAt(bars: seq<Bar>, level: Level, contract: Contract, index: nat, penetration: Option<nat>, atr: real): Option<nat>
    requires index < |bars| && (penetration.Some? ==> penetration.value <= index)
  {
    var kept := if penetration.Some? && index - penetration.value > contract.reclaimBars then None else penetration;
    if kept.None? && Penetrates(bars[index], level, contract, atr) then Some(index) else kept
  }

  function SweepEvent(bars: seq<Bar>, level: Level, penetration: nat, index: nat, atr: real): Event
    requires penetration <= index < |bars|
  {
    var direction := if level.isHigh then -1 else 1;
    var relevant := bars[penetration..index + 1];
    Event(direction, [level.name], level.price, penetration, index,
          if direction < 0 then HighOf(relevant) else LowOf(relevant),
          bars[index].availableAt, atr, PriorMove(bars, penetration, 15),
          None, None, None, None, None, None, None, false)
  }

  function DetectFrom(bars: seq<Bar>, level: Level, contract: Contract, latest: int, index: nat, penetration: Option<nat>): Option<Event>
    requires index <= |bars| && (penetration.Some? ==> penetration.value < index)
    decreases |bars| - index
  {
    if index == |bars| || bars[index].availableAt > latest then None
    else
      var atr := AtrBefore(bars, index);
      if atr.None? || atr.value <= 0.0 then DetectFrom(bars, level, contract, latest, index + 1, penetration)
      else
        var now := PenetrationAt(bars, level, contract, index, penetration, atr.value);
        if now.Some? && Reclaims(bars[index], level) then Some(SweepEvent(bars, level, now.value, index, atr.value))
        else DetectFrom(bars, level, contract, latest, index + 1, now)
  }

  function FirstAfter(bars: seq<Bar>, at: int, index: nat): (i: nat)
    requires index <= |bars|
    ensures index <= i <= |bars|
    ensures i < |bars| ==> bars[i].availableAt > at
    ensures forall k :: index <= k < i ==> bars[k].availableAt <= at
    decreases |bars| - index
  {
    if index == |bars| || bars[index].availableAt > at then index else FirstAfter(bars, at, index + 1)
  }

  function Detect(bars: seq<Bar>, level: Level, contract: Contract, latest: int): Option<Event> {
    DetectFrom(bars, level, contract, latest, FirstAfter(bars, level.availableAt, 0), None)
  }

  method DetectLevelSweep(bars: seq<Bar>, level: Level, contract: Contract, latest: int) returns (event: Option<Event>)
    ensures event == Detect(bars, level, contract, latest)
  {
    hide AtrBefore, Penetrates, Reclaims, SweepEvent;
    var start := FirstAfter(bars, level.availableAt, 0);
    var penetration: Option<nat> := None;
    for index := start to |bars|
      invariant penetration.Some? ==> penetration.value < index
      invariant Detect(bars, level, contract, latest) == DetectFrom(bars, level, contract, latest, index, penetration)
    {
      var bar := bars[index];
      if bar.availableAt > latest {
        break;
      }
      var atr := AtrBefore(bars, index);
      if atr.None? || atr.value <= 0.0 {
        continue;
      }
      if penetration.Some? && index - penetration.value > contract.reclaimBars {
        penetration := None;
      }
      if penetration.None? && Penetrates(bar, level, contract, atr.value) {
        penetration := Some(index);
      }
      if penetration.None? {
        continue;
      }
      if !Reclaims(bar, level) {
        continue;
      }
      return Some(SweepEvent(bars, level, penetration.value, index, atr.value));
    }
    return None;
  }

  /** What a detected sweep is: a penetration of the right size, and at most `reclaimBars` bars later
      a close back through the level, all between the level's publication and the latest time. */
  predicate IsSweep(bars: seq<Bar>, level: Level, contract: Contract, latest: int, e: Event) {
    && e.penetration <= e.sweep < |bars| && e.sweep - e.penetration <= contract.reclaimBars
    && (forall i :: e.penetration <= i <= e.sweep ==> level.availableAt < bars[i].availableAt <= latest)
    && AtrBefore(bars, e.penetration).Some? && AtrBefore(bars, e.penetration).value > 0.0
    && Penetrates(bars[e.penetration], level, contract, AtrBefore(bars, e.penetration).value)
    && Reclaims(bars[e.sweep], level)
    && AtrBefore(bars, e.sweep) == Some(e.atr) && e.atr > 0.0
    && e.direction == (if level.isHigh then -1 else 1) && e.names == [level.name] && e.price == level.price
    && e.sweepAt == bars[e.sweep].availableAt && e.priorMove == PriorMove(bars, e.penetration, 15)
    && (forall i :: e.penetration <= i <= e.sweep ==> if level.isHigh then bars[i].high <= e.extreme else e.extreme <= bars[i].low)
    && (exists i :: e.penetration <= i <= e.sweep && e.extreme == if level.isHigh then bars[i].high else bars[i].low)
    && e.mss.None? && e.mssReference.None? && e.displacement.None? && e.fvgFormed.None? && e.fvgRetrace.None?
    && e.fvgLower.None? && e.fvgUpper.None? && !e.htfAligned
  }

  predicate PenetratedAt(bars: seq<Bar>, level: Level, contract: Contract, p: nat) {
    && p < |bars| && AtrBefore(bars, p).Some? && AtrBefore(bars, p).value > 0.0
    && Penetrates(bars[p], level, contract, AtrBefore(bars, p).value)
  }

  lemma ExtremeAttained(bars: seq<Bar>)
    requires bars != []
    ensures exists i :: 0 <= i < |bars| && bars[i].high == HighOf(bars)
    ensures exists i :: 0 <= i < |bars| && bars[i].low == LowOf(bars)
  {
    ExtremesOf(Highs(bars));
    ExtremesOf(Lows(bars));
    var i :| 0 <= i < |bars| && Highs(bars)[i] == HighOf(bars);
    var j :| 0 <= j < |bars| && Lows(bars)[j] == LowOf(bars);
    assert bars[i].high == HighOf(bars) && bars[j].low == LowOf(bars);
  }

  lemma SweepEventExtreme(bars: seq<Bar>, level: Level, penetration: nat, index: nat, atr: real)
    requires penetration <= index < |bars|
    ensures var e := SweepEvent(bars, level, penetration, index, atr);
      && (forall i :: penetration <= i <= index ==> if level.isHigh then bars[i].high <= e.extreme else e.extreme <= bars[i].low)
      && (exists i :: penetration <= i <= index && e.extreme == if level.isHigh then bars[i].high else bars[i].low)
  {
    var relevant := bars[penetration..index + 1];
    forall i | penetration <= i <= index
      ensures bars[i].high <= HighOf(relevant) && LowOf(relevant) <= bars[i].low
    {
      HighLowBounds(relevant, i - penetration);
    }
    ExtremeAttained(relevant);
    var i :| 0 <= i < |relevant| && relevant[i].high == HighOf(relevant);
    var j :| 0 <= j < |relevant| && relevant[j].low == LowOf(relevant);
    assert bars[penetration + i] == relevant[i] && bars[penetration + j] == relevant[j];
  }

  lemma SweepEventIsSweep(bars: seq<Bar>, level: Level, contract: Contract, latest: int, penetration: nat, index: nat, atr: real)
    requires penetration <= index < |bars| && index - penetration <= contract.reclaimBars
    requires PenetratedAt(bars, level, contract, penetration) && Reclaims(bars[index], level)
    requires AtrBefore(bars, index) == Some(atr) && atr > 0.0
    requires forall i :: penetration <= i <= index ==> level.availableAt < bars[i].availableAt <= latest
    ensures IsSweep(bars, level, contract, latest, SweepEvent(bars, level, penetration, index, atr))
  {
    hide AtrBefore, Penetrates, Reclaims, HighOf, LowOf, PriorMove;
    SweepEventExtreme(bars, level, penetration, index, atr);
  }

  lemma {:induction false} DetectFromSound(bars: seq<Bar>, level: Level, contract: Contract, latest: int, index: nat,
                                           penetration: Option<nat>, start: nat)
    requires start <= index <= |bars| && (penetration.Some? ==> start <= penetration.value < index)
    requires penetration.Some? ==> PenetratedAt(bars, level, contract, penetration.value)
    requires forall i :: start <= i < |bars| ==> bars[i].availableAt > level.availableAt
    requires forall i :: start <= i < index ==> bars[i].availableAt <= latest
    ensures var r := DetectFrom(bars, level, contract, latest, index, penetration);
      r.Some? ==> IsSweep(bars, level, contract, latest, r.value)
    decreases |bars| - index
  {
    hide AtrBefore, Penetrates, Reclaims, SweepEvent, IsSweep;
    if index < |bars| && bars[index].availableAt <= latest {
      var atr := AtrBefore(bars, index);
      if atr.None? || atr.value <= 0.0 {
        DetectFromSound(bars, level, contract, latest, index + 1, penetration, start);
      } else {
        var now := PenetrationAt(bars, level, contract, index, penetration, atr.value);
        if now.Some? && Reclaims(bars[index], level) {
          SweepEventIsSweep(bars, level, contract, latest, now.value, index, atr.value);
        } else {
          DetectFromSound(bars, level, contract, latest, index + 1, now, start);
        }
      }
    }
  }

  predicate TimesIncrease(bars: seq<Bar>) {
    forall i, j :: 0 <= i < j < |bars| ==> bars[i].availableAt < bars[j].availableAt
  }

  lemma SweepIsSound(bars: seq<Bar>, level: Level, contract: Contract, latest: int)
    requires TimesIncrease(bars)
    ensures var r := Detect(bars, level, contract, latest);
      r.Some? ==> IsSweep(bars, level, contract, latest, r.value)
  {
    var start := FirstAfter(bars, level.availableAt, 0);
    DetectFromSound(bars, level, contract, latest, start, None, start);
  }

  /******* Which sweeps are found *******/

  // A penetration in whose reclaim window an earlier one was taken up.
  ghost predicate Masked(bars: seq<Bar>, level: Level, contract: Contract, p: nat)
    decreases p, 0
  {
    exists q: nat :: q < p && p - q <= contract.reclaimBars && Anchor(bars, level, contract, q)
  }

  // A penetration the detector takes up: none that it took up lies within the reclaim window before it.
  ghost predicate Anchor(bars: seq<Bar>, level: Level, contract: Contract, p: nat)
    decreases p, 1
  {
    PenetratedAt(bars, level, contract, p) && bars[p].availableAt > level.availableAt && !Masked(bars, level, contract, p)
  }

  // A close back through the level, in the reclaim window of a penetration that was taken up.
  ghost predicate Reclaimed(bars: seq<Bar>, level: Level, contract: Contract, latest: int, p: nat, i: nat) {
    && p <= i < |bars| && i - p <= contract.reclaimBars && Anchor(bars, level, contract, p)
    && AtrBefore(bars, i).Some? && AtrBefore(bars, i).value > 0.0
    && Reclaims(bars[i], level) && bars[i].availableAt <= latest
  }

  // What the scan knows before an index: the last penetration taken up, unless its window is over.
  ghost predicate InForce(bars: seq<Bar>, level: Level, contract: Contract, index: nat, penetration: Option<nat>) {
    && (penetration.Some? ==> Anchor(bars, level, contract, penetration.value))
    && forall q: nat :: q < index && Anchor(bars, level, contract, q)
        ==> if penetration.Some? then q <= penetration.value else index - 1 - q > contract.reclaimBars
  }

  lemma InForceStep(bars: seq<Bar>, level: Level, contract: Contract, index: nat, penetration: Option<nat>)
    requires index < |bars| && (penetration.Some? ==> penetration.value < index)
    requires bars[index].availableAt > level.availableAt
    requires InForce(bars, level, contract, index, penetration)
    ensures var atr := AtrBefore(bars, index);
      InForce(bars, level, contract, index + 1,
              if atr.None? || atr.value <= 0.0 then penetration
              else PenetrationAt(bars, level, contract, index, penetration, atr.value))
  {
    hide AtrBefore, Penetrates;
    var atr := AtrBefore(bars, index);
    if atr.Some? && atr.value > 0.0 {
      var now := PenetrationAt(bars, level, contract, index, penetration, atr.value);
      if now == Some(index) {
        assert forall q: nat :: q < index && Anchor(bars, level, contract, q) ==> index - q > contract.reclaimBars;
        assert !Masked(bars, level, contract, index);
        assert PenetratedAt(bars, level, contract, index);
      } else {
        assert !Anchor(bars, level, contract, index);
      }
    }
  }

  lemma {:induction false} DetectFromExact(bars: seq<Bar>, level: Level, contract: Contract, latest: int, index: nat,
                                           penetration: Option<nat>, p: nat, i: nat)
    requires index <= |bars| && (penetration.Some? ==> penetration.value < index)
    requires TimesIncrease(bars) && forall k :: index <= k < |bars| ==> bars[k].availableAt > level.availableAt
    requires InForce(bars, level, contract, index, penetration)
    ensures var r := DetectFrom(bars, level, contract, latest, index, penetration);
      && (r.Some? ==> Reclaimed(bars, level, contract, latest, r.value.penetration, r.value.sweep))
      && (index <= i && Reclaimed(bars, level, contract, latest, p, i) ==> r.Some? && r.value.sweep <= i)
    decreases |bars| - index
  {
    hide AtrBefore, Penetrates, Reclaims, PenetratedAt, Masked;
    if index < |bars| && bars[index].availableAt <= latest {
      InForceStep(bars, level, contract, index, penetration);
      var atr := AtrBefore(bars, index);
      if atr.None? || atr.value <= 0.0 {
        DetectFromExact(bars, level, contract, latest, index + 1, penetration, p, i);
      } else {
        var now := PenetrationAt(bars, level, contract, index, penetration, atr.value);
        if now.None? || !Reclaims(bars[index], level) {
          DetectFromExact(bars, level, contract, latest, index + 1, now, p, i);
        }
      }
    }
  }

  /** Exactly which sweeps are found: the detector reports the earliest close back in the window of a
      penetration it took up, and nothing if there is none.  A penetration inside the window of an earlier
      one is never taken up, even when only its own window reaches the close back. */
  lemma DetectIsExact(bars: seq<Bar>, level: Level, contract: Contract, latest: int)
    requires TimesIncrease(bars)
    ensures var r := Detect(bars, level, contract, latest);
      && (r.Some? ==> Reclaimed(bars, level, contract, latest, r.value.penetration, r.value.sweep))
      && (forall p: nat, i: nat :: Reclaimed(bars, level, contract, latest, p, i) ==> r.Some? && r.value.sweep <= i)
  {
    hide AtrBefore, Penetrates, Reclaims, PenetratedAt;
    var start := FirstAfter(bars, level.availableAt, 0);
    DetectFromExact(bars, level, contract, latest, start, None, 0, 0);
    forall p: nat, i: nat | Reclaimed(bars, level, contract, latest, p, i)
      ensures var r := Detect(bars, level, contract, latest); r.Some? && r.value.sweep <= i
    {
      assert bars[p].availableAt > level.availableAt;
      DetectFromExact(bars, level, contract, latest, start, None, p, i);
    }
  }

  /** A penetration with none before it in reach is taken up, and a bar that penetrates and closes back
      within itself is never missed. */
  lemma PlainSweepIsFound(bars: seq<Bar>, level: Level, contract: Contract, latest: int, p: nat, i: nat)
    requires TimesIncrease(bars)
    requires p <= i < |bars| && i - p <= contract.reclaimBars
    requires level.availableAt < bars[p].availableAt && bars[i].availableAt <= latest
    requires PenetratedAt(bars, level, contract, p) && Reclaims(bars[i], level)
    requires AtrBefore(bars, i).Some? && AtrBefore(bars, i).value > 0.0
    requires i == p || forall q: nat :: q < p && p - q <= contract.reclaimBars ==> !PenetratedAt(bars, level, contract, q)
    ensures var r := Detect(bars, level, contract, latest); r.Some? && r.value.sweep <= i
  {
    hide AtrBefore, Penetrates, Reclaims, PenetratedAt;
    DetectIsExact(bars, level, contract, latest);
    if Anchor(bars, level, contract, p) {
      assert Reclaimed(bars, level, contract, latest, p, i);
    } else {
      assert Masked(bars, level, contract, p);
      var q: nat :| q < p && p - q <= contract.reclaimBars && Anchor(bars, level, contract, q);
      assert Reclaimed(bars, level, contract, latest, q, i);
    }
  }

  // The production contract.
  const PRODUCTION: Contract := Contract(0.5, 0.1, 1.0, 3, 5, 5, 0.25, 0.8, 0.25, 5, 10)

  // Nineteen bars of true range ten around a high at 4: quiet ones, a penetration at 14 and at 16, and the
  // first close back at 18.
  function MaskedBars(): (bars: seq<Bar>)
    ensures |bars| == 19
    ensures forall i :: 0 <= i < 19 ==> bars[i] == MaskedBar(i)
  {
    seq(19, i requires 0 <= i < 19 => MaskedBar(i))
  }

  function MaskedBar(i: nat): Bar {
    var at := (i + 1) * MINUTE;
    if i < 14 then Bar(at, 0.0, 3.0, -7.0, 0.0)
    else if i == 14 || i == 16 then Bar(at, 0.0, 5.0, -5.0, 4.0)
    else Bar(at, 4.0, 4.0, -6.0, if i == 18 then 0.0 else 4.0)
  }

  lemma {:induction false} ConstantRange(bars: seq<Bar>, from: nat, to: nat)
    requires from <= to <= |bars| && forall i :: from <= i < to ==> TrueRange(bars, i) == 10.0
    ensures RangeSum(bars, from, to) == 10.0 * ((to - from) as real)
  {
    hide TrueRange;
    if from < to {
      ConstantRange(bars, from, to - 1);
      assert ((to - from) as real) == ((to - 1 - from) as real) + 1.0;
    }
  }

  lemma MaskedBarsHaveAtr(index: nat)
    requires 10 <= index < 19
    ensures AtrBefore(MaskedBars(), index) == Some(10.0)
  {
    var bars := MaskedBars();
    forall i | 0 <= i < 19
      ensures TrueRange(bars, i) == 10.0
    {
      assert bars[i] == MaskedBar(i);
      assert i > 0 ==> bars[i - 1] == MaskedBar(i - 1);
    }
    var from := MinusOrZero(index, 14);
    ConstantRange(bars, from, index);
    MeanOfTens((index - from) as real);
  }

  lemma MeanOfTens(n: real)
    requires n > 0.0
    ensures 10.0 * n / n == 10.0
  {
  }

  /** Not every qualifying pair is found: here bar 16 penetrates and bar 18 closes back within its window, but
      the penetration at 14 masks it, and nothing is reported. */
  lemma MaskedSweepIsMissed()
    ensures var (bars, level) := (MaskedBars(), Level(PDH, 4.0, true, 0));
      && PenetratedAt(bars, level, PRODUCTION, 16) && Reclaims(bars[18], level) && 18 - 16 <= PRODUCTION.reclaimBars
      && Detect(bars, level, PRODUCTION, 19 * MINUTE).None?
  {
    hide AtrBefore, DetectFrom, TrueRange;
    var bars, level, latest := MaskedBars(), Level(PDH, 4.0, true, 0), 19 * MINUTE;
    forall p: nat
      ensures PenetratedAt(bars, level, PRODUCTION, p) ==> p == 14 || p == 16
    {
      if PenetratedAt(bars, level, PRODUCTION, p) {
        assert bars[p] == MaskedBar(p);
      }
    }
    MaskedBarsHaveAtr(14);
    MaskedBarsHaveAtr(16);
    assert PenetratedAt(bars, level, PRODUCTION, 14) && PenetratedAt(bars, level, PRODUCTION, 16);
    assert !Masked(bars, level, PRODUCTION, 14);
    assert Anchor(bars, level, PRODUCTION, 14);
    assert Masked(bars, level, PRODUCTION, 16);
    forall p: nat, i: nat
      ensures !Reclaimed(bars, level, PRODUCTION, latest, p, i)
    {
      assert i < 19 ==> bars[i] == MaskedBar(i);
    }
    DetectIsExact(bars, level, PRODUCTION, latest);
  }

  lemma SweepEventAgrees(a: seq<Bar>, b: seq<Bar>, n: nat, level: Level, penetration: nat, index: nat, atr: real)
    requires AgreeBelow(a, b, n) && penetration <= index < n
    ensures SweepEvent(a, level, penetration, index, atr) == SweepEvent(b, level, penetration, index, atr)
  {
    hide HighOf, LowOf;
    assert a[penetration..index + 1] == a[..n][penetration..index + 1] == b[penetration..index + 1];
    assert a[penetration] == a[..n][penetration] == b[penetration];
    assert a[index] == a[..n][index] == b[index];
    var k := MinusOrZero(penetration, 15);
    assert a[k] == a[..n][k] == b[k];
  }

  // Up to an index where the series agree, the scans agree.
  lemma {:induction false} DetectFromAgrees(a: seq<Bar>, b: seq<Bar>, n: nat, level: Level, contract: Contract, latest: int,
                                            index: nat, penetration: Option<nat>)
    requires AgreeBelow(a, b, n) && index <= n && (penetration.Some? ==> penetration.value < index)
    ensures var r := DetectFrom(a, level, contract, latest, index, penetration);
      r.Some? && r.value.sweep < n ==> DetectFrom(b, level, contract, latest, index, penetration) == r
    decreases n - index
  {
    hide AtrBefore, Penetrates, Reclaims, SweepEvent;
    if index < n {
      assert a[index] == a[..n][index] == b[index];
      AtrAgrees(a, b, n, index);
      var atr := AtrBefore(a, index);
      if a[index].availableAt <= latest {
        if atr.None? || atr.value <= 0.0 {
          DetectFromAgrees(a, b, n, level, contract, latest, index + 1, penetration);
        } else {
          var now := PenetrationAt(a, level, contract, index, penetration, atr.value);
          if now.Some? && Reclaims(a[index], level) {
            SweepEventAgrees(a, b, n, level, now.value, index, atr.value);
          } else {
            DetectFromAgrees(a, b, n, level, contract, latest, index + 1, now);
          }
        }
      }
    } else {
      DetectFromRange(a, level, contract, latest, index, penetration);
    }
  }

  lemma {:induction false} DetectFromRange(bars: seq<Bar>, level: Level, contract: Contract, latest: int, index: nat, penetration: Option<nat>)
    requires index <= |bars| && (penetration.Some? ==> penetration.value < index)
    ensures var r := DetectFrom(bars, level, contract, latest, index, penetration);
      r.Some? ==> index <= r.value.sweep < |bars| && r.value.penetration <= r.value.sweep
    decreases |bars| - index
  {
    hide AtrBefore, Penetrates, Reclaims;
    if index < |bars| && bars[index].availableAt <= latest {
      var atr := AtrBefore(bars, index);
      if atr.None? || atr.value <= 0.0 {
        DetectFromRange(bars, level, contract, latest, index + 1, penetration);
      } else {
        var now := PenetrationAt(bars, level, contract, index, penetration, atr.value);
        if now.None? || !Reclaims(bars[index], level) {
          DetectFromRange(bars, level, contract, latest, index + 1, now);
        }
      }
    }
  }

  lemma FirstAfterAgrees(a: seq<Bar>, b: seq<Bar>, n: nat, at: int, index: nat)
    requires AgreeBelow(a, b, n) && index <= n
    ensures var (i, j) := (FirstAfter(a, at, index), FirstAfter(b, at, index));
      i == j || (i >= n && j >= n)
    decreases n - index
  {
    if index < n {
      assert a[index] == a[..n][index] == b[index];
      FirstAfterAgrees(a, b, n, at, index + 1);
    }
  }

  /** A sweep is known at its own bar: truncating the series anywhere behind it changes nothing,
      and a sweep found in a truncated series is the sweep of the whole. */
  lemma SweepIsCausal(bars: seq<Bar>, n: nat, level: Level, contract: Contract, latest: int)
    requires n <= |bars|
    ensures Detect(bars[..n], level, contract, latest) ==
      var r := Detect(bars, level, contract, latest); if r.Some? && r.value.sweep < n then r else None
  {
    var cut := bars[..n];
    assert cut[..n] == bars[..n];
    FirstAfterAgrees(bars, cut, n, level.availableAt, 0);
    var i := FirstAfter(bars, level.availableAt, 0);
    var j := FirstAfter(cut, level.availableAt, 0);
    if i == j {
      DetectFromAgrees(bars, cut, n, level, contract, latest, i, None);
      DetectFromAgrees(cut, bars, n, level, contract, latest, i, None);
    }
    DetectFromRange(bars, level, contract, latest, i, None);
    DetectFromRange(cut, level, contract, latest, j, None);
  }

  /******* Confirmations *******/

  // The first index of [from, end) that satisfies p.
  function FirstIn(from: nat, end: nat, p: nat -> bool): (i: Option<nat>)
    ensures i.Some? ==> from <= i.value < end && p(i.value) && forall k :: from <= k < i.value ==> !p(k)
    ensures i.None? ==> forall k :: from <= k < end ==> !p(k)
    decreases end - from
  {
    if from >= end then None else if p(from) then Some(from) else FirstIn(from + 1, end, p)
  }

  // What of a stage is known before bar n.
  function Below(i: Option<nat>, n: nat): Option<nat> {
    if i.Some? && i.value < n then i else None
  }

  // A scan that stops at n, of a condition known at each index, finds what the whole scan finds below n.
  lemma {:induction false} FirstInBelow(from: nat, end: nat, p: nat -> bool, p': nat -> bool, n: nat)
    requires forall k :: from <= k < n && k < end ==> p(k) == p'(k)
    ensures FirstIn(from, MinNat(end, n), p') == Below(FirstIn(from, end, p), n)
    decreases end - from
  {
    if from < end && from < n {
      FirstInBelow(from + 1, end, p, p', n);
    }
  }

  function Reference(e: Event, bars: seq<Bar>, contract: Contract): Option<real>
    requires e.penetration <= |bars|
  {
    var rows := bars[MinusOrZero(e.penetration, contract.mssLookback)..e.penetration];
    if |rows| < 3 then None else Some(if e.direction > 0 then HighOf(rows) else LowOf(rows))
  }

  predicate Crosses(bar: Bar, direction: int, reference: real, buffer: real) {
    if direction > 0 then bar.close >= reference + buffer else bar.close <= reference - buffer
  }

  function CrossesAt(bars: seq<Bar>, direction: int, reference: real, buffer: real): nat -> bool {
    (i: nat) => i < |bars| && Crosses(bars[i], direction, reference, buffer)
  }

  function FindMss(e: Event, bars: seq<Bar>, contract: Contract, reference: real): Option<nat> {
    FirstIn(e.sweep, MinNat(|bars|, e.sweep + contract.mssDeadline + 1),
            CrossesAt(bars, e.direction, reference, contract.mssBuffer))
  }

  predicate Displaces(bars: seq<Bar>, direction: int, contract: Contract, i: nat)
    requires i < |bars|
  {
    var atr := AtrBefore(bars, i);
    atr.Some? && (direction as real) * (bars[i].close - bars[i].open) >= contract.displacementAtr * atr.value
  }

  function DisplacesAt(bars: seq<Bar>, direction: int, contract: Contract): nat -> bool {
    (i: nat) => i < |bars| && Displaces(bars, direction, contract, i)
  }

  function FindDisplacement(e: Event, bars: seq<Bar>, contract: Contract, mss: nat): Option<nat> {
    FirstIn(e.sweep, mss + 1, DisplacesAt(bars, e.direction, contract))
  }

  // The gap between a bar and the one two before it, and its two edges.
  function GapEdges(bars: seq<Bar>, direction: int, i: nat): (real, real)
    requires 2 <= i < |bars|
  {
    if direction > 0 then (bars[i - 2].high, bars[i].low) else (bars[i].high, bars[i - 2].low)
  }

  predicate IsGap(bars: seq<Bar>, direction: int, contract: Contract, i: nat)
    requires 2 <= i < |bars|
  {
    var (lower, upper) := GapEdges(bars, direction, i);
    bars[i].availableAt - bars[i - 2].availableAt <= 3 * MINUTE && upper - lower >= contract.fvgMinimum
  }

  function IsGapAt(bars: seq<Bar>, direction: int, contract: Contract): nat -> bool {
    (i: nat) => 2 <= i < |bars| && IsGap(bars, direction, contract, i)
  }

  function FindGap(e: Event, bars: seq<Bar>, contract: Contract, mss: nat): Option<nat> {
    FirstIn(MaxNat(mss, 2), MinNat(|bars|, mss + contract.fvgFormation + 1), IsGapAt(bars, e.direction, contract))
  }

  predicate Touches(bar: Bar, lower: real, upper: real) {
    bar.low <= upper && bar.high >= lower
  }

  function RetracesAt(bars: seq<Bar>, lower: real, upper: real): nat -> bool {
    (i: nat) => i < |bars| && Touches(bars[i], lower, upper)
  }

  function FindRetrace(bars: seq<Bar>, contract: Contract, formed: nat, lower: real, upper: real): Option<nat> {
    FirstIn(formed + 1, MinNat(|bars|, formed + contract.fvgRetrace + 1), RetracesAt(bars, lower, upper))
  }

  function Attach(e: Event, bars: seq<Bar>, contract: Contract): Event
    requires e.penetration <= |bars|
  {
    var reference := Reference(e, bars, contract);
    if reference.None? then e
    else
      var mss := FindMss(e, bars, contract, reference.value);
      if mss.None? then e.(mssReference := reference)
      else
        var displacement := FindDisplacement(e, bars, contract, mss.value);
        var updated := e.(mss := mss, mssReference := reference, displacement := displacement);
        if displacement.None? then updated else WithGap(updated, bars, contract, mss.value)
  }

  function WithGap(e: Event, bars: seq<Bar>, contract: Contract, mss: nat): Event {
    var formed := FindGap(e, bars, contract, mss);
    if formed.None? then e
    else
      var (lower, upper) := GapEdges(bars, e.direction, formed.value);
      var gapped := e.(fvgFormed := formed, fvgLower := Some(lower), fvgUpper := Some(upper));
      var retrace := FindRetrace(bars, contract, formed.value, lower, upper);
      if retrace.None? then gapped
      else gapped.(fvgRetrace := retrace,
                   htfAligned := (e.direction as real) * PriorMove(bars, retrace.value, 60) > 0.0)
  }

  method AttachConfirmations(e: Event, bars: seq<Bar>, contract: Contract) returns (r: Event)
    requires e.penetration <= |bars|
    ensures r == Attach(e, bars, contract)
  {
    hide FirstIn, CrossesAt, DisplacesAt, IsGapAt, RetracesAt, PriorMove, Reference, GapEdges;
    var reference := Reference(e, bars, contract);
    r := e;
    if reference.Some? {
      var mss := Scan(e.sweep, MinNat(|bars|, e.sweep + contract.mssDeadline + 1),
                      CrossesAt(bars, e.direction, reference.value, contract.mssBuffer));
      r := e.(mssReference := reference);
      if mss.Some? {
        var displacement := Scan(e.sweep, mss.value + 1, DisplacesAt(bars, e.direction, contract));
        r := e.(mss := mss, mssReference := reference, displacement := displacement);
        if displacement.Some? {
          r := AttachGap(r, bars, contract, mss.value);
        }
      }
    }
  }

  method AttachGap(e: Event, bars: seq<Bar>, contract: Contract, mss: nat) returns (r: Event)
    ensures r == WithGap(e, bars, contract, mss)
  {
    hide FirstIn, RetracesAt, PriorMove, GapEdges, IsGap;
    r := e;
    var formed := Scan(MaxNat(mss, 2), MinNat(|bars|, mss + contract.fvgFormation + 1),
                       IsGapAt(bars, e.direction, contract));
    if formed.Some? {
      var (lower, upper) := GapEdges(bars, e.direction, formed.value);
      r := e.(fvgFormed := formed, fvgLower := Some(lower), fvgUpper := Some(upper));
      var retrace := Scan(formed.value + 1, MinNat(|bars|, formed.value + contract.fvgRetrace + 1), RetracesAt(bars, lower, upper));
      if retrace.Some? {
        r := r.(fvgRetrace := retrace, htfAligned := (e.direction as real) * PriorMove(bars, retrace.value, 60) > 0.0);
      }
    }
  }

  // A search loop with a break.
  method Scan(from: nat, end: nat, p: nat -> bool) returns (found: Option<nat>)
    ensures found == FirstIn(from, end, p)
  {
    found := None;
    var index := from;
    while index < end && found.None?
      invariant from <= index
      invariant FirstIn(from, end, p) == if found.Some? then found else FirstIn(index, end, p)
      decreases end - index, found.None?
    {
      if p(index) {
        found := Some(index);
      } else {
        index := index + 1;
      }
    }
  }

  function StageIndex(e: Event, stage: Stage): Option<nat> {
    match stage
    case Sweep => Some(e.sweep)
    case SweepMss => e.mss
    case SweepMssDisplacement => if e.displacement.Some? then e.mss else None
    case SweepMssDisplacementFvg => e.fvgRetrace
    case SweepMssDisplacementFvgHtf => if e.htfAligned then e.fvgRetrace else None
  }

  // An event as the detector hands it on: no stage attached yet.
  predicate Unconfirmed(e: Event, bars: seq<Bar>) {
    && e.penetration <= e.sweep < |bars|
    && e.mss.None? && e.displacement.None? && e.fvgFormed.None? && e.fvgRetrace.None? && !e.htfAligned
  }

  /** The stages are ordered in time and within their deadlines. */
  lemma StagesAreOrdered(e: Event, bars: seq<Bar>, contract: Contract)
    requires Unconfirmed(e, bars)
    ensures var r := Attach(e, bars, contract);
      && r.penetration <= r.sweep
      && (r.mss.Some? ==> r.sweep <= r.mss.value < |bars| && r.mss.value <= r.sweep + contract.mssDeadline)
      && (r.displacement.Some? ==> r.mss.Some? && r.sweep <= r.displacement.value <= r.mss.value)
      && (r.fvgFormed.Some? ==> r.displacement.Some? && r.mss.value <= r.fvgFormed.value < |bars|
                                && r.fvgFormed.value <= r.mss.value + contract.fvgFormation)
      && (r.fvgRetrace.Some? ==> r.fvgFormed.Some? && r.fvgFormed.value < r.fvgRetrace.value < |bars|
                                 && r.fvgRetrace.value <= r.fvgFormed.value + contract.fvgRetrace)
      && (r.htfAligned ==> r.fvgRetrace.Some?)
  {
    hide Crosses, Displaces, IsGap, GapEdges, PriorMove, Reference;
  }

  // Everything the stages look at is the same below n.
  lemma ConditionsAgree(bars: seq<Bar>, n: nat, direction: int, contract: Contract, i: nat)
    requires i < n <= |bars|
    ensures bars[..n][i] == bars[i]
    ensures DisplacesAt(bars[..n], direction, contract)(i) == DisplacesAt(bars, direction, contract)(i)
    ensures IsGapAt(bars[..n], direction, contract)(i) == IsGapAt(bars, direction, contract)(i)
    ensures 2 <= i ==> GapEdges(bars[..n], direction, i) == GapEdges(bars, direction, i)
    ensures PriorMove(bars[..n], i, 60) == PriorMove(bars, i, 60)
  {
    hide AtrBefore;
    var cut := bars[..n];
    assert cut[..n] == bars[..n];
    AtrAgrees(cut, bars, n, i);
    assert cut[MinusOrZero(i, 60)] == bars[MinusOrZero(i, 60)];
  }

  lemma MssBelow(e: Event, bars: seq<Bar>, n: nat, contract: Contract, reference: real)
    requires e.sweep < n <= |bars|
    ensures FindMss(e, bars[..n], contract, reference) == Below(FindMss(e, bars, contract, reference), n)
  {
    hide Crosses, FirstIn;
    FirstInBelow(e.sweep, MinNat(|bars|, e.sweep + contract.mssDeadline + 1),
                 CrossesAt(bars, e.direction, reference, contract.mssBuffer),
                 CrossesAt(bars[..n], e.direction, reference, contract.mssBuffer), n);
  }

  lemma DisplacementBelow(e: Event, bars: seq<Bar>, n: nat, contract: Contract, mss: nat)
    requires mss < n <= |bars|
    ensures FindDisplacement(e, bars[..n], contract, mss) == FindDisplacement(e, bars, contract, mss)
  {
    hide DisplacesAt, IsGapAt, GapEdges, PriorMove;
    forall k: nat | k < n
      ensures DisplacesAt(bars[..n], e.direction, contract)(k) == DisplacesAt(bars, e.direction, contract)(k)
    {
      ConditionsAgree(bars, n, e.direction, contract, k);
    }
    FirstInBelow(e.sweep, mss + 1, DisplacesAt(bars, e.direction, contract), DisplacesAt(bars[..n], e.direction, contract), n);
  }

  lemma GapBelow(e: Event, bars: seq<Bar>, n: nat, contract: Contract, mss: nat)
    requires mss < n <= |bars|
    ensures FindGap(e, bars[..n], contract, mss) == Below(FindGap(e, bars, contract, mss), n)
  {
    hide DisplacesAt, IsGapAt, GapEdges, PriorMove, FirstIn;
    forall k: nat | k < n
      ensures IsGapAt(bars[..n], e.direction, contract)(k) == IsGapAt(bars, e.direction, contract)(k)
    {
      ConditionsAgree(bars, n, e.direction, contract, k);
    }
    FirstInBelow(MaxNat(mss, 2), MinNat(|bars|, mss + contract.fvgFormation + 1),
                 IsGapAt(bars, e.direction, contract), IsGapAt(bars[..n], e.direction, contract), n);
  }

  lemma RetraceBelow(bars: seq<Bar>, n: nat, contract: Contract, formed: nat, lower: real, upper: real)
    requires formed < n <= |bars|
    ensures FindRetrace(bars[..n], contract, formed, lower, upper) == Below(FindRetrace(bars, contract, formed, lower, upper), n)
  {
    hide FirstIn;
    FirstInBelow(formed + 1, MinNat(|bars|, formed + contract.fvgRetrace + 1),
                 RetracesAt(bars, lower, upper), RetracesAt(bars[..n], lower, upper), n);
  }

  // The event as it is known from the first n bars.
  ghost predicate IsKnownPart(c: Event, r: Event, n: nat) {
    && c.sweep == r.sweep && c.mss == Below(r.mss, n)
    && c.mssReference == r.mssReference
    && c.displacement == (if c.mss.Some? then r.displacement else None)
    && c.fvgFormed == Below(r.fvgFormed, n)
    && (c.fvgFormed.Some? ==> c.fvgLower == r.fvgLower && c.fvgUpper == r.fvgUpper)
    && c.fvgRetrace == Below(r.fvgRetrace, n)
    && c.htfAligned == (r.htfAligned && c.fvgRetrace.Some?)
  }

  lemma WithGapIsCausal(e: Event, bars: seq<Bar>, contract: Contract, mss: nat, n: nat)
    requires mss < n <= |bars| && e.mss == Some(mss)
    requires e.fvgFormed.None? && e.fvgRetrace.None? && !e.htfAligned
    ensures IsKnownPart(WithGap(e, bars[..n], contract, mss), WithGap(e, bars, contract, mss), n)
  {
    hide FindGap, FindRetrace, GapEdges, PriorMove, DisplacesAt, IsGapAt;
    GapBelow(e, bars, n, contract, mss);
    GapRange(e, bars, contract, mss);
    var formed := FindGap(e, bars, contract, mss);
    if formed.Some? && formed.value < n {
      ConditionsAgree(bars, n, e.direction, contract, formed.value);
      var (lower, upper) := GapEdges(bars, e.direction, formed.value);
      RetraceBelow(bars, n, contract, formed.value, lower, upper);
      var retrace := FindRetrace(bars, contract, formed.value, lower, upper);
      if retrace.Some? && retrace.value < n {
        ConditionsAgree(bars, n, e.direction, contract, retrace.value);
      }
    } else if formed.Some? {
      var (lower, upper) := GapEdges(bars, e.direction, formed.value);
      RetraceRange(bars, contract, formed.value, lower, upper);
    }
  }

  lemma GapRange(e: Event, bars: seq<Bar>, contract: Contract, mss: nat)
    ensures var i := FindGap(e, bars, contract, mss); i.Some? ==> 2 <= i.value < |bars| && mss <= i.value
  {
  }

  lemma RetraceRange(bars: seq<Bar>, contract: Contract, formed: nat, lower: real, upper: real)
    ensures var i := FindRetrace(bars, contract, formed, lower, upper); i.Some? ==> formed < i.value < |bars|
  {
  }

  lemma ReferenceAgrees(e: Event, bars: seq<Bar>, n: nat, contract: Contract)
    requires e.penetration <= n <= |bars|
    ensures Reference(e, bars[..n], contract) == Reference(e, bars, contract)
  {
    var from := MinusOrZero(e.penetration, contract.mssLookback);
    assert bars[..n][from..e.penetration] == bars[from..e.penetration];
  }

  /** Every stage is known at its own bar.  Seen from the first n bars, with the sweep among them, an event
      has exactly the stages of the whole series that lie below n, with the same indices and the same
      reference and gap. */
  lemma AttachIsCausal(e: Event, bars: seq<Bar>, contract: Contract, n: nat, stage: Stage)
    requires Unconfirmed(e, bars) && e.sweep < n <= |bars|
    ensures IsKnownPart(Attach(e, bars[..n], contract), Attach(e, bars, contract), n)
    ensures StageIndex(Attach(e, bars[..n], contract), stage) == Below(StageIndex(Attach(e, bars, contract), stage), n)
  {
    hide FindMss, FindDisplacement, Reference, WithGap;
    ReferenceAgrees(e, bars, n, contract);
    var reference := Reference(e, bars, contract);
    if reference.Some? {
      MssBelow(e, bars, n, contract, reference.value);
      var mss := FindMss(e, bars, contract, reference.value);
      if mss.Some? && mss.value < n {
        DisplacementBelow(e, bars, n, contract, mss.value);
        var displacement := FindDisplacement(e, bars, contract, mss.value);
        WithGapIsCausal(e.(mss := mss, mssReference := reference, displacement := displacement), bars, contract, mss.value, n);
        WithGapKeeps(e.(mss := mss, mssReference := reference, displacement := displacement), bars, contract, mss.value);
      } else if mss.Some? {
        var displacement := FindDisplacement(e, bars, contract, mss.value);
        WithGapKeeps(e.(mss := mss, mssReference := reference, displacement := displacement), bars, contract, mss.value);
      }
    }
  }

  lemma WithGapKeeps(e: Event, bars: seq<Bar>, contract: Contract, mss: nat)
    requires e.fvgFormed.None? && e.fvgRetrace.None? && !e.htfAligned
    ensures var r := WithGap(e, bars, contract, mss);
      && r.sweep == e.sweep && r.mss == e.mss && r.mssReference == e.mssReference && r.displacement == e.displacement
      && (r.fvgFormed.Some? ==> mss <= r.fvgFormed.value < |bars|)
      && (r.fvgRetrace.Some? ==> r.fvgFormed.Some? && r.fvgFormed.value < r.fvgRetrace.value < |bars|)
      && (r.htfAligned ==> r.fvgRetrace.Some?)
  {
    hide GapEdges, PriorMove, DisplacesAt, IsGapAt, RetracesAt;
    GapRange(e, bars, contract, mss);
  }

  /** What the reference and the stages are.  The reference is the extreme of the (at most mssLookback, at
      least three) bars before the penetration; the structure break is the first close beyond it from the
      sweep on; the displacement is the first strong body up to the break; the gap is the first big enough
      one from the break on; the retrace is the first bar behind it that touches the gap.  Where a stage is
      missing, its window holds no such bar. */
  lemma StagesMeanWhatTheySay(e: Event, bars: seq<Bar>, contract: Contract, reference: real)
    requires Unconfirmed(e, bars) && Reference(e, bars, contract) == Some(reference)
    ensures var r := Attach(e, bars, contract);
      var windowEnd := MinNat(|bars|, e.sweep + contract.mssDeadline + 1);
      && r.mssReference == Some(reference)
      && (r.mss.Some? ==> Crosses(bars[r.mss.value], e.direction, reference, contract.mssBuffer))
      && (forall k :: e.sweep <= k < (if r.mss.Some? then r.mss.value else windowEnd)
            ==> !Crosses(bars[k], e.direction, reference, contract.mssBuffer))
      && (r.displacement.Some? ==> Displaces(bars, e.direction, contract, r.displacement.value))
      && (r.mss.Some? ==>
            var end := if r.displacement.Some? then r.displacement.value else r.mss.value + 1;
            end <= |bars| && forall k :: e.sweep <= k < end ==> !Displaces(bars, e.direction, contract, k))
  {
    hide Crosses, Displaces, Reference, WithGap;
    var mss := FindMss(e, bars, contract, reference);
    var crosses := CrossesAt(bars, e.direction, reference, contract.mssBuffer);
    var windowEnd := MinNat(|bars|, e.sweep + contract.mssDeadline + 1);
    forall k: nat | k < |bars|
      ensures crosses(k) == Crosses(bars[k], e.direction, reference, contract.mssBuffer)
    {
    }
    if mss.Some? {
      var displaces := DisplacesAt(bars, e.direction, contract);
      forall k: nat | k < |bars|
        ensures displaces(k) == Displaces(bars, e.direction, contract, k)
      {
      }
      var displacement := FindDisplacement(e, bars, contract, mss.value);
      WithGapKeeps(e.(mss := mss, mssReference := Some(reference), displacement := displacement), bars, contract, mss.value);
    }
  }

  lemma GapMeansWhatItSays(e: Event, bars: seq<Bar>, contract: Contract)
    requires Unconfirmed(e, bars)
    ensures var r := Attach(e, bars, contract);
      && (r.displacement.Some? && r.mss.Some? ==>
            && (r.fvgFormed.Some? ==>
                  && 2 <= r.fvgFormed.value < |bars| && IsGap(bars, e.direction, contract, r.fvgFormed.value)
                  && (r.fvgLower, r.fvgUpper) == (var (lower, upper) := GapEdges(bars, e.direction, r.fvgFormed.value); (Some(lower), Some(upper))))
            && (forall k :: MaxNat(r.mss.value, 2) <= k < (if r.fvgFormed.Some? then r.fvgFormed.value
                                                          else MinNat(|bars|, r.mss.value + contract.fvgFormation + 1))
                  ==> !IsGap(bars, e.direction, contract, k)))
      && (r.fvgFormed.Some? && r.fvgLower.Some? && r.fvgUpper.Some? ==>
            && (r.fvgRetrace.Some? ==> r.fvgRetrace.value < |bars| && Touches(bars[r.fvgRetrace.value], r.fvgLower.value, r.fvgUpper.value))
            && (r.fvgRetrace.Some? ==> r.htfAligned == ((e.direction as real) * PriorMove(bars, r.fvgRetrace.value, 60) > 0.0))
            && (forall k :: r.fvgFormed.value < k < (if r.fvgRetrace.Some? then r.fvgRetrace.value
                                                    else MinNat(|bars|, r.fvgFormed.value + contract.fvgRetrace + 1))
                  ==> !Touches(bars[k], r.fvgLower.value, r.fvgUpper.value)))
  {
    hide Crosses, Displaces, IsGap, GapEdges, PriorMove, Reference, WithGap;
    var reference := Reference(e, bars, contract);
    if reference.Some? {
      var mss := FindMss(e, bars, contract, reference.value);
      if mss.Some? {
        var displacement := FindDisplacement(e, bars, contract, mss.value);
        var updated := e.(mss := mss, mssReference := reference, displacement := displacement);
        WithGapKeeps(updated, bars, contract, mss.value);
        if displacement.Some? {
          WithGapMeaning(updated, bars, contract, mss.value);
        }
      }
    }
  }

  lemma WithGapMeaning(e: Event, bars: seq<Bar>, contract: Contract, mss: nat)
    requires e.fvgFormed.None? && e.fvgRetrace.None? && !e.htfAligned
    ensures var r := WithGap(e, bars, contract, mss);
      && r.direction == e.direction
      && (r.fvgFormed.Some? ==>
            && 2 <= r.fvgFormed.value < |bars| && IsGap(bars, e.direction, contract, r.fvgFormed.value)
            && (r.fvgLower, r.fvgUpper) == (var (lower, upper) := GapEdges(bars, e.direction, r.fvgFormed.value); (Some(lower), Some(upper))))
      && (forall k :: MaxNat(mss, 2) <= k < (if r.fvgFormed.Some? then r.fvgFormed.value
                                            else MinNat(|bars|, mss + contract.fvgFormation + 1))
            ==> !IsGap(bars, e.direction, contract, k))
      && (r.fvgFormed.Some? && r.fvgLower.Some? && r.fvgUpper.Some? ==>
            && (r.fvgRetrace.Some? ==> r.fvgRetrace.value < |bars| && Touches(bars[r.fvgRetrace.value], r.fvgLower.value, r.fvgUpper.value))
            && (r.fvgRetrace.Some? ==> r.htfAligned == ((e.direction as real) * PriorMove(bars, r.fvgRetrace.value, 60) > 0.0))
            && (forall k :: r.fvgFormed.value < k < (if r.fvgRetrace.Some? then r.fvgRetrace.value
                                                    else MinNat(|bars|, r.fvgFormed.value + contract.fvgRetrace + 1))
                  ==> !Touches(bars[k], r.fvgLower.value, r.fvgUpper.value)))
  {
    hide IsGap, GapEdges, PriorMove, Touches;
    var isGap := IsGapAt(bars, e.direction, contract);
    forall k: nat | 2 <= k < |bars|
      ensures isGap(k) == IsGap(bars, e.direction, contract, k)
    {
    }
    GapRange(e, bars, contract, mss);
    var formed := FindGap(e, bars, contract, mss);
    if formed.Some? {
      var (lower, upper) := GapEdges(bars, e.direction, formed.value);
      var touches := RetracesAt(bars, lower, upper);
      forall k: nat | k < |bars|
        ensures touches(k) == Touches(bars[k], lower, upper)
      {
      }
    }
  }

  /******* The signal of a stage *******/

  // The structure breaks at bar i: the first close beyond the reference, in time.
  ghost predicate BrokenAt(e: Event, bars: seq<Bar>, contract: Contract, i: nat)
    requires e.penetration <= |bars|
  {
    var reference := Reference(e, bars, contract);
    && reference.Some? && e.sweep <= i < |bars| && i <= e.sweep + contract.mssDeadline
    && Crosses(bars[i], e.direction, reference.value, contract.mssBuffer)
    && forall k :: e.sweep <= k < i ==> !Crosses(bars[k], e.direction, reference.value, contract.mssBuffer)
  }

  // Some bar from the sweep to bar m is a displacement.
  ghost predicate StrongBy(e: Event, bars: seq<Bar>, contract: Contract, m: nat) {
    exists d :: e.sweep <= d <= m && d < |bars| && Displaces(bars, e.direction, contract, d)
  }

  // The first gap from the structure break m on forms at g, in time.
  ghost predicate GapAt(e: Event, bars: seq<Bar>, contract: Contract, m: nat, g: nat) {
    && MaxNat(m, 2) <= g < |bars| && g <= m + contract.fvgFormation
    && IsGap(bars, e.direction, contract, g)
    && forall k :: MaxNat(m, 2) <= k < g ==> !IsGap(bars, e.direction, contract, k)
  }

  // Bar i is the first behind the gap formed at g to touch it, in time.
  ghost predicate FilledAt(e: Event, bars: seq<Bar>, contract: Contract, g: nat, i: nat)
    requires 2 <= g < |bars|
  {
    && g < i < |bars| && i <= g + contract.fvgRetrace
    && Touches(bars[i], GapEdges(bars, e.direction, g).0, GapEdges(bars, e.direction, g).1)
    && forall k :: g < k < i ==> !Touches(bars[k], GapEdges(bars, e.direction, g).0, GapEdges(bars, e.direction, g).1)
  }

  ghost predicate RetracedAt(e: Event, bars: seq<Bar>, contract: Contract, i: nat)
    requires e.penetration <= |bars|
  {
    exists m, g :: BrokenAt(e, bars, contract, m) && StrongBy(e, bars, contract, m) && GapAt(e, bars, contract, m, g)
                   && FilledAt(e, bars, contract, g, i)
  }

  lemma FirstInIff(from: nat, end: nat, p: nat -> bool, i: nat)
    ensures FirstIn(from, end, p) == Some(i) <==> from <= i < end && p(i) && forall k :: from <= k < i ==> !p(k)
  {
  }

  lemma MssIff(e: Event, bars: seq<Bar>, contract: Contract, i: nat)
    requires e.penetration <= |bars| && Reference(e, bars, contract).Some?
    ensures FindMss(e, bars, contract, Reference(e, bars, contract).value) == Some(i) <==> BrokenAt(e, bars, contract, i)
  {
    hide Crosses, Reference, FirstIn;
    var reference := Reference(e, bars, contract).value;
    var crosses := CrossesAt(bars, e.direction, reference, contract.mssBuffer);
    forall k: nat | k < |bars|
      ensures crosses(k) == Crosses(bars[k], e.direction, reference, contract.mssBuffer)
    {
    }
    FirstInIff(e.sweep, MinNat(|bars|, e.sweep + contract.mssDeadline + 1), crosses, i);
  }

  lemma DisplacementIff(e: Event, bars: seq<Bar>, contract: Contract, m: nat)
    requires m < |bars|
    ensures FindDisplacement(e, bars, contract, m).Some? <==> StrongBy(e, bars, contract, m)
  {
    hide Displaces, FirstIn;
    var displaces := DisplacesAt(bars, e.direction, contract);
    forall k: nat | k < |bars|
      ensures displaces(k) == Displaces(bars, e.direction, contract, k)
    {
    }
  }

  lemma GapIff(e: Event, bars: seq<Bar>, contract: Contract, m: nat, g: nat)
    ensures FindGap(e, bars, contract, m) == Some(g) <==> GapAt(e, bars, contract, m, g)
  {
    hide IsGap, FirstIn;
    var isGap := IsGapAt(bars, e.direction, contract);
    forall k: nat | 2 <= k < |bars|
      ensures isGap(k) == IsGap(bars, e.direction, contract, k)
    {
    }
    FirstInIff(MaxNat(m, 2), MinNat(|bars|, m + contract.fvgFormation + 1), isGap, g);
  }

  lemma RetraceIff(e: Event, bars: seq<Bar>, contract: Contract, g: nat, i: nat)
    requires 2 <= g < |bars|
    ensures FindRetrace(bars, contract, g, GapEdges(bars, e.direction, g).0, GapEdges(bars, e.direction, g).1) == Some(i) <==>
            FilledAt(e, bars, contract, g, i)
  {
    hide Touches, FirstIn, GapEdges;
    var (lower, upper) := GapEdges(bars, e.direction, g);
    var touches := RetracesAt(bars, lower, upper);
    forall k: nat | k < |bars|
      ensures touches(k) == Touches(bars[k], lower, upper)
    {
    }
    FirstInIff(g + 1, MinNat(|bars|, g + contract.fvgRetrace + 1), touches, i);
  }

  lemma GapSignalIff(e: Event, bars: seq<Bar>, contract: Contract, m: nat, i: nat)
    requires e.fvgFormed.None? && e.fvgRetrace.None? && !e.htfAligned
    ensures var r := WithGap(e, bars, contract, m);
      && (r.fvgRetrace == Some(i) <==> exists g :: GapAt(e, bars, contract, m, g) && FilledAt(e, bars, contract, g, i))
      && (r.fvgRetrace == Some(i) ==> (r.htfAligned <==> (e.direction as real) * PriorMove(bars, i, 60) > 0.0))
  {
    hide FindGap, FindRetrace, GapEdges, PriorMove, FilledAt, IsGap;
    forall g: nat
      ensures FindGap(e, bars, contract, m) == Some(g) <==> GapAt(e, bars, contract, m, g)
    {
      GapIff(e, bars, contract, m, g);
    }
    var formed := FindGap(e, bars, contract, m);
    if formed.Some? {
      GapRange(e, bars, contract, m);
      RetraceIff(e, bars, contract, formed.value, i);
    }
  }

  /** The signal of each stage, read off the bars: the sweep itself; the structure break; the structure break if a
      displacement led to it; the first touch of the gap formed behind such a break; and that touch if the move of
      the hour before goes the event's way. */
  ghost predicate IsSignal(e: Event, bars: seq<Bar>, contract: Contract, stage: Stage, i: nat)
    requires e.penetration <= |bars|
  {
    match stage
    case Sweep => i == e.sweep
    case SweepMss => BrokenAt(e, bars, contract, i)
    case SweepMssDisplacement => BrokenAt(e, bars, contract, i) && StrongBy(e, bars, contract, i)
    case SweepMssDisplacementFvg => RetracedAt(e, bars, contract, i)
    case SweepMssDisplacementFvgHtf =>
      RetracedAt(e, bars, contract, i) && i < |bars| && (e.direction as real) * PriorMove(bars, i, 60) > 0.0
  }

  /** A stage's signal is that bar; there is none exactly if there is no such bar. */
  lemma SignalIff(e: Event, bars: seq<Bar>, contract: Contract, stage: Stage, i: nat)
    requires Unconfirmed(e, bars)
    ensures StageIndex(Attach(e, bars, contract), stage) == Some(i) <==> IsSignal(e, bars, contract, stage, i)
  {
    hide FindMss, FindDisplacement, Reference, WithGap, BrokenAt, StrongBy, GapAt, FilledAt, RetracedAt, PriorMove;
    var reference := Reference(e, bars, contract);
    if reference.Some? {
      forall m: nat
        ensures FindMss(e, bars, contract, reference.value) == Some(m) <==> BrokenAt(e, bars, contract, m)
      {
        MssIff(e, bars, contract, m);
      }
      var mss := FindMss(e, bars, contract, reference.value);
      if mss.Some? {
        BrokenInRange(e, bars, contract, mss.value);
        DisplacementIff(e, bars, contract, mss.value);
        var displacement := FindDisplacement(e, bars, contract, mss.value);
        var updated := e.(mss := mss, mssReference := reference, displacement := displacement);
        WithGapKeeps(updated, bars, contract, mss.value);
        GapSignalIff(updated, bars, contract, mss.value, i);
        SameBars(e, updated, bars, contract, mss.value, i);
        RetracedBehind(e, bars, contract, mss.value, i);
      }
    } else {
      forall m: nat
        ensures !BrokenAt(e, bars, contract, m)
      {
        NotBroken(e, bars, contract, m);
      }
    }
    if forall m: nat :: !BrokenAt(e, bars, contract, m) {
      NotRetraced(e, bars, contract, i);
    }
  }

  lemma BrokenInRange(e: Event, bars: seq<Bar>, contract: Contract, m: nat)
    requires e.penetration <= |bars| && BrokenAt(e, bars, contract, m)
    ensures m < |bars|
  {
  }

  lemma RetracedBehind(e: Event, bars: seq<Bar>, contract: Contract, m: nat, i: nat)
    requires e.penetration <= |bars| && BrokenAt(e, bars, contract, m)
    ensures RetracedAt(e, bars, contract, i) <==>
      StrongBy(e, bars, contract, m) && exists g :: GapAt(e, bars, contract, m, g) && FilledAt(e, bars, contract, g, i)
  {
    hide FilledAt, GapAt, StrongBy, Crosses, Reference;
    forall k: nat | BrokenAt(e, bars, contract, k)
      ensures k == m
    {
    }
  }

  lemma NotRetraced(e: Event, bars: seq<Bar>, contract: Contract, i: nat)
    requires e.penetration <= |bars| && forall m: nat :: !BrokenAt(e, bars, contract, m)
    ensures !RetracedAt(e, bars, contract, i)
  {
  }

  lemma NotBroken(e: Event, bars: seq<Bar>, contract: Contract, m: nat)
    requires e.penetration <= |bars| && Reference(e, bars, contract).None?
    ensures !BrokenAt(e, bars, contract, m)
  {
  }

  // Gaps and touches do not depend on the stages attached so far.
  lemma SameBars(a: Event, b: Event, bars: seq<Bar>, contract: Contract, m: nat, i: nat)
    requires a.direction == b.direction
    ensures (exists g :: GapAt(a, bars, contract, m, g) && FilledAt(a, bars, contract, g, i)) <==>
            (exists g :: GapAt(b, bars, contract, m, g) && FilledAt(b, bars, contract, g, i))
  {
    forall g
      ensures GapAt(a, bars, contract, m, g) == GapAt(b, bars, contract, m, g)
    {
    }
  }

  lemma ReferenceIsExtreme(e: Event, bars: seq<Bar>, contract: Contract)
    requires e.penetration <= |bars|
    ensures var r := Reference(e, bars, contract);
      var from := MinusOrZero(e.penetration, contract.mssLookback);
      && (r.None? <==> e.penetration - from < 3)
      && (r.Some? ==> && (forall k :: from <= k < e.penetration ==> if e.direction > 0 then bars[k].high <= r.value else r.value <= bars[k].low)
                      && (exists k :: from <= k < e.penetration && r.value == if e.direction > 0 then bars[k].high else bars[k].low))
  {
    var from := MinusOrZero(e.penetration, contract.mssLookback);
    var rows := bars[from..e.penetration];
    if |rows| >= 3 {
      forall k | from <= k < e.penetration
        ensures bars[k].high <= HighOf(rows) && LowOf(rows) <= bars[k].low
      {
        HighLowBounds(rows, k - from);
      }
      ExtremeAttained(rows);
      var i :| 0 <= i < |rows| && rows[i].high == HighOf(rows);
      var j :| 0 <= j < |rows| && rows[j].low == LowOf(rows);
      assert bars[from + i] == rows[i] && bars[from + j] == rows[j];
    }
  }
}
