/**
 What happened after a sweep signal: the move over fixed horizons, its best and worst excursion, and
 whether the stop or a target was touched first.
 */
module SweepForward {
  import opened Options
  import opened SweepDetector

  datatype Outcome = InvalidRisk | Unresolved | Loss | Win

  datatype Horizon = Horizon(minutes: nat, aligned: real, favorable: real, adverse: real)

  datatype Row = Row(entry: real, stop: real, risk: real, horizons: seq<Horizon>, oneR: Outcome, twoR: Outcome)

  const HORIZONS: seq<nat> := [5, 15, 30, 60]
  const LONGEST: nat := 60

  /******* First touch *******/

  predicate StopHit(bar: Bar, direction: int, stop: real) {
    if direction > 0 then bar.low <= stop else bar.high >= stop
  }

  predicate TargetHit(bar: Bar, direction: int, target: real) {
    if direction > 0 then bar.high >= target else bar.low <= target
  }

  predicate Untouched(bars: seq<Bar>, n: nat, direction: int, stop: real, target: real)
    requires n <= |bars|
  {
    forall k :: 0 <= k < n ==> !StopHit(bars[k], direction, stop) && !TargetHit(bars[k], direction, target)
  }

  // The trade is decided at the first bar that touches either price; the stop counts first.
  ghost predicate IsOutcome(bars: seq<Bar>, direction: int, stop: real, target: real, o: Outcome) {
    match o
    case InvalidRisk => false
    case Unresolved => Untouched(bars, |bars|, direction, stop, target)
    case Loss => exists i :: 0 <= i < |bars| && Untouched(bars, i, direction, stop, target) && StopHit(bars[i], direction, stop)
    case Win => exists i :: 0 <= i < |bars| && Untouched(bars, i, direction, stop, target)
                            && !StopHit(bars[i], direction, stop) && TargetHit(bars[i], direction, target)
  }

  method FirstTouch(bars: seq<Bar>, direction: int, stop: real, target: real) returns (outcome: Outcome)
    ensures IsOutcome(bars, direction, stop, target, outcome)
  {
    outcome := Unresolved;
    for i := 0 to |bars|
      invariant outcome == Unresolved && Untouched(bars, i, direction, stop, target)
    {
      var bar := bars[i];
      if StopHit(bar, direction, stop) {
        outcome := Loss;
        break;
      }
      if TargetHit(bar, direction, target) {
        outcome := Win;
        break;
      }
    }
  }

  /** Exactly one outcome fits. */
  lemma OutcomeIsUnique(bars: seq<Bar>, direction: int, stop: real, target: real, o: Outcome, o': Outcome)
    requires IsOutcome(bars, direction, stop, target, o) && IsOutcome(bars, direction, stop, target, o')
    ensures o == o'
  {
  }

  /** A decided trade stays decided when more bars arrive. */
  lemma OutcomeIsCausal(bars: seq<Bar>, n: nat, direction: int, stop: real, target: real, early: Outcome, late: Outcome)
    requires n <= |bars|
    requires IsOutcome(bars[..n], direction, stop, target, early) && IsOutcome(bars, direction, stop, target, late)
    ensures early != Unresolved ==> late == early
    ensures late == Unresolved ==> early == Unresolved
  {
    if early != Unresolved {
      var i :| 0 <= i < n && Untouched(bars[..n], i, direction, stop, target)
               && (StopHit(bars[..n][i], direction, stop) || TargetHit(bars[..n][i], direction, target))
               && (early == Loss <==> StopHit(bars[..n][i], direction, stop));
      assert bars[..n][i] == bars[i];
      assert Untouched(bars, i, direction, stop, target) by {
        forall k | 0 <= k < i
          ensures !StopHit(bars[k], direction, stop) && !TargetHit(bars[k], direction, target)
        {
          assert bars[k] == bars[..n][k];
        }
      }
      assert IsOutcome(bars, direction, stop, target, early);
      OutcomeIsUnique(bars, direction, stop, target, early, late);
    }
  }

  // A target further away in the direction of the trade.
  predicate Further(direction: int, near: real, far: real) {
    if direction > 0 then near <= far else far <= near
  }

  /** A further target can only turn wins into losses or leave them open: it wins only where the nearer one
      wins, and loses wherever the nearer one loses. */
  lemma FurtherTarget(bars: seq<Bar>, direction: int, stop: real, near: real, far: real, o: Outcome, o': Outcome)
    requires Further(direction, near, far)
    requires IsOutcome(bars, direction, stop, near, o) && IsOutcome(bars, direction, stop, far, o')
    ensures o' == Win ==> o == Win
    ensures o == Loss ==> o' == Loss
    ensures o == Unresolved ==> o' == Unresolved
  {
    if o == Loss {
      var i :| 0 <= i < |bars| && Untouched(bars, i, direction, stop, near) && StopHit(bars[i], direction, stop);
      assert Untouched(bars, i, direction, stop, far);
      assert IsOutcome(bars, direction, stop, far, Loss);
      OutcomeIsUnique(bars, direction, stop, far, Loss, o');
    } else if o == Unresolved {
      assert IsOutcome(bars, direction, stop, far, Unresolved);
      OutcomeIsUnique(bars, direction, stop, far, Unresolved, o');
    }
  }

  /******* Excursions *******/

  ghost predicate WellFormed(bars: seq<Bar>) {
    forall i :: 0 <= i < |bars| ==> bars[i].low <= bars[i].open <= bars[i].high && bars[i].low <= bars[i].close <= bars[i].high
  }

  predicate Directed(direction: int) {
    direction == 1 || direction == -1
  }

  function HorizonOf(bars: seq<Bar>, entryIndex: nat, direction: int, minutes: nat): Horizon
    requires 0 < minutes && entryIndex + minutes <= |bars|
  {
    var future := bars[entryIndex..entryIndex + minutes];
    var entry := bars[entryIndex].open;
    var (up, down) := (HighOf(future) - entry, entry - LowOf(future));
    Horizon(minutes, (direction as real) * (future[minutes - 1].close - entry),
            if direction > 0 then up else down, if direction > 0 then down else up)
  }

  /** The result of a horizon lies between its worst and its best excursion, and neither is negative. */
  lemma HorizonInRange(bars: seq<Bar>, entryIndex: nat, direction: int, minutes: nat)
    requires 0 < minutes && entryIndex + minutes <= |bars| && WellFormed(bars) && Directed(direction)
    ensures var h := HorizonOf(bars, entryIndex, direction, minutes);
      -h.adverse <= h.aligned <= h.favorable && h.favorable >= 0.0 && h.adverse >= 0.0
  {
    var future := bars[entryIndex..entryIndex + minutes];
    assert future[0] == bars[entryIndex] && future[minutes - 1] == bars[entryIndex + minutes - 1];
    HighLowBounds(future, 0);
    HighLowBounds(future, minutes - 1);
  }

  // How far a bar reaches with the trade, and against it.
  function Gain(bar: Bar, direction: int, entry: real): real {
    if direction > 0 then bar.high - entry else entry - bar.low
  }

  function Pain(bar: Bar, direction: int, entry: real): real {
    if direction > 0 then entry - bar.low else bar.high - entry
  }

  /** The result of a horizon is the move from the entry to the close of its last bar, seen in the trade's direction;
      its excursions are the furthest any of its bars reaches with the trade and against it. */
  lemma HorizonMeans(bars: seq<Bar>, entryIndex: nat, direction: int, minutes: nat)
    requires 0 < minutes && entryIndex + minutes <= |bars| && Directed(direction)
    ensures var (h, entry, end) := (HorizonOf(bars, entryIndex, direction, minutes), bars[entryIndex].open, entryIndex + minutes);
      && h.minutes == minutes
      && h.aligned == (if direction > 0 then bars[end - 1].close - entry else entry - bars[end - 1].close)
      && (forall k :: entryIndex <= k < end ==> Gain(bars[k], direction, entry) <= h.favorable && Pain(bars[k], direction, entry) <= h.adverse)
      && (exists k :: entryIndex <= k < end && Gain(bars[k], direction, entry) == h.favorable)
      && (exists k :: entryIndex <= k < end && Pain(bars[k], direction, entry) == h.adverse)
  {
    var future := bars[entryIndex..entryIndex + minutes];
    var entry := bars[entryIndex].open;
    forall k | entryIndex <= k < entryIndex + minutes
      ensures bars[k].high <= HighOf(future) && LowOf(future) <= bars[k].low
    {
      HighLowBounds(future, k - entryIndex);
    }
    ExtremeAttained(future);
    var top :| 0 <= top < |future| && future[top].high == HighOf(future);
    var bottom :| 0 <= bottom < |future| && future[bottom].low == LowOf(future);
    assert bars[entryIndex + top] == future[top] && bars[entryIndex + bottom] == future[bottom];
  }

  lemma ExtremesGrow(bars: seq<Bar>, n: nat)
    requires 0 < n <= |bars|
    ensures HighOf(bars[..n]) <= HighOf(bars) && LowOf(bars) <= LowOf(bars[..n])
  {
    ExtremeAttained(bars[..n]);
    var i :| 0 <= i < n && bars[..n][i].high == HighOf(bars[..n]);
    var j :| 0 <= j < n && bars[..n][j].low == LowOf(bars[..n]);
    HighLowBounds(bars, i);
    HighLowBounds(bars, j);
  }

  /** Excursions only grow with the horizon. */
  lemma ExcursionsGrow(bars: seq<Bar>, entryIndex: nat, direction: int, shorter: nat, longer: nat)
    requires 0 < shorter <= longer && entryIndex + longer <= |bars| && Directed(direction)
    ensures HorizonOf(bars, entryIndex, direction, shorter).favorable <= HorizonOf(bars, entryIndex, direction, longer).favorable
    ensures HorizonOf(bars, entryIndex, direction, shorter).adverse <= HorizonOf(bars, entryIndex, direction, longer).adverse
  {
    var future := bars[entryIndex..entryIndex + longer];
    assert future[..shorter] == bars[entryIndex..entryIndex + shorter];
    ExtremesGrow(future, shorter);
  }

  // Whether a window ever reached a price is told by its extremes.
  lemma ExtremesTell(bars: seq<Bar>, direction: int, stop: real, target: real)
    requires bars != []
    ensures (exists i :: 0 <= i < |bars| && StopHit(bars[i], direction, stop)) <==>
      if direction > 0 then LowOf(bars) <= stop else HighOf(bars) >= stop
    ensures (exists i :: 0 <= i < |bars| && TargetHit(bars[i], direction, target)) <==>
      if direction > 0 then HighOf(bars) >= target else LowOf(bars) <= target
  {
    forall i | 0 <= i < |bars|
      ensures LowOf(bars) <= bars[i].low && bars[i].high <= HighOf(bars)
    {
      HighLowBounds(bars, i);
    }
    ExtremeAttained(bars);
    var top :| 0 <= top < |bars| && bars[top].high == HighOf(bars);
    var bottom :| 0 <= bottom < |bars| && bars[bottom].low == LowOf(bars);
    assert StopHit(bars[if direction > 0 then bottom else top], direction, stop) <==>
      if direction > 0 then LowOf(bars) <= stop else HighOf(bars) >= stop;
    assert TargetHit(bars[if direction > 0 then top else bottom], direction, target) <==>
      if direction > 0 then HighOf(bars) >= target else LowOf(bars) <= target;
  }

  lemma OutcomeTouches(bars: seq<Bar>, direction: int, stop: real, target: real, o: Outcome)
    requires IsOutcome(bars, direction, stop, target, o)
    ensures o == Win ==> exists i :: 0 <= i < |bars| && TargetHit(bars[i], direction, target)
    ensures o == Loss ==> exists i :: 0 <= i < |bars| && StopHit(bars[i], direction, stop)
    ensures o == Unresolved <==> forall i :: 0 <= i < |bars| ==> !StopHit(bars[i], direction, stop) && !TargetHit(bars[i], direction, target)
  {
    hide StopHit, TargetHit;
  }

  /** The first-touch outcome and the excursions agree: a win reached its target, a loss its stop, and a
      trade is open exactly when the price reached neither. */
  lemma OutcomeFitsExcursions(bars: seq<Bar>, entryIndex: nat, direction: int, stop: real, target: real, o: Outcome)
    requires entryIndex + LONGEST <= |bars| && Directed(direction)
    requires IsOutcome(bars[entryIndex..entryIndex + LONGEST], direction, stop, target, o)
    ensures var h := HorizonOf(bars, entryIndex, direction, LONGEST);
      var (reward, risk) := ((direction as real) * (target - bars[entryIndex].open), (direction as real) * (bars[entryIndex].open - stop));
      && (o == Win ==> h.favorable >= reward)
      && (o == Loss ==> h.adverse >= risk)
      && (o == Unresolved <==> h.favorable < reward && h.adverse < risk)
  {
    hide IsOutcome, StopHit, TargetHit;
    var future := bars[entryIndex..entryIndex + LONGEST];
    OutcomeTouches(future, direction, stop, target, o);
    ExtremesTell(future, direction, stop, target);
  }

  /******* The row of a signal *******/

  predicate ValidRisk(risk: real) { 0.5 <= risk <= 30.0 }

  function Target(entry: real, direction: int, multiple: real, risk: real): real {
    entry + (direction as real) * multiple * risk
  }

  // The outcome reported for a target at a multiple of the risk.
  ghost predicate IsReported(bars: seq<Bar>, entryIndex: nat, direction: int, row: Row, multiple: real, o: Outcome)
    requires entryIndex + LONGEST <= |bars|
  {
    if ValidRisk(row.risk)
    then IsOutcome(bars[entryIndex..entryIndex + LONGEST], direction, row.stop,
                   Target(row.entry, direction, multiple, row.risk), o)
    else o == InvalidRisk
  }

  predicate CanEnter(bars: seq<Bar>, signal: nat, lastEntry: int) {
    signal + 1 + LONGEST <= |bars| && bars[signal + 1].availableAt <= lastEntry
  }

  method ForwardMetrics(bars: seq<Bar>, e: Event, signal: nat, lastEntry: int) returns (row: Option<Row>)
    ensures row.Some? <==> CanEnter(bars, signal, lastEntry)
    ensures row.Some? ==>
      && row.value.entry == bars[signal + 1].open
      && row.value.stop == e.extreme - (e.direction as real) * 0.5
      && row.value.risk == (e.direction as real) * (row.value.entry - row.value.stop)
      && row.value.horizons == seq(|HORIZONS|, i requires 0 <= i < |HORIZONS| => HorizonOf(bars, signal + 1, e.direction, HORIZONS[i]))
      && IsReported(bars, signal + 1, e.direction, row.value, 1.0, row.value.oneR)
      && IsReported(bars, signal + 1, e.direction, row.value, 2.0, row.value.twoR)
  {
    hide IsOutcome, Target, HorizonOf;
    var entryIndex := signal + 1;
    row := None;
    if entryIndex < |bars| && bars[entryIndex].availableAt <= lastEntry && entryIndex + LONGEST <= |bars| {
      var entry := bars[entryIndex].open;
      var horizons: seq<Horizon> := [];
      for i := 0 to |HORIZONS|
        invariant horizons == seq(i, j requires 0 <= j < i => HorizonOf(bars, entryIndex, e.direction, HORIZONS[j]))
      {
        horizons := horizons + [HorizonOf(bars, entryIndex, e.direction, HORIZONS[i])];
      }
      var stop := e.extreme - (e.direction as real) * 0.5;
      var risk := (e.direction as real) * (entry - stop);
      var oneR, twoR := InvalidRisk, InvalidRisk;
      if ValidRisk(risk) {
        var window := bars[entryIndex..entryIndex + LONGEST];
        oneR := FirstTouch(window, e.direction, stop, Target(entry, e.direction, 1.0, risk));
        twoR := FirstTouch(window, e.direction, stop, Target(entry, e.direction, 2.0, risk));
      }
      row := Some(Row(entry, stop, risk, horizons, oneR, twoR));
    }
  }

  /** In every row the two-risk trade wins only where the one-risk trade does, and loses wherever it does. */
  lemma TwoRiskNeedsOneRisk(bars: seq<Bar>, entryIndex: nat, direction: int, row: Row)
    requires entryIndex + LONGEST <= |bars| && Directed(direction)
    requires IsReported(bars, entryIndex, direction, row, 1.0, row.oneR)
    requires IsReported(bars, entryIndex, direction, row, 2.0, row.twoR)
    ensures row.twoR == Win ==> row.oneR == Win
    ensures row.oneR == Loss ==> row.twoR == Loss
    ensures row.oneR == InvalidRisk <==> row.twoR == InvalidRisk
  {
    hide IsOutcome;
    if ValidRisk(row.risk) {
      FurtherTarget(bars[entryIndex..entryIndex + LONGEST], direction, row.stop,
                    Target(row.entry, direction, 1.0, row.risk), Target(row.entry, direction, 2.0, row.risk),
                    row.oneR, row.twoR);
      ReportedIsNotInvalid(bars, entryIndex, direction, row);
    }
  }

  /** What a row's outcome at a multiple says of the longest horizon: no trade exactly if the risk is out of bounds; open
      exactly if the best excursion stays below that multiple of the risk and the worst below the risk; a win reached
      the multiple, and a loss lost the risk. */
  lemma ReportedFitsExcursions(bars: seq<Bar>, entryIndex: nat, direction: int, row: Row, multiple: real, o: Outcome)
    requires entryIndex + LONGEST <= |bars| && Directed(direction)
    requires row.entry == bars[entryIndex].open && row.risk == (direction as real) * (row.entry - row.stop)
    requires IsReported(bars, entryIndex, direction, row, multiple, o)
    ensures var h := HorizonOf(bars, entryIndex, direction, LONGEST);
      && (o == InvalidRisk <==> row.risk < 0.5 || row.risk > 30.0)
      && (o == Unresolved ==> h.favorable < multiple * row.risk && h.adverse < row.risk)
      && (0.5 <= row.risk <= 30.0 && h.favorable < multiple * row.risk && h.adverse < row.risk ==> o == Unresolved)
      && (o == Win ==> h.favorable >= multiple * row.risk)
      && (o == Loss ==> h.adverse >= row.risk)
  {
    hide IsOutcome, HorizonOf;
    if ValidRisk(row.risk) {
      NeverInvalid(bars[entryIndex..entryIndex + LONGEST], direction, row.stop, Target(row.entry, direction, multiple, row.risk), o);
      OutcomeFitsExcursions(bars, entryIndex, direction, row.stop, Target(row.entry, direction, multiple, row.risk), o);
    }
  }

  lemma NeverInvalid(bars: seq<Bar>, direction: int, stop: real, target: real, o: Outcome)
    requires IsOutcome(bars, direction, stop, target, o)
    ensures o != InvalidRisk
  {
  }

  lemma ReportedIsNotInvalid(bars: seq<Bar>, entryIndex: nat, direction: int, row: Row)
    requires entryIndex + LONGEST <= |bars| && ValidRisk(row.risk)
    requires IsReported(bars, entryIndex, direction, row, 1.0, row.oneR)
    requires IsReported(bars, entryIndex, direction, row, 2.0, row.twoR)
    ensures row.oneR != InvalidRisk && row.twoR != InvalidRisk
  {
  }
}
