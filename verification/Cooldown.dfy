/**
 Divergence signals over minute rows of one session: the raw flags, the greedy selection of events with a
 cooldown, what each event earned, and the maximum drawdown of a series of results.

 Times are minutes of the day; a row's index is its minute in the session.
 */
module Cooldown {
  import opened Options
  import opened Reals

  datatype Row = Row(time: int, spx: real, callNet: real, putNet: real)

  datatype Kind = BearishDivergence | BullishExhaustion | PriceHighFailure | PriceLowFailure

  datatype Event = Event(index: nat, forwards: seq<Option<real>>, toExit: real)

  const COOLDOWN: nat := 15
  const FORWARD_HORIZONS: seq<nat> := [5, 15, 30, 60, 120]
  const HARD_EXIT: int := 15 * 60 + 45

  /******* Raw flags *******/

  function Prices(rows: seq<Row>): (prices: seq<real>)
    ensures |prices| == |rows| && forall i :: 0 <= i < |rows| ==> prices[i] == rows[i].spx
  {
    seq(|rows|, i requires 0 <= i < |rows| => rows[i].spx)
  }

  function MaxOf(rows: seq<Row>): real
    requires rows != []
  {
    Highest(Prices(rows))
  }

  function MinOf(rows: seq<Row>): real
    requires rows != []
  {
    Lowest(Prices(rows))
  }

  function CallFlow(rows: seq<Row>): real {
    Sum(seq(|rows|, i requires 0 <= i < |rows| => rows[i].callNet))
  }

  function PutFlow(rows: seq<Row>): real {
    Sum(seq(|rows|, i requires 0 <= i < |rows| => rows[i].putNet))
  }

  // Both windows lie within the rows, with one more row before them.
  predicate HasWindows(index: nat, lookback: nat, confirm: nat) {
    index >= lookback + confirm
  }

  function Recent(rows: seq<Row>, index: nat, confirm: nat): seq<Row>
    requires index < |rows| && 0 < confirm <= index
  {
    rows[index - confirm + 1..index + 1]
  }

  function Prior(rows: seq<Row>, index: nat, lookback: nat, confirm: nat): seq<Row>
    requires index < |rows| && HasWindows(index, lookback, confirm)
  {
    rows[index - confirm - lookback + 1..index - confirm + 1]
  }

  predicate Flagged(rows: seq<Row>, index: nat, lookback: nat, confirm: nat, kind: Kind)
    requires index < |rows| && lookback > 0 && confirm > 0
  {
    if !HasWindows(index, lookback, confirm) then false
    else
      var (recent, prior) := (Recent(rows, index, confirm), Prior(rows, index, lookback, confirm));
      var price := rows[index].spx;
      var highFailure := MaxOf(recent) > MaxOf(prior) && price < MaxOf(recent);
      var lowFailure := MinOf(recent) < MinOf(prior) && price > MinOf(recent);
      match kind
      case BearishDivergence => highFailure && CallFlow(recent) <= 0.0 && PutFlow(recent) > 0.0
      case BullishExhaustion => lowFailure && CallFlow(recent) >= 0.0 && PutFlow(recent) <= 0.0
      case PriceHighFailure => highFailure
      case PriceLowFailure => lowFailure
  }

  // Above every price of the lookback window.
  predicate AbovePrior(rows: seq<Row>, index: nat, lookback: nat, confirm: nat, price: real)
    requires index < |rows| && HasWindows(index, lookback, confirm)
  {
    forall j :: index - confirm - lookback < j <= index - confirm ==> rows[j].spx < price
  }

  /** What a failed high is: some bar of the confirmation window, before the current one, stood above the
      whole lookback window and above the current price. */
  lemma HighFailureMeans(rows: seq<Row>, index: nat, lookback: nat, confirm: nat)
    requires index < |rows| && lookback > 0 && confirm > 0
    ensures Flagged(rows, index, lookback, confirm, PriceHighFailure) <==>
      HasWindows(index, lookback, confirm)
      && exists k :: index - confirm < k < index && rows[k].spx > rows[index].spx
                     && AbovePrior(rows, index, lookback, confirm, rows[k].spx)
  {
    if HasWindows(index, lookback, confirm) {
      hide MaxOf, MinOf, CallFlow, PutFlow, Recent, Prior, AbovePrior;
      var top := RecentTop(rows, index, confirm);
      forall k: nat | index - confirm < k <= index
        ensures rows[k].spx <= MaxOf(Recent(rows, index, confirm))
        ensures MaxOf(Prior(rows, index, lookback, confirm)) < rows[k].spx <==> AbovePrior(rows, index, lookback, confirm, rows[k].spx)
      {
        RecentBound(rows, index, confirm, k);
        PriorBelow(rows, index, lookback, confirm, rows[k].spx);
      }
    }
  }

  // The same rows with prices upside down: highs are lows.
  function Mirror(rows: seq<Row>): (mirror: seq<Row>)
    ensures |mirror| == |rows| && forall i :: 0 <= i < |rows| ==> mirror[i].spx == -rows[i].spx
  {
    seq(|rows|, i requires 0 <= i < |rows| => rows[i].(spx := -rows[i].spx))
  }

  lemma MirrorTurns(rows: seq<Row>)
    requires rows != []
    ensures MaxOf(Mirror(rows)) == -MinOf(rows) && MinOf(Mirror(rows)) == -MaxOf(rows)
  {
    ExtremesOf(Prices(rows));
    ExtremesOf(Prices(Mirror(rows)));
    var (p, m) := (Prices(rows), Prices(Mirror(rows)));
    assert forall i :: 0 <= i < |rows| ==> m[i] == -p[i];
  }

  lemma MirrorFlag(rows: seq<Row>, index: nat, lookback: nat, confirm: nat)
    requires index < |rows| && lookback > 0 && confirm > 0
    ensures Flagged(rows, index, lookback, confirm, PriceLowFailure) ==
            Flagged(Mirror(rows), index, lookback, confirm, PriceHighFailure)
  {
    hide MaxOf, MinOf, CallFlow, PutFlow;
    if HasWindows(index, lookback, confirm) {
      MirrorTurns(Recent(rows, index, confirm));
      MirrorTurns(Prior(rows, index, lookback, confirm));
      assert Recent(Mirror(rows), index, confirm) == Mirror(Recent(rows, index, confirm));
      assert Prior(Mirror(rows), index, lookback, confirm) == Mirror(Prior(rows, index, lookback, confirm));
    }
  }

  // Below every price of the lookback window.
  predicate BelowPrior(rows: seq<Row>, index: nat, lookback: nat, confirm: nat, price: real)
    requires index < |rows| && HasWindows(index, lookback, confirm)
  {
    forall j :: index - confirm - lookback < j <= index - confirm ==> price < rows[j].spx
  }

  /** A failed low is the same upside down. */
  lemma LowFailureMeans(rows: seq<Row>, index: nat, lookback: nat, confirm: nat)
    requires index < |rows| && lookback > 0 && confirm > 0
    ensures Flagged(rows, index, lookback, confirm, PriceLowFailure) <==>
      HasWindows(index, lookback, confirm)
      && exists k :: index - confirm < k < index && rows[k].spx < rows[index].spx
                     && BelowPrior(rows, index, lookback, confirm, rows[k].spx)
  {
    hide Flagged;
    MirrorFlag(rows, index, lookback, confirm);
    HighFailureMeans(Mirror(rows), index, lookback, confirm);
    forall k: nat | index < |rows| && HasWindows(index, lookback, confirm) && k < |rows|
      ensures AbovePrior(Mirror(rows), index, lookback, confirm, Mirror(rows)[k].spx) <==>
              BelowPrior(rows, index, lookback, confirm, rows[k].spx)
    {
    }
  }

  // What was bought less what was sold in the first n rows.
  function Calls(rows: seq<Row>, n: nat): real
    requires n <= |rows|
  {
    CallFlow(rows[..n])
  }

  function Puts(rows: seq<Row>, n: nat): real
    requires n <= |rows|
  {
    PutFlow(rows[..n])
  }

  lemma {:induction false} FlowsAdd(rows: seq<Row>, from: nat, end: nat)
    requires from <= end <= |rows|
    ensures CallFlow(rows[from..end]) == Calls(rows, end) - Calls(rows, from)
    ensures PutFlow(rows[from..end]) == Puts(rows, end) - Puts(rows, from)
  {
    hide CallFlow, PutFlow;
    if from < end {
      FlowsAdd(rows, from, end - 1);
      FlowStep(rows[from..end]);
      FlowStep(rows[..end]);
      assert rows[from..end][..end - 1 - from] == rows[from..end - 1] && rows[..end][..end - 1] == rows[..end - 1];
    } else {
      assert rows[from..end] == [];
      NoFlow();
    }
  }

  lemma NoFlow()
    ensures CallFlow([]) == 0.0 && PutFlow([]) == 0.0
  {
  }

  lemma FlowStep(rows: seq<Row>)
    requires rows != []
    ensures CallFlow(rows) == CallFlow(rows[..|rows| - 1]) + rows[|rows| - 1].callNet
    ensures PutFlow(rows) == PutFlow(rows[..|rows| - 1]) + rows[|rows| - 1].putNet
  {
    var n := |rows| - 1;
    assert seq(|rows|, i requires 0 <= i < |rows| => rows[i].callNet)[..n] == seq(n, i requires 0 <= i < n => rows[..n][i].callNet);
    assert seq(|rows|, i requires 0 <= i < |rows| => rows[i].putNet)[..n] == seq(n, i requires 0 <= i < n => rows[..n][i].putNet);
  }

  /** A divergence is a failed high across which the session's call flow did not grow and its put flow did; an
      exhaustion is a failed low across which the call flow did not shrink and the put flow did not grow. */
  lemma DivergenceMeans(rows: seq<Row>, index: nat, lookback: nat, confirm: nat)
    requires index < |rows| && lookback > 0 && confirm > 0 && HasWindows(index, lookback, confirm)
    ensures Flagged(rows, index, lookback, confirm, BearishDivergence) <==>
      && Flagged(rows, index, lookback, confirm, PriceHighFailure)
      && Calls(rows, index + 1) <= Calls(rows, index + 1 - confirm) && Puts(rows, index + 1) > Puts(rows, index + 1 - confirm)
    ensures Flagged(rows, index, lookback, confirm, BullishExhaustion) <==>
      && Flagged(rows, index, lookback, confirm, PriceLowFailure)
      && Calls(rows, index + 1) >= Calls(rows, index + 1 - confirm) && Puts(rows, index + 1) <= Puts(rows, index + 1 - confirm)
  {
    hide CallFlow, PutFlow, MaxOf, MinOf, Calls, Puts;
    FlowsAdd(rows, index + 1 - confirm, index + 1);
  }

  lemma RecentTop(rows: seq<Row>, index: nat, confirm: nat) returns (k: nat)
    requires index < |rows| && 0 < confirm <= index
    ensures index - confirm < k <= index && rows[k].spx == MaxOf(Recent(rows, index, confirm))
  {
    var top := MaxAt(Recent(rows, index, confirm));
    k := index - confirm + 1 + top;
  }

  lemma RecentBound(rows: seq<Row>, index: nat, confirm: nat, k: nat)
    requires index < |rows| && 0 < confirm <= index && index - confirm < k <= index
    ensures rows[k].spx <= MaxOf(Recent(rows, index, confirm))
  {
    hide MaxOf;
    var recent := Recent(rows, index, confirm);
    MaxBelow(recent, rows[k].spx);
    assert recent[k - (index - confirm + 1)] == rows[k];
  }

  lemma PriorBelow(rows: seq<Row>, index: nat, lookback: nat, confirm: nat, x: real)
    requires index < |rows| && lookback > 0 && HasWindows(index, lookback, confirm)
    ensures MaxOf(Prior(rows, index, lookback, confirm)) < x <==> AbovePrior(rows, index, lookback, confirm, x)
  {
    hide MaxOf;
    var prior, p := Prior(rows, index, lookback, confirm), index - confirm - lookback + 1;
    MaxBelow(prior, x);
    assert forall j :: p <= j <= index - confirm ==> rows[j] == prior[j - p];
    assert forall j :: 0 <= j < |prior| ==> rows[p + j] == prior[j];
  }

  lemma MaxBelow(rows: seq<Row>, x: real)
    requires rows != []
    ensures MaxOf(rows) < x <==> forall i :: 0 <= i < |rows| ==> rows[i].spx < x
  {
    ExtremesOf(Prices(rows));
    var i :| 0 <= i < |rows| && Prices(rows)[i] == MaxOf(rows);
    assert forall k :: 0 <= k < |rows| ==> Prices(rows)[k] == rows[k].spx;
  }

  lemma MaxAt(rows: seq<Row>) returns (i: nat)
    requires rows != []
    ensures i < |rows| && rows[i].spx == MaxOf(rows)
  {
    ExtremesOf(Prices(rows));
    i :| i < |rows| && Prices(rows)[i] == MaxOf(rows);
  }

  /** A flag depends only on the rows up to its own. */
  lemma FlagsAreCausal(rows: seq<Row>, n: nat, index: nat, lookback: nat, confirm: nat, kind: Kind)
    requires index < n <= |rows| && lookback > 0 && confirm > 0
    ensures Flagged(rows[..n], index, lookback, confirm, kind) == Flagged(rows, index, lookback, confirm, kind)
  {
    if HasWindows(index, lookback, confirm) {
      assert Recent(rows[..n], index, confirm) == Recent(rows, index, confirm);
      assert Prior(rows[..n], index, lookback, confirm) == Prior(rows, index, lookback, confirm);
    }
  }

  /******* Events *******/

  datatype Rule = Rule(lookback: nat, confirm: nat, kind: Kind, start: int, end: int)

  predicate Eligible(rows: seq<Row>, rule: Rule, index: nat)
    requires index < |rows| && rule.lookback > 0 && rule.confirm > 0
  {
    rule.start <= rows[index].time <= rule.end && Flagged(rows, index, rule.lookback, rule.confirm, rule.kind)
  }

  function Sign(kind: Kind): real {
    if kind == BearishDivergence || kind == PriceHighFailure then -1.0 else 1.0
  }

  // The first of the latest rows up to the hard exit.
  function HardExit(rows: seq<Row>): (i: Option<nat>)
    ensures i.None? <==> forall k :: 0 <= k < |rows| ==> rows[k].time > HARD_EXIT
    ensures i.Some? ==> i.value < |rows| && rows[i.value].time <= HARD_EXIT
    ensures i.Some? ==> forall k :: 0 <= k < |rows| && rows[k].time <= HARD_EXIT
                          ==> rows[k].time < rows[i.value].time || (rows[k].time == rows[i.value].time && i.value <= k)
  {
    if rows == [] then None
    else
      var (rest, last) := (HardExit(rows[..|rows| - 1]), |rows| - 1);
      assert forall k :: 0 <= k < last ==> rows[..last][k] == rows[k];
      if rows[last].time <= HARD_EXIT && (rest.None? || rows[rest.value].time < rows[last].time) then Some(last) else rest
  }

  function Forward(rows: seq<Row>, index: nat, horizon: nat, sign: real): Option<real>
    requires index < |rows|
  {
    if index + horizon < |rows| then Some(sign * (rows[index + horizon].spx - rows[index].spx)) else None
  }

  function EventAt(rows: seq<Row>, kind: Kind, exit: nat, index: nat): Event
    requires index < |rows| && exit < |rows|
  {
    Event(index,
          seq(|FORWARD_HORIZONS|, h requires 0 <= h < |FORWARD_HORIZONS| => Forward(rows, index, FORWARD_HORIZONS[h], Sign(kind))),
          Sign(kind) * (rows[exit].spx - rows[index].spx))
  }

  /** An event's results: for each horizon the later price less the price now, if there is such a row, and the price at
      the exit less the price now; for the bearish kinds the other way round. */
  lemma EventMeans(rows: seq<Row>, kind: Kind, exit: nat, index: nat, h: nat)
    requires index < |rows| && exit < |rows| && h < |FORWARD_HORIZONS|
    ensures var event := EventAt(rows, kind, exit, index);
      var (later, falls) := (index + FORWARD_HORIZONS[h], kind.BearishDivergence? || kind.PriceHighFailure?);
      && event.index == index && |event.forwards| == |FORWARD_HORIZONS|
      && (event.forwards[h].Some? <==> later < |rows|)
      && (later < |rows| && falls ==> event.forwards[h] == Some(rows[index].spx - rows[later].spx))
      && (later < |rows| && !falls ==> event.forwards[h] == Some(rows[later].spx - rows[index].spx))
      && event.toExit == if falls then rows[index].spx - rows[exit].spx else rows[exit].spx - rows[index].spx
  {
  }

  // Emitted events, in order, at least the cooldown apart, all eligible, with their results.
  ghost predicate AreSpacedEvents(rows: seq<Row>, rule: Rule, exit: nat, n: nat, events: seq<Event>)
    requires n <= |rows| && exit < |rows| && rule.lookback > 0 && rule.confirm > 0
  {
    && (forall e :: 0 <= e < |events| ==> events[e].index < n && Eligible(rows, rule, events[e].index))
    && (forall e :: 0 <= e < |events| ==> events[e] == EventAt(rows, rule.kind, exit, events[e].index))
    && (forall e, f :: 0 <= e < f < |events| ==> events[e].index + COOLDOWN <= events[f].index)
  }

  // Every eligible row is an event or in the cooldown of an earlier one.
  ghost predicate NothingMissed(rows: seq<Row>, rule: Rule, n: nat, events: seq<Event>)
    requires n <= |rows| && rule.lookback > 0 && rule.confirm > 0
  {
    forall i :: 0 <= i < n && Eligible(rows, rule, i) ==>
      exists e :: 0 <= e < |events| && events[e].index <= i < events[e].index + COOLDOWN
  }

  method EventRows(rows: seq<Row>, rule: Rule) returns (result: Option<seq<Event>>)
    requires rule.lookback > 0 && rule.confirm > 0
    ensures result.Some? <==> HardExit(rows).Some?
    ensures result.Some? ==>
      && AreSpacedEvents(rows, rule, HardExit(rows).value, |rows|, result.value)
      && NothingMissed(rows, rule, |rows|, result.value)
  {
    hide Eligible, EventAt, AreSpacedEvents, NothingMissed;
    var hardExit := HardExit(rows);
    result := None;
    if hardExit.Some? {
      var events: seq<Event> := [];
      var last: Option<nat> := None;
      NothingYet(rows, rule, hardExit.value);
      for index := 0 to |rows|
        invariant last == LastIndex(events)
        invariant AreSpacedEvents(rows, rule, hardExit.value, index, events)
        invariant NothingMissed(rows, rule, index, events)
      {
        ghost var before := events;
        if Eligible(rows, rule, index) && (last.None? || index - last.value >= COOLDOWN) {
          events := events + [EventAt(rows, rule.kind, hardExit.value, index)];
          last := Some(index);
          SpacedStep(rows, rule, hardExit.value, index, before);
        } else {
          SpacedIdle(rows, rule, hardExit.value, index, events);
        }
        MissedStep(rows, rule, index, before, events);
      }
      result := Some(events);
    }
  }

  function LastIndex(events: seq<Event>): Option<nat> {
    if events == [] then None else Some(events[|events| - 1].index)
  }

  lemma NothingYet(rows: seq<Row>, rule: Rule, exit: nat)
    requires exit < |rows| && rule.lookback > 0 && rule.confirm > 0
    ensures AreSpacedEvents(rows, rule, exit, 0, []) && NothingMissed(rows, rule, 0, [])
  {
  }

  lemma SpacedStep(rows: seq<Row>, rule: Rule, exit: nat, index: nat, events: seq<Event>)
    requires index < |rows| && exit < |rows| && rule.lookback > 0 && rule.confirm > 0
    requires AreSpacedEvents(rows, rule, exit, index, events) && Eligible(rows, rule, index)
    requires var last := LastIndex(events); last.None? || index - last.value >= COOLDOWN
    ensures AreSpacedEvents(rows, rule, exit, index + 1, events + [EventAt(rows, rule.kind, exit, index)])
    ensures EventAt(rows, rule.kind, exit, index).index == index
  {
    hide Eligible;
    var event := EventAt(rows, rule.kind, exit, index);
    forall e | 0 <= e < |events|
      ensures events[e].index + COOLDOWN <= index
    {
      assert e < |events| - 1 ==> events[e].index + COOLDOWN <= events[|events| - 1].index;
    }
  }

  lemma SpacedIdle(rows: seq<Row>, rule: Rule, exit: nat, index: nat, events: seq<Event>)
    requires index < |rows| && exit < |rows| && rule.lookback > 0 && rule.confirm > 0
    requires AreSpacedEvents(rows, rule, exit, index, events)
    ensures AreSpacedEvents(rows, rule, exit, index + 1, events)
    ensures events != [] ==> events[|events| - 1].index <= index
  {
    hide Eligible, EventAt;
  }

  lemma MissedStep(rows: seq<Row>, rule: Rule, index: nat, before: seq<Event>, events: seq<Event>)
    requires index < |rows| && rule.lookback > 0 && rule.confirm > 0
    requires NothingMissed(rows, rule, index, before)
    requires before <= events
    requires Eligible(rows, rule, index) ==>
      events != [] && events[|events| - 1].index <= index < events[|events| - 1].index + COOLDOWN
    ensures NothingMissed(rows, rule, index + 1, events)
  {
    hide Eligible;
    forall i | 0 <= i < index + 1 && Eligible(rows, rule, i)
      ensures exists e :: 0 <= e < |events| && events[e].index <= i < events[e].index + COOLDOWN
    {
      if i < index {
        var e :| 0 <= e < |before| && before[e].index <= i < before[e].index + COOLDOWN;
        assert events[e] == before[e];
      }
    }
  }

  /******* The greedy selection is optimal *******/

  // A choice of eligible rows, in order and at least the cooldown apart.
  ghost predicate IsSpacedChoice(rows: seq<Row>, rule: Rule, choice: seq<nat>)
    requires rule.lookback > 0 && rule.confirm > 0
  {
    && (forall k :: 0 <= k < |choice| ==> choice[k] < |rows| && Eligible(rows, rule, choice[k]))
    && (forall j, k :: 0 <= j < k < |choice| ==> choice[j] + COOLDOWN <= choice[k])
  }

  // The greedy events are never behind another choice.
  lemma {:induction false} GreedyStaysAhead(rows: seq<Row>, rule: Rule, exit: nat, events: seq<Event>, choice: seq<nat>, k: nat)
    requires rule.lookback > 0 && rule.confirm > 0 && exit < |rows|
    requires AreSpacedEvents(rows, rule, exit, |rows|, events) && NothingMissed(rows, rule, |rows|, events)
    requires IsSpacedChoice(rows, rule, choice) && k < |choice|
    ensures k < |events| && events[k].index <= choice[k]
  {
    hide AreSpacedEvents, NothingMissed, IsSpacedChoice;
    var e := CoveringEvent(rows, rule, events, choice, k);
    if k > 0 {
      GreedyStaysAhead(rows, rule, exit, events, choice, k - 1);
      ChoiceSpaced(rows, rule, choice, k - 1, k);
      EventsSpaced(rows, rule, exit, events, e, k - 1);
    }
    EventsSpaced(rows, rule, exit, events, k, e);
  }

  // The event in whose cooldown a chosen row lies.
  lemma CoveringEvent(rows: seq<Row>, rule: Rule, events: seq<Event>, choice: seq<nat>, k: nat) returns (e: nat)
    requires rule.lookback > 0 && rule.confirm > 0
    requires NothingMissed(rows, rule, |rows|, events) && IsSpacedChoice(rows, rule, choice) && k < |choice|
    ensures e < |events| && events[e].index <= choice[k] < events[e].index + COOLDOWN
  {
    hide Eligible;
    assert Eligible(rows, rule, choice[k]);
    e :| e < |events| && events[e].index <= choice[k] < events[e].index + COOLDOWN;
  }

  lemma ChoiceSpaced(rows: seq<Row>, rule: Rule, choice: seq<nat>, j: nat, k: nat)
    requires rule.lookback > 0 && rule.confirm > 0 && IsSpacedChoice(rows, rule, choice) && j < k < |choice|
    ensures choice[j] + COOLDOWN <= choice[k]
  {
    hide Eligible;
  }

  lemma EventsSpaced(rows: seq<Row>, rule: Rule, exit: nat, events: seq<Event>, e: nat, f: nat)
    requires rule.lookback > 0 && rule.confirm > 0 && exit < |rows| && AreSpacedEvents(rows, rule, exit, |rows|, events)
    ensures e < f < |events| ==> events[e].index + COOLDOWN <= events[f].index
  {
    hide Eligible, EventAt;
  }

  /** No choice of eligible rows that keeps the cooldown is larger than the greedy one. */
  lemma GreedyIsOptimal(rows: seq<Row>, rule: Rule, exit: nat, events: seq<Event>, choice: seq<nat>)
    requires rule.lookback > 0 && rule.confirm > 0 && exit < |rows|
    requires AreSpacedEvents(rows, rule, exit, |rows|, events) && NothingMissed(rows, rule, |rows|, events)
    requires IsSpacedChoice(rows, rule, choice)
    ensures |choice| <= |events|
  {
    if |choice| > 0 {
      GreedyStaysAhead(rows, rule, exit, events, choice, |choice| - 1);
    }
  }

  function Indexes(events: seq<Event>): seq<nat> {
    seq(|events|, k requires 0 <= k < |events| => events[k].index)
  }

  lemma IndexesAreSpaced(rows: seq<Row>, rule: Rule, exit: nat, events: seq<Event>)
    requires rule.lookback > 0 && rule.confirm > 0 && exit < |rows|
    requires AreSpacedEvents(rows, rule, exit, |rows|, events)
    ensures IsSpacedChoice(rows, rule, Indexes(events))
    ensures forall k :: 0 <= k < |events| ==> events[k].index < |rows| && events[k] == EventAt(rows, rule.kind, exit, events[k].index)
  {
    hide Eligible, EventAt;
  }

  /** Only one list of events is spaced, complete and eligible: the result is determined. */
  lemma EventsAreUnique(rows: seq<Row>, rule: Rule, exit: nat, a: seq<Event>, b: seq<Event>)
    requires rule.lookback > 0 && rule.confirm > 0 && exit < |rows|
    requires AreSpacedEvents(rows, rule, exit, |rows|, a) && NothingMissed(rows, rule, |rows|, a)
    requires AreSpacedEvents(rows, rule, exit, |rows|, b) && NothingMissed(rows, rule, |rows|, b)
    ensures a == b
  {
    hide AreSpacedEvents, NothingMissed, IsSpacedChoice, EventAt;
    IndexesAreSpaced(rows, rule, exit, a);
    IndexesAreSpaced(rows, rule, exit, b);
    GreedyIsOptimal(rows, rule, exit, a, Indexes(b));
    GreedyIsOptimal(rows, rule, exit, b, Indexes(a));
    forall k | 0 <= k < |a|
      ensures a[k] == b[k]
    {
      GreedyStaysAhead(rows, rule, exit, a, Indexes(b), k);
      GreedyStaysAhead(rows, rule, exit, b, Indexes(a), k);
    }
  }

  /******* Maximum drawdown *******/

  // The equity after the first n results.
  function Equity(values: seq<real>, n: nat): real
    requires n <= |values|
  {
    if n == 0 then 0.0 else Equity(values, n - 1) + values[n - 1]
  }

  ghost predicate IsPeak(values: seq<real>, n: nat, peak: real)
    requires n <= |values|
  {
    && (forall i :: 0 <= i <= n ==> Equity(values, i) <= peak)
    && (exists i :: 0 <= i <= n && Equity(values, i) == peak)
  }

  // The largest fall of the equity from one moment to a later one.
  ghost predicate IsMaxDrawdown(values: seq<real>, n: nat, drawdown: real)
    requires n <= |values|
  {
    && (forall i, j :: 0 <= i <= j <= n ==> Equity(values, i) - Equity(values, j) <= drawdown)
    && (exists i, j :: 0 <= i <= j <= n && Equity(values, i) - Equity(values, j) == drawdown)
  }

  lemma PeakStep(values: seq<real>, n: nat, peak: real)
    requires n < |values| && IsPeak(values, n, peak)
    ensures IsPeak(values, n + 1, if peak < Equity(values, n + 1) then Equity(values, n + 1) else peak)
  {
    hide Equity;
    var i :| 0 <= i <= n && Equity(values, i) == peak;
    var next := if peak < Equity(values, n + 1) then n + 1 else i;
    assert Equity(values, next) == if peak < Equity(values, n + 1) then Equity(values, n + 1) else peak;
  }

  lemma DrawdownStep(values: seq<real>, n: nat, peak: real, drawdown: real)
    requires n < |values| && IsPeak(values, n + 1, peak) && IsMaxDrawdown(values, n, drawdown)
    ensures var fall := peak - Equity(values, n + 1);
      IsMaxDrawdown(values, n + 1, if drawdown < fall then fall else drawdown)
  {
    hide Equity;
    var fall := peak - Equity(values, n + 1);
    var next := if drawdown < fall then fall else drawdown;
    var top, i, j := FallAttained(values, n, peak, drawdown);
    forall k, l | 0 <= k <= l <= n + 1
      ensures Equity(values, k) - Equity(values, l) <= next
    {
      if l == n + 1 {
        assert Equity(values, k) <= peak;
      }
    }
    if drawdown < fall {
      assert Equity(values, top) - Equity(values, n + 1) == next;
    } else {
      assert Equity(values, i) - Equity(values, j) == next;
    }
  }

  lemma FallAttained(values: seq<real>, n: nat, peak: real, drawdown: real) returns (top: nat, i: nat, j: nat)
    requires n < |values| && IsPeak(values, n + 1, peak) && IsMaxDrawdown(values, n, drawdown)
    ensures top <= n + 1 && Equity(values, top) == peak
    ensures i <= j <= n && Equity(values, i) - Equity(values, j) == drawdown
  {
    hide Equity;
    top :| top <= n + 1 && Equity(values, top) == peak;
    i, j :| i <= j <= n && Equity(values, i) - Equity(values, j) == drawdown;
  }

  method EquityMaxDrawdown(values: seq<real>) returns (result: Option<real>)
    ensures result.None? <==> values == []
    ensures result.Some? ==> IsMaxDrawdown(values, |values|, result.value)
  {
    hide IsPeak, IsMaxDrawdown;
    result := None;
    if values != [] {
      var equity, peak, maximum := 0.0, 0.0, 0.0;
      NoDrawdownYet(values);
      for n := 0 to |values|
        invariant equity == Equity(values, n)
        invariant IsPeak(values, n, peak) && IsMaxDrawdown(values, n, maximum)
      {
        equity := equity + values[n];
        PeakStep(values, n, peak);
        peak := if peak < equity then equity else peak;
        DrawdownStep(values, n, peak, maximum);
        maximum := if maximum < peak - equity then peak - equity else maximum;
      }
      result := Some(maximum);
    }
  }

  lemma NoDrawdownYet(values: seq<real>)
    ensures IsPeak(values, 0, 0.0) && IsMaxDrawdown(values, 0, 0.0)
  {
    assert Equity(values, 0) == 0.0;
    assert Equity(values, 0) - Equity(values, 0) == 0.0;
  }

  /** There is one maximum drawdown; it is never negative, and zero exactly when no result is a loss. */
  lemma DrawdownIsDetermined(values: seq<real>, a: real, b: real)
    requires IsMaxDrawdown(values, |values|, a) && IsMaxDrawdown(values, |values|, b)
    ensures a == b && a >= 0.0
    ensures a == 0.0 <==> forall k :: 0 <= k < |values| ==> values[k] >= 0.0
  {
    assert Equity(values, 0) - Equity(values, 0) <= a;
    if a == 0.0 {
      forall k | 0 <= k < |values|
        ensures values[k] >= 0.0
      {
        assert Equity(values, k) - Equity(values, k + 1) <= a;
      }
    } else if forall k :: 0 <= k < |values| ==> values[k] >= 0.0 {
      var i, j :| 0 <= i <= j <= |values| && Equity(values, i) - Equity(values, j) == a;
      NoLossNoFall(values, i, j);
    }
  }

  lemma {:induction false} NoLossNoFall(values: seq<real>, i: nat, j: nat)
    requires i <= j <= |values| && forall k :: 0 <= k < |values| ==> values[k] >= 0.0
    ensures Equity(values, i) <= Equity(values, j)
  {
    if i < j {
      NoLossNoFall(values, i, j - 1);
    }
  }
}
