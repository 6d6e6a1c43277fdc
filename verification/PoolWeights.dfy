/**
 The online pool's weights: on each test day the three path models are weighted by how well they did, at the
 same horizon, on the days before.

 Arithmetic is exact and the exponential is a parameter.  Which draws a model makes, and what they score, is
 not modelled: the score of a sample under a model is a parameter.
 */
module PoolWeights {
  import opened Reals
  import opened SortedSets

  datatype Method = Seasonal | Analog | Ridge

  datatype Sample = Sample(date: int, horizon: nat)

  datatype Key = Key(method_: Method, horizon: nat)

  type Score = (nat, Method) -> real
  type History = map<Key, seq<real>>

  datatype Weights = Weights(seasonal: real, analog: real, ridge: real)

  // How many losses of a model are known, and their sum.
  datatype Stat = Stat(count: nat, sum: real)

  const MIN_TRAIN: nat := 15
  const MIN_LOSSES: nat := 3
  const SHRINKAGE: real := 0.2

  /******* The weights *******/

  function Median(a: real, b: real, c: real): real {
    MaxReal(MinReal(a, b), MinReal(MaxReal(a, b), c))
  }

  function MeanOf(stat: Stat): real
    requires stat.count > 0
  {
    stat.sum / (stat.count as real)
  }

  function Share(own: real, total: real): real
    requires total > 0.0
  {
    (1.0 - SHRINKAGE) * (own / total) + SHRINKAGE / 3.0
  }

  ghost predicate Positive(exp: real -> real) {
    forall x :: exp(x) > 0.0
  }

  function Least(a: real, b: real, c: real): real {
    MinReal(MinReal(a, b), c)
  }

  function Temperature(a: real, b: real, c: real): real {
    MaxReal(Median(a, b, c), 1.0)
  }

  predicate Thin(s: Stat, a: Stat, r: Stat) {
    s.count < MIN_LOSSES || a.count < MIN_LOSSES || r.count < MIN_LOSSES
  }

  function WeightOf(w: Weights, m: Method): real {
    match m
    case Seasonal => w.seasonal
    case Analog => w.analog
    case Ridge => w.ridge
  }

  function StatFor(s: Stat, a: Stat, r: Stat, m: Method): Stat {
    match m
    case Seasonal => s
    case Analog => a
    case Ridge => r
  }

  // How far a model's mean loss is behind the least, on the temperature's scale, with the sign turned.
  function Scaled(s: Stat, a: Stat, r: Stat, m: Method): real
    requires !Thin(s, a, r)
  {
    -(MeanOf(StatFor(s, a, r, m)) - Least(MeanOf(s), MeanOf(a), MeanOf(r))) / Temperature(MeanOf(s), MeanOf(a), MeanOf(r))
  }

  function WeightsFrom(s: Stat, a: Stat, r: Stat, exp: real -> real): Weights
    requires Positive(exp)
  {
    if Thin(s, a, r) then Weights(1.0 / 3.0, 1.0 / 3.0, 1.0 / 3.0)
    else
      var (es, ea, er) := (exp(Scaled(s, a, r, Seasonal)), exp(Scaled(s, a, r, Analog)), exp(Scaled(s, a, r, Ridge)));
      Weights(Share(es, es + ea + er), Share(ea, es + ea + er), Share(er, es + ea + er))
  }

  lemma ShareBounds(own: real, total: real)
    requires 0.0 < own < total
    ensures SHRINKAGE / 3.0 < Share(own, total) < 1.0
  {
    var q := own / total;
    assert q * total == own;
    assert (1.0 - q) * total == total - own;
    PositiveFactor(q, total);
    PositiveFactor(1.0 - q, total);
  }

  lemma PositiveFactor(x: real, t: real)
    requires t > 0.0 && x * t > 0.0
    ensures x > 0.0
  {
  }

  lemma SharesSum(a: real, b: real, c: real)
    requires a > 0.0 && b > 0.0 && c > 0.0
    ensures Share(a, a + b + c) + Share(b, a + b + c) + Share(c, a + b + c) == 1.0
  {
    var t := a + b + c;
    assert a / t + b / t + c / t == t / t == 1.0;
  }

  /** The weights sum to one, and no model's weight falls below its part of the shrinkage. */
  lemma WeightsAreShares(s: Stat, a: Stat, r: Stat, exp: real -> real)
    requires Positive(exp)
    ensures var w := WeightsFrom(s, a, r, exp);
      && w.seasonal + w.analog + w.ridge == 1.0
      && w.seasonal > SHRINKAGE / 3.0 && w.analog > SHRINKAGE / 3.0 && w.ridge > SHRINKAGE / 3.0
  {
    hide Share, Scaled;
    if !Thin(s, a, r) {
      var (es, ea, er) := (exp(Scaled(s, a, r, Seasonal)), exp(Scaled(s, a, r, Analog)), exp(Scaled(s, a, r, Ridge)));
      ShareBounds(es, es + ea + er);
      ShareBounds(ea, es + ea + er);
      ShareBounds(er, es + ea + er);
      SharesSum(es, ea, er);
    }
  }

  // A middle one of three: two are at or below it, and two at or above.
  predicate Middle(x: real, a: real, b: real, c: real) {
    && (x == a || x == b || x == c)
    && ((a <= x && b <= x) || (a <= x && c <= x) || (b <= x && c <= x))
    && ((a >= x && b >= x) || (a >= x && c >= x) || (b >= x && c >= x))
  }

  /** The temperature is the middle mean loss, but at least one; distances are taken from the least mean loss. */
  lemma TemperatureIff(a: real, b: real, c: real, t: real)
    ensures t == Temperature(a, b, c) <==> t >= 1.0 && exists x :: Middle(x, a, b, c) && t >= x && (t == 1.0 || t == x)
    ensures Least(a, b, c) <= a && Least(a, b, c) <= b && Least(a, b, c) <= c
    ensures Least(a, b, c) == a || Least(a, b, c) == b || Least(a, b, c) == c
  {
    assert forall x :: Middle(x, a, b, c) <==> x == Median(a, b, c);
    assert Middle(Median(a, b, c), a, b, c);
  }

  /** The weights of three models: thirds while one has fewer than three losses; else they sum to one, and what two
      weigh beyond their part of the shrinkage is as the exponentials of their distances behind the best mean. */
  ghost predicate IsPool(w: Weights, s: Stat, a: Stat, r: Stat, exp: real -> real) {
    if Thin(s, a, r) then w.seasonal == w.analog == w.ridge == 1.0 / 3.0
    else
      && w.seasonal + w.analog + w.ridge == 1.0
      && forall x, y ::
           (WeightOf(w, x) - SHRINKAGE / 3.0) * exp(Scaled(s, a, r, y)) ==
           (WeightOf(w, y) - SHRINKAGE / 3.0) * exp(Scaled(s, a, r, x))
  }

  lemma ShareCross(x: real, y: real, total: real)
    requires total > 0.0
    ensures (Share(x, total) - SHRINKAGE / 3.0) * y == (Share(y, total) - SHRINKAGE / 3.0) * x
  {
    assert x / total * y == x * y / total == y / total * x;
  }

  // Three excesses that are to each other as three positive numbers and sum to what is shared are the shares.
  lemma CrossIsShare(x: real, u: real, v: real, wx: real, wu: real, wv: real)
    requires x > 0.0 && u > 0.0 && v > 0.0
    requires wx + wu + wv == 1.0
    requires (wx - SHRINKAGE / 3.0) * u == (wu - SHRINKAGE / 3.0) * x
    requires (wx - SHRINKAGE / 3.0) * v == (wv - SHRINKAGE / 3.0) * x
    ensures wx == Share(x, x + u + v)
  {
    var (t, e) := (x + u + v, wx - SHRINKAGE / 3.0);
    assert e * t == e * x + e * u + e * v == (1.0 - SHRINKAGE) * x;
    assert e == e * t / t == (1.0 - SHRINKAGE) * x / t == (1.0 - SHRINKAGE) * (x / t);
  }

  /** That law determines the weights. */
  lemma WeightsIff(w: Weights, s: Stat, a: Stat, r: Stat, exp: real -> real)
    requires Positive(exp)
    ensures IsPool(w, s, a, r, exp) <==> w == WeightsFrom(s, a, r, exp)
  {
    hide WeightsFrom, IsPool;
    WeightsArePool(s, a, r, exp);
    if IsPool(w, s, a, r, exp) {
      PoolIsWeights(w, s, a, r, exp);
    }
  }

  lemma WeightsArePool(s: Stat, a: Stat, r: Stat, exp: real -> real)
    requires Positive(exp)
    ensures IsPool(WeightsFrom(s, a, r, exp), s, a, r, exp)
  {
    hide Share, Scaled, WeightOf;
    WeightsAreShares(s, a, r, exp);
    if !Thin(s, a, r) {
      hide WeightsFrom;
      forall x, y
        ensures (WeightOf(WeightsFrom(s, a, r, exp), x) - SHRINKAGE / 3.0) * exp(Scaled(s, a, r, y)) ==
                (WeightOf(WeightsFrom(s, a, r, exp), y) - SHRINKAGE / 3.0) * exp(Scaled(s, a, r, x))
      {
        PairLaw(s, a, r, exp, x, y);
      }
    }
  }

  lemma PairLaw(s: Stat, a: Stat, r: Stat, exp: real -> real, x: Method, y: Method)
    requires Positive(exp) && !Thin(s, a, r)
    ensures (WeightOf(WeightsFrom(s, a, r, exp), x) - SHRINKAGE / 3.0) * exp(Scaled(s, a, r, y)) ==
            (WeightOf(WeightsFrom(s, a, r, exp), y) - SHRINKAGE / 3.0) * exp(Scaled(s, a, r, x))
  {
    hide Share, Scaled, WeightOf, WeightsFrom, Thin;
    var total := exp(Scaled(s, a, r, Seasonal)) + exp(Scaled(s, a, r, Analog)) + exp(Scaled(s, a, r, Ridge));
    WeightIsShare(s, a, r, exp, x);
    WeightIsShare(s, a, r, exp, y);
    ShareCross(exp(Scaled(s, a, r, x)), exp(Scaled(s, a, r, y)), total);
  }

  lemma WeightIsShare(s: Stat, a: Stat, r: Stat, exp: real -> real, m: Method)
    requires Positive(exp) && !Thin(s, a, r)
    ensures WeightOf(WeightsFrom(s, a, r, exp), m) ==
      Share(exp(Scaled(s, a, r, m)), exp(Scaled(s, a, r, Seasonal)) + exp(Scaled(s, a, r, Analog)) + exp(Scaled(s, a, r, Ridge)))
  {
    hide Share, Scaled;
  }

  lemma PoolIsWeights(w: Weights, s: Stat, a: Stat, r: Stat, exp: real -> real)
    requires Positive(exp) && IsPool(w, s, a, r, exp)
    ensures w == WeightsFrom(s, a, r, exp)
  {
    hide Share, Scaled, IsPool;
    if Thin(s, a, r) {
      ThinPool(w, s, a, r, exp);
    } else {
      var (es, ea, er) := (exp(Scaled(s, a, r, Seasonal)), exp(Scaled(s, a, r, Analog)), exp(Scaled(s, a, r, Ridge)));
      PoolCross(w, s, a, r, exp);
      CrossIsShare(es, ea, er, w.seasonal, w.analog, w.ridge);
      CrossIsShare(ea, es, er, w.analog, w.seasonal, w.ridge);
      CrossIsShare(er, es, ea, w.ridge, w.seasonal, w.analog);
      assert ea + es + er == es + ea + er && er + es + ea == es + ea + er;
    }
  }

  lemma ThinPool(w: Weights, s: Stat, a: Stat, r: Stat, exp: real -> real)
    requires Thin(s, a, r) && IsPool(w, s, a, r, exp)
    ensures w == Weights(1.0 / 3.0, 1.0 / 3.0, 1.0 / 3.0)
  {
  }

  lemma PoolCross(w: Weights, s: Stat, a: Stat, r: Stat, exp: real -> real)
    requires !Thin(s, a, r) && IsPool(w, s, a, r, exp)
    ensures w.seasonal + w.analog + w.ridge == 1.0
    ensures var (es, ea, er) := (exp(Scaled(s, a, r, Seasonal)), exp(Scaled(s, a, r, Analog)), exp(Scaled(s, a, r, Ridge)));
      var (ws, wa, wr) := (w.seasonal - SHRINKAGE / 3.0, w.analog - SHRINKAGE / 3.0, w.ridge - SHRINKAGE / 3.0);
      ws * ea == wa * es && ws * er == wr * es && wa * er == wr * ea
  {
    hide Scaled;
    assert WeightOf(w, Seasonal) == w.seasonal && WeightOf(w, Analog) == w.analog && WeightOf(w, Ridge) == w.ridge;
  }

  ghost predicate Increases(exp: real -> real) {
    forall x, y :: x <= y ==> exp(x) <= exp(y)
  }

  ghost predicate StrictlyIncreases(exp: real -> real) {
    forall x, y :: x < y ==> exp(x) < exp(y)
  }

  lemma ShareIncreases(a: real, b: real, total: real)
    requires total > 0.0
    ensures a <= b ==> Share(a, total) <= Share(b, total)
    ensures a < b ==> Share(a, total) < Share(b, total)
  {
    assert a / total * total == a && b / total * total == b;
  }

  /** Of any two models, the one with no larger mean loss gets no less weight, and the one with a smaller mean
      loss gets more. */
  lemma BetterModelWeighsMore(s: Stat, a: Stat, r: Stat, exp: real -> real, x: Method, y: Method)
    requires Positive(exp) && !Thin(s, a, r)
    ensures var w := WeightsFrom(s, a, r, exp);
      && (Increases(exp) && MeanOf(StatFor(s, a, r, x)) <= MeanOf(StatFor(s, a, r, y)) ==> WeightOf(w, y) <= WeightOf(w, x))
      && (StrictlyIncreases(exp) && MeanOf(StatFor(s, a, r, x)) < MeanOf(StatFor(s, a, r, y)) ==> WeightOf(w, y) < WeightOf(w, x))
  {
    hide Share, Median, MeanOf, Least;
    var (mx, my) := (MeanOf(StatFor(s, a, r, x)), MeanOf(StatFor(s, a, r, y)));
    var (least, t) := (Least(MeanOf(s), MeanOf(a), MeanOf(r)), Temperature(MeanOf(s), MeanOf(a), MeanOf(r)));
    QuotientIncreases(-(my - least), -(mx - least), t);
    var (es, ea, er) := (exp(Scaled(s, a, r, Seasonal)), exp(Scaled(s, a, r, Analog)), exp(Scaled(s, a, r, Ridge)));
    ShareIncreases(exp(Scaled(s, a, r, y)), exp(Scaled(s, a, r, x)), es + ea + er);
  }

  lemma QuotientIncreases(a: real, b: real, t: real)
    requires t > 0.0
    ensures a <= b ==> a / t <= b / t
    ensures a < b ==> a / t < b / t
  {
    assert a / t * t == a && b / t * t == b;
  }

  /******* Which losses are known *******/

  function DatesOf(samples: seq<Sample>): set<int> {
    set i | 0 <= i < |samples| :: samples[i].date
  }

  function DatesBefore(samples: seq<Sample>, date: int): set<int> {
    set i | 0 <= i < |samples| && samples[i].date < date :: samples[i].date
  }

  function TrainingOf(samples: seq<Sample>, date: int, horizon: nat): set<int> {
    set i | 0 <= i < |samples| && samples[i].date < date && samples[i].horizon == horizon
  }

  // A sample that is predicted: enough earlier dates, and enough earlier samples of its horizon.
  predicate Tested(samples: seq<Sample>, i: nat)
    requires i < |samples|
  {
    |DatesBefore(samples, samples[i].date)| >= MIN_TRAIN && |TrainingOf(samples, samples[i].date, samples[i].horizon)| >= MIN_TRAIN
  }

  // Predicted before position i of a date.
  predicate Done(samples: seq<Sample>, j: nat, date: int, i: nat)
    requires j < |samples|
  {
    Tested(samples, j) && (samples[j].date < date || (samples[j].date == date && j < i))
  }

  // The known losses among the first n samples.
  function StatOf(samples: seq<Sample>, score: Score, key: Key, date: int, i: nat, n: nat): Stat
    requires n <= |samples|
  {
    if n == 0 then Stat(0, 0.0)
    else
      var rest := StatOf(samples, score, key, date, i, n - 1);
      if samples[n - 1].horizon == key.horizon && Done(samples, n - 1, date, i)
      then Stat(rest.count + 1, rest.sum + score(n - 1, key.method_)) else rest
  }

  // The positions, among the first n, whose losses are known at position i of a date.
  ghost predicate KnownLosses(known: seq<nat>, samples: seq<Sample>, horizon: nat, date: int, i: nat, n: nat)
    requires n <= |samples|
  {
    && Increasing(known)
    && forall j: nat :: j in known <==>
         j < n && samples[j].horizon == horizon && Tested(samples, j) && (samples[j].date < date || (samples[j].date == date && j < i))
  }

  function Scores(known: seq<nat>, score: Score, m: Method): seq<real> {
    seq(|known|, k requires 0 <= k < |known| => score(known[k], m))
  }

  lemma NoScores(score: Score)
    ensures forall m :: Sum(Scores([], score, m)) == 0.0
  {
  }

  lemma ScoresAppend(known: seq<nat>, i: nat, score: Score)
    ensures forall m :: Sum(Scores(known + [i], score, m)) == Sum(Scores(known, score, m)) + score(i, m)
  {
    forall m
      ensures Sum(Scores(known + [i], score, m)) == Sum(Scores(known, score, m)) + score(i, m)
    {
      assert Scores(known + [i], score, m)[..|known|] == Scores(known, score, m);
    }
  }

  /** The known losses are counted and summed, for each model the same ones: those of the predicted samples of the
      horizon that are dated earlier, or of the same date and further ahead in the list. */
  lemma {:induction false} StatMeans(samples: seq<Sample>, score: Score, horizon: nat, date: int, i: nat, n: nat) returns (known: seq<nat>)
    requires n <= |samples|
    ensures KnownLosses(known, samples, horizon, date, i, n)
    ensures forall m :: StatOf(samples, score, Key(m, horizon), date, i, n) == Stat(|known|, Sum(Scores(known, score, m)))
  {
    hide Tested, Scores, Sum;
    if n == 0 {
      NoScores(score);
      known := [];
    } else {
      var before := StatMeans(samples, score, horizon, date, i, n - 1);
      if samples[n - 1].horizon == horizon && Done(samples, n - 1, date, i) {
        known := before + [n - 1];
        assert forall k :: 0 <= k < |before| ==> before[k] in before;
        ScoresAppend(before, n - 1, score);
      } else {
        known := before;
      }
    }
  }

  function StatAt(samples: seq<Sample>, score: Score, m: Method, i: nat): Stat
    requires i < |samples|
  {
    StatOf(samples, score, Key(m, samples[i].horizon), samples[i].date, i, |samples|)
  }

  // The weights a sample is predicted with.
  function WeightsAt(samples: seq<Sample>, score: Score, exp: real -> real, i: nat): Weights
    requires i < |samples| && Positive(exp)
  {
    WeightsFrom(StatAt(samples, score, Seasonal, i), StatAt(samples, score, Analog, i), StatAt(samples, score, Ridge, i), exp)
  }

  /** The weights of a sample are those of the pool after the losses known before it at its horizon. */
  lemma WeightsAtMeans(samples: seq<Sample>, score: Score, exp: real -> real, i: nat) returns (known: seq<nat>)
    requires i < |samples| && Positive(exp)
    ensures KnownLosses(known, samples, samples[i].horizon, samples[i].date, i, |samples|)
    ensures IsPool(WeightsAt(samples, score, exp, i), Stat(|known|, Sum(Scores(known, score, Seasonal))),
                   Stat(|known|, Sum(Scores(known, score, Analog))), Stat(|known|, Sum(Scores(known, score, Ridge))), exp)
  {
    hide IsPool, WeightsFrom, StatOf, KnownLosses;
    known := StatMeans(samples, score, samples[i].horizon, samples[i].date, i, |samples|);
    WeightsIff(WeightsAt(samples, score, exp, i), StatAt(samples, score, Seasonal, i), StatAt(samples, score, Analog, i),
               StatAt(samples, score, Ridge, i), exp);
  }

  /******* The loop *******/

  function LossesOf(history: History, key: Key): seq<real> {
    if key in history then history[key] else []
  }

  function StatOfList(xs: seq<real>): Stat { Stat(|xs|, Sum(xs)) }

  function OnlinePoolWeights(history: History, horizon: nat, exp: real -> real): Weights
    requires Positive(exp)
  {
    WeightsFrom(StatOfList(LossesOf(history, Key(Seasonal, horizon))), StatOfList(LossesOf(history, Key(Analog, horizon))),
                StatOfList(LossesOf(history, Key(Ridge, horizon))), exp)
  }

  // The history holds what was done before position i of a date, in some order.
  ghost predicate HistoryIs(history: History, samples: seq<Sample>, score: Score, date: int, i: nat) {
    forall key :: StatOfList(LossesOf(history, key)) == StatOf(samples, score, key, date, i, |samples|)
  }

  function AppendLosses(history: History, horizon: nat, i: nat, score: Score): History {
    var h1 := history[Key(Seasonal, horizon) := LossesOf(history, Key(Seasonal, horizon)) + [score(i, Seasonal)]];
    var h2 := h1[Key(Analog, horizon) := LossesOf(h1, Key(Analog, horizon)) + [score(i, Analog)]];
    h2[Key(Ridge, horizon) := LossesOf(h2, Key(Ridge, horizon)) + [score(i, Ridge)]]
  }

  lemma AppendedStat(xs: seq<real>, x: real)
    ensures StatOfList(xs + [x]) == Stat(|xs| + 1, Sum(xs) + x)
  {
    assert (xs + [x])[..|xs|] == xs;
  }

  // One more position counts its own sample, if that is of the date and tested.
  lemma {:induction false} StatStep(samples: seq<Sample>, score: Score, key: Key, date: int, i: nat, n: nat)
    requires i < |samples| && n <= |samples|
    ensures var (before, after) := (StatOf(samples, score, key, date, i, n), StatOf(samples, score, key, date, i + 1, n));
      after == if i < n && samples[i].date == date && samples[i].horizon == key.horizon && Tested(samples, i)
               then Stat(before.count + 1, before.sum + score(i, key.method_)) else before
  {
    hide Tested;
    if n > 0 {
      StatStep(samples, score, key, date, i, n - 1);
    }
  }

  lemma HistoryStep(history: History, samples: seq<Sample>, score: Score, date: int, i: nat)
    requires i < |samples| && HistoryIs(history, samples, score, date, i)
    ensures HistoryIs(if samples[i].date == date && Tested(samples, i) then AppendLosses(history, samples[i].horizon, i, score) else history,
                      samples, score, date, i + 1)
  {
    hide Tested, StatOf, StatOfList;
    var counted := samples[i].date == date && Tested(samples, i);
    var next := if counted then AppendLosses(history, samples[i].horizon, i, score) else history;
    forall key
      ensures StatOfList(LossesOf(next, key)) == StatOf(samples, score, key, date, i + 1, |samples|)
    {
      assert StatOfList(LossesOf(history, key)) == StatOf(samples, score, key, date, i, |samples|);
      StatStep(samples, score, key, date, i, |samples|);
      AppendedStat(LossesOf(history, key), score(i, key.method_));
      assert StatOfList(LossesOf(history, key)) == Stat(|LossesOf(history, key)|, Sum(LossesOf(history, key))) by { ListStat(LossesOf(history, key)); }
      AppendedKnown(history, samples[i].horizon, i, score, key);
    }
  }

  lemma AppendedKnown(history: History, horizon: nat, i: nat, score: Score, key: Key)
    ensures LossesOf(AppendLosses(history, horizon, i, score), key) ==
      if key.horizon == horizon then LossesOf(history, key) + [score(i, key.method_)] else LossesOf(history, key)
  {
    match key.method_
    case Seasonal =>
    case Analog =>
    case Ridge =>
  }

  lemma ListStat(xs: seq<real>)
    ensures StatOfList(xs) == Stat(|xs|, Sum(xs))
  {
  }

  // The end of a date is the start of the next.
  lemma {:induction false} NextDate(samples: seq<Sample>, score: Score, key: Key, date: int, next: int, n: nat)
    requires n <= |samples| && date < next
    requires forall j :: 0 <= j < |samples| && Tested(samples, j) ==> samples[j].date <= date || next <= samples[j].date
    ensures StatOf(samples, score, key, date, |samples|, n) == StatOf(samples, score, key, next, 0, n)
  {
    hide Tested;
    if n > 0 {
      NextDate(samples, score, key, date, next, n - 1);
    }
  }

  // Before the first tested date nothing is done.
  lemma {:induction false} NothingDone(samples: seq<Sample>, score: Score, key: Key, date: int, n: nat)
    requires n <= |samples|
    requires forall j :: 0 <= j < |samples| && Tested(samples, j) ==> date <= samples[j].date
    ensures StatOf(samples, score, key, date, 0, n) == Stat(0, 0.0)
  {
    hide Tested;
    if n > 0 {
      NothingDone(samples, score, key, date, n - 1);
    }
  }

  // A date's place in order is the number of dates before it.
  lemma DatePlace(samples: seq<Sample>, q: nat)
    requires q < |SortedInts(DatesOf(samples))|
    ensures |DatesBefore(samples, SortedInts(DatesOf(samples))[q])| == q
  {
    hide SortedInts;
    var all, dates := DatesOf(samples), SortedInts(DatesOf(samples));
    var low := UpTo(all, dates[q] - 1);
    assert DatesBefore(samples, dates[q]) == low;
    SortedIntsIncrease(all);
    SortedPrefix(all, dates[q] - 1);
    SortedIntsMembers(low);
    var n := |SortedInts(low)|;
    forall k | 0 <= k < n
      ensures dates[k] < dates[q]
    {
      assert SortedInts(low)[k] in low;
    }
    assert n <= q;
    assert dates[n] >= dates[q];
  }

  lemma SampleDate(samples: seq<Sample>, i: nat) returns (q: nat)
    requires i < |samples|
    ensures q < |SortedInts(DatesOf(samples))| && SortedInts(DatesOf(samples))[q] == samples[i].date
    ensures Tested(samples, i) ==> q >= MIN_TRAIN
  {
    hide SortedInts;
    SortedIntsMembers(DatesOf(samples));
    assert samples[i].date in SortedInts(DatesOf(samples));
    q :| q < |SortedInts(DatesOf(samples))| && SortedInts(DatesOf(samples))[q] == samples[i].date;
    DatePlace(samples, q);
  }

  // Dates at or behind place p, or all of them when there are no more.
  predicate Reached(dates: seq<int>, p: nat, date: int) {
    p >= |dates| || date < dates[p]
  }

  // Between the dates at places p and p + 1 there is none.
  lemma NoDateBetween(samples: seq<Sample>, p: nat, i: nat)
    requires i < |samples| && p < |SortedInts(DatesOf(samples))|
    ensures var dates := SortedInts(DatesOf(samples));
      && (samples[i].date < dates[p] || samples[i].date == dates[p] <==> Reached(dates, p + 1, samples[i].date))
      && (Tested(samples, i) && p == MIN_TRAIN ==> dates[p] <= samples[i].date)
  {
    hide SortedInts, Tested;
    SortedIntsIncrease(DatesOf(samples));
    var q := SampleDate(samples, i);
  }

  method ExpandingWeights(samples: seq<Sample>, score: Score, exp: real -> real) returns (weights: map<nat, Weights>)
    requires Positive(exp)
    ensures forall i: nat :: i in weights <==> i < |samples| && Tested(samples, i)
    ensures forall i: nat :: i in weights ==> weights[i] == WeightsAt(samples, score, exp, i)
  {
    hide SortedInts, Tested, StatOf, WeightsAt, HistoryIs;
    var dates := SortedInts(DatesOf(samples));
    var history: History := map[];
    weights := map[];
    var p := MIN_TRAIN;
    LoopStarts(samples, score);
    while p < |dates|
      invariant p >= MIN_TRAIN
      invariant p < |dates| ==> HistoryIs(history, samples, score, dates[p], 0)
      invariant forall i: nat :: i in weights <==> i < |samples| && Tested(samples, i) && Reached(dates, p, samples[i].date)
      invariant forall i: nat :: i in weights ==> weights[i] == WeightsAt(samples, score, exp, i)
    {
      DatePlace(samples, p);
      for i := 0 to |samples|
        invariant HistoryIs(history, samples, score, dates[p], i)
        invariant forall j: nat :: j in weights <==> j < |samples| && Done(samples, j, dates[p], i)
        invariant forall j: nat :: j in weights ==> weights[j] == WeightsAt(samples, score, exp, j)
      {
        HistoryStep(history, samples, score, dates[p], i);
        TestedAt(samples, i);
        if samples[i].date == dates[p] && |TrainingOf(samples, samples[i].date, samples[i].horizon)| >= MIN_TRAIN {
          WeightsFromHistory(history, samples, score, exp, i);
          weights := weights[i := OnlinePoolWeights(history, samples[i].horizon, exp)];
          history := AppendLosses(history, samples[i].horizon, i, score);
        }
      }
      DateEnds(history, samples, score, p);
      p := p + 1;
    }
    EverySampleReached(samples, p);
  }

  lemma TestedAt(samples: seq<Sample>, i: nat)
    requires i < |samples|
    ensures Tested(samples, i) <==>
      |DatesBefore(samples, samples[i].date)| >= MIN_TRAIN && |TrainingOf(samples, samples[i].date, samples[i].horizon)| >= MIN_TRAIN
  {
  }

  lemma LoopStarts(samples: seq<Sample>, score: Score)
    ensures var dates := SortedInts(DatesOf(samples));
      && (MIN_TRAIN < |dates| ==> HistoryIs(map[], samples, score, dates[MIN_TRAIN], 0))
      && forall i :: 0 <= i < |samples| && Tested(samples, i) ==> !Reached(dates, MIN_TRAIN, samples[i].date)
  {
    hide SortedInts, Tested, StatOf;
    var dates := SortedInts(DatesOf(samples));
    forall i | 0 <= i < |samples| && Tested(samples, i)
      ensures !Reached(dates, MIN_TRAIN, samples[i].date)
    {
      var q := SampleDate(samples, i);
      NoDateBetween(samples, MIN_TRAIN, i);
    }
    if MIN_TRAIN < |dates| {
      forall key
        ensures StatOf(samples, score, key, dates[MIN_TRAIN], 0, |samples|) == Stat(0, 0.0)
      {
        NothingDone(samples, score, key, dates[MIN_TRAIN], |samples|);
      }
    }
  }

  lemma WeightsFromHistory(history: History, samples: seq<Sample>, score: Score, exp: real -> real, i: nat)
    requires i < |samples| && Positive(exp) && HistoryIs(history, samples, score, samples[i].date, i)
    ensures OnlinePoolWeights(history, samples[i].horizon, exp) == WeightsAt(samples, score, exp, i)
  {
    hide StatOf, WeightsFrom, StatOfList;
    var h := samples[i].horizon;
    assert StatOfList(LossesOf(history, Key(Seasonal, h))) == StatAt(samples, score, Seasonal, i);
    assert StatOfList(LossesOf(history, Key(Analog, h))) == StatAt(samples, score, Analog, i);
    assert StatOfList(LossesOf(history, Key(Ridge, h))) == StatAt(samples, score, Ridge, i);
  }

  lemma DateEnds(history: History, samples: seq<Sample>, score: Score, p: nat)
    requires p < |SortedInts(DatesOf(samples))|
    requires HistoryIs(history, samples, score, SortedInts(DatesOf(samples))[p], |samples|)
    ensures var dates := SortedInts(DatesOf(samples));
      && (p + 1 < |dates| ==> HistoryIs(history, samples, score, dates[p + 1], 0))
      && forall j :: 0 <= j < |samples| ==>
           (Done(samples, j, dates[p], |samples|) <==> Tested(samples, j) && Reached(dates, p + 1, samples[j].date))
  {
    hide SortedInts, Tested, StatOf, StatOfList;
    var dates := SortedInts(DatesOf(samples));
    forall j | 0 <= j < |samples|
      ensures samples[j].date < dates[p] || samples[j].date == dates[p] <==> Reached(dates, p + 1, samples[j].date)
    {
      NoDateBetween(samples, p, j);
    }
    SortedIntsIncrease(DatesOf(samples));
    if p + 1 < |dates| {
      forall key
        ensures StatOfList(LossesOf(history, key)) == StatOf(samples, score, key, dates[p + 1], 0, |samples|)
      {
        NextDate(samples, score, key, dates[p], dates[p + 1], |samples|);
      }
    }
  }

  lemma EverySampleReached(samples: seq<Sample>, p: nat)
    requires p >= |SortedInts(DatesOf(samples))|
    ensures forall i :: 0 <= i < |samples| ==> Reached(SortedInts(DatesOf(samples)), p, samples[i].date)
  {
  }

  /******* Causality *******/

  // One sample for each date and horizon.
  ghost predicate OneSampleEach(samples: seq<Sample>) {
    forall i, j :: 0 <= i < j < |samples| ==> samples[i].date != samples[j].date || samples[i].horizon != samples[j].horizon
  }

  // Two studies that agree on everything dated before a day.
  ghost predicate AgreeBefore(a: seq<Sample>, scoreA: Score, b: seq<Sample>, scoreB: Score, date: int) {
    && |a| == |b|
    && (forall i :: 0 <= i < |a| ==> (a[i].date < date <==> b[i].date < date))
    && (forall i :: 0 <= i < |a| && a[i].date < date ==> a[i] == b[i])
    && (forall i: nat, m: Method :: i < |a| && a[i].date < date ==> scoreA(i, m) == scoreB(i, m))
  }

  lemma TestedAgrees(a: seq<Sample>, scoreA: Score, b: seq<Sample>, scoreB: Score, date: int, i: nat)
    requires AgreeBefore(a, scoreA, b, scoreB, date) && i < |a| && a[i].date < date
    ensures Tested(a, i) == Tested(b, i)
  {
    assert DatesBefore(a, a[i].date) == DatesBefore(b, a[i].date);
    assert TrainingOf(a, a[i].date, a[i].horizon) == TrainingOf(b, a[i].date, a[i].horizon);
  }

  lemma {:induction false} StatAgrees(a: seq<Sample>, scoreA: Score, b: seq<Sample>, scoreB: Score, m: Method, i: nat, j: nat, n: nat)
    requires i < |a| && j < |b| && a[i] == b[j] && AgreeBefore(a, scoreA, b, scoreB, a[i].date)
    requires OneSampleEach(a) && OneSampleEach(b) && n <= |a|
    ensures StatOf(a, scoreA, Key(m, a[i].horizon), a[i].date, i, n) == StatOf(b, scoreB, Key(m, a[i].horizon), a[i].date, j, n)
  {
    hide Tested;
    if n > 0 {
      StatAgrees(a, scoreA, b, scoreB, m, i, j, n - 1);
      if a[n - 1].date < a[i].date {
        TestedAgrees(a, scoreA, b, scoreB, a[i].date, n - 1);
      }
    }
  }

  /** With one sample for each date and horizon, a sample's weights depend only on samples and losses of
      strictly earlier dates. */
  lemma WeightsAreCausal(a: seq<Sample>, scoreA: Score, b: seq<Sample>, scoreB: Score, exp: real -> real, i: nat, j: nat)
    requires i < |a| && j < |b| && a[i] == b[j] && AgreeBefore(a, scoreA, b, scoreB, a[i].date)
    requires OneSampleEach(a) && OneSampleEach(b) && Positive(exp)
    ensures WeightsAt(a, scoreA, exp, i) == WeightsAt(b, scoreB, exp, j)
  {
    hide StatOf, WeightsFrom;
    StatAgrees(a, scoreA, b, scoreB, Seasonal, i, j, |a|);
    StatAgrees(a, scoreA, b, scoreB, Analog, i, j, |a|);
    StatAgrees(a, scoreA, b, scoreB, Ridge, i, j, |a|);
  }
}
