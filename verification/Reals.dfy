/** The larger and the smaller of two prices, the size of a difference, and the sum and extremes of a sequence. */
module Reals {
  function MaxReal(a: real, b: real): real { if b > a then b else a }
  function MinReal(a: real, b: real): real { if b < a then b else a }
  function AbsReal(a: real): real { if a < 0.0 then -a else a }

  function Sum(xs: seq<real>): real {
    if xs == [] then 0.0 else Sum(xs[..|xs| - 1]) + xs[|xs| - 1]
  }

  function Highest(xs: seq<real>): real
    requires xs != []
  {
    if |xs| == 1 then xs[0] else MaxReal(Highest(xs[..|xs| - 1]), xs[|xs| - 1])
  }

  function Lowest(xs: seq<real>): real
    requires xs != []
  {
    if |xs| == 1 then xs[0] else MinReal(Lowest(xs[..|xs| - 1]), xs[|xs| - 1])
  }

  /** The extremes bound the sequence, and it attains them. */
  lemma {:induction false} ExtremesOf(xs: seq<real>)
    requires xs != []
    ensures forall i :: 0 <= i < |xs| ==> Lowest(xs) <= xs[i] <= Highest(xs)
    ensures exists i :: 0 <= i < |xs| && xs[i] == Highest(xs)
    ensures exists i :: 0 <= i < |xs| && xs[i] == Lowest(xs)
  {
    if |xs| == 1 {
      assert xs[0] == Highest(xs) == Lowest(xs);
    } else {
      var front, last := xs[..|xs| - 1], |xs| - 1;
      ExtremesOf(front);
      var i :| 0 <= i < |front| && front[i] == Highest(front);
      var j :| 0 <= j < |front| && front[j] == Lowest(front);
      assert forall k :: 0 <= k < last ==> xs[k] == front[k];
      assert xs[if xs[last] > Highest(front) then last else i] == Highest(xs);
      assert xs[if xs[last] < Lowest(front) then last else j] == Lowest(xs);
    }
  }
}
