/** How many values of a sequence lie below a value, and how many equal it. */
module Counting {
  import opened StableSort

  function One(b: bool): nat { if b then 1 else 0 }

  function Below(values: seq<real>, v: real): nat {
    if values == [] then 0 else Below(values[..|values| - 1], v) + One(values[|values| - 1] < v)
  }

  function Equal(values: seq<real>, v: real): nat {
    if values == [] then 0 else Equal(values[..|values| - 1], v) + One(values[|values| - 1] == v)
  }

  lemma CountsAppend(values: seq<real>, x: real, v: real)
    ensures Below(values + [x], v) == Below(values, v) + One(x < v)
    ensures Equal(values + [x], v) == Equal(values, v) + One(x == v)
  {
    assert (values + [x])[..|values|] == values;
  }

  lemma NoCounts(v: real)
    ensures Below([], v) == 0 && Equal([], v) == 0
  {
  }

  lemma {:induction false} CountsConcat(values: seq<real>, more: seq<real>, v: real)
    ensures Below(values + more, v) == Below(values, v) + Below(more, v)
    ensures Equal(values + more, v) == Equal(values, v) + Equal(more, v)
  {
    hide One, Below, Equal;
    if more == [] {
      assert values + more == values;
      NoCounts(v);
    } else {
      var front := more[..|more| - 1];
      CountsConcat(values, front, v);
      CountsAppend(values + front, more[|more| - 1], v);
      CountsAppend(front, more[|more| - 1], v);
      assert values + more == (values + front) + [more[|more| - 1]];
      assert more == front + [more[|more| - 1]];
    }
  }

  // Counting does not depend on the order.
  lemma {:induction false} CountsOfBag(values: seq<real>, others: seq<real>, v: real)
    requires multiset(values) == multiset(others)
    ensures Below(values, v) == Below(others, v) && Equal(values, v) == Equal(others, v)
  {
    hide Below, Equal;
    SameLength(values, others);
    if values != [] {
      var k := DropFromListing(values, others);
      var front, last := values[..|values| - 1], values[|values| - 1];
      CountsOfBag(front, others[..k] + others[k + 1..], v);
      CountsConcat(front, [last], v);
      CountsWithout(others, k, v);
    } else {
      assert others == [];
    }
  }

  lemma CountsWithout(values: seq<real>, k: nat, v: real)
    requires k < |values|
    ensures Below(values, v) == Below(values[..k] + values[k + 1..], v) + Below([values[k]], v)
    ensures Equal(values, v) == Equal(values[..k] + values[k + 1..], v) + Equal([values[k]], v)
  {
    hide Below, Equal;
    assert values == (values[..k] + [values[k]]) + values[k + 1..];
    CountsConcat(values[..k] + [values[k]], values[k + 1..], v);
    CountsConcat(values[..k], [values[k]], v);
    CountsConcat(values[..k], values[k + 1..], v);
  }
}
