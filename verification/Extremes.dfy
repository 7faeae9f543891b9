/**
 Running minima and maxima that start at zero.

 Points and summaries keep their minimum and maximum as plain numbers, with zero standing
 for "nothing yet".
 */
module Extremes {

  /** A running minimum for which zero means unset. */
  function Lower(m: real, x: real): (r: real) {
    if m == 0.0 || x < m then x else m
  }

  function Higher(m: real, x: real): (r: real) {
    if x > m then x else m
  }

  function Lowest(xs: seq<real>): (r: real) {
    if xs == [] then 0.0 else Lower(Lowest(xs[..|xs| - 1]), xs[|xs| - 1])
  }

  function Highest(xs: seq<real>): (r: real) {
    if xs == [] then 0.0 else Higher(Highest(xs[..|xs| - 1]), xs[|xs| - 1])
  }

  ghost predicate IsMin(m: real, xs: seq<real>) {
    m in xs && forall x :: x in xs ==> m <= x
  }

  ghost predicate HasNegative(xs: seq<real>) {
    exists x :: x in xs && x < 0.0
  }

  lemma SplitLast(xs: seq<real>)
    requires xs != []
    ensures forall x :: x in xs <==> x in xs[..|xs| - 1] || x == xs[|xs| - 1]
  {
    assert xs == xs[..|xs| - 1] + [xs[|xs| - 1]];
  }

  lemma {:induction false} LowestCases(xs: seq<real>)
    ensures HasNegative(xs) ==> IsMin(Lowest(xs), xs) && Lowest(xs) < 0.0
    ensures !HasNegative(xs) ==> Lowest(xs) >= 0.0 && (Lowest(xs) == 0.0 <==> xs == [] || xs[|xs| - 1] == 0.0)
    ensures !HasNegative(xs) && xs != [] && 0.0 !in xs ==> IsMin(Lowest(xs), xs)
  {
    if xs != [] {
      var rest, x := xs[..|xs| - 1], xs[|xs| - 1];
      LowestCases(rest);
      SplitLast(xs);
      if HasNegative(rest) {
        var y :| y in rest && y < 0.0;
        assert y in xs;
      } else if x < 0.0 {
        assert x in xs && HasNegative(xs);
        assert Lowest(xs) == x;
      } else {
        assert !HasNegative(xs);
      }
    }
  }

  /** The running minimum is the minimum exactly when there is a negative value, or no zero, or a zero last. */
  lemma LowestIff(xs: seq<real>)
    requires xs != []
    ensures IsMin(Lowest(xs), xs) <==> HasNegative(xs) || 0.0 !in xs || xs[|xs| - 1] == 0.0
  {
    LowestCases(xs);
    if !HasNegative(xs) && xs[|xs| - 1] == 0.0 {
      assert xs[|xs| - 1] in xs;
      assert IsMin(0.0, xs);
    }
  }

  /** The running maximum never goes below zero. */
  lemma {:induction false} HighestIs(xs: seq<real>)
    ensures Highest(xs) >= 0.0 && forall x :: x in xs ==> x <= Highest(xs)
    ensures Highest(xs) == 0.0 || Highest(xs) in xs
  {
    if xs != [] {
      HighestIs(xs[..|xs| - 1]);
      SplitLast(xs);
    }
  }
}
