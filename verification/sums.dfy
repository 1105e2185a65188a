// Finite sums over sets, used for totals across stock balances and reservations.
module Sums {

  /** The sum of `f` over a finite set, taken in an arbitrary order. */
  ghost function SumOver<T>(s: set<T>, f: T -> real): real
  {
    if s == {} then 0.0
    else
      var x :| x in s;
      f(x) + SumOver(s - {x}, f)
  }

  /** The order does not matter: any element may be split off first. */
  lemma {:induction false} SplitOff<T>(s: set<T>, f: T -> real, y: T)
    requires y in s
    ensures SumOver(s, f) == f(y) + SumOver(s - {y}, f)
  {
    var x :| x in s && SumOver(s, f) == f(x) + SumOver(s - {x}, f);
    if x != y {
      SplitOff(s - {x}, f, y);
      SplitOff(s - {y}, f, x);
      assert s - {x} - {y} == s - {y} - {x};
    }
  }

  lemma {:induction false} SameWeights<T>(s: set<T>, f: T -> real, g: T -> real)
    requires forall x :: x in s ==> f(x) == g(x)
    ensures SumOver(s, f) == SumOver(s, g)
  {
    if s != {} {
      var x :| x in s;
      SplitOff(s, f, x);
      SplitOff(s, g, x);
      SameWeights(s - {x}, f, g);
    }
  }

  /** Adding or re-weighing one element `y` changes the sum by the difference at `y`. */
  lemma {:induction false} Update<T>(s: set<T>, f: T -> real, g: T -> real, y: T)
    requires forall x :: x in s && x != y ==> f(x) == g(x)
    ensures SumOver(s + {y}, g) == SumOver(s, f) + g(y) - (if y in s then f(y) else 0.0)
  {
    SplitOff(s + {y}, g, y);
    assert s + {y} - {y} == s - {y};
    SameWeights(s - {y}, f, g);
    if y in s {
      SplitOff(s, f, y);
    } else {
      assert s - {y} == s;
    }
  }

  lemma {:induction false} NonNegative<T>(s: set<T>, f: T -> real)
    requires forall x :: x in s ==> f(x) >= 0.0
    ensures SumOver(s, f) >= 0.0
    ensures forall x :: x in s ==> f(x) <= SumOver(s, f)
  {
    if s != {} {
      forall x | x in s
        ensures 0.0 <= f(x) <= SumOver(s, f)
      {
        SplitOff(s, f, x);
        NonNegative(s - {x}, f);
      }
      var x :| x in s;
    }
  }
}
