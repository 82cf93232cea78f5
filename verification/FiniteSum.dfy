// Sums of a natural-valued function over a finite set.

module FiniteSum {
  ghost function Sum<T>(s: set<T>, f: T -> nat): nat {
    if s == {} then 0 else
      var x :| x in s;
      f(x) + Sum(s - {x}, f)
  }

  // The sum does not depend on which element is taken out first.
  lemma {:induction false} SumRemove<T>(s: set<T>, f: T -> nat, x: T)
    requires x in s
    ensures Sum(s, f) == f(x) + Sum(s - {x}, f)
    decreases |s|
  {
    var y :| y in s && Sum(s, f) == f(y) + Sum(s - {y}, f);
    if x != y {
      SumRemove(s - {y}, f, x);
      SumRemove(s - {x}, f, y);
      assert s - {x} - {y} == s - {y} - {x};
    }
  }

  // A pointwise smaller function over a set whose extra elements weigh nothing has a smaller sum.
  lemma {:induction false} SumMonotone<T>(s: set<T>, f: T -> nat, t: set<T>, g: T -> nat)
    requires forall x :: x in s ==> f(x) == 0 || (x in t && f(x) <= g(x))
    ensures Sum(s, f) <= Sum(t, g)
    decreases |s|
  {
    if s != {} {
      var x :| x in s;
      SumRemove(s, f, x);
      if x in t {
        SumRemove(t, g, x);
        SumMonotone(s - {x}, f, t - {x}, g);
      } else {
        SumMonotone(s - {x}, f, t, g);
      }
    }
  }
}
