/** Sums of a function over a finite set. */
module Sums {
  ghost function Sum<K(!new)>(s: set<K>, f: K -> int): int {
    if s == {} then 0
    else
      var x :| x in s;
      f(x) + Sum(s - {x}, f)
  }

  /** The sum does not depend on the order in which elements are taken. */
  lemma {:induction false} SumTakes<K(!new)>(s: set<K>, f: K -> int, x: K)
    requires x in s
    ensures Sum(s, f) == f(x) + Sum(s - {x}, f)
    decreases s
  {
    var y :| y in s && Sum(s, f) == f(y) + Sum(s - {y}, f);
    if x != y {
      SumTakes(s - {y}, f, x);
      SumTakes(s - {x}, f, y);
      assert s - {y} - {x} == s - {x} - {y};
    }
  }

  lemma {:induction false} SumSame<K(!new)>(s: set<K>, f: K -> int, g: K -> int)
    requires forall x :: x in s ==> f(x) == g(x)
    ensures Sum(s, f) == Sum(s, g)
    decreases s
  {
    if s != {} {
      var x :| x in s;
      SumSame(s - {x}, f, g);
      SumTakes(s, f, x);
      SumTakes(s, g, x);
    }
  }

  lemma SumAdds<K(!new)>(s: set<K>, f: K -> int, x: K)
    requires x !in s
    ensures Sum(s + {x}, f) == Sum(s, f) + f(x)
  {
    SumTakes(s + {x}, f, x);
    assert s + {x} - {x} == s;
  }

  /** Changing the function at one element changes the sum by that difference. */
  lemma SumChanges<K(!new)>(s: set<K>, f: K -> int, g: K -> int, x: K)
    requires x in s && forall y :: y in s && y != x ==> f(y) == g(y)
    ensures Sum(s, g) == Sum(s, f) - f(x) + g(x)
  {
    SumTakes(s, f, x);
    SumTakes(s, g, x);
    SumSame(s - {x}, f, g);
  }

  lemma {:induction false} SumNonNegative<K(!new)>(s: set<K>, f: K -> int)
    requires forall x :: x in s ==> f(x) >= 0
    ensures Sum(s, f) >= 0
    decreases s
  {
    if s != {} {
      var x :| x in s;
      SumTakes(s, f, x);
      SumNonNegative(s - {x}, f);
    }
  }

  /** One element is at most the whole sum of non-negative values. */
  lemma SumBounds<K(!new)>(s: set<K>, f: K -> int, x: K)
    requires x in s && forall y :: y in s ==> f(y) >= 0
    ensures f(x) <= Sum(s, f)
  {
    SumTakes(s, f, x);
    SumNonNegative(s - {x}, f);
  }
}
