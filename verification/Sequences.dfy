/** Distinct sequences and their rearrangements. */
module Sequences {
  predicate Distinct<T(==)>(s: seq<T>) {
    forall i, j :: 0 <= i < j < |s| ==> s[i] != s[j]
  }

  function Elements<T>(s: seq<T>): (e: set<T>) {
    set x | x in s
  }

  lemma {:induction false} OnceOnly<T>(s: seq<T>, x: T)
    requires Distinct(s)
    ensures multiset(s)[x] <= 1
    decreases |s|
  {
    if s != [] {
      var m := |s| - 1;
      assert s == s[..m] + [s[m]];
      assert multiset(s) == multiset(s[..m]) + multiset{s[m]};
      OnceOnly(s[..m], x);
      if s[m] == x {
        assert x !in multiset(s[..m]);
      }
    }
  }

  /** A rearrangement has the same length and the same elements. */
  lemma SameElements<T>(s: seq<T>, p: seq<T>)
    requires multiset(p) == multiset(s)
    ensures |p| == |s| && Elements(p) == Elements(s)
  {
    assert |multiset(p)| == |p| && |multiset(s)| == |s|;
    forall x
      ensures x in p <==> x in s
    {
      assert x in p <==> x in multiset(p);
      assert x in s <==> x in multiset(s);
    }
  }

  /** A rearrangement of distinct elements is distinct. */
  lemma StaysDistinct<T>(s: seq<T>, p: seq<T>)
    requires Distinct(s) && multiset(p) == multiset(s)
    ensures Distinct(p)
  {
    forall i, j | 0 <= i < j < |p|
      ensures p[i] != p[j]
    {
      OnceOnly(s, p[i]);
      assert p == p[..i] + [p[i]] + p[i + 1..j] + [p[j]] + p[j + 1..];
      assert p[i] == p[j] ==> multiset(p)[p[i]] >= 2;
    }
  }

  lemma {:induction false} CountElements<T>(s: seq<T>)
    ensures |Elements(s)| <= |s|
    ensures Distinct(s) ==> |Elements(s)| == |s|
    decreases |s|
  {
    if s != [] {
      CountElements(s[1..]);
      assert Elements(s) == {s[0]} + Elements(s[1..]);
      if Distinct(s) {
        assert s[0] !in Elements(s[1..]);
      }
    }
  }

  /** An image is no larger than its source. */
  lemma {:induction false} ImageSize<S(!new), T(!new)>(source: set<S>, image: set<T>, f: S -> T)
    requires forall y :: y in image ==> exists x :: x in source && f(x) == y
    ensures |image| <= |source|
    decreases |source|
  {
    if source == {} {
      assert image == {};
    } else {
      var x :| x in source;
      forall y | y in image - {f(x)}
        ensures exists z :: z in source - {x} && f(z) == y
      {
        var z :| z in source && f(z) == y;
        assert z in source - {x};
      }
      ImageSize(source - {x}, image - {f(x)}, f);
      assert |image| <= |image - {f(x)}| + 1 by {
        assert image <= (image - {f(x)}) + {f(x)};
        Subset(image, (image - {f(x)}) + {f(x)});
      }
    }
  }

  lemma Subset<T>(a: set<T>, b: set<T>)
    requires a <= b
    ensures |a| <= |b|
  {
    assert b == a + (b - a);
  }
}
