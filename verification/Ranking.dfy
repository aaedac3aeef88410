/** Sorting as the matching engine uses it: a strict order that separates the elements has one increasing listing. */
module Ranking {
  import opened Sequences

  /** strings.Compare(a, b) < 0 */
  predicate Before(a: string, b: string)
    decreases |a|
  {
    b != [] && (a == [] || a[0] < b[0] || (a[0] == b[0] && Before(a[1..], b[1..])))
  }

  lemma {:induction false} BeforeTotal(a: string, b: string)
    ensures a == b || Before(a, b) || Before(b, a)
    ensures !(Before(a, b) && Before(b, a))
    decreases |a|
  {
    if a != [] && b != [] {
      BeforeTotal(a[1..], b[1..]);
      if a[0] == b[0] && a[1..] == b[1..] {
        assert a == [a[0]] + a[1..] == b;
      }
    }
  }

  lemma {:induction false} BeforeTransitive(a: string, b: string, c: string)
    requires Before(a, b) && Before(b, c)
    ensures Before(a, c)
    decreases |a|
  {
    if a != [] && a[0] == b[0] == c[0] {
      BeforeTransitive(a[1..], b[1..], c[1..]);
    }
  }

  /** The first k characters agree, and then a ends or has the smaller character. */
  predicate PartAt(a: string, b: string, k: nat) {
    k <= |a| && k < |b| && a[..k] == b[..k] && (k == |a| || a[k] < b[k])
  }

  lemma FirstAgrees(a: string, b: string, k: nat)
    requires a != [] && b != []
    ensures PartAt(a, b, k) && k > 0 ==> a[0] == b[0]
  {
    if PartAt(a, b, k) && k > 0 {
      assert a[..k][0] == a[0] && b[..k][0] == b[0];
    }
  }

  /** The order of texts is the one of their first difference. */
  lemma {:induction false} BeforeIff(a: string, b: string)
    ensures Before(a, b) <==> exists k: nat :: PartAt(a, b, k)
    decreases |a|
  {
    if b != [] {
      assert PartAt(a, b, 0) <==> a == [] || a[0] < b[0];
      if a != [] && a[0] == b[0] {
        BeforeIff(a[1..], b[1..]);
        if k: nat :| PartAt(a[1..], b[1..], k) {
          assert a[..k + 1] == [a[0]] + a[1..][..k] && b[..k + 1] == [b[0]] + b[1..][..k];
          assert PartAt(a, b, k + 1);
        }
        if k: nat :| PartAt(a, b, k) {
          assert a[1..][..k - 1] == a[..k][1..] && b[1..][..k - 1] == b[..k][1..];
          assert PartAt(a[1..], b[1..], k - 1);
        }
      } else if a != [] {
        forall k: nat
          ensures PartAt(a, b, k) && k > 0 ==> a[0] == b[0]
        {
          FirstAgrees(a, b, k);
        }
      }
    }
  }

  type Order<!T> = (T, T) -> bool

  ghost predicate Strict<T(!new)>(less: Order<T>) {
    && (forall x :: !less(x, x))
    && (forall x, y, z :: less(x, y) && less(y, z) ==> less(x, z))
  }

  ghost predicate Separates<T(!new)>(less: Order<T>, s: set<T>) {
    forall x, y :: x in s && y in s && x != y ==> less(x, y) || less(y, x)
  }

  predicate Increasing<T>(less: Order<T>, s: seq<T>) {
    forall i, j :: 0 <= i < j < |s| ==> less(s[i], s[j])
  }

  lemma IncreasingTail<T(!new)>(less: Order<T>, s: seq<T>)
    requires Strict(less) && Increasing(less, s) && s != []
    ensures Increasing(less, s[1..]) && Elements(s[1..]) == Elements(s) - {s[0]}
  {
    forall x | x in s && x != s[0]
      ensures x in s[1..]
    {
      var i :| 0 <= i < |s| && s[i] == x;
      assert s[1..][i - 1] == x;
    }
  }

  lemma NoElements<T>(s: seq<T>)
    ensures s == [] <==> Elements(s) == {}
  {
    assert s != [] ==> s[0] in Elements(s);
  }

  lemma SameHead<T(!new)>(less: Order<T>, a: seq<T>, b: seq<T>)
    requires Strict(less) && Increasing(less, a) && Increasing(less, b)
    requires a != [] && b != [] && a[0] in b && b[0] in a
    ensures a[0] == b[0]
  {
    var i :| 0 <= i < |a| && a[i] == b[0];
    var j :| 0 <= j < |b| && b[j] == a[0];
  }

  /** There is only one way to list a set increasingly. */
  lemma {:induction false} IncreasingUnique<T(!new)>(less: Order<T>, a: seq<T>, b: seq<T>)
    requires Strict(less) && Increasing(less, a) && Increasing(less, b) && Elements(a) == Elements(b)
    ensures a == b
    decreases |a|
  {
    if a == [] || b == [] {
      NoElements(a);
      NoElements(b);
    } else {
      assert a[0] in Elements(b) && b[0] in Elements(a);
      SameHead(less, a, b);
      IncreasingTail(less, a);
      IncreasingTail(less, b);
      IncreasingUnique(less, a[1..], b[1..]);
      assert a == [a[0]] + a[1..] && b == [b[0]] + b[1..];
    }
  }

  function Insert<T>(less: Order<T>, s: seq<T>, x: T): (r: seq<T>)
    ensures |r| == |s| + 1
    decreases |s|
  {
    if s == [] || less(x, s[0]) then [x] + s else [s[0]] + Insert(less, s[1..], x)
  }

  lemma {:induction false} InsertMultiset<T>(less: Order<T>, s: seq<T>, x: T)
    ensures multiset(Insert(less, s, x)) == multiset(s + [x])
    ensures Elements(Insert(less, s, x)) == Elements(s) + {x}
    decreases |s|
  {
    if s == [] || less(x, s[0]) {
      assert multiset([x] + s) == multiset{x} + multiset(s);
    } else {
      InsertMultiset(less, s[1..], x);
      assert s == [s[0]] + s[1..];
      assert multiset(s) == multiset{s[0]} + multiset(s[1..]);
    }
    SameElements(s + [x], Insert(less, s, x));
    assert Elements(s + [x]) == Elements(s) + {x};
  }

  lemma {:induction false} InsertIncreasing<T(!new)>(less: Order<T>, s: seq<T>, x: T)
    requires Strict(less) && Increasing(less, s) && x !in s && Separates(less, Elements(s) + {x})
    ensures Increasing(less, Insert(less, s, x))
    decreases |s|
  {
    if s != [] && !less(x, s[0]) {
      assert s[0] in Elements(s) && less(s[0], x);
      IncreasingTail(less, s);
      InsertIncreasing(less, s[1..], x);
      InsertMultiset(less, s[1..], x);
      var r := Insert(less, s[1..], x);
      forall k | 0 <= k < |r|
        ensures less(s[0], r[k])
      {
        assert r[k] in Elements(r);
        if r[k] != x {
          assert r[k] in Elements(s[1..]);
        }
      }
    } else if s != [] {
      forall k | 0 <= k < |s|
        ensures less(x, s[k])
      {
        assert k > 0 ==> less(s[0], s[k]);
      }
    }
  }

  /** The increasing listing of a set. */
  ghost function Ranked<T(!new)>(less: Order<T>, s: set<T>): (r: seq<T>)
    requires Strict(less) && Separates(less, s)
    ensures Increasing(less, r) && Elements(r) == s && |r| == |s|
    decreases |s|
  {
    if s == {} then []
    else
      var x :| x in s;
      var r := Ranked(less, s - {x});
      InsertIncreasing(less, r, x);
      InsertMultiset(less, r, x);
      Insert(less, r, x)
  }

  lemma RankedIs<T(!new)>(less: Order<T>, s: seq<T>)
    requires Strict(less) && Separates(less, Elements(s)) && Increasing(less, s)
    ensures s == Ranked(less, Elements(s))
  {
    IncreasingUnique(less, s, Ranked(less, Elements(s)));
  }

  /** slices.SortFunc; whatever the input order, elements that the order separates come out as their one listing. */
  method SortFunc<T(!new)>(less: Order<T>, s: seq<T>) returns (r: seq<T>)
    requires Strict(less)
    ensures multiset(r) == multiset(s)
    ensures Distinct(s) && Separates(less, Elements(s)) ==> r == Ranked(less, Elements(s))
  {
    r := [];
    var i := 0;
    while i < |s|
      invariant 0 <= i <= |s| && multiset(r) == multiset(s[..i])
      invariant Distinct(s) && Separates(less, Elements(s)) ==> Increasing(less, r)
    {
      SameElements(s[..i], r);
      assert s[..i + 1] == s[..i] + [s[i]];
      if Distinct(s) && Separates(less, Elements(s)) {
        assert s[i] !in Elements(r);
        InsertIncreasing(less, r, s[i]);
      }
      InsertMultiset(less, r, s[i]);
      r := Insert(less, r, s[i]);
      i := i + 1;
    }
    assert s[..|s|] == s;
    SameElements(s, r);
    if Distinct(s) && Separates(less, Elements(s)) {
      RankedIs(less, r);
    }
  }
}
