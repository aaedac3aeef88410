/**
 The Fisher-Yates loop of deterministic-draw.ts as a function of its vector of targets, and
 why it is fair: vectors of in-range targets and orderings of the deck correspond one to one.
 */
module DrawPermutation {
  import opened Sequences

  /** One target per index, each at most its index; the loop draws none for index 0, where only 0 fits. */
  predicate Targets(t: seq<nat>) {
    forall i :: 0 <= i < |t| ==> t[i] <= i
  }

  /** What is left below the last index once element j has been swapped there. */
  function Rest<T>(s: seq<T>, j: nat): (r: seq<T>)
    requires j < |s|
    ensures |r| == |s| - 1
  {
    if j == |s| - 1 then s[..j] else s[..|s| - 1][j := s[|s| - 1]]
  }

  /** Swap the last index with its target, then arrange the indexes below it. */
  function Arrange<T>(s: seq<T>, t: seq<nat>): (r: seq<T>)
    requires |t| == |s| && Targets(t)
    ensures |r| == |s|
    decreases |s|
  {
    if s == [] then []
    else
      var m := |s| - 1;
      Arrange(Rest(s, t[m]), t[..m]) + [s[t[m]]]
  }

  function IndexOf<T(==)>(s: seq<T>, x: T): (i: nat)
    requires x in s
    ensures i < |s| && s[i] == x
    decreases |s|
  {
    if s[|s| - 1] == x then |s| - 1 else IndexOf(s[..|s| - 1], x)
  }

  lemma RestMultiset<T>(s: seq<T>, j: nat)
    requires j < |s|
    ensures multiset(s) == multiset(Rest(s, j)) + multiset{s[j]}
  {
    var m := |s| - 1;
    assert s == s[..m] + [s[m]];
    assert multiset(s) == multiset(s[..m]) + multiset{s[m]};
  }

  lemma RestDistinct<T>(s: seq<T>, j: nat)
    requires j < |s| && Distinct(s)
    ensures Distinct(Rest(s, j))
  {
  }

  /** What a permutation leaves when its last element is taken away from both sides. */
  lemma TakeLast<T>(s: seq<T>, p: seq<T>, j: nat)
    requires |p| == |s| && j < |s| && multiset(p) == multiset(s) && s[j] == p[|p| - 1]
    ensures multiset(p[..|p| - 1]) == multiset(Rest(s, j))
  {
    RestMultiset(s, j);
    RestMultiset(p, |p| - 1);
    assert multiset(p[..|p| - 1]) == multiset(p) - multiset{s[j]};
  }

  lemma LastIsThere<T>(s: seq<T>, p: seq<T>)
    requires multiset(p) == multiset(s)
    ensures |p| == |s| && (p != [] ==> p[|p| - 1] in s)
  {
    SameElements(s, p);
    if p != [] {
      assert p[|p| - 1] in Elements(p);
    }
  }

  /** The targets that turn s into p. */
  function Recover<T(==)>(s: seq<T>, p: seq<T>): (t: seq<nat>)
    requires multiset(p) == multiset(s)
    ensures |t| == |s| && Targets(t)
    decreases |s|
  {
    LastIsThere(s, p);
    if s == [] then []
    else
      var m := |s| - 1;
      var j := IndexOf(s, p[m]);
      TakeLast(s, p, j);
      Recover(Rest(s, j), p[..m]) + [j]
  }

  /** The result is a rearrangement, whatever the targets. */
  lemma {:induction false} ArrangePermutes<T>(s: seq<T>, t: seq<nat>)
    requires |t| == |s| && Targets(t)
    ensures multiset(Arrange(s, t)) == multiset(s)
    decreases |s|
  {
    hide Rest;
    if s != [] {
      var j := t[|s| - 1];
      RestMultiset(s, j);
      ArrangePermutes(Rest(s, j), t[..|s| - 1]);
    }
  }

  lemma ArrangeStep<T>(s: seq<T>, below: seq<nat>, j: nat)
    requires |below| + 1 == |s| && Targets(below + [j])
    ensures j < |s| && Targets(below)
    ensures Arrange(s, below + [j]) == Arrange(Rest(s, j), below) + [s[j]]
  {
    assert (below + [j])[..|below|] == below && (below + [j])[|below|] == j;
    forall i | 0 <= i < |below|
      ensures below[i] <= i
    {
      assert (below + [j])[i] <= i;
    }
  }

  lemma RecoverStep<T>(s: seq<T>, p: seq<T>) returns (below: seq<nat>, j: nat)
    requires multiset(p) == multiset(s) && s != []
    ensures |p| == |s| && j < |s| && s[j] == p[|s| - 1]
    ensures multiset(p[..|s| - 1]) == multiset(Rest(s, j))
    ensures below == Recover(Rest(s, j), p[..|s| - 1]) && Recover(s, p) == below + [j]
  {
    LastIsThere(s, p);
    j := IndexOf(s, p[|s| - 1]);
    TakeLast(s, p, j);
    below := Recover(Rest(s, j), p[..|s| - 1]);
  }

  /** Every rearrangement is reached. */
  lemma {:induction false} RecoverReaches<T>(s: seq<T>, p: seq<T>)
    requires multiset(p) == multiset(s)
    ensures Arrange(s, Recover(s, p)) == p
    decreases |s|
  {
    hide Rest, Targets, IndexOf, Arrange, Recover;
    LastIsThere(s, p);
    if s == [] {
      NothingToReach(s, p);
    } else {
      var below, j := RecoverStep(s, p);
      ArrangeStep(s, below, j);
      RecoverReaches(Rest(s, j), p[..|s| - 1]);
      assert p == p[..|s| - 1] + [p[|s| - 1]];
    }
  }

  lemma NothingToReach<T>(s: seq<T>, p: seq<T>)
    requires multiset(p) == multiset(s) && s == [] && p == []
    ensures Arrange(s, Recover(s, p)) == p
  {
  }

  /** Different targets reach different arrangements. */
  lemma {:induction false} ArrangeInjective<T>(s: seq<T>, t: seq<nat>, w: seq<nat>)
    requires |t| == |s| == |w| && Targets(t) && Targets(w) && Distinct(s)
    requires Arrange(s, t) == Arrange(s, w)
    ensures t == w
    decreases |s|
  {
    if s != [] {
      hide Rest, Arrange, Targets;
      var m := |s| - 1;
      var below, other := t[..m], w[..m];
      assert t == below + [t[m]] && w == other + [w[m]];
      ArrangeStep(s, below, t[m]);
      ArrangeStep(s, other, w[m]);
      SplitLast(Arrange(Rest(s, t[m]), below), s[t[m]], Arrange(Rest(s, w[m]), other), s[w[m]]);
      assert t[m] == w[m];
      RestDistinct(s, t[m]);
      hide Distinct;
      ArrangeInjective(Rest(s, t[m]), below, other);
    }
  }

  lemma SplitLast<T>(a: seq<T>, x: T, b: seq<T>, y: T)
    requires a + [x] == b + [y]
    ensures a == b && x == y
  {
    assert |a| == |a + [x]| - 1 == |b|;
    assert (a + [x])[..|a|] == a && (b + [y])[..|b|] == b && (a + [x])[|a|] == x && (b + [y])[|b|] == y;
  }

  /** Each ordering of distinct cards is drawn by exactly one vector of targets. */
  lemma {:induction false} ExactlyOneVector<T>(s: seq<T>, p: seq<T>, t: seq<nat>)
    requires Distinct(s) && multiset(p) == multiset(s)
    requires |t| == |s| && Targets(t)
    ensures Arrange(s, t) == p <==> t == Recover(s, p)
  {
    RecoverReaches(s, p);
    if Arrange(s, t) == p {
      ArrangeInjective(s, t, Recover(s, p));
    }
  }
}
