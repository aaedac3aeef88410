/**
 Rejection sampling as both samplers of the repository do it: take the first word of a
 stream that falls in an accepted interval and reduce it modulo the bound. The draw of
 the tarot agent accepts [0, limit), the engine's shuffle accepts [threshold, 2^64).
 */
module Sampling {
  import opened Arithmetic

  type Words = nat -> nat

  const RANGE32: nat := 0x1_0000_0000
  const RANGE64: nat := 0x1_0000_0000_0000_0000

  predicate Accepted(word: nat, low: nat, high: nat) {
    low <= word < high
  }

  /** From every position on, an accepted word appears: what a hash cannot be shown to do. */
  ghost predicate Appears(words: Words, from: nat, low: nat, high: nat) {
    exists k :: k >= from && Accepted(words(k), low, high)
  }

  predicate IsFirst(words: Words, from: nat, low: nat, high: nat, k: nat) {
    k >= from && Accepted(words(k), low, high) && forall j :: from <= j < k ==> !Accepted(words(j), low, high)
  }

  lemma {:induction false} FirstExists(words: Words, from: nat, low: nat, high: nat, k: nat)
    requires k >= from && Accepted(words(k), low, high)
    ensures exists i :: IsFirst(words, from, low, high, i)
    decreases k - from
  {
    if j :| from <= j < k && Accepted(words(j), low, high) {
      FirstExists(words, from, low, high, j);
    } else {
      assert IsFirst(words, from, low, high, k);
    }
  }

  /** The position of the word that the sampling loop accepts. */
  ghost function First(words: Words, from: nat, low: nat, high: nat): (k: nat)
    requires Appears(words, from, low, high)
    ensures IsFirst(words, from, low, high, k)
  {
    var k :| k >= from && Accepted(words(k), low, high);
    FirstExists(words, from, low, high, k);
    var i :| IsFirst(words, from, low, high, i);
    i
  }

  /** What an accepted word is reduced to. */
  function Reduce(word: nat, bound: nat): (r: nat)
    requires bound >= 1
    ensures r < bound
  {
    word % bound
  }

  /** Math.floor(range / bound) * bound */
  function Limit(range: nat, bound: nat): nat
    requires bound >= 1
  {
    range / bound * bound
  }

  /** -bound % bound in unsigned 64-bit arithmetic. */
  function Threshold(bound: nat): nat
    requires 1 <= bound < RANGE64
  {
    (RANGE64 - bound) % bound
  }

  function Residues(low: nat, high: nat, bound: nat, r: nat): set<nat>
    requires bound >= 1
  {
    set v: nat | low <= v < high && Reduce(v, bound) == r
  }

  /** A number is determined by its residue among any `bound` consecutive numbers. */
  lemma OneInWindow(low: nat, bound: nat, r: nat)
    requires r < bound
    ensures exists v: nat :: Residues(low, low + bound, bound, r) == {v}
  {
    var shift := if r >= low % bound then r - low % bound else r - low % bound + bound;
    var v: nat := low + shift;
    var q := low / bound;
    assert low == q * bound + low % bound;
    if r >= low % bound {
      Divides(v, bound, q, r);
    } else {
      assert (q + 1) * bound == q * bound + bound;
      Divides(v, bound, q + 1, r);
    }
    forall w: nat | low <= w < low + bound && w % bound == r
      ensures w == v
    {
      SameResidue(v, w, bound);
    }
    assert Residues(low, low + bound, bound, r) == {v};
  }

  lemma SameResidue(v: nat, w: nat, bound: nat)
    requires bound >= 1 && v % bound == w % bound && v < w + bound && w < v + bound
    ensures v == w
  {
    var d, e := v / bound, w / bound;
    assert v == d * bound + v % bound && w == e * bound + w % bound;
    assert (d - e) * bound == d * bound - e * bound;
    Multiple(d - e, bound);
  }

  lemma ResiduesExtend(low: nat, middle: nat, high: nat, bound: nat, r: nat, v: nat)
    requires low <= middle <= high && r < bound && Residues(middle, high, bound, r) == {v}
    ensures |Residues(low, high, bound, r)| == |Residues(low, middle, bound, r)| + 1
  {
    assert v in Residues(middle, high, bound, r);
    forall w: nat | middle <= w < high && w % bound == r
      ensures w == v
    {
      assert w in Residues(middle, high, bound, r);
    }
    assert Residues(low, high, bound, r) == Residues(low, middle, bound, r) + {v};
  }

  /** An interval of q * bound consecutive words holds every residue exactly q times. */
  lemma {:induction false} EvenResidues(low: nat, q: nat, bound: nat, r: nat)
    requires r < bound
    ensures |Residues(low, low + q * bound, bound, r)| == q
    decreases q
  {
    if q == 0 {
      assert Residues(low, low, bound, r) == {};
    } else {
      var middle := low + (q - 1) * bound;
      assert middle + bound == low + q * bound;
      EvenResidues(low, q - 1, bound, r);
      OneInWindow(middle, bound, r);
      var v :| Residues(middle, middle + bound, bound, r) == {v};
      hide Residues;
      ResiduesExtend(low, middle, middle + bound, bound, r, v);
    }
  }

  /**
   The draw's sampler is exactly uniform: each residue is produced by the same number of
   accepted words, and more words are accepted than rejected.
   */
  lemma LimitIsUniform(bound: nat, r: nat)
    requires r < bound <= RANGE32
    ensures |Residues(0, Limit(RANGE32, bound), bound, r)| == RANGE32 / bound >= 1
    ensures RANGE32 < 2 * Limit(RANGE32, bound) <= 2 * RANGE32
  {
    EvenResidues(0, RANGE32 / bound, bound, r);
    Half(RANGE32, bound);
  }

  lemma Half(range: nat, bound: nat)
    requires 1 <= bound <= range
    ensures range / bound >= 1 && range == range / bound * bound + range % bound
    ensures range < 2 * (range / bound * bound)
  {
    var q := range / bound;
    assert range == q * bound + range % bound;
    Multiple(q, bound);
  }

  /** The threshold that the engine computes by wrap-around is the remainder of the full range. */
  lemma ThresholdIsRemainder(bound: nat)
    requires 1 <= bound < RANGE64
    ensures Threshold(bound) == RANGE64 % bound
  {
    var q := RANGE64 / bound;
    Half(RANGE64, bound);
    assert RANGE64 - bound == (q - 1) * bound + RANGE64 % bound;
    Divides(RANGE64 - bound, bound, q - 1, RANGE64 % bound);
  }

  /** The engine's sampler is exactly uniform on the words it accepts, and accepts more than it rejects. */
  lemma ThresholdIsUniform(bound: nat, r: nat)
    requires r < bound < RANGE64
    ensures |Residues(Threshold(bound), RANGE64, bound, r)| == RANGE64 / bound >= 1
    ensures 2 * Threshold(bound) < RANGE64
  {
    ThresholdIsRemainder(bound);
    Half(RANGE64, bound);
    EvenResidues(Threshold(bound), RANGE64 / bound, bound, r);
  }
}
