/** The relationship spread word by word: which bytes make a word, which words are used, and which cards they exchange. */
module DrawSteps {
  import opened Sampling
  import opened Arithmetic
  import opened DrawPermutation
  import opened DrawRandom

  // ---- words ----

  /** A word consists of four bytes, the first one being the most significant. */
  predicate MadeOf(word: nat, bytes: seq<Byte>)
    requires |bytes| == 4
  {
    && word / 0x100_0000 == bytes[0] && word / 0x1_0000 % 0x100 == bytes[1]
    && word / 0x100 % 0x100 == bytes[2] && word % 0x100 == bytes[3]
  }

  lemma BytesOf(bytes: seq<Byte>)
    requires |bytes| == 4
    ensures MadeOf(BigEndian(bytes), bytes)
  {
    var v := BigEndian(bytes);
    var a: nat, b: nat, c: nat, d: nat := bytes[0], bytes[1], bytes[2], bytes[3];
    Divides(v, 0x100_0000, a, b * 0x1_0000 + c * 0x100 + d);
    Divides(v, 0x1_0000, a * 0x100 + b, c * 0x100 + d);
    Divides(a * 0x100 + b, 0x100, a, b);
    Divides(v, 0x100, a * 0x1_0000 + b * 0x100 + c, d);
    Divides(a * 0x1_0000 + b * 0x100 + c, 0x100, a * 0x100 + b, c);
  }

  /** The i-th word is made of the next four bytes of the block it falls into, eight words a block. */
  lemma {:induction false} WordIs(blocks: Blocks, i: nat)
    ensures MadeOf(Word(blocks, i), blocks(i / 8)[4 * (i % 8)..4 * (i % 8) + 4])
  {
    hide Word, BigEndian, MadeOf;
    WordInBlock(blocks, i / 8, 4 * (i % 8));
    assert 8 * (i / 8) + 4 * (i % 8) / 4 == i;
    BytesOf(blocks(i / 8)[4 * (i % 8)..4 * (i % 8) + 4]);
  }

  // ---- which words are used ----

  /** The first word from a position on that lies below the largest multiple of the bound. */
  predicate Uses(words: Words, from: nat, bound: nat, k: nat)
    requires bound >= 1
  {
    k >= from && words(k) < 0x1_0000_0000 - 0x1_0000_0000 % bound
    && forall j :: from <= j < k ==> words(j) >= 0x1_0000_0000 - 0x1_0000_0000 % bound
  }

  lemma TakenIs(words: Words, from: nat, bound: nat, k: nat)
    requires Productive(words) && 1 <= bound <= RANGE32
    ensures Uses(words, from, bound, k) <==> k == Taken(words, from, bound)
  {
    hide Productive;
    assert Limit(RANGE32, bound) == 0x1_0000_0000 - 0x1_0000_0000 % bound by {
      Euclid(RANGE32, bound);
    }
    var t := Taken(words, from, bound);
    hide Limit, Taken;
    assert Uses(words, from, bound, t);
  }

  /** Target i is the remainder of a word used for it; the words are used in order, from the last index to the first. */
  predicate Chooses(words: Words, from: nat, targets: seq<nat>, used: seq<nat>)
  {
    && |used| == |targets| > 0 && targets[0] == 0
    && forall i :: 0 < i < |targets| ==> ChoosesAt(words, from, targets, used, i)
  }

  predicate ChoosesAt(words: Words, from: nat, targets: seq<nat>, used: seq<nat>, i: int)
    requires 0 < i < |targets| == |used|
  {
    Uses(words, if i == |used| - 1 then from else used[i + 1] + 1, i + 1, used[i]) && targets[i] == words(used[i]) % (i + 1)
  }

  /** After the last word used. */
  function After(from: nat, used: seq<nat>): nat {
    if |used| <= 1 then from else used[1] + 1
  }

  lemma {:induction false} DrawnChooses(words: Words, from: nat, index: nat)
    requires Productive(words) && index < RANGE32
    ensures exists used :: Chooses(words, from, Drawn(words, from, index).0, used) && After(from, used) == Drawn(words, from, index).1
    decreases index
  {
    hide Productive, Taken, Limit, Targets, Reduce, Chooses, Uses;
    if index == 0 {
      assert Drawn(words, from, 0) == ([0], from);
      assert Chooses(words, from, [0], [0]) by { NoneChosen(words, from); }
      assert After(from, [0]) == from;
    } else {
      DrawnStep(words, from, index);
      var k := Taken(words, from, index + 1);
      var (below, next) := Drawn(words, k + 1, index - 1);
      assert |below| == index;
      DrawnChooses(words, k + 1, index - 1);
      var used :| Chooses(words, k + 1, below, used) && After(k + 1, used) == next;
      hide Drawn, After;
      TakenIs(words, from, index + 1, k);
      OneMoreChosen(words, from, below, used, k);
    }
  }

  lemma NoneChosen(words: Words, from: nat)
    ensures Chooses(words, from, [0], [0])
  {
  }

  lemma OneMoreChosen(words: Words, from: nat, below: seq<nat>, used: seq<nat>, k: nat)
    requires Chooses(words, k + 1, below, used) && Uses(words, from, |below| + 1, k)
    ensures Chooses(words, from, below + [Reduce(words(k), |below| + 1)], used + [k])
    ensures After(from, used + [k]) == After(k + 1, used)
  {
    hide Uses;
    var targets, more := below + [Reduce(words(k), |below| + 1)], used + [k];
    forall i | 0 < i < |targets|
      ensures ChoosesAt(words, from, targets, more, i)
    {
      if i < |below| {
        assert ChoosesAt(words, k + 1, below, used, i);
      }
    }
  }

  // ---- which cards are exchanged ----

  /** The same sequence with the elements at two places exchanged. */
  predicate Exchanged(a: seq<nat>, b: seq<nat>, i: nat, j: nat) {
    && |a| == |b| && i < |a| && j < |a| && b[i] == a[j] && b[j] == a[i]
    && forall k :: 0 <= k < |a| && k != i && k != j ==> b[k] == a[k]
  }

  /** The stages of a shuffle: from the last place on, every place is exchanged with its target. */
  predicate Shuffles(stages: seq<seq<nat>>, targets: seq<nat>) {
    && |stages| == |targets| > 0
    && forall i :: 0 < i < |targets| ==> Exchanged(stages[i], stages[i - 1], i, targets[i])
  }

  lemma {:induction false} ArrangeShuffles(s: seq<nat>, t: seq<nat>)
    requires |t| == |s| > 0 && Targets(t)
    ensures exists stages :: Shuffles(stages, t) && stages[|t| - 1] == s && stages[0] == Arrange(s, t)
    decreases |s|
  {
    hide Exchanged, Rest;
    if |s| == 1 {
      assert Arrange(s, t) == s;
      assert Shuffles([s], t) && [s][0] == s;
    } else {
      var last := |s| - 1;
      var below := t[..last];
      assert t == below + [t[last]];
      ArrangeStep(s, below, t[last]);
      var rest := Rest(s, t[last]);
      hide Arrange, Targets;
      ArrangeShuffles(rest, below);
      var stages :| Shuffles(stages, below) && stages[|below| - 1] == rest && stages[0] == Arrange(rest, below);
      OneMoreStage(s, t, stages);
    }
  }

  lemma OneMoreStage(s: seq<nat>, t: seq<nat>, below: seq<seq<nat>>)
    requires |t| == |s| > 1 && t[|s| - 1] < |s|
    requires Shuffles(below, t[..|s| - 1]) && below[|s| - 2] == Rest(s, t[|s| - 1])
    ensures exists stages :: Shuffles(stages, t) && stages[|t| - 1] == s && stages[0] == below[0] + [s[t[|s| - 1]]]
  {
    var last := |s| - 1;
    var c := s[t[last]];
    var stages := seq(|s|, i requires 0 <= i < |s| => if i == last then s else below[i] + [c]);
    assert forall i :: 0 <= i < last ==> stages[i] == below[i] + [c];
    ExchangesLast(s, t[last]);
    forall i | 0 < i < |t|
      ensures Exchanged(stages[i], stages[i - 1], i, t[i])
    {
      if i < last {
        assert Exchanged(below[i], below[i - 1], i, t[..last][i]);
        ExchangedUnder(below[i], below[i - 1], i, t[i], c);
      }
    }
    hide Exchanged;
    assert Shuffles(stages, t);
  }

  lemma ExchangedUnder(a: seq<nat>, b: seq<nat>, i: nat, j: nat, c: nat)
    requires Exchanged(a, b, i, j)
    ensures Exchanged(a + [c], b + [c], i, j)
  {
  }

  lemma ExchangesLast(s: seq<nat>, target: nat)
    requires target < |s|
    ensures Exchanged(s, Rest(s, target) + [s[target]], |s| - 1, target)
  {
  }

  // ---- the spread ----

  /** The cards come from the front of the last stage; the words after those used for the shuffle turn them. */
  predicate Deals(words: Words, order: seq<nat>, next: nat, cards: seq<DrawnCard>) {
    |cards| == 3 <= |order| &&
    forall i :: 0 <= i < 3 ==> cards[i].deckIndex == order[i] && cards[i].position == i && (cards[i].upright <==> words(next + i) % 2 == 0)
  }

  ghost predicate InRange(words: Words) {
    forall k :: words(k) < 0x1_0000_0000
  }

  /** A card is turned by the next word whatever it is, because half of all words are even. */
  lemma NextWordTurns(words: Words, at: nat)
    requires Productive(words) && InRange(words)
    ensures Taken(words, at, 2) == at
    ensures Reduce(words(at), 2) == words(at) % 2
  {
    assert Uses(words, at, 2, at);
    hide Productive, Taken;
    TakenIs(words, at, 2, at);
  }

  lemma {:induction false} DealtDeals(words: Words, order: seq<nat>, from: nat, n: nat)
    requires Productive(words) && InRange(words) && n <= |order|
    ensures var (cards, next) := Dealt(words, order, from, n);
      && next == from + n && forall i :: 0 <= i < n ==> (cards[i].upright <==> words(from + i) % 2 == 0)
    decreases n
  {
    hide Productive, Taken, Limit, InRange, Reduce, Dealt;
    if n == 0 {
      DealtNone(words, order, from);
    } else {
      DealtDeals(words, order, from, n - 1);
      DealtStep(words, order, from, n - 1);
      NextWordTurns(words, from + n - 1);
    }
  }

  /**
   The spread is dealt from a deck in which, from the last card on, every card was exchanged with the
   one that its word chose among those not yet fixed; the three words after that turn the cards.
   */
  lemma {:induction false} SpreadIs(blocks: Blocks)
    requires Productive(WordsOf(blocks))
    ensures var words := WordsOf(blocks);
      exists targets, used, stages ::
      && |targets| == 78 && Chooses(words, 0, targets, used)
      && Shuffles(stages, targets) && stages[77] == seq(78, i => i)
      && Deals(words, stages[0], After(0, used), Spread(words))
  {
    hide Productive, Taken, Limit, Targets, Drawn, Arrange, Dealt, Chooses, Exchanged, After, Word;
    var words := WordsOf(blocks);
    var (targets, next) := Drawn(words, 0, 77);
    DrawnChooses(words, 0, 77);
    var used :| Chooses(words, 0, targets, used) && After(0, used) == next;
    ArrangeShuffles(Deck(), targets);
    var stages :| Shuffles(stages, targets) && stages[|targets| - 1] == Deck() && stages[0] == Arrange(Deck(), targets);
    assert Deck() == seq(78, i => i);
    DealtDeals(words, Order(words), next, 3);
  }
}
