/**
 drawRelationshipSpread and HashRandom of
 agents/tarot-relationship/src/randomness/deterministic-draw.ts. The hash of the seed and
 a counter is an arbitrary function from counters to 32-byte blocks.
 */
module DrawRandom {
  import opened Wrappers
  import opened Sequences
  import opened Sampling
  import opened DrawPermutation

  type Byte = b: nat | b < 256

  type Block = s: seq<Byte> | |s| == 32 witness seq(32, _ => 0)

  type Blocks = nat -> Block

  /** The first n blocks, one after the other. */
  function Concat(blocks: Blocks, n: nat): (s: seq<Byte>)
    ensures |s| == 32 * n
  {
    if n == 0 then [] else Concat(blocks, n - 1) + blocks(n - 1)
  }

  function BigEndian(s: seq<Byte>): (v: nat)
    requires |s| == 4
    ensures v < RANGE32
  {
    var a: nat, b: nat, c: nat, d: nat := s[0], s[1], s[2], s[3];
    a * 0x100_0000 + b * 0x1_0000 + c * 0x100 + d
  }

  /** The i-th 32-bit word of the concatenated blocks. */
  function Word(blocks: Blocks, i: nat): (v: nat)
    ensures v < RANGE32
  {
    BigEndian(Concat(blocks, i / 8 + 1)[4 * i..4 * i + 4])
  }

  function WordsOf(blocks: Blocks): Words {
    i => Word(blocks, i)
  }

  /** A word inside one block is the word of the whole stream. */
  lemma WordInBlock(blocks: Blocks, c: nat, offset: nat)
    requires offset % 4 == 0 && offset + 4 <= 32
    ensures Word(blocks, 8 * c + offset / 4) == BigEndian(blocks(c)[offset..offset + 4])
  {
    var i := 8 * c + offset / 4;
    assert i / 8 == c && 4 * i == 32 * c + offset;
    assert Concat(blocks, c + 1)[4 * i..4 * i + 4] == blocks(c)[offset..offset + 4];
  }

  /** A word does not depend on how much of the stream is looked at. */
  lemma {:induction false} WordInAnyPrefix(blocks: Blocks, n: nat, i: nat)
    requires 4 * i + 4 <= 32 * n
    ensures BigEndian(Concat(blocks, n)[4 * i..4 * i + 4]) == Word(blocks, i)
    decreases n
  {
    if n > i / 8 + 1 {
      WordInAnyPrefix(blocks, n - 1, i);
      assert Concat(blocks, n)[4 * i..4 * i + 4] == Concat(blocks, n - 1)[4 * i..4 * i + 4];
    }
  }

  /** The assumption under which sampling ends: an accepted word appears after every position. */
  ghost predicate Productive(words: Words) {
    forall from: nat, bound: nat :: 1 <= bound <= RANGE32 ==> Appears(words, from, 0, Limit(RANGE32, bound))
  }

  /** Where the draw of a number below the bound stops reading. */
  ghost function Taken(words: Words, from: nat, bound: nat): (k: nat)
    requires Productive(words) && 1 <= bound <= RANGE32
    ensures k >= from && IsFirst(words, from, 0, Limit(RANGE32, bound), k)
  {
    First(words, from, 0, Limit(RANGE32, bound))
  }

  /** The targets that the loop draws for indexes from `index` down to 1, and the next position. */
  ghost function Drawn(words: Words, from: nat, index: nat): (r: (seq<nat>, nat))
    requires Productive(words) && index < RANGE32
    ensures |r.0| == index + 1 && Targets(r.0)
    decreases index
  {
    if index == 0 then ([0], from)
    else
      var k := Taken(words, from, index + 1);
      var (below, next) := Drawn(words, k + 1, index - 1);
      (below + [Reduce(words(k), index + 1)], next)
  }

  datatype DrawnCard = DrawnCard(deckIndex: nat, position: nat, upright: bool)

  const DECK_SIZE: nat := 78
  const POSITIONS: nat := 3

  function Deck(): (s: seq<nat>)
    ensures |s| == DECK_SIZE && Distinct(s) && forall i :: 0 <= i < |s| ==> s[i] == i
  {
    seq(DECK_SIZE, i => i)
  }

  ghost function Order(words: Words): (order: seq<nat>)
    requires Productive(words)
    ensures |order| == DECK_SIZE
  {
    Arrange(Deck(), Drawn(words, 0, DECK_SIZE - 1).0)
  }

  /** The first n cards of an order with the orientations drawn from a position on. */
  ghost function Dealt(words: Words, order: seq<nat>, from: nat, n: nat): (r: (seq<DrawnCard>, nat))
    requires Productive(words) && n <= |order|
    ensures |r.0| == n && forall i :: 0 <= i < n ==> r.0[i].deckIndex == order[i] && r.0[i].position == i
  {
    if n == 0 then ([], from)
    else
      var (cards, at) := Dealt(words, order, from, n - 1);
      var k := Taken(words, at, 2);
      (cards + [DrawnCard(order[n - 1], n - 1, Reduce(words(k), 2) == 0)], k + 1)
  }

  ghost function Spread(words: Words): seq<DrawnCard>
    requires Productive(words)
  {
    Dealt(words, Order(words), Drawn(words, 0, DECK_SIZE - 1).1, POSITIONS).0
  }

  lemma Skipped(blocks: Blocks, from: nat, limit: nat, k: nat, at: nat)
    requires IsFirst(WordsOf(blocks), from, 0, limit, k) && from <= at <= k
    ensures Word(blocks, at) < limit <==> at == k
  {
    hide Word;
    assert WordsOf(blocks)(at) == Word(blocks, at);
  }

  class HashRandom {
    const blocks: Blocks
    var counter: nat
    var buffer: seq<Byte>
    var offset: nat

    ghost predicate Valid()
      reads this
    {
      && offset % 4 == 0
      && if counter == 0 then buffer == [] && offset == 0 else buffer == blocks(counter - 1) && offset <= 32
    }

    /** How many words have been read. */
    ghost function Position(): nat
      reads this
      requires Valid()
    {
      if counter == 0 then 0 else 8 * (counter - 1) + offset / 4
    }

    constructor (blocks: Blocks)
      ensures Valid() && Position() == 0 && this.blocks == blocks
    {
      this.blocks, counter, buffer, offset := blocks, 0, [], 0;
    }

    method Uint32() returns (value: nat)
      requires Valid()
      modifies this
      ensures Valid() && Position() == old(Position()) + 1
      ensures value == Word(blocks, old(Position()))
    {
      if offset + 4 > |buffer| {
        buffer := blocks(counter);
        counter := counter + 1;
        offset := 0;
      }
      WordInBlock(blocks, counter - 1, offset);
      value := BigEndian(buffer[offset..offset + 4]);
      offset := offset + 4;
    }

    /** A number below the bound, from the first word under the limit; words above it are skipped. */
    method Integer(maximumExclusive: int) returns (r: Option<nat>)
      requires Valid() && Productive(WordsOf(blocks))
      modifies this
      ensures Valid()
      ensures r.None? <==> !(1 <= maximumExclusive <= RANGE32)
      ensures r.None? ==> Position() == old(Position())
      ensures r.Some? ==>
        var k := Taken(WordsOf(blocks), old(Position()), maximumExclusive);
        r.value == Reduce(Word(blocks, k), maximumExclusive) && Position() == k + 1
    {
      hide Word, Limit, Productive, Reduce, Taken, IsFirst, HashRandom.Valid, HashRandom.Position;
      if maximumExclusive < 1 || maximumExclusive > 0x1_0000_0000 {
        return None;
      }
      var limit := Limit(RANGE32, maximumExclusive);
      ghost var from := Position();
      ghost var k := Taken(WordsOf(blocks), from, maximumExclusive);
      var value := Uint32();
      Skipped(blocks, from, limit, k, from);
      while value >= limit
        invariant Valid() && from < Position() <= k + 1
        invariant value == Word(blocks, Position() - 1) && (value < limit <==> Position() == k + 1)
        decreases k + 1 - Position()
      {
        value := Uint32();
        Skipped(blocks, from, limit, k, Position() - 1);
      }
      return Some(Reduce(value, maximumExclusive));
    }
  }

  /** The shuffling loop, in place on the array of deck indexes. */
  method ShuffleIndexes(random: HashRandom, indexes: array<nat>)
    requires random.Valid() && Productive(WordsOf(random.blocks))
    requires 1 <= indexes.Length < RANGE32
    modifies random, indexes
    ensures random.Valid()
    ensures var (targets, next) := old(Drawn(WordsOf(random.blocks), random.Position(), indexes.Length - 1));
            indexes[..] == Arrange(old(indexes[..]), targets) && random.Position() == next
  {
    hide Word, Arrange, Rest, Drawn, Targets, Taken, Productive, Reduce, HashRandom.Valid, HashRandom.Position;
    ghost var words := WordsOf(random.blocks);
    var index: nat := indexes.Length - 1;
    ghost var all := Drawn(words, random.Position(), index);
    ghost var order := Arrange(indexes[..], all.0);
    assert indexes[..index + 1] == indexes[..] && indexes[index + 1..] == [];
    while index > 0
      invariant random.Valid() && index < indexes.Length
      invariant Drawn(words, random.Position(), index).1 == all.1
      invariant Arrange(indexes[..index + 1], Drawn(words, random.Position(), index).0) + indexes[index + 1..] == order
    {
      ghost var before := indexes[..];
      StepOfLoop(words, random.Position(), index, before[..index + 1]);
      var drawn := random.Integer(index + 1);
      var target := drawn.value;
      indexes[index], indexes[target] := indexes[target], indexes[index];
      SwapInPlace(before, indexes[..], index, target);
      index := index - 1;
    }
    EndOfLoop(words, random.Position(), indexes[..1]);
    assert indexes[..] == indexes[..1] + indexes[1..];
  }

  /** The first cards of the shuffled deck, each with an orientation drawn after the shuffle. */
  method DealCards(random: HashRandom, indexes: array<nat>) returns (cards: seq<DrawnCard>)
    requires random.Valid() && Productive(WordsOf(random.blocks)) && POSITIONS <= indexes.Length
    modifies random
    ensures random.Valid()
    ensures (cards, random.Position()) == old(Dealt(WordsOf(random.blocks), indexes[..], random.Position(), POSITIONS))
  {
    hide Word, Dealt, Taken, Productive, Reduce, Limit, IsFirst, HashRandom.Valid, HashRandom.Position;
    ghost var words, from := WordsOf(random.blocks), random.Position();
    DealtNone(words, indexes[..], from);
    cards := [];
    var position := 0;
    while position < POSITIONS
      invariant random.Valid() && 0 <= position <= POSITIONS
      invariant (cards, random.Position()) == Dealt(words, indexes[..], from, position)
    {
      DealtStep(words, indexes[..], from, position);
      var drawn := random.Integer(2);
      cards := cards + [DrawnCard(indexes[position], position, drawn.value == 0)];
      position := position + 1;
    }
  }

  method DrawRelationshipSpread(blocks: Blocks) returns (cards: seq<DrawnCard>)
    requires Productive(WordsOf(blocks))
    ensures cards == Spread(WordsOf(blocks))
  {
    hide Word, Arrange, Drawn, Dealt, Targets, Distinct, Productive, HashRandom.Valid, HashRandom.Position;
    var random := new HashRandom(blocks);
    var indexes := new nat[DECK_SIZE](i => i);
    assert indexes[..] == Deck();
    ShuffleIndexes(random, indexes);
    cards := DealCards(random, indexes);
  }

  lemma EndOfLoop(words: Words, from: nat, s: seq<nat>)
    requires Productive(words) && |s| == 1
    ensures Drawn(words, from, 0).1 == from && Arrange(s, Drawn(words, from, 0).0) == s
  {
  }

  lemma DealtNone(words: Words, order: seq<nat>, from: nat)
    requires Productive(words)
    ensures Dealt(words, order, from, 0) == ([], from)
  {
  }

  lemma DealtStep(words: Words, order: seq<nat>, from: nat, n: nat)
    requires Productive(words) && n < |order|
    ensures var (cards, at) := Dealt(words, order, from, n);
            var k := Taken(words, at, 2);
            Dealt(words, order, from, n + 1) == (cards + [DrawnCard(order[n], n, Reduce(words(k), 2) == 0)], k + 1)
  {
    hide Taken, Reduce, Productive;
  }

  lemma DrawnStep(words: Words, from: nat, index: nat)
    requires Productive(words) && 0 < index < RANGE32
    ensures var k := Taken(words, from, index + 1);
            var (below, next) := Drawn(words, k + 1, index - 1);
            Drawn(words, from, index) == (below + [Reduce(words(k), index + 1)], next)
  {
    hide Taken, Productive, Reduce, Targets, Limit;
  }

  /** One turn of the loop is one step of Arrange on the indexes not yet fixed. */
  lemma StepOfLoop(words: Words, from: nat, index: nat, before: seq<nat>)
    requires Productive(words) && 0 < index < RANGE32 && |before| == index + 1
    ensures var k := Taken(words, from, index + 1);
            var target := Reduce(words(k), index + 1);
            && Drawn(words, from, index).1 == Drawn(words, k + 1, index - 1).1
            && Arrange(before, Drawn(words, from, index).0)
            == Arrange(Rest(before, target), Drawn(words, k + 1, index - 1).0) + [before[target]]
  {
    hide Arrange, Rest, Taken, Productive, Reduce, Drawn, Limit, IsFirst;
    DrawnStep(words, from, index);
    var k := Taken(words, from, index + 1);
    ArrangeStep(before, Drawn(words, k + 1, index - 1).0, Reduce(words(k), index + 1));
  }

  /** Swapping in place leaves Rest below the index and the target's element at it. */
  lemma SwapInPlace(before: seq<nat>, after: seq<nat>, index: nat, target: nat)
    requires |after| == |before| && target <= index < |before|
    requires after == before[index := before[target]][target := before[index]]
    ensures after[..index] == Rest(before[..index + 1], target)
    ensures after[index..] == [before[target]] + before[index + 1..]
  {
  }

  /** The three cards are distinct cards of the deck, so the source's guard for an unknown card never fires. */
  lemma SpreadIsDistinct(words: Words, i: nat, j: nat)
    requires Productive(words) && i < j < POSITIONS
    ensures |Spread(words)| == POSITIONS
    ensures Spread(words)[i].deckIndex != Spread(words)[j].deckIndex
    ensures Spread(words)[i].deckIndex < DECK_SIZE && Spread(words)[j].deckIndex < DECK_SIZE
  {
    var order := Order(words);
    ArrangePermutes(Deck(), Drawn(words, 0, DECK_SIZE - 1).0);
    StaysDistinct(Deck(), order);
    assert order[i] in multiset(Deck()) && order[j] in multiset(Deck());
  }

  /** Every order of the deck is drawn by exactly one vector of targets, and each target is drawn fairly. */
  lemma OrderIsFair(p: seq<nat>, t: seq<nat>, index: nat, target: nat)
    requires multiset(p) == multiset(Deck()) && |t| == DECK_SIZE && Targets(t)
    requires target <= index < DECK_SIZE
    ensures Arrange(Deck(), t) == p <==> t == Recover(Deck(), p)
    ensures |Residues(0, Limit(RANGE32, index + 1), index + 1, target)| == RANGE32 / (index + 1)
  {
    ExactlyOneVector(Deck(), p, t);
    LimitIsUniform(index + 1, target);
  }
}
