/** Where a match places every agent: in its channels, in the fusion of them, and in the order of the scores. */
module MatchRecall {
  import opened Wrappers
  import opened Arithmetic
  import opened Sequences
  import opened Ranking
  import opened MatchTypes
  import opened MatchFilter
  import opened MatchService

  // ---- one channel ----

  predicate On(adapter: Option<Adapter>, channel: Channel) {
    adapter.Some? &&
    match channel
    case Dense => adapter.value.channel == "dense"
    case Lexical => adapter.value.channel == "lexical"
    case Exact => adapter.value.channel == "exact"
  }

  predicate FirstOn(adapters: seq<Option<Adapter>>, channel: Channel, i: nat) {
    i < |adapters| && On(adapters[i], channel) && forall j :: 0 <= j < i ==> !On(adapters[j], channel)
  }

  function Said(adapter: Option<Adapter>): seq<Hit> {
    if adapter.Some? && adapter.value.answer.Some? then adapter.value.answer.value else []
  }

  /** These are the hits of the channel's first adapter; none when it failed or the channel has no adapter. */
  ghost predicate Heard(adapters: seq<Option<Adapter>>, channel: Channel, hits: seq<Hit>) {
    && (forall i: nat :: FirstOn(adapters, channel, i) ==> hits == Said(adapters[i]))
    && ((forall i :: 0 <= i < |adapters| ==> !On(adapters[i], channel)) ==> hits == [])
  }

  lemma SpeaksIsOn(adapter: Option<Adapter>, channel: Channel)
    ensures Speaks(adapter, channel) <==> On(adapter, channel)
  {
  }

  lemma {:induction false} AnswerIsHeard(adapters: seq<Option<Adapter>>, channel: Channel)
    ensures Heard(adapters, channel, Answer(adapters, channel))
    ensures SpokenFor(adapters, channel) <==> exists i :: 0 <= i < |adapters| && On(adapters[i], channel)
    decreases |adapters|
  {
    if adapters != [] {
      var init, last := adapters[..|adapters| - 1], adapters[|adapters| - 1];
      assert init + [last] == adapters;
      AnswerIsHeard(init, channel);
      AnswerStep(init, last, channel);
      SpokenStep(init, last, channel);
      SpeaksIsOn(last, channel);
      hide Speaks, On, Answer, SpokenFor, Heard;
      HeardStep(init, last, channel, Answer(init, channel), Answer(adapters, channel));
      OnStep(init, last, channel);
    }
  }

  lemma OnStep(init: seq<Option<Adapter>>, last: Option<Adapter>, channel: Channel)
    ensures (exists i :: 0 <= i < |init + [last]| && On((init + [last])[i], channel))
       <==> (exists i :: 0 <= i < |init| && On(init[i], channel)) || On(last, channel)
  {
    hide On;
    var all := init + [last];
    assert forall i :: 0 <= i < |init| ==> all[i] == init[i];
    assert all[|init|] == last;
  }

  lemma HeardStep(init: seq<Option<Adapter>>, last: Option<Adapter>, channel: Channel, before: seq<Hit>, hits: seq<Hit>)
    requires Heard(init, channel, before)
    requires hits == if exists i :: 0 <= i < |init| && On(init[i], channel) then before
                     else if On(last, channel) then Said(last) else []
    ensures Heard(init + [last], channel, hits)
  {
    hide On, Said;
    var all := init + [last];
    assert forall i :: 0 <= i < |init| ==> all[i] == init[i];
    assert all[|init|] == last;
    forall i: nat | FirstOn(all, channel, i)
      ensures hits == Said(all[i])
    {
      if i < |init| {
        assert FirstOn(init, channel, i);
      } else {
        assert forall j :: 0 <= j < |init| ==> !On(all[j], channel);
      }
    }
  }

  /** A hit that counts: of an eligible agent, with a relevance between 0 and 10 000. */
  predicate Counts(h: Hit, ids: set<string>) {
    h.agentId in ids && 0 <= h.relevance <= 10_000
  }

  /** The eligible agents that some hit puts before an agent with this relevance. */
  function Ahead(hits: seq<Hit>, ids: set<string>, id: string, relevance: int): set<string> {
    set h | h in hits && Counts(h, ids) && h.agentId != id
            && (h.relevance > relevance || (h.relevance == relevance && Before(h.agentId, id))) :: h.agentId
  }

  /** The agent's best hit that counts, at the place after all agents ahead, one of the first hundred. */
  predicate Stands(hits: seq<Hit>, ids: set<string>, id: string, e: Evidence) {
    && Hit(id, e.relevance) in hits && Counts(Hit(id, e.relevance), ids)
    && (forall h :: h in hits && Counts(h, ids) && h.agentId == id ==> h.relevance <= e.relevance)
    && e.rank == |Ahead(hits, ids, id, e.relevance)| + 1 && e.rank <= 100
  }

  lemma ValidCounts(h: Hit, ids: set<string>)
    ensures ValidHit(h, ids) <==> Counts(h, ids)
  {
  }

  /** The best hits are listed by falling relevance, equal ones by agent. */
  lemma ListedBest(hits: seq<Hit>, ids: set<string>, k: nat)
    requires k < |Normalized(hits, ids)|
    ensures var all := Normalized(hits, ids);
      && all[k] in hits && Counts(all[k], ids)
      && (forall h :: h in hits && Counts(h, ids) && h.agentId == all[k].agentId ==> h.relevance <= all[k].relevance)
  {
    hide Ranked, Increasing;
    var all := Normalized(hits, ids);
    assert all[k] in Elements(all);
    forall h: Hit
      ensures ValidHit(h, ids) <==> Counts(h, ids)
    {
      ValidCounts(h, ids);
    }
  }

  /** Every hit that counts is covered by a listed one of its agent. */
  lemma {:induction false} HasBest(hits: seq<Hit>, ids: set<string>, h: Hit)
    requires h in hits && Counts(h, ids)
    ensures exists k :: 0 <= k < |Normalized(hits, ids)| && Normalized(hits, ids)[k].agentId == h.agentId
                        && Normalized(hits, ids)[k].relevance >= h.relevance
    decreases 10_000 - h.relevance
  {
    hide Ranked, Increasing;
    if h in BestHits(hits, ids) {
      var all := Normalized(hits, ids);
      assert h in Elements(all);
    } else {
      ValidCounts(h, ids);
      var g :| g in hits && ValidHit(g, ids) && g.agentId == h.agentId && g.relevance > h.relevance;
      ValidCounts(g, ids);
      HasBest(hits, ids, g);
    }
  }

  lemma ListedOrder(hits: seq<Hit>, ids: set<string>, i: nat, j: nat)
    requires i < j < |Normalized(hits, ids)|
    ensures var all := Normalized(hits, ids);
      && (all[i].relevance > all[j].relevance || (all[i].relevance == all[j].relevance && Before(all[i].agentId, all[j].agentId)))
      && all[i].agentId != all[j].agentId
  {
    hide Ranked;
    var all := Normalized(hits, ids);
    assert ByRelevance(all[i], all[j]);
    if all[i].agentId == all[j].agentId {
      ListedBest(hits, ids, i);
      ListedBest(hits, ids, j);
      BeforeTotal(all[i].agentId, all[i].agentId);
    }
  }

  /** The agents ahead of the one listed at place k are those listed before it. */
  lemma AheadIsBefore(hits: seq<Hit>, ids: set<string>, k: nat)
    requires k < |Normalized(hits, ids)|
    ensures var all := Normalized(hits, ids); |Ahead(hits, ids, all[k].agentId, all[k].relevance)| == k
  {
    hide Normalized, Before;
    var all := Normalized(hits, ids);
    var ahead := Ahead(hits, ids, all[k].agentId, all[k].relevance);
    var first := seq(k, i requires 0 <= i < k => all[i].agentId);
    forall i, j | 0 <= i < j < k
      ensures first[i] != first[j]
    {
      ListedOrder(hits, ids, i, j);
    }
    CountElements(first);
    forall id | id in first
      ensures id in ahead
    {
      var i :| 0 <= i < k && first[i] == id;
      ListedOrder(hits, ids, i, k);
      ListedBest(hits, ids, i);
    }
    forall id | id in ahead
      ensures id in first
    {
      var h :| h in hits && Counts(h, ids) && h.agentId == id && id != all[k].agentId
               && (h.relevance > all[k].relevance || (h.relevance == all[k].relevance && Before(id, all[k].agentId)));
      HasBest(hits, ids, h);
      var i :| 0 <= i < |all| && all[i].agentId == id && all[i].relevance >= h.relevance;
      if i > k {
        ListedOrder(hits, ids, k, i);
        BeforeTotal(id, all[k].agentId);
      }
      assert i < k && first[i] == id;
    }
    assert Elements(first) == ahead;
  }

  /** An agent is placed in a channel exactly where its best hit stands among those of the others. */
  lemma {:induction false} PlacedIff(hits: seq<Hit>, ids: set<string>, id: string, e: Evidence)
    ensures Places(Top(hits, ids), id, e) <==> Stands(hits, ids, id, e)
  {
    hide Normalized, Before, Ahead;
    var all := Normalized(hits, ids);
    assert |Top(hits, ids)| == if |all| < 100 then |all| else 100;
    if Places(Top(hits, ids), id, e) {
      ListedBest(hits, ids, e.rank - 1);
      AheadIsBefore(hits, ids, e.rank - 1);
    }
    if Stands(hits, ids, id, e) {
      HasBest(hits, ids, Hit(id, e.relevance));
      var k :| 0 <= k < |all| && all[k].agentId == id && all[k].relevance >= e.relevance;
      ListedBest(hits, ids, k);
      AheadIsBefore(hits, ids, k);
      assert all[k] == Hit(id, e.relevance);
    }
  }

  // ---- all channels ----

  predicate Recalled(book: Book, id: string, channel: Channel, e: Evidence) {
    id in book && channel in book[id] && book[id][channel] == e
  }

  /** The evidence of every agent is where its hits stand in the channels; nobody has an empty record. */
  ghost predicate Remembers(book: Book, adapters: seq<Option<Adapter>>, ids: set<string>) {
    && (forall id :: id in book ==> id in ids && book[id] != map[])
    && (forall id, channel, e, hits :: Heard(adapters, channel, hits) ==> (Recalled(book, id, channel, e) <==> Stands(hits, ids, id, e)))
  }

  lemma HeardOnce(adapters: seq<Option<Adapter>>, channel: Channel, a: seq<Hit>, b: seq<Hit>)
    requires Heard(adapters, channel, a) && Heard(adapters, channel, b)
    ensures a == b
  {
    hide On;
    if i :| 0 <= i < |adapters| && On(adapters[i], channel) {
      FirstExists(adapters, channel, i);
      var k: nat :| FirstOn(adapters, channel, k);
      assert a == Said(adapters[k]) && b == Said(adapters[k]);
    } else {
      assert forall k :: 0 <= k < |adapters| ==> !On(adapters[k], channel);
    }
  }

  lemma {:induction false} FirstExists(adapters: seq<Option<Adapter>>, channel: Channel, i: nat)
    requires i < |adapters| && On(adapters[i], channel)
    ensures exists k: nat :: FirstOn(adapters, channel, k)
    decreases i
  {
    hide On;
    if j :| 0 <= j < i && On(adapters[j], channel) {
      FirstExists(adapters, channel, j);
    } else {
      assert FirstOn(adapters, channel, i);
    }
  }

  lemma {:induction false} BookRemembers(book: Book, adapters: seq<Option<Adapter>>, ids: set<string>)
    requires Reflects(book, adapters, ids)
    ensures Remembers(book, adapters, ids)
  {
    OnlyEligible(book, adapters, ids);
    hide Heard, Stands, Places, Answer, Top;
    forall id, channel, e, hits | Heard(adapters, channel, hits)
      ensures Recalled(book, id, channel, e) <==> Stands(hits, ids, id, e)
    {
      AnswerIsHeard(adapters, channel);
      HeardOnce(adapters, channel, hits, Answer(adapters, channel));
      PlacedIff(hits, ids, id, e);
      assert Has(book, id, channel, e) <==> Recalled(book, id, channel, e);
    }
    assert forall id :: id in book ==> id in ids;
    assert forall id :: id in book ==> book[id] != map[];
  }

  // ---- fusion ----

  /** The whole part of a million divided by sixty and the rank; nothing without a place. */
  predicate Reciprocal(p: int, recall: Recall, channel: Channel) {
    if channel !in recall || recall[channel].rank == 0 then p == 0
    else
      var d := 60 + recall[channel].rank;
      d * p <= 1_000_000 < d * p + d
  }

  ghost predicate FusedScore(p: int, recall: Recall) {
    exists dense, lexical, exact :: p == dense + lexical + exact && Reciprocals(dense, lexical, exact, recall)
  }

  predicate Reciprocals(dense: int, lexical: int, exact: int, recall: Recall) {
    Reciprocal(dense, recall, Dense) && Reciprocal(lexical, recall, Lexical) && Reciprocal(exact, recall, Exact)
  }

  lemma ContributionIs(p: int, recall: Recall, channel: Channel)
    ensures Reciprocal(p, recall, channel) <==> Contribution(recall, channel) == p
  {
    if channel in recall && recall[channel].rank > 0 {
      var d := 60 + recall[channel].rank;
      var q := 1_000_000 / d;
      Euclid(1_000_000, d);
      assert d * q == q * d;
      if Reciprocal(p, recall, channel) {
        assert p * d == d * p;
        QuotientBounds(1_000_000, d, p, p);
      }
    }
  }

  lemma FusionIs(p: int, recall: Recall)
    ensures FusedScore(p, recall) <==> Fusion(recall) == p
  {
    hide Reciprocal, Contribution;
    forall x, channel
      ensures Reciprocal(x, recall, channel) <==> Contribution(recall, channel) == x
    {
      ContributionIs(x, recall, channel);
    }
    if Fusion(recall) == p {
      assert Reciprocals(Contribution(recall, Dense), Contribution(recall, Lexical), Contribution(recall, Exact), recall);
    }
  }

  /** One agent's evidence is fused to more than another's, or to as much and its id comes first. */
  ghost predicate Outranks(a: string, x: Recall, b: string, y: Recall) {
    exists p, q :: FusedScore(p, x) && FusedScore(q, y) && (p > q || (p == q && Before(a, b)))
  }

  ghost function Better(book: Book, id: string): set<string>
    requires id in book
  {
    set other | other in book && other != id && Outranks(other, book[other], id, book[id])
  }

  lemma OutranksIs(a: string, x: Recall, b: string, y: Recall)
    ensures Outranks(a, x, b, y) <==> Fusion(x) > Fusion(y) || (Fusion(x) == Fusion(y) && Before(a, b))
  {
    hide FusedScore, Before, Fusion;
    FusionIs(Fusion(x), x);
    FusionIs(Fusion(y), y);
    if Outranks(a, x, b, y) {
      var p, q :| FusedScore(p, x) && FusedScore(q, y) && (p > q || (p == q && Before(a, b)));
      FusionIs(p, x);
      FusionIs(q, y);
    }
  }

  lemma OutranksIff(book: Book, a: string, b: string)
    requires a in book && b in book
    ensures Outranks(a, book[a], b, book[b]) <==> ByFusion(book)(a, b)
  {
    hide Outranks, Before, Fusion;
    OutranksIs(a, book[a], b, book[b]);
    assert ByFusion(book)(a, b) <==> FusionOf(book, a) > FusionOf(book, b) || (FusionOf(book, a) == FusionOf(book, b) && Before(a, b));
    assert FusionOf(book, a) == Fusion(book[a]);
    assert FusionOf(book, b) == Fusion(book[b]);
  }

  /** Scored are the agents that fewer than a hundred others outrank. */
  lemma {:induction false} FusedIff(book: Book, id: string)
    ensures id in Fused(book) <==> id in book && |Better(book, id)| < 100
  {
    hide Strict, Separates, Increasing, ByFusion, Better;
    OrdersAreStrict(book);
    var all := Ranked(ByFusion(book), book.Keys);
    if id in book {
      assert id in Elements(all);
      var k :| 0 <= k < |all| && all[k] == id;
      BetterIsBefore(book, k);
      assert forall i :: 0 <= i < |all| && i != k ==> all[i] != id by {
        ListedOnce(ByFusion(book), all);
      }
      assert k < 100 ==> Fused(book)[k] == id;
    } else {
      assert id in Fused(book) ==> id in Elements(Fused(book));
    }
  }

  lemma ListedOnce(less: Order<string>, s: seq<string>)
    requires Strict(less) && Increasing(less, s)
    ensures Distinct(s)
  {
  }

  lemma BetterIsBefore(book: Book, k: nat)
    requires Strict(ByFusion(book)) && Separates(ByFusion(book), book.Keys) && k < |Ranked(ByFusion(book), book.Keys)|
    ensures var all := Ranked(ByFusion(book), book.Keys); all[k] in book && |Better(book, all[k])| == k
  {
    hide ByFusion, Outranks, Before, Ranked;
    var less := ByFusion(book);
    var all := Ranked(less, book.Keys);
    assert forall i :: 0 <= i < |all| ==> all[i] in Elements(all);
    var better := Better(book, all[k]);
    forall id
      ensures id in better <==> id in all[..k]
    {
      if id in book && id != all[k] {
        OutranksIff(book, id, all[k]);
        assert id in Elements(all);
        var i :| 0 <= i < |all| && all[i] == id;
        if i < k {
          assert less(all[i], all[k]) && all[..k][i] == id;
        } else {
          assert less(all[k], all[i]) && !less(all[k], all[k]);
        }
      }
    }
    ListedOnce(less, all);
    CountElements(all[..k]);
    assert Elements(all[..k]) == better;
  }
}
