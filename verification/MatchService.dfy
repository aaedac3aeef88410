/**
 Match of services/engine/internal/matching/service.go: recall through untrusted channels,
 rank fusion, scoring and qualification. Go's random map iteration appears as an arbitrary
 choice; the sorts make every result independent of it.
 */
module MatchService {
  import opened Wrappers
  import opened Text
  import opened Sequences
  import opened Ranking
  import opened MatchTypes
  import opened MatchScore
  import opened MatchFilter

  const RECIPROCAL_RANK: int := 60
  const ZERO_TIME: int := 0

  datatype Hit = Hit(agentId: string, relevance: int)

  /** A recall channel and what it answered; None is an error. */
  datatype Adapter = Adapter(channel: string, answer: Option<seq<Hit>>)

  type Book = map<string, Recall>

  /** The ranking model; None is an error of one call. */
  type Adjuster = (Candidate, Score) -> Option<int>

  // the message of a notice is a function of its code
  datatype Degradation = Degradation(dependency: string, code: string)

  datatype MatchResult = MatchResult(
    qualified: seq<ScoredCandidate>, scored: seq<ScoredCandidate>, excluded: seq<Exclusion>, degradations: seq<Degradation>)

  datatype MatchError = InvalidRequest | DuplicateAgent

  function Least(a: nat, b: nat): nat { if a < b then a else b }

  function ChannelNamed(name: string): Option<Channel> {
    if name == "dense" then Some(Dense) else if name == "lexical" then Some(Lexical) else if name == "exact" then Some(Exact) else None
  }

  function NameOf(channel: Channel): string {
    match channel
    case Dense => "dense"
    case Lexical => "lexical"
    case Exact => "exact"
  }

  predicate ByNotice(a: Degradation, b: Degradation) {
    Before(a.dependency, b.dependency) || (a.dependency == b.dependency && Before(a.code, b.code))
  }

  /** appendUniqueDegradation */
  function AppendUnique(notices: seq<Degradation>, n: Degradation): (r: seq<Degradation>)
    ensures forall x :: x in r <==> x in notices || x == n
    ensures Distinct(notices) ==> Distinct(r)
  {
    if n in notices then notices else notices + [n]
  }

  predicate ByRelevance(a: Hit, b: Hit) {
    a.relevance > b.relevance || (a.relevance == b.relevance && Before(a.agentId, b.agentId))
  }

  predicate ByScore(a: ScoredCandidate, b: ScoredCandidate) {
    a.score.rankingScore > b.score.rankingScore ||
    (a.score.rankingScore == b.score.rankingScore &&
     (a.score.ruleScore > b.score.ruleScore ||
      (a.score.ruleScore == b.score.ruleScore && Before(a.candidate.agentId, b.candidate.agentId))))
  }

  function Contribution(recall: Recall, channel: Channel): int {
    if channel in recall && recall[channel].rank > 0 then 1_000_000 / (RECIPROCAL_RANK + recall[channel].rank) else 0
  }

  function Fusion(recall: Recall): int {
    Contribution(recall, Dense) + Contribution(recall, Lexical) + Contribution(recall, Exact)
  }

  function FusionOf(book: Book, id: string): int {
    if id in book then Fusion(book[id]) else 0
  }

  function ByFusion(book: Book): Order<string> {
    (a: string, b: string) => FusionOf(book, a) > FusionOf(book, b) || (FusionOf(book, a) == FusionOf(book, b) && Before(a, b))
  }

  lemma OrdersAreStrict(book: Book)
    ensures Strict(ByRelevance) && Strict(ByScore) && Strict(ByFusion(book))
    ensures forall s: set<string> :: Separates(ByFusion(book), s)
  {
    BeforeStrict();
    hide Before, Fusion;
    forall a: string, b: string
      ensures a == b || Before(a, b) || Before(b, a)
    {
      BeforeTotal(a, b);
    }
  }

  /** The one increasing listing of a set under a strict order. */
  ghost predicate Lists<T(!new)>(less: Order<T>, s: seq<T>, elements: set<T>) {
    Increasing(less, s) && Elements(s) == elements
  }

  // Recall

  predicate ValidHit(h: Hit, ids: set<string>) {
    h.agentId in ids && 0 <= h.relevance <= 10_000
  }

  /** The best valid hit of every eligible agent that has one. */
  function BestHits(hits: seq<Hit>, ids: set<string>): set<Hit> {
    set h | h in hits && ValidHit(h, ids) &&
            forall g :: g in hits && ValidHit(g, ids) && g.agentId == h.agentId ==> g.relevance <= h.relevance
  }

  lemma BestSeparates(hits: seq<Hit>, ids: set<string>)
    ensures Strict(ByRelevance) && Separates(ByRelevance, BestHits(hits, ids))
  {
    OrdersAreStrict(map[]);
    forall a, b | a in BestHits(hits, ids) && b in BestHits(hits, ids) && a != b
      ensures ByRelevance(a, b) || ByRelevance(b, a)
    {
      BeforeTotal(a.agentId, b.agentId);
    }
  }

  ghost function Normalized(hits: seq<Hit>, ids: set<string>): (r: seq<Hit>)
    ensures Elements(r) == BestHits(hits, ids) && Increasing(ByRelevance, r)
  {
    BestSeparates(hits, ids);
    Ranked(ByRelevance, BestHits(hits, ids))
  }

  /** The hits of one channel that count as evidence. */
  ghost function Top(hits: seq<Hit>, ids: set<string>): seq<Hit> {
    var all := Normalized(hits, ids);
    all[..Least(|all|, MAX_RECALL_PER_CHANNEL)]
  }

  /** The map of best relevances after some hits. */
  ghost predicate Collects(hits: seq<Hit>, ids: set<string>, best: map<string, int>) {
    && (forall id, r :: Hit(id, r) in BestHits(hits, ids) <==> id in best && best[id] == r)
    && (forall g :: g in hits && ValidHit(g, ids) ==> g.agentId in best && g.relevance <= best[g.agentId])
    && (forall id :: id in best ==> id in ids && 0 <= best[id] <= 10_000 && Hit(id, best[id]) in hits)
  }

  lemma CollectsStep(hits: seq<Hit>, ids: set<string>, best: map<string, int>, h: Hit)
    requires Collects(hits, ids, best)
    ensures Collects(hits + [h], ids,
                     if ValidHit(h, ids) && (h.agentId !in best || h.relevance > best[h.agentId])
                     then best[h.agentId := h.relevance] else best)
  {
    var next := if ValidHit(h, ids) && (h.agentId !in best || h.relevance > best[h.agentId])
                then best[h.agentId := h.relevance] else best;
    forall id | id in next
      ensures Hit(id, next[id]) in hits + [h]
    {
      assert id in best && next[id] == best[id] ==> Hit(id, best[id]) in hits;
    }
  }

  lemma CollectsNone(ids: set<string>)
    ensures Collects([], ids, map[])
  {
  }

  lemma CollectsAll(hits: seq<Hit>, ids: set<string>, best: map<string, int>, listed: seq<Hit>)
    requires Collects(hits, ids, best) && Distinct(listed)
    requires forall h :: h in listed <==> h.agentId in best && best[h.agentId] == h.relevance
    ensures Elements(listed) == BestHits(hits, ids)
  {
    forall h: Hit
      ensures h in listed <==> h in BestHits(hits, ids)
    {
      assert h == Hit(h.agentId, h.relevance);
    }
  }

  /** Whatever a channel answers, in whatever order: its best valid hits, ranked. */
  method NormalizeHits(hits: seq<Hit>, eligible: map<string, Candidate>) returns (normalized: seq<Hit>, invalid: bool)
    ensures normalized == Normalized(hits, eligible.Keys)
    ensures invalid <==> exists i :: 0 <= i < |hits| && !ValidHit(hits[i], eligible.Keys)
  {
    hide Collects, BestHits, Strict, Separates, Increasing, ByRelevance;
    var best: map<string, int> := map[];
    invalid := false;
    CollectsNone(eligible.Keys);
    var i := 0;
    while i < |hits|
      invariant 0 <= i <= |hits|
      invariant invalid <==> exists j :: 0 <= j < i && !ValidHit(hits[j], eligible.Keys)
      invariant Collects(hits[..i], eligible.Keys, best)
    {
      var hit := hits[i];
      assert hits[..i + 1] == hits[..i] + [hit];
      CollectsStep(hits[..i], eligible.Keys, best, hit);
      if hit.agentId !in eligible || hit.relevance < 0 || hit.relevance > 10_000 {
        invalid := true;
      } else if hit.agentId !in best || hit.relevance > best[hit.agentId] {
        best := best[hit.agentId := hit.relevance];
      }
      i := i + 1;
    }
    assert hits[..|hits|] == hits;
    var listed := ListHits(best);
    CollectsAll(hits, eligible.Keys, best, listed);
    BestSeparates(hits, eligible.Keys);
    normalized := SortFunc(ByRelevance, listed);
  }

  /** One hit for each entry, in an arbitrary order. */
  method ListHits(best: map<string, int>) returns (hits: seq<Hit>)
    ensures forall h :: h in hits <==> h.agentId in best && best[h.agentId] == h.relevance
    ensures Distinct(hits)
  {
    hits := [];
    var left := best.Keys;
    while left != {}
      invariant left <= best.Keys && Distinct(hits)
      invariant forall h :: h in hits <==> h.agentId in best && h.agentId !in left && best[h.agentId] == h.relevance
      decreases |left|
    {
      var id :| id in left;
      hits := hits + [Hit(id, best[id])];
      left := left - {id};
    }
  }

  predicate Speaks(adapter: Option<Adapter>, channel: Channel) {
    adapter.Some? && ChannelNamed(adapter.value.channel) == Some(channel)
  }

  predicate SpokenFor(adapters: seq<Option<Adapter>>, channel: Channel) {
    exists i :: 0 <= i < |adapters| && Speaks(adapters[i], channel)
  }

  /** The hits of the first adapter of a channel; none when it failed or there is no such adapter. */
  function Answer(adapters: seq<Option<Adapter>>, channel: Channel): seq<Hit> {
    if adapters == [] then []
    else if SpokenFor(adapters[..|adapters| - 1], channel) then Answer(adapters[..|adapters| - 1], channel)
    else if Speaks(adapters[|adapters| - 1], channel) && adapters[|adapters| - 1].value.answer.Some? then
      adapters[|adapters| - 1].value.answer.value
    else []
  }

  predicate Has(book: Book, id: string, channel: Channel, e: Evidence) {
    id in book && channel in book[id] && book[id][channel] == e
  }

  /** Position e.rank of a channel's top hits is this agent with this relevance. */
  predicate Places(top: seq<Hit>, id: string, e: Evidence) {
    1 <= e.rank <= |top| && top[e.rank - 1] == Hit(id, e.relevance)
  }

  /** The book says of every agent and channel exactly where the channel's top hits place the agent. */
  ghost predicate Reflects(book: Book, adapters: seq<Option<Adapter>>, ids: set<string>) {
    && (forall id, channel, e :: Has(book, id, channel, e) <==> Places(Top(Answer(adapters, channel), ids), id, e))
    && (forall id :: id in book ==> book[id] != map[])
  }

  lemma ReflectsUnique(a: Book, b: Book, adapters: seq<Option<Adapter>>, ids: set<string>)
    requires Reflects(a, adapters, ids) && Reflects(b, adapters, ids)
    ensures a == b
  {
    BookIncluded(a, b);
    BookIncluded(b, a);
    hide Reflects;
    assert a.Keys == b.Keys;
    forall id | id in a
      ensures a[id] == b[id]
    {
    }
  }

  lemma BookIncluded(a: Book, b: Book)
    requires forall id, channel, e :: Has(a, id, channel, e) ==> Has(b, id, channel, e)
    requires forall id :: id in a ==> a[id] != map[]
    ensures forall id :: id in a ==> id in b && a[id].Keys <= b[id].Keys && forall ch :: ch in a[id] ==> a[id][ch] == b[id][ch]
  {
    forall id | id in a
      ensures id in b && a[id].Keys <= b[id].Keys && forall ch :: ch in a[id] ==> a[id][ch] == b[id][ch]
    {
      var ch :| ch in a[id];
      assert Has(a, id, ch, a[id][ch]);
      forall other | other in a[id]
        ensures id in b && other in b[id] && a[id][other] == b[id][other]
      {
        assert Has(a, id, other, a[id][other]);
      }
    }
  }

  lemma TopIsDistinct(hits: seq<Hit>, ids: set<string>)
    ensures var top := Top(hits, ids);
            && |top| <= MAX_RECALL_PER_CHANNEL
            && (forall i, j :: 0 <= i < j < |top| ==> top[i].agentId != top[j].agentId)
            && (forall i :: 0 <= i < |top| ==> top[i].agentId in ids)
  {
    var all := Normalized(hits, ids);
    BestSeparates(hits, ids);
    forall i | 0 <= i < |all|
      ensures all[i] in BestHits(hits, ids)
    {
      assert all[i] in Elements(all);
    }
    forall i, j | 0 <= i < j < |all|
      ensures all[i].agentId != all[j].agentId
    {
      assert ByRelevance(all[i], all[j]);
      assert !ByRelevance(all[i], all[i]);
    }
  }

  /** Enters a channel's top hits into the book. */
  method Enter(before: Book, channel: Channel, top: seq<Hit>) returns (book: Book)
    requires forall i, j :: 0 <= i < j < |top| ==> top[i].agentId != top[j].agentId
    requires forall id :: id in before ==> channel !in before[id] && before[id] != map[]
    ensures forall id, ch, e :: Has(book, id, ch, e) <==> if ch == channel then Places(top, id, e) else Has(before, id, ch, e)
    ensures forall id :: id in book ==> book[id] != map[]
  {
    book := before;
    var index := 0;
    while index < |top|
      invariant 0 <= index <= |top|
      invariant forall id, ch, e :: Has(book, id, ch, e) <==>
                  if ch == channel then Places(top, id, e) && e.rank <= index else Has(before, id, ch, e)
      invariant forall id :: id in book ==> book[id] != map[]
    {
      var hit := top[index];
      ghost var was := book;
      var recall := if hit.agentId in book then book[hit.agentId] else map[];
      book := book[hit.agentId := recall[channel := Evidence(index + 1, hit.relevance)]];
      assert channel in book[hit.agentId];
      EnterOne(was, book, channel, hit, index);
      hide Has;
      index := index + 1;
    }
  }

  lemma EnterOne(was: Book, book: Book, channel: Channel, hit: Hit, index: nat)
    requires book == was[hit.agentId := (if hit.agentId in was then was[hit.agentId] else map[])[channel := Evidence(index + 1, hit.relevance)]]
    ensures forall id, ch, e :: Has(book, id, ch, e) <==>
              if ch == channel && id == hit.agentId then e == Evidence(index + 1, hit.relevance) else Has(was, id, ch, e)
  {
  }

  lemma SpokenStep(adapters: seq<Option<Adapter>>, next: Option<Adapter>, channel: Channel)
    ensures SpokenFor(adapters + [next], channel) <==> SpokenFor(adapters, channel) || Speaks(next, channel)
  {
    hide Speaks;
    var more := adapters + [next];
    assert more[|adapters|] == next;
    if SpokenFor(adapters, channel) {
      var i :| 0 <= i < |adapters| && Speaks(adapters[i], channel);
      assert Speaks(more[i], channel);
    }
  }

  lemma AnswerStep(adapters: seq<Option<Adapter>>, next: Option<Adapter>, channel: Channel)
    ensures Answer(adapters + [next], channel) ==
            if SpokenFor(adapters, channel) then Answer(adapters, channel)
            else if Speaks(next, channel) && next.value.answer.Some? then next.value.answer.value
            else []
    ensures !SpokenFor(adapters, channel) ==> Answer(adapters, channel) == []
  {
    assert (adapters + [next])[..|adapters|] == adapters;
    if !SpokenFor(adapters, channel) && adapters != [] {
      var last := |adapters| - 1;
      assert adapters == adapters[..last] + [adapters[last]];
      SpokenStep(adapters[..last], adapters[last], channel);
    }
    hide Speaks, SpokenFor;
  }

  /** Nothing that a failed, unknown or repeated adapter says enters the book. */
  lemma ReflectsSkip(book: Book, adapters: seq<Option<Adapter>>, next: Option<Adapter>, ids: set<string>)
    requires Reflects(book, adapters, ids)
    requires forall channel :: Speaks(next, channel) ==> SpokenFor(adapters, channel) || next.value.answer in {None, Some([])}
    ensures Reflects(book, adapters + [next], ids)
  {
    hide Has, Places, Answer, SpokenFor, Speaks;
    forall channel: Channel
      ensures Answer(adapters + [next], channel) == Answer(adapters, channel)
    {
      AnswerStep(adapters, next, channel);
    }
  }

  lemma ReflectsEnter(before: Book, book: Book, adapters: seq<Option<Adapter>>, next: Option<Adapter>, channel: Channel, ids: set<string>)
    requires Reflects(before, adapters, ids) && !SpokenFor(adapters, channel) && Speaks(next, channel) && next.value.answer.Some?
    requires forall id, ch, e :: Has(book, id, ch, e) <==>
               if ch == channel then Places(Top(next.value.answer.value, ids), id, e) else Has(before, id, ch, e)
    requires forall id :: id in book ==> book[id] != map[]
    ensures Reflects(book, adapters + [next], ids)
  {
    assert forall ch :: Speaks(next, ch) <==> ch == channel;
    hide Has, Places, Answer, SpokenFor, Speaks;
    forall ch: Channel
      ensures Answer(adapters + [next], ch) == if ch == channel then next.value.answer.value else Answer(adapters, ch)
    {
      AnswerStep(adapters, next, ch);
    }
  }

  lemma ReflectsNothing(ids: set<string>)
    ensures Reflects(map[], [], ids)
  {
    NoHits(ids);
  }

  lemma NoHits(ids: set<string>)
    ensures Top([], ids) == []
  {
    NoElements(Normalized([], ids));
  }

  lemma Unspoken(book: Book, adapters: seq<Option<Adapter>>, ids: set<string>, channel: Channel)
    requires Reflects(book, adapters, ids) && !SpokenFor(adapters, channel)
    ensures forall id :: id in book ==> channel !in book[id]
  {
    AnswerStep(adapters, None, channel);
    NoHits(ids);
    forall id | id in book
      ensures channel !in book[id]
    {
      if channel in book[id] {
        HasSome(book, id, channel);
      }
    }
  }

  lemma HasSome(book: Book, id: string, channel: Channel)
    requires id in book && channel in book[id]
    ensures exists e :: Has(book, id, channel, e)
  {
    assert Has(book, id, channel, book[id][channel]);
  }

  predicate SaysInvalid(hits: seq<Hit>, ids: set<string>) {
    exists j :: 0 <= j < |hits| && !ValidHit(hits[j], ids)
  }

  /** What is noted about an adapter that follows these. */
  function NoticeOf(before: seq<Option<Adapter>>, next: Option<Adapter>, ids: set<string>): Option<Degradation> {
    if next.None? then None
    else
      var name := next.value.channel;
      var channel := ChannelNamed(name);
      if channel.None? then Some(Degradation(name, "unknown_recall_channel"))
      else if SpokenFor(before, channel.value) then Some(Degradation(name, "duplicate_recall_channel"))
      else if next.value.answer.None? then Some(Degradation(name, "recall_unavailable"))
      else if SaysInvalid(next.value.answer.value, ids) then Some(Degradation(name, "invalid_recall_hit"))
      else None
  }

  predicate NotedBefore(adapters: seq<Option<Adapter>>, ids: set<string>, i: nat, n: Degradation)
    requires i <= |adapters|
  {
    exists j :: 0 <= j < i && NoticeOf(adapters[..j], adapters[j], ids) == Some(n)
  }

  predicate Lacks(adapters: seq<Option<Adapter>>, channel: Channel, n: Degradation) {
    !SpokenFor(adapters, channel) && n == Degradation(NameOf(channel), "recall_not_configured")
  }

  predicate Unconfigured(adapters: seq<Option<Adapter>>, n: Degradation) {
    exists channel: Channel :: Lacks(adapters, channel, n)
  }

  /** The notices of recall: one about every adapter at fault, and one about every channel without an adapter. */
  predicate RecallNoted(adapters: seq<Option<Adapter>>, ids: set<string>, n: Degradation) {
    NotedBefore(adapters, ids, |adapters|, n) || Unconfigured(adapters, n)
  }

  lemma NotedStep(adapters: seq<Option<Adapter>>, ids: set<string>, i: nat)
    requires i < |adapters|
    ensures forall n :: NotedBefore(adapters, ids, i + 1, n) <==>
              NotedBefore(adapters, ids, i, n) || NoticeOf(adapters[..i], adapters[i], ids) == Some(n)
  {
    hide NoticeOf;
  }

  /** recall: the evidence of every channel's first adapter, whatever the others say, and what went wrong. */
  method GatherRecall(adapters: seq<Option<Adapter>>, byId: map<string, Candidate>) returns (evidence: Book, degradations: seq<Degradation>)
    ensures Reflects(evidence, adapters, byId.Keys)
    ensures Distinct(degradations) && forall n :: n in degradations <==> RecallNoted(adapters, byId.Keys, n)
  {
    hide Reflects, SpokenFor, Answer, Normalized, Top, Has, Places, NotedBefore, AppendUnique, Distinct, SaysInvalid;
    evidence, degradations := map[], [];
    assert Distinct(degradations) && forall n :: n in degradations <==> NotedBefore(adapters, byId.Keys, 0, n) by {
      NothingNoted(adapters, byId.Keys);
    }
    var seenChannels: set<Channel> := {};
    ReflectsNothing(byId.Keys);
    assert forall channel :: !SpokenFor([], channel) by { NoneSpeaks(); }
    var i := 0;
    while i < |adapters|
      invariant 0 <= i <= |adapters| && Reflects(evidence, adapters[..i], byId.Keys)
      invariant forall channel :: channel in seenChannels <==> SpokenFor(adapters[..i], channel)
      invariant Distinct(degradations) && forall n :: n in degradations <==> NotedBefore(adapters, byId.Keys, i, n)
    {
      var adapter := adapters[i];
      assert adapters[..i + 1] == adapters[..i] + [adapter];
      forall channel: Channel
        ensures SpokenFor(adapters[..i + 1], channel) <==> SpokenFor(adapters[..i], channel) || Speaks(adapter, channel)
      {
        SpokenStep(adapters[..i], adapter, channel);
      }
      NotedStep(adapters, byId.Keys, i);
      ghost var noted, notice := degradations, NoticeOf(adapters[..i], adapter, byId.Keys);
      if adapter.None? {
        ReflectsSkip(evidence, adapters[..i], adapter, byId.Keys);
      } else if ChannelNamed(adapter.value.channel).None? {
        degradations := AppendUnique(degradations, Degradation(adapter.value.channel, "unknown_recall_channel"));
        ReflectsSkip(evidence, adapters[..i], adapter, byId.Keys);
      } else if ChannelNamed(adapter.value.channel).value in seenChannels {
        degradations := AppendUnique(degradations, Degradation(adapter.value.channel, "duplicate_recall_channel"));
        ReflectsSkip(evidence, adapters[..i], adapter, byId.Keys);
      } else {
        var channel := ChannelNamed(adapter.value.channel).value;
        seenChannels := seenChannels + {channel};
        if adapter.value.answer.None? {
          degradations := AppendUnique(degradations, Degradation(adapter.value.channel, "recall_unavailable"));
          ReflectsSkip(evidence, adapters[..i], adapter, byId.Keys);
        } else {
          var hits := adapter.value.answer.value;
          var normalized, invalid := NormalizeHits(hits, byId);
          assert invalid == SaysInvalid(hits, byId.Keys) by { InvalidIs(hits, byId.Keys); }
          assert NoticeOf(adapters[..i], adapter, byId.Keys)
              == if invalid then Some(Degradation(adapter.value.channel, "invalid_recall_hit")) else None;
          if invalid {
            degradations := AppendUnique(degradations, Degradation(adapter.value.channel, "invalid_recall_hit"));
          }
          var top := normalized[..Least(|normalized|, MAX_RECALL_PER_CHANNEL)];
          assert top == Top(hits, byId.Keys) by { TopIs(hits, byId.Keys); }
          TopIsDistinct(hits, byId.Keys);
          Unspoken(evidence, adapters[..i], byId.Keys, channel);
          NonEmpty(evidence, adapters[..i], byId.Keys);
          var before := evidence;
          evidence := Enter(before, channel, top);
          ReflectsEnter(before, evidence, adapters[..i], adapter, channel, byId.Keys);
        }
      }
      assert forall n :: n in degradations <==> n in noted || notice == Some(n);
      i := i + 1;
    }
    assert adapters[..|adapters|] == adapters;
    degradations := NoteUnconfigured(adapters, seenChannels, degradations);
  }

  /** The loop over the three channels that recall ends with. */
  method NoteUnconfigured(ghost adapters: seq<Option<Adapter>>, seenChannels: set<Channel>, before: seq<Degradation>)
    returns (degradations: seq<Degradation>)
    requires Distinct(before) && forall channel :: channel in seenChannels <==> SpokenFor(adapters, channel)
    ensures Distinct(degradations) && forall n :: n in degradations <==> n in before || Unconfigured(adapters, n)
  {
    hide SpokenFor, Distinct;
    degradations := before;
    var channels := [Dense, Lexical, Exact];
    var i := 0;
    while i < |channels|
      invariant 0 <= i <= |channels| && Distinct(degradations)
      invariant forall n :: n in degradations <==> n in before || exists j :: 0 <= j < i && Lacks(adapters, channels[j], n)
    {
      if channels[i] !in seenChannels {
        degradations := AppendUnique(degradations, Degradation(NameOf(channels[i]), "recall_not_configured"));
      }
      i := i + 1;
    }
    forall n
      ensures Unconfigured(adapters, n) <==> exists j :: 0 <= j < 3 && Lacks(adapters, channels[j], n)
    {
      AnyOfThree(adapters, channels, n);
    }
  }

  lemma AnyOfThree(adapters: seq<Option<Adapter>>, channels: seq<Channel>, n: Degradation)
    requires channels == [Dense, Lexical, Exact]
    ensures Unconfigured(adapters, n) <==> exists j :: 0 <= j < 3 && Lacks(adapters, channels[j], n)
  {
    hide Lacks;
    if channel: Channel :| Lacks(adapters, channel, n) {
      var j := if channel == Dense then 0 else if channel == Lexical then 1 else 2;
      assert Lacks(adapters, channels[j], n);
    }
  }

  lemma InvalidIs(hits: seq<Hit>, ids: set<string>)
    ensures SaysInvalid(hits, ids) <==> exists i :: 0 <= i < |hits| && !ValidHit(hits[i], ids)
  {
  }

  lemma NothingNoted(adapters: seq<Option<Adapter>>, ids: set<string>)
    ensures Distinct<Degradation>([]) && forall n :: !NotedBefore(adapters, ids, 0, n)
  {
  }

  lemma NoneSpeaks()
    ensures forall channel :: !SpokenFor([], channel)
  {
  }

  lemma TopIs(hits: seq<Hit>, ids: set<string>)
    ensures var all := Normalized(hits, ids); Top(hits, ids) == all[..Least(|all|, MAX_RECALL_PER_CHANNEL)]
  {
  }

  lemma NonEmpty(book: Book, adapters: seq<Option<Adapter>>, ids: set<string>)
    requires Reflects(book, adapters, ids)
    ensures forall id :: id in book ==> book[id] != map[]
  {
  }

  /** Only eligible agents are ever in the book. */
  lemma OnlyEligible(book: Book, adapters: seq<Option<Adapter>>, ids: set<string>)
    requires Reflects(book, adapters, ids)
    ensures book.Keys <= ids
  {
    forall id | id in book
      ensures id in ids
    {
      var channel :| channel in book[id];
      var e := book[id][channel];
      assert Has(book, id, channel, e);
      TopIsDistinct(Answer(adapters, channel), ids);
      assert Places(Top(Answer(adapters, channel), ids), id, e);
    }
  }

  // Fusion, scoring and qualification

  /** The agents that get scored: the best by reciprocal rank over their evidence. */
  ghost function Fused(book: Book): (ids: seq<string>)
    ensures |ids| <= MAX_SCORED_CANDIDATES && Elements(ids) <= book.Keys
    ensures forall i, j :: 0 <= i < j < |ids| ==> ids[i] != ids[j]
  {
    OrdersAreStrict(book);
    var all := Ranked(ByFusion(book), book.Keys);
    assert forall i :: 0 <= i < |all| ==> all[i] in Elements(all);
    assert forall i, j :: 0 <= i < j < |all| ==> all[i] != all[j];
    all[..Least(|all|, MAX_SCORED_CANDIDATES)]
  }

  method FusedAgentIds(book: Book) returns (ids: seq<string>)
    ensures ids == Fused(book)
  {
    OrdersAreStrict(book);
    hide Strict, Separates, Increasing, ByFusion;
    ids := [];
    var left := book.Keys;
    while left != {}
      invariant left <= book.Keys && Distinct(ids) && forall id :: id in ids <==> id in book.Keys && id !in left
      decreases |left|
    {
      var id :| id in left;
      ids := ids + [id];
      left := left - {id};
    }
    assert Elements(ids) == book.Keys;
    ids := SortFunc(ByFusion(book), ids);
    ids := ids[..Least(|ids|, MAX_SCORED_CANDIDATES)];
  }

  function Delta(adjuster: Option<Adjuster>, c: Candidate, score: Score): int {
    if adjuster.None? || adjuster.value(c, score).None? then 0 else adjuster.value(c, score).value
  }

  function ScoredOf(request: Request, adjuster: Option<Adjuster>, c: Candidate, recall: Recall): ScoredCandidate {
    var score := RuleScore(request, c, recall);
    ScoredCandidate(c, recall, ApplyModelDelta(score, Delta(adjuster, c, score)))
  }

  lemma SameAgent(candidates: seq<Candidate>, a: Candidate, b: Candidate)
    requires AgentsDiffer(candidates) && a in candidates && b in candidates && a.agentId == b.agentId
    ensures a == b
  {
  }

  function Lookup(candidates: seq<Candidate>): (m: map<string, Candidate>)
    requires AgentsDiffer(candidates)
    ensures forall id :: id in m ==> m[id] in candidates && m[id].agentId == id
    ensures forall c :: c in candidates ==> c.agentId in m && m[c.agentId] == c
  {
    map c | c in candidates :: c.agentId := c
  }

  /** The index and the duplicate check depend only on which candidates there are. */
  lemma DifferAlike(a: seq<Candidate>, b: seq<Candidate>)
    requires multiset(a) == multiset(b)
    ensures AgentsDiffer(a) <==> AgentsDiffer(b)
    ensures AgentsDiffer(a) ==> Lookup(a) == Lookup(b)
  {
    if AgentsDiffer(a) {
      DifferStays(a, b);
    }
    if AgentsDiffer(b) {
      DifferStays(b, a);
    }
    if AgentsDiffer(a) {
      SameElements(a, b);
      forall c: Candidate
        ensures c in a <==> c in b
      {
        assert c in Elements(a) <==> c in Elements(b);
      }
      var m, n := Lookup(a), Lookup(b);
      hide Lookup;
      assert m.Keys == n.Keys;
      assert forall id :: id in m ==> m[id] == n[id];
    }
  }

  lemma DifferStays(a: seq<Candidate>, b: seq<Candidate>)
    requires multiset(a) == multiset(b) && AgentsDiffer(a)
    ensures AgentsDiffer(b)
  {
    assert Distinct(a);
    StaysDistinct(a, b);
    SameElements(a, b);
    forall i, j | 0 <= i < j < |b|
      ensures b[i].agentId != b[j].agentId
    {
      assert b[i] in Elements(a) && b[j] in Elements(a) && b[i] != b[j];
      if b[i].agentId == b[j].agentId {
        SameAgent(a, b[i], b[j]);
      }
    }
  }

  lemma LookupAppend(candidates: seq<Candidate>, c: Candidate)
    requires AgentsDiffer(candidates)
    ensures AgentsDiffer(candidates + [c]) <==> c.agentId !in Lookup(candidates)
    ensures c.agentId !in Lookup(candidates) ==> Lookup(candidates + [c]) == Lookup(candidates)[c.agentId := c]
  {
    var m := Lookup(candidates);
    if c.agentId in m {
      var i :| 0 <= i < |candidates| && candidates[i] == m[c.agentId];
      assert (candidates + [c])[i].agentId == (candidates + [c])[|candidates|].agentId;
    } else {
      AgentsAppend(candidates, c);
    }
  }

  lemma PrefixDiffers(candidates: seq<Candidate>, i: nat)
    requires i <= |candidates| && AgentsDiffer(candidates)
    ensures AgentsDiffer(candidates[..i])
  {
  }

  /** The scored candidates, as a set. */
  ghost function ScoredSet(request: Request, adjuster: Option<Adjuster>, byId: map<string, Candidate>, book: Book): set<ScoredCandidate>
    requires book.Keys <= byId.Keys
  {
    set id | id in Elements(Fused(book)) :: ScoredOf(request, adjuster, byId[id], book[id])
  }

  predicate Qualifies(c: ScoredCandidate, best: int) {
    c.score.ruleScore >= QUALIFICATION_FLOOR && c.score.rankingScore >= QUALIFICATION_FLOOR
    && c.score.rankingScore >= best - MAXIMUM_SCORE_GAP
  }

  /** The first `room` candidates that qualify. */
  function QualifiedFrom(scored: seq<ScoredCandidate>, best: int, room: nat): seq<ScoredCandidate> {
    if scored == [] || room == 0 then []
    else if Qualifies(scored[0], best) then [scored[0]] + QualifiedFrom(scored[1..], best, room - 1)
    else QualifiedFrom(scored[1..], best, room)
  }

  function Qualified(scored: seq<ScoredCandidate>): seq<ScoredCandidate> {
    if scored == [] then [] else QualifiedFrom(scored, scored[0].score.rankingScore, MAX_QUALIFIED_POOL)
  }

  lemma QualifiedEnd(scored: seq<ScoredCandidate>, best: int, room: nat)
    requires scored == []
    ensures QualifiedFrom(scored, best, room) == []
  {
  }

  lemma QualifiedStep(scored: seq<ScoredCandidate>, best: int, i: nat, room: nat)
    requires i < |scored| && room > 0
    ensures var rest := if Qualifies(scored[i], best) then [scored[i]] + QualifiedFrom(scored[i + 1..], best, room - 1)
                        else QualifiedFrom(scored[i + 1..], best, room);
            QualifiedFrom(scored[i..], best, room) == rest
    ensures QualifiedFrom(scored[i + 1..], best, 0) == []
  {
    hide Qualifies;
    assert scored[i..][0] == scored[i] && scored[i..][1..] == scored[i + 1..];
  }

  method Qualify(scored: seq<ScoredCandidate>) returns (qualified: seq<ScoredCandidate>)
    ensures qualified == Qualified(scored)
  {
    hide QualifiedFrom, Qualifies;
    if |scored| == 0 {
      return [];
    }
    var best := scored[0].score.rankingScore;
    qualified := [];
    var i := 0;
    assert scored[0..] == scored;
    while i < |scored|
      invariant 0 <= i <= |scored| && |qualified| < MAX_QUALIFIED_POOL
      invariant qualified + QualifiedFrom(scored[i..], best, MAX_QUALIFIED_POOL - |qualified|) == Qualified(scored)
    {
      QualifiedStep(scored, best, i, MAX_QUALIFIED_POOL - |qualified|);
      if Qualifies(scored[i], best) {
        qualified := qualified + [scored[i]];
        if |qualified| == MAX_QUALIFIED_POOL {
          break;
        }
      }
      i := i + 1;
    }
    if i == |scored| {
      QualifiedEnd(scored[i..], best, MAX_QUALIFIED_POOL - |qualified|);
    }
  }

  predicate RequestOk(r: Request) {
    && !Blank(r.taskId) && !Blank(r.publisherId) && !Blank(r.category) && !Blank(r.language)
    && !Blank(r.protocolVersion) && !Blank(r.vectorVersion)
    && r.now != ZERO_TIME && r.deadline > r.now
    && r.overviewBudget.Some? && r.formalBudget.Some? && r.externalCostCap.Some?
  }

  /** What is noted when the ranking model does not answer for a candidate. */
  function ModelNotice(request: Request, adjuster: Option<Adjuster>, c: Candidate, recall: Recall): Option<Degradation> {
    if adjuster.None? then Some(Degradation("ranking_model", "model_disabled"))
    else if adjuster.value(c, RuleScore(request, c, recall)).None? then Some(Degradation("ranking_model", "model_unavailable"))
    else None
  }

  predicate ModelNoted(request: Request, adjuster: Option<Adjuster>, byId: map<string, Candidate>, book: Book, ids: seq<string>, n: Degradation) {
    exists i :: 0 <= i < |ids| && ids[i] in byId && ids[i] in book
                && ModelNotice(request, adjuster, byId[ids[i]], book[ids[i]]) == Some(n)
  }

  /** Scored candidates and notices follow from what the channels said. */
  ghost predicate Evaluates(request: Request, adapters: seq<Option<Adapter>>, adjuster: Option<Adjuster>,
                            byId: map<string, Candidate>, book: Book, result: MatchResult)
  {
    && Reflects(book, adapters, byId.Keys) && book.Keys <= byId.Keys
    && Lists(ByScore, result.scored, ScoredSet(request, adjuster, byId, book))
    && Increasing(ByNotice, result.degradations)
    && (forall n :: n in result.degradations <==>
          RecallNoted(adapters, byId.Keys, n) || ModelNoted(request, adjuster, byId, book, Fused(book), n))
  }

  /** What a successful match computes from its candidates and from whatever its channels and model say. */
  ghost predicate Matches(fold: Fold, request: Request, candidates: seq<Candidate>, adapters: seq<Option<Adapter>>,
                          adjuster: Option<Adjuster>, result: MatchResult)
  {
    var passing := Passing(fold, request, candidates);
    && AgentsDiffer(passing)
    && (exists book :: Evaluates(request, adapters, adjuster, Lookup(passing), book, result))
    && result.qualified == Qualified(result.scored)
    && multiset(result.excluded) == multiset(Failing(fold, request, candidates))
    && (AgentsDiffer(candidates) ==> Increasing(ByExcluded, result.excluded))
  }

  method Match(fold: Fold, adapters: seq<Option<Adapter>>, adjuster: Option<Adjuster>, request: Request, candidates: seq<Candidate>)
    returns (r: Result<MatchResult, MatchError>)
    ensures r.Failure? <==> !RequestOk(request) || !AgentsDiffer(Passing(fold, request, candidates))
    ensures r.Failure? ==> r.error == if RequestOk(request) then DuplicateAgent else InvalidRequest
    ensures r.Success? ==> Matches(fold, request, candidates, adapters, adjuster, r.value)
  {
    hide Passing, Failing, Reflects, Strict, Separates, Increasing, ByScore, Passes, Reasons, RecallNoted, ModelNoted, ByNotice, Distinct;
    if !RequestOk(request) {
      return Failure(InvalidRequest);
    }
    var eligible, excluded := HardFilter(fold, request, candidates);
    var byId := IndexById(eligible);
    DifferAlike(eligible, Passing(fold, request, candidates));
    if byId.None? {
      return Failure(DuplicateAgent);
    }
    var evidence, recallNotices := GatherRecall(adapters, byId.value);
    OnlyEligible(evidence, adapters, byId.value.Keys);
    var ids := FusedAgentIds(evidence);
    var scored, notices := ScoreAll(request, adjuster, byId.value, evidence, ids, recallNotices);
    ScoredSeparate(request, adjuster, byId.value, evidence, scored);
    ScoreSeparates(scored);
    scored := SortFunc(ByScore, scored);
    var qualified := Qualify(scored);
    var degradations := SortNotices(notices);
    r := Success(MatchResult(qualified, scored, excluded, degradations));
    assert Evaluates(request, adapters, adjuster, Lookup(Passing(fold, request, candidates)), evidence, r.value);
  }

  /** sortDegradations; notices are distinct, so their order is unique. */
  method SortNotices(notices: seq<Degradation>) returns (sorted: seq<Degradation>)
    requires Distinct(notices)
    ensures Increasing(ByNotice, sorted) && forall n :: n in sorted <==> n in notices
  {
    hide Increasing, Distinct;
    NoticesSeparate(Elements(notices));
    sorted := SortFunc(ByNotice, notices);
    assert Elements(sorted) == Elements(notices);
    forall n
      ensures n in sorted <==> n in notices
    {
      assert n in sorted <==> n in Elements(sorted);
    }
  }

  lemma NoticesSeparate(notices: set<Degradation>)
    ensures Strict(ByNotice) && Separates(ByNotice, notices)
  {
    BeforeStrict();
    hide Before;
    forall a: Degradation, b: Degradation | a != b
      ensures ByNotice(a, b) || ByNotice(b, a)
    {
      BeforeTotal(a.dependency, b.dependency);
      BeforeTotal(a.code, b.code);
    }
  }

  lemma NoAgents(none: seq<Candidate>)
    requires none == []
    ensures AgentsDiffer(none) && Lookup(none) == map[]
  {
  }

  /** The scoring loop; the model may fail for any candidate. */
  method ScoreAll(request: Request, adjuster: Option<Adjuster>, byId: map<string, Candidate>, evidence: Book, ids: seq<string>,
                  before: seq<Degradation>)
    returns (scored: seq<ScoredCandidate>, notices: seq<Degradation>)
    requires Elements(ids) <= evidence.Keys <= byId.Keys && Distinct(before)
    ensures |scored| == |ids|
    ensures forall i :: 0 <= i < |ids| ==>
              ids[i] in byId && ids[i] in evidence && scored[i] == ScoredOf(request, adjuster, byId[ids[i]], evidence[ids[i]])
    ensures Distinct(notices) && forall n :: n in notices <==> n in before || ModelNoted(request, adjuster, byId, evidence, ids, n)
  {
    hide RuleScore, ApplyModelDelta, Distinct, ModelNoted;
    scored, notices := [], before;
    forall i | 0 <= i < |ids|
      ensures ids[i] in byId && ids[i] in evidence
    {
      assert ids[i] in Elements(ids);
    }
    assert forall n :: !ModelNoted(request, adjuster, byId, evidence, ids[..0], n) by {
      NoModelNotice(request, adjuster, byId, evidence, ids[..0]);
    }
    var i := 0;
    while i < |ids|
      invariant 0 <= i <= |ids| && |scored| == i
      invariant forall j :: 0 <= j < i ==> scored[j] == ScoredOf(request, adjuster, byId[ids[j]], evidence[ids[j]])
      invariant Distinct(notices)
      invariant forall n :: n in notices <==> n in before || ModelNoted(request, adjuster, byId, evidence, ids[..i], n)
    {
      var candidate := byId[ids[i]];
      ModelNotedStep(request, adjuster, byId, evidence, ids, i);
      var score := RuleScore(request, candidate, evidence[ids[i]]);
      var delta := 0;
      if adjuster.Some? {
        var adjusted := adjuster.value(candidate, score);
        if adjusted.Some? {
          delta := adjusted.value;
        } else {
          notices := AppendUnique(notices, Degradation("ranking_model", "model_unavailable"));
        }
      } else {
        notices := AppendUnique(notices, Degradation("ranking_model", "model_disabled"));
      }
      scored := scored + [ScoredCandidate(candidate, evidence[ids[i]], ApplyModelDelta(score, delta))];
      i := i + 1;
    }
    assert ids[..|ids|] == ids;
  }

  lemma NoModelNotice(request: Request, adjuster: Option<Adjuster>, byId: map<string, Candidate>, book: Book, none: seq<string>)
    requires none == []
    ensures forall n :: !ModelNoted(request, adjuster, byId, book, none, n)
  {
  }

  lemma ModelNotedStep(request: Request, adjuster: Option<Adjuster>, byId: map<string, Candidate>, book: Book, ids: seq<string>, i: nat)
    requires i < |ids| && ids[i] in byId && ids[i] in book
    ensures forall n :: ModelNoted(request, adjuster, byId, book, ids[..i + 1], n) <==>
              ModelNoted(request, adjuster, byId, book, ids[..i], n)
              || ModelNotice(request, adjuster, byId[ids[i]], book[ids[i]]) == Some(n)
  {
    hide ModelNotice;
    forall n
      ensures ModelNoted(request, adjuster, byId, book, ids[..i + 1], n) <==>
              ModelNoted(request, adjuster, byId, book, ids[..i], n)
              || ModelNotice(request, adjuster, byId[ids[i]], book[ids[i]]) == Some(n)
    {
      if ModelNotice(request, adjuster, byId[ids[i]], book[ids[i]]) == Some(n) {
        assert ids[..i + 1][i] == ids[i];
      }
      if ModelNoted(request, adjuster, byId, book, ids[..i], n) {
        var j :| 0 <= j < i && ids[..i][j] in byId && ids[..i][j] in book
                 && ModelNotice(request, adjuster, byId[ids[..i][j]], book[ids[..i][j]]) == Some(n);
        assert ids[..i + 1][j] == ids[..i][j];
      }
    }
  }

  lemma ScoreSeparates(scored: seq<ScoredCandidate>)
    requires IdsDiffer(scored)
    ensures Distinct(scored) && Strict(ByScore) && Separates(ByScore, Elements(scored))
  {
    OrdersAreStrict(map[]);
    forall a, b | a in Elements(scored) && b in Elements(scored) && a != b
      ensures ByScore(a, b) || ByScore(b, a)
    {
      BeforeTotal(a.candidate.agentId, b.candidate.agentId);
    }
  }

  /** Scored candidates carry the distinct ids they were fused under. */
  lemma ScoredSeparate(request: Request, adjuster: Option<Adjuster>, byId: map<string, Candidate>, book: Book, scored: seq<ScoredCandidate>)
    requires book.Keys <= byId.Keys && |scored| == |Fused(book)|
    requires forall id :: id in byId ==> byId[id].agentId == id
    requires forall i :: 0 <= i < |scored| ==> Fused(book)[i] in book && scored[i] == ScoredOf(request, adjuster, byId[Fused(book)[i]], book[Fused(book)[i]])
    ensures IdsDiffer(scored) && Elements(scored) == ScoredSet(request, adjuster, byId, book)
  {
    var ids := Fused(book);
    hide Fused, RuleScore, ApplyModelDelta;
    forall x
      ensures x in Elements(scored) <==> x in ScoredSet(request, adjuster, byId, book)
    {
      if x in Elements(scored) {
        var i :| 0 <= i < |scored| && scored[i] == x;
        assert ids[i] in Elements(ids);
      }
      if x in ScoredSet(request, adjuster, byId, book) {
        var id :| id in Elements(ids) && x == ScoredOf(request, adjuster, byId[id], book[id]);
        var i :| 0 <= i < |ids| && ids[i] == id;
        assert scored[i] == x;
      }
    }
  }

  /** The loop that indexes eligible candidates and refuses a repeated agent. */
  method IndexById(eligible: seq<Candidate>) returns (byId: Option<map<string, Candidate>>)
    ensures byId.Some? <==> AgentsDiffer(eligible)
    ensures byId.Some? ==> byId.value == Lookup(eligible)
  {
    hide AgentsDiffer;
    var index: map<string, Candidate> := map[];
    assert AgentsDiffer(eligible[..0]) && Lookup(eligible[..0]) == map[] by { NoAgents(eligible[..0]); }
    var i := 0;
    while i < |eligible|
      invariant 0 <= i <= |eligible| && AgentsDiffer(eligible[..i]) && index == Lookup(eligible[..i])
    {
      assert eligible[..i + 1] == eligible[..i] + [eligible[i]];
      LookupAppend(eligible[..i], eligible[i]);
      if eligible[i].agentId in index {
        if AgentsDiffer(eligible) {
          PrefixDiffers(eligible, i + 1);
        }
        return None;
      }
      index := index[eligible[i].agentId := eligible[i]];
      i := i + 1;
    }
    assert eligible[..|eligible|] == eligible;
    return Some(index);
  }

  // The order of the candidates does not matter

  /** What a match computes from the channels and the model is determined. */
  lemma EvaluationIsUnique(request: Request, adapters: seq<Option<Adapter>>, adjuster: Option<Adjuster>, byId: map<string, Candidate>,
                           a: Book, x: MatchResult, b: Book, y: MatchResult)
    requires Evaluates(request, adapters, adjuster, byId, a, x) && Evaluates(request, adapters, adjuster, byId, b, y)
    ensures x.scored == y.scored && x.degradations == y.degradations
  {
    hide Reflects, Increasing, ScoredSet, RecallNoted, ModelNoted, ByScore, ByNotice, Strict, Separates;
    ReflectsUnique(a, b, adapters, byId.Keys);
    OrdersAreStrict(map[]);
    IncreasingUnique(ByScore, x.scored, y.scored);
    NoticesSeparate({});
    forall n
      ensures n in Elements(x.degradations) <==> n in Elements(y.degradations)
    {
      assert n in x.degradations <==> n in y.degradations;
    }
    IncreasingUnique(ByNotice, x.degradations, y.degradations);
  }

  /** Two orders of distinct candidates are filtered into the same ones. */
  lemma FilterIsDetermined(fold: Fold, request: Request, a: seq<Candidate>, b: seq<Candidate>)
    requires multiset(a) == multiset(b) && AgentsDiffer(a)
    ensures AgentsDiffer(Passing(fold, request, a)) && AgentsDiffer(Passing(fold, request, b)) && AgentsDiffer(b)
    ensures Lookup(Passing(fold, request, a)) == Lookup(Passing(fold, request, b))
    ensures Elements(Failing(fold, request, a)) == Elements(Failing(fold, request, b))
  {
    hide Passes, Reasons, AgentsDiffer;
    DifferStays(a, b);
    FilterDiffers(fold, request, a);
    FilterDiffers(fold, request, b);
    FilterMembers(fold, request, a);
    FilterMembers(fold, request, b);
    SameElements(a, b);
    forall c: Candidate
      ensures c in a <==> c in b
    {
      assert c in Elements(a) <==> c in Elements(b);
    }
    hide Passing, Failing;
    SameLookup(Passing(fold, request, a), Passing(fold, request, b));
  }

  lemma SameLookup(a: seq<Candidate>, b: seq<Candidate>)
    requires AgentsDiffer(a) && AgentsDiffer(b) && forall c :: c in a <==> c in b
    ensures Lookup(a) == Lookup(b)
  {
    var m, n := Lookup(a), Lookup(b);
    hide Lookup, AgentsDiffer;
    assert m.Keys == n.Keys;
    assert forall id :: id in m ==> m[id] == n[id];
  }

  /** Over distinct candidates the whole result is determined, whatever order they come in. */
  lemma MatchIsDetermined(fold: Fold, request: Request, a: seq<Candidate>, b: seq<Candidate>, adapters: seq<Option<Adapter>>,
                          adjuster: Option<Adjuster>, x: MatchResult, y: MatchResult)
    requires multiset(a) == multiset(b) && AgentsDiffer(a)
    requires Matches(fold, request, a, adapters, adjuster, x) && Matches(fold, request, b, adapters, adjuster, y)
    ensures x == y
  {
    hide Evaluates, Passing, Failing, Increasing, ByExcluded, AgentsDiffer, Qualified, Lookup;
    FilterIsDetermined(fold, request, a, b);
    var byId := Lookup(Passing(fold, request, a));
    var book :| Evaluates(request, adapters, adjuster, byId, book, x);
    var other :| Evaluates(request, adapters, adjuster, byId, other, y);
    EvaluationIsUnique(request, adapters, adjuster, byId, book, x, other, y);
    SameElements(Failing(fold, request, a), x.excluded);
    SameElements(Failing(fold, request, b), y.excluded);
    AgentOrders();
    IncreasingUnique(ByExcluded, x.excluded, y.excluded);
  }

  /** Two calls with the same candidates in any two orders answer alike. */
  method MatchTwice(fold: Fold, adapters: seq<Option<Adapter>>, adjuster: Option<Adjuster>, request: Request,
                    a: seq<Candidate>, b: seq<Candidate>)
    returns (first: Result<MatchResult, MatchError>, second: Result<MatchResult, MatchError>)
    requires multiset(a) == multiset(b) && AgentsDiffer(a)
    ensures first == second
  {
    hide Matches, Passing, Failing, AgentsDiffer, RequestOk;
    FilterIsDetermined(fold, request, a, b);
    first := Match(fold, adapters, adjuster, request, a);
    second := Match(fold, adapters, adjuster, request, b);
    if first.Success? {
      MatchIsDetermined(fold, request, a, b, adapters, adjuster, first.value, second.value);
    }
  }
}
