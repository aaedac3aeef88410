/**
 Sealed matching results: the validators of services/engine/internal/matching/snapshot.go and
 the revision store of snapshot_memory.go, for the fair-shuffle algorithm.
 */
module MatchSnapshot {
  import opened Wrappers
  import opened Text
  import opened Ranking
  import opened MatchTypes
  import opened MatchFilter
  import opened MatchService
  import Shuffle = MatchShuffle

  datatype SnapshotKey = SnapshotKey(taskId: string, taskSpecHash: string, algorithmVersion: string, effectiveInputHash: string)

  datatype SnapshotDraft = SnapshotDraft(key: SnapshotKey, ruleVersion: string, modelVersion: string, result: MatchResult)

  datatype Snapshot = Snapshot(
    id: string, key: SnapshotKey, matchRevision: nat, ruleVersion: string, modelVersion: string,
    seedDigest: string, seedKeyVersion: string, policyHash: string, triggered: bool,
    result: MatchResult, selections: seq<Shuffle.Selection>, createdAt: int)

  predicate KeyOk(key: SnapshotKey) {
    !Blank(key.taskId) && ValidDigest(key.taskSpecHash) && key.algorithmVersion == Shuffle.ALGORITHM && ValidDigest(key.effectiveInputHash)
  }

  predicate ScoredHere(scored: seq<ScoredCandidate>, agentId: string) {
    exists i :: 0 <= i < |scored| && IdOf(scored[i]) == agentId
  }

  predicate ExclusionOk(e: Exclusion, scored: seq<ScoredCandidate>) {
    e.agentId == e.candidate.agentId && !ScoredHere(scored, e.agentId) && e.reasons != []
  }

  /** What a draft must satisfy to be sealed. */
  ghost predicate DraftOk(draft: SnapshotDraft) {
    var r := draft.result;
    && KeyOk(draft.key) && !Blank(draft.ruleVersion) && !Blank(draft.modelVersion)
    && |r.qualified| <= MAX_QUALIFIED_POOL && |r.scored| <= MAX_SCORED_CANDIDATES
    && IdsDiffer(r.scored)
    && (forall i :: 0 <= i < |r.qualified| ==> r.qualified[i] in r.scored)
    && Increasing(ByScore, r.scored)
    && r.qualified == Qualified(r.scored)
    && (forall i :: 0 <= i < |r.excluded| ==> ExclusionOk(r.excluded[i], r.scored))
    && ExclusionsDiffer(r.excluded)
  }

  predicate SelectionOk(s: Shuffle.Selection, qualified: seq<ScoredCandidate>) {
    && ScoredHere(qualified, IdOf(s.candidate))
    && 1 <= s.position <= Shuffle.SELECTION_LIMIT
    && (s.exploration ==> s.position == 3)
  }

  predicate PositionsDiffer(selections: seq<Shuffle.Selection>) {
    forall i, j :: 0 <= i < j < |selections| ==> selections[i].position != selections[j].position
  }

  /** What a snapshot must satisfy to be stored. */
  predicate SnapshotOk(s: Snapshot) {
    && ValidDigest(s.id) && s.matchRevision >= 1 && ValidDigest(s.seedDigest) && ValidDigest(s.policyHash)
    && (forall i :: 0 <= i < |s.selections| ==> SelectionOk(s.selections[i], s.result.qualified))
    && PositionsDiffer(s.selections)
  }

  method ValidateSnapshotDraft(draft: SnapshotDraft) returns (ok: bool)
    ensures ok <==> DraftOk(draft)
  {
    hide Increasing, ByScore, Qualified, KeyOk, ExclusionOk, Strict, Separates, Indexes;
    var r := draft.result;
    if !KeyOk(draft.key) || Blank(draft.ruleVersion) || Blank(draft.modelVersion)
       || |r.qualified| > MAX_QUALIFIED_POOL || |r.scored| > MAX_SCORED_CANDIDATES {
      return false;
    }
    var scored := IndexScored(r.scored);
    if scored.None? {
      return false;
    }
    var consistent := QualifiedAreScored(r.scored, r.qualified, scored.value);
    if !consistent {
      return false;
    }
    ScoreSeparates(r.scored);
    var expectedScored := SortFunc(ByScore, r.scored);
    var expectedQualified := Qualify(expectedScored);
    if expectedScored != r.scored || expectedQualified != r.qualified {
      assert Increasing(ByScore, r.scored) ==> expectedScored == r.scored by {
        if Increasing(ByScore, r.scored) {
          RankedIs(ByScore, r.scored);
        }
      }
      return false;
    }
    IndexHas(scored.value, r.scored);
    ok := ExclusionsAreOk(r.excluded, r.scored, scored.value);
  }

  /** The map from agents to their scored records. */
  ghost predicate Indexes(index: map<string, ScoredCandidate>, scored: seq<ScoredCandidate>) {
    && (forall id :: id in index <==> ScoredHere(scored, id))
    && (forall i :: 0 <= i < |scored| ==> IdOf(scored[i]) in index && index[IdOf(scored[i])] == scored[i])
  }

  lemma IndexStep(index: map<string, ScoredCandidate>, scored: seq<ScoredCandidate>, i: nat)
    requires i < |scored| && Indexes(index, scored[..i])
    ensures IdOf(scored[i]) !in index ==> Indexes(index[IdOf(scored[i]) := scored[i]], scored[..i + 1])
    ensures IdOf(scored[i]) in index ==> !IdsDiffer(scored)
  {
    HereAppend(scored, i);
    if IdOf(scored[i]) in index {
      var j :| 0 <= j < i && IdOf(scored[..i][j]) == IdOf(scored[i]);
      assert IdOf(scored[j]) == IdOf(scored[i]);
    }
    hide ScoredHere;
  }

  method IndexScored(scored: seq<ScoredCandidate>) returns (index: Option<map<string, ScoredCandidate>>)
    ensures index.Some? <==> IdsDiffer(scored)
    ensures index.Some? ==> Indexes(index.value, scored)
  {
    hide Indexes, IdsDiffer;
    var m: map<string, ScoredCandidate> := map[];
    assert Indexes(m, scored[..0]) && IdsDiffer(scored[..0]) by { IndexNone(scored[..0]); }
    var i := 0;
    while i < |scored|
      invariant 0 <= i <= |scored| && IdsDiffer(scored[..i]) && Indexes(m, scored[..i])
    {
      var id := IdOf(scored[i]);
      IndexStep(m, scored, i);
      if id in m {
        return None;
      }
      HereAppend(scored, i);
      IndexHas(m, scored[..i]);
      m := m[id := scored[i]];
      i := i + 1;
    }
    assert scored[..|scored|] == scored;
    return Some(m);
  }

  lemma IndexNone(none: seq<ScoredCandidate>)
    requires none == []
    ensures Indexes(map[], none) && IdsDiffer(none)
  {
  }

  lemma IndexHas(index: map<string, ScoredCandidate>, scored: seq<ScoredCandidate>)
    requires Indexes(index, scored)
    ensures forall id :: id in index <==> ScoredHere(scored, id)
  {
  }

  lemma HereAppend(scored: seq<ScoredCandidate>, i: nat)
    requires i < |scored|
    ensures forall id :: ScoredHere(scored[..i + 1], id) <==> ScoredHere(scored[..i], id) || id == IdOf(scored[i])
    ensures IdsDiffer(scored[..i]) && !ScoredHere(scored[..i], IdOf(scored[i])) ==> IdsDiffer(scored[..i + 1])
  {
    forall id | ScoredHere(scored[..i], id) || id == IdOf(scored[i])
      ensures ScoredHere(scored[..i + 1], id)
    {
      if id == IdOf(scored[i]) {
        assert scored[..i + 1][i] == scored[i];
      } else {
        var j :| 0 <= j < i && IdOf(scored[..i][j]) == id;
        assert IdOf(scored[..i + 1][j]) == id;
      }
    }
    forall id | ScoredHere(scored[..i + 1], id) && id != IdOf(scored[i])
      ensures ScoredHere(scored[..i], id)
    {
      var j :| 0 <= j <= i && IdOf(scored[..i + 1][j]) == id;
      assert IdOf(scored[..i][j]) == id;
    }
    if !ScoredHere(scored[..i], IdOf(scored[i])) {
      assert forall j :: 0 <= j < i ==> IdOf(scored[..i][j]) != IdOf(scored[i]);
    }
  }

  /** Every qualified record is the scored record of its agent. */
  method QualifiedAreScored(scored: seq<ScoredCandidate>, qualified: seq<ScoredCandidate>, index: map<string, ScoredCandidate>) returns (ok: bool)
    requires Indexes(index, scored)
    ensures ok <==> forall i :: 0 <= i < |qualified| ==> qualified[i] in scored
  {
    var i := 0;
    while i < |qualified|
      invariant 0 <= i <= |qualified| && forall j :: 0 <= j < i ==> qualified[j] in scored
    {
      var id := IdOf(qualified[i]);
      if id !in index || index[id] != qualified[i] {
        assert qualified[i] !in scored;
        return false;
      }
      var j :| 0 <= j < |scored| && IdOf(scored[j]) == id;
      assert index[IdOf(scored[j])] == scored[j];
      i := i + 1;
    }
    return true;
  }

  method ExclusionsAreOk(excluded: seq<Exclusion>, scored: seq<ScoredCandidate>, index: map<string, ScoredCandidate>) returns (ok: bool)
    requires forall id :: id in index <==> ScoredHere(scored, id)
    ensures ok <==> ExclusionsDiffer(excluded) && forall i :: 0 <= i < |excluded| ==> ExclusionOk(excluded[i], scored)
  {
    hide ScoredHere;
    var seen: set<string> := {};
    var i := 0;
    while i < |excluded|
      invariant 0 <= i <= |excluded| && forall j :: 0 <= j < i ==> ExclusionOk(excluded[j], scored) && excluded[j].agentId in seen
      invariant forall j, k :: 0 <= j < k < i ==> excluded[j].agentId != excluded[k].agentId
      invariant forall id :: id in seen ==> exists j :: 0 <= j < i && excluded[j].agentId == id
    {
      var e := excluded[i];
      if e.agentId != e.candidate.agentId || e.agentId in seen || e.agentId in index || |e.reasons| == 0 {
        return false;
      }
      seen := seen + {e.agentId};
      i := i + 1;
    }
    return true;
  }

  method ValidateSnapshot(s: Snapshot) returns (ok: bool)
    ensures ok <==> SnapshotOk(s)
  {
    hide ScoredHere;
    if !ValidDigest(s.id) || s.matchRevision < 1 || !ValidDigest(s.seedDigest) || !ValidDigest(s.policyHash) {
      return false;
    }
    var qualified := IdsOf(s.result.qualified);
    var seenPositions: set<int> := {};
    var i := 0;
    while i < |s.selections|
      invariant 0 <= i <= |s.selections|
      invariant forall j :: 0 <= j < i ==> SelectionOk(s.selections[j], s.result.qualified) && s.selections[j].position in seenPositions
      invariant forall j, k :: 0 <= j < k < i ==> s.selections[j].position != s.selections[k].position
      invariant forall p :: p in seenPositions ==> exists j :: 0 <= j < i && s.selections[j].position == p
    {
      var selection := s.selections[i];
      if IdOf(selection.candidate) !in qualified || selection.position < 1 || selection.position > Shuffle.SELECTION_LIMIT
         || selection.position in seenPositions || (selection.exploration && selection.position != 3) {
        return false;
      }
      seenPositions := seenPositions + {selection.position};
      i := i + 1;
    }
    return true;
  }

  method IdsOf(qualified: seq<ScoredCandidate>) returns (ids: set<string>)
    ensures forall id :: id in ids <==> ScoredHere(qualified, id)
  {
    ids := {};
    var i := 0;
    while i < |qualified|
      invariant 0 <= i <= |qualified| && forall id :: id in ids <==> ScoredHere(qualified[..i], id)
    {
      HereAppend(qualified, i);
      hide ScoredHere;
      ids := ids + {IdOf(qualified[i])};
      i := i + 1;
    }
    assert qualified[..|qualified|] == qualified;
  }
}
