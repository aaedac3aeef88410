/**
 What one SyncOnce call does against a source that stands still and serves well-formed
 blocks, whether or not these blocks form one chain.
 */
module ChainStanding {
  import opened Wrappers
  import opened ChainStore
  import opened ChainProjector
  import opened ChainInvariant
  import opened ChainConvergence

  /** The source answers every height up to the safe head with well-formed decodable blocks. */
  ghost predicate Serves(src: Source, scope: Scope, decode: Decoder, safeHead: uint64) {
    && (forall h: uint64 :: h <= safeHead ==> Chain(src, h).Some?)
    && (forall h: uint64 :: scope.startBlock <= h <= safeHead ==>
          !Malformed(Chain(src, h).value, h) && decode(Chain(src, h).value).Some?)
  }

  /** A standing source that serves its blocks, and a store that has not reached its safe head. */
  ghost predicate Standing(repo: Repo, scope: Scope, decode: Decoder, book: Book, src: Source, safeHead: uint64) {
    && Inv(repo, scope, decode, book) && Genuine(book, src) && Fixed(src) && Serves(src, scope, decode, safeHead)
    && scope.startBlock <= safeHead && (repo.cursor.isSet ==> repo.cursor.height <= safeHead)
  }

  /** The block above h names the block at h as its parent. */
  ghost predicate LinkedAt(src: Source, h: uint64) {
    h < MAX_UINT64 && Chain(src, h).Some? && Chain(src, h + 1).Some? && Chain(src, h + 1).value.parentHash == Chain(src, h).value.hash
  }

  ghost predicate LinkedFrom(src: Source, low: uint64, high: uint64) {
    forall h: uint64 :: low <= h < high ==> LinkedAt(src, h)
  }

  /** The next block can be applied to the cursor as it is. */
  ghost predicate Extends(repo: Repo, scope: Scope, src: Source) {
    repo.cursor.isSet ==>
      repo.cursor.height < MAX_UINT64 && Chain(src, repo.cursor.height + 1).Some?
      && Chain(src, repo.cursor.height + 1).value.parentHash == repo.cursor.hash
  }

  /**
   The first height at which the call's cursor is on the source: the next height if its block
   extends the cursor, else the highest one within the depth where the chains meet.
   */
  ghost predicate Lands(repo: Repo, scope: Scope, src: Source, at: uint64) {
    if Extends(repo, scope, src) then at == Target(scope, repo.cursor)
    else
      && repo.cursor.height - scope.maxReorgDepth <= at <= repo.cursor.height && Meets(repo, src, at)
      && forall h: uint64 :: at < h <= repo.cursor.height ==> !Meets(repo, src, h)
  }

  /** Below the landing nothing changed, and from there to the cursor the store holds the source's blocks. */
  ghost predicate Climbed(before: Repo, after: Repo, scope: Scope, decode: Decoder, book: Book, src: Source, at: uint64, top: uint64) {
    && Inv(after, scope, decode, book) && OnSource(after, src)
    && after.cursor.isSet && at <= after.cursor.height <= top
    && (forall h: uint64 :: h < at ==> CanonicalAt(after, h) == CanonicalAt(before, h))
    && (forall h: uint64 :: at <= h <= after.cursor.height ==> Chain(src, h).Some? && Projects(after, decode, src, h))
  }

  // ---- one pass ----

  /** A pass that finds an extending block applies it. */
  lemma ExtendingPass(repo: Repo, scope: Scope, decode: Decoder, book: Book, src: Source, tick: nat, safeHead: uint64)
    requires Standing(repo, scope, decode, book, src, safeHead) && Extends(repo, scope, src)
    requires !Reached(scope, repo.cursor, safeHead)
    ensures var p := Turn(scope, decode, repo, src, tick, safeHead);
      if tick >= src.patience then p == Return(repo, repo.cursor, Some(SourceFailure), tick + 1)
      else
        var next := Target(scope, repo.cursor);
        && p == Pass(p.repo, tick + 1, 0, None)
        && Inv(p.repo, scope, decode, book) && OnSource(p.repo, src)
        && p.repo.cursor.isSet && p.repo.cursor.height == next
        && Projects(p.repo, decode, src, next)
        && forall h: uint64 :: h != next ==> CanonicalAt(p.repo, h) == CanonicalAt(repo, h)
  {
    var next := Target(scope, repo.cursor);
    var block := Chain(src, next).value;
    assert src.answer(tick, next) == Some(block) && book(block.hash) == block;
    assert repo.cursor.isSet ==> next - 1 == repo.cursor.height;
    assert !Malformed(block, next) && decode(block).Some?;
    ApplyKeeps(repo, scope, decode, book, block, decode(block).value);
  }

  /** A pass over a cursor that is on the source but not extended rewinds to that cursor and changes nothing. */
  lemma IdlePass(repo: Repo, scope: Scope, decode: Decoder, book: Book, src: Source, tick: nat, safeHead: uint64)
    requires Standing(repo, scope, decode, book, src, safeHead) && OnSource(repo, src) && !Extends(repo, scope, src)
    requires !Reached(scope, repo.cursor, safeHead)
    ensures var p := Turn(scope, decode, repo, src, tick, safeHead);
      if tick + 1 >= src.patience then p.repo == repo && p.result == Some((repo.cursor, Some(SourceFailure)))
      else p == Pass(repo, tick + 2, 1, None)
  {
    var top := repo.cursor.height;
    assert src.answer(tick, top + 1) == Chain(src, top + 1) && src.answer(tick + 1, top) == Chain(src, top);
    assert !Malformed(Chain(src, top + 1).value, top + 1);
    if tick + 1 < src.patience {
      assert Agrees(repo, src, tick + 1, top);
      RewindToTop(repo, scope, decode, book);
    }
  }

  lemma RewindToTop(repo: Repo, scope: Scope, decode: Decoder, book: Book)
    requires Inv(repo, scope, decode, book) && repo.cursor.isSet
    ensures Rewind(repo, repo.cursor.height) == (repo, None)
  {
    var top := repo.cursor.height;
    forall h | h in repo.blocks
      ensures OrphanAbove(repo.blocks, top)[h] == repo.blocks[h]
    {
      assert At(repo, h) == repo.blocks[h] && (h > top ==> CanonicalAt(repo, h).None?);
      assert h > top ==> Orphan(repo.blocks[h]) == repo.blocks[h];
    }
    assert OrphanAbove(repo.blocks, top) == repo.blocks;
  }

  /** The walk down finds the landing, or runs out of patience on the way. */
  lemma WalkLands(repo: Repo, scope: Scope, src: Source, tick: nat, at: uint64)
    requires Fixed(src) && !Extends(repo, scope, src) && Lands(repo, scope, src, at)
    requires forall h: uint64 :: h <= repo.cursor.height ==> Chain(src, h).Some?
    ensures var top := repo.cursor.height; var s := Ancestor(repo, src, tick, top, Lowest(scope, top));
      && (s.found == Success(at) || s.found == Failure(SourceFailure))
      && (s.found == Success(at) ==> s.tick == tick + (top - at) + 1)
      && (tick + (top - at) < src.patience ==> s.found == Success(at))
  {
    var top := repo.cursor.height;
    var low := Lowest(scope, top);
    AncestorIsHighest(repo, src, tick, top, low);
    var s := Ancestor(repo, src, tick, top, low);
    assert src.answer(tick + top - at, at) == Chain(src, at);
    assert !Misses(repo, src, tick + top, at);
    if s.found.Success? {
      var a := s.found.value;
      assert src.answer(tick + (top - a), a) == Chain(src, a);
      assert Meets(repo, src, a);
    }
    if tick + (top - at) < src.patience {
      WalkReaches(repo, src, tick, top, low, at);
    }
  }

  /** A walk whose reads are all answered down to a meeting height does not fail. */
  lemma {:induction false} WalkReaches(repo: Repo, src: Source, tick: nat, height: uint64, lowest: uint64, at: uint64)
    requires Fixed(src) && lowest <= at <= height && tick + (height - at) < src.patience && Meets(repo, src, at)
    requires forall h: uint64 :: at <= h <= height ==> Chain(src, h).Some?
    ensures Ancestor(repo, src, tick, height, lowest).found.Success?
    decreases height
  {
    assert src.answer(tick, height) == Chain(src, height);
    if height > at {
      WalkReaches(repo, src, tick + 1, height - 1, lowest, at);
    }
  }

  /** A walk whose reads are all answered and that finds nothing is too deep. */
  lemma {:induction false} WalkIsTooDeep(repo: Repo, src: Source, tick: nat, height: uint64, lowest: uint64)
    requires Fixed(src) && lowest <= height && tick + (height - lowest) < src.patience
    requires forall h: uint64 :: lowest <= h <= height ==> Chain(src, h).Some? && !Meets(repo, src, h)
    ensures Ancestor(repo, src, tick, height, lowest).found == Failure(ReorgTooDeep)
    decreases height
  {
    assert src.answer(tick, height) == Chain(src, height) && !Meets(repo, src, height);
    if height > lowest {
      WalkIsTooDeep(repo, src, tick + 1, height - 1, lowest);
    }
  }

  /** The first pass over a cursor that the next block does not extend rewinds to the landing. */
  lemma RewindingPass(repo: Repo, scope: Scope, decode: Decoder, book: Book, src: Source, tick: nat, safeHead: uint64, at: uint64)
    requires Standing(repo, scope, decode, book, src, safeHead) && Lands(repo, scope, src, at) && !Extends(repo, scope, src)
    requires !Reached(scope, repo.cursor, safeHead)
    ensures var p := Turn(scope, decode, repo, src, tick, safeHead); var top := repo.cursor.height;
      && (p == Pass(Rewind(repo, at).0, tick + (top - at) + 2, 1, None)
          || (p.repo == repo && p.result == Some((repo.cursor, Some(SourceFailure)))))
      && (tick + 1 + (top - at) < src.patience ==> p.result.None?)
  {
    hide Turn, Lands, Ancestor, Inv, Rewind, OnSource, Serves, Fixed, Genuine, CanonicalAt;
    ForkedPass(repo, scope, decode, book, src, tick, safeHead);
    LandingIsCanonical(repo, scope, src, at);
    AllServed(repo, scope, decode, book, src, safeHead);
    WalkLands(repo, scope, src, tick + 1, at);
    RewindKeeps(repo, scope, decode, book, at);
  }

  lemma AllServed(repo: Repo, scope: Scope, decode: Decoder, book: Book, src: Source, safeHead: uint64)
    requires Standing(repo, scope, decode, book, src, safeHead)
    ensures repo.cursor.isSet ==> forall h: uint64 :: h <= repo.cursor.height ==> Chain(src, h).Some?
  {
  }

  /** A pass over a cursor that the next block does not extend takes the fork branch. */
  lemma ForkedPass(repo: Repo, scope: Scope, decode: Decoder, book: Book, src: Source, tick: nat, safeHead: uint64)
    requires Standing(repo, scope, decode, book, src, safeHead) && !Extends(repo, scope, src)
    requires !Reached(scope, repo.cursor, safeHead)
    ensures Turn(scope, decode, repo, src, tick, safeHead)
         == if tick < src.patience then TurnBack(scope, repo, src, tick + 1) else Return(repo, repo.cursor, Some(SourceFailure), tick + 1)
  {
    hide TurnBack, Inv;
    var next := repo.cursor.height + 1;
    CursorIsCanonical(repo, scope, decode, book);
    assert src.answer(tick, next) == Chain(src, next) && !Malformed(Chain(src, next).value, next);
  }

  lemma LandingIsCanonical(repo: Repo, scope: Scope, src: Source, at: uint64)
    requires Lands(repo, scope, src, at) && !Extends(repo, scope, src)
    ensures at <= repo.cursor.height && Meets(repo, src, at)
  {
  }

  lemma RewoundIsClimbed(repo: Repo, scope: Scope, decode: Decoder, book: Book, src: Source, at: uint64)
    requires Inv(repo, scope, decode, book) && Genuine(book, src) && Meets(repo, src, at)
    ensures Climbed(repo, Rewind(repo, at).0, scope, decode, book, src, at, at)
  {
    hide Inv, Rewind, CanonicalAt;
    RewindKeeps(repo, scope, decode, book, at);
    var rewound := Rewind(repo, at).0;
    assert CanonicalAt(rewound, at) == CanonicalAt(repo, at);
    assert Meets(rewound, src, at);
    MeetingProjects(rewound, scope, decode, book, src, at);
  }

  /** The first pass of a call that has a landing ends on it, or runs out of patience. */
  lemma FirstPass(repo: Repo, scope: Scope, decode: Decoder, book: Book, src: Source, tick: nat, safeHead: uint64, at: uint64)
    requires Standing(repo, scope, decode, book, src, safeHead) && Lands(repo, scope, src, at)
    requires !Reached(scope, repo.cursor, safeHead)
    ensures var p := Turn(scope, decode, repo, src, tick, safeHead);
      && (p.result.Some? ==> p.repo == repo && p.result.value.1 == Some(SourceFailure))
      && (p.result.None? ==>
            && Climbed(repo, p.repo, scope, decode, book, src, at, at)
            && p.tick <= tick + safeHead - at + 2)
      && (tick + safeHead + 1 < src.patience ==> p.result.None?)
  {
    hide Turn, Inv, Rewind, CanonicalAt, Genuine, Fixed, Serves;
    if Extends(repo, scope, src) {
      ExtendingPass(repo, scope, decode, book, src, tick, safeHead);
    } else {
      RewindingPass(repo, scope, decode, book, src, tick, safeHead, at);
      RewoundIsClimbed(repo, scope, decode, book, src, at);
    }
  }

  // ---- the passes after it ----

  /** On the source and linked all the way: the loop climbs to the safe head and returns. */
  lemma {:induction false} ClimbArrives(repo: Repo, scope: Scope, decode: Decoder, book: Book, src: Source, tick: nat, safeHead: uint64)
    requires Standing(repo, scope, decode, book, src, safeHead) && OnSource(repo, src) && repo.cursor.isSet
    requires LinkedFrom(src, repo.cursor.height, safeHead)
    requires tick + (safeHead - repo.cursor.height) <= src.patience
    ensures Loop(scope, decode, repo, src, tick, safeHead).error.None?
    decreases if tick < src.patience then src.patience - tick else 0
  {
    if !Reached(scope, repo.cursor, safeHead) {
      assert LinkedAt(src, repo.cursor.height);
      ExtendingPass(repo, scope, decode, book, src, tick, safeHead);
      var p := Turn(scope, decode, repo, src, tick, safeHead);
      ClimbArrives(p.repo, scope, decode, book, src, p.tick, safeHead);
    }
  }

  /** One applied block climbs by one. */
  lemma PassClimbs(before: Repo, after: Repo, scope: Scope, decode: Decoder, book: Book, src: Source, at: uint64, top: uint64)
    requires Climbed(before, before, scope, decode, book, src, at, top) && before.cursor.height < top
    requires Inv(after, scope, decode, book) && OnSource(after, src)
    requires after.cursor.isSet && after.cursor.height == before.cursor.height + 1
    requires Chain(src, after.cursor.height).Some? && Projects(after, decode, src, after.cursor.height)
    requires forall h: uint64 :: h != after.cursor.height ==> CanonicalAt(after, h) == CanonicalAt(before, h)
    ensures Climbed(before, after, scope, decode, book, src, at, top) && Climbed(after, after, scope, decode, book, src, at, top)
  {
    hide Inv, OnSource, CanonicalAt;
    forall h: uint64 | at <= h <= after.cursor.height
      ensures Chain(src, h).Some? && Projects(after, decode, src, h)
    {
      assert h < after.cursor.height ==> Projects(before, decode, src, h);
    }
  }

  lemma ClimbedLower(first: Repo, second: Repo, third: Repo, scope: Scope, decode: Decoder, book: Book, src: Source, at: uint64, top: uint64)
    requires Climbed(first, second, scope, decode, book, src, at, top) && Climbed(second, third, scope, decode, book, src, at, top)
    ensures Climbed(first, third, scope, decode, book, src, at, top)
  {
    hide Inv, OnSource, CanonicalAt, Projects;
  }

  /**
   On the source with the first broken link above: the loop climbs to the break and stays there,
   rewinding to it, until its context expires.
   */
  lemma {:induction false} ClimbStalls(repo: Repo, scope: Scope, decode: Decoder, book: Book, src: Source, tick: nat, safeHead: uint64,
                                       at: uint64, broken: uint64)
    requires Standing(repo, scope, decode, book, src, safeHead)
    requires Climbed(repo, repo, scope, decode, book, src, at, broken)
    requires broken < safeHead && LinkedFrom(src, repo.cursor.height, broken) && !LinkedAt(src, broken)
    ensures var o := Loop(scope, decode, repo, src, tick, safeHead);
      && o.error == Some(SourceFailure) && Climbed(repo, o.repo, scope, decode, book, src, at, broken)
      && (tick + (broken - repo.cursor.height) <= src.patience ==> o.repo.cursor.height == broken)
    decreases if tick < src.patience then src.patience - tick else 0
  {
    hide Turn, Inv, CanonicalAt, Genuine, Fixed, Serves, Projects;
    CursorIsCanonical(repo, scope, decode, book);
    var p := Turn(scope, decode, repo, src, tick, safeHead);
    if repo.cursor.height == broken {
      assert Meets(repo, src, broken);
      IdlePass(repo, scope, decode, book, src, tick, safeHead);
      if p.result.None? {
        ClimbStalls(repo, scope, decode, book, src, p.tick, safeHead, at, broken);
      }
    } else {
      assert LinkedAt(src, repo.cursor.height) && Meets(repo, src, repo.cursor.height);
      ExtendingPass(repo, scope, decode, book, src, tick, safeHead);
      if p.result.None? {
        PassClimbs(repo, p.repo, scope, decode, book, src, at, broken);
        ClimbStalls(p.repo, scope, decode, book, src, p.tick, safeHead, at, broken);
        var o := Loop(scope, decode, p.repo, src, p.tick, safeHead);
        ClimbedLower(repo, p.repo, o.repo, scope, decode, book, src, at, broken);
      }
    }
  }

  // ---- the whole call ----

  /**
   A call whose first passes find a landing but whose source has a broken link above it ends only
   when its context expires, for every patience. It stores the source's blocks from the landing up
   to the first break, keeps what was below, and with 2 * safeHead + 3 reads stands exactly there.
   */
  lemma {:induction false} BrokenSourceNeverReturns(repo: Repo, scope: Scope, decode: Decoder, book: Book, src: Source, safeHead: uint64,
                                                    at: uint64, broken: uint64)
    requires Standing(repo, scope, decode, book, src, safeHead) && (repo.cursor.isSet ==> repo.cursor.height < safeHead)
    requires Lands(repo, scope, src, at) && at <= broken < safeHead && LinkedFrom(src, at, broken) && !LinkedAt(src, broken)
    ensures var o := Loop(scope, decode, repo, src, 0, safeHead);
      && o.error == Some(SourceFailure)
      && (o.repo == repo || Climbed(repo, o.repo, scope, decode, book, src, at, broken))
      && (src.patience >= 2 * safeHead + 3 ==>
            Climbed(repo, o.repo, scope, decode, book, src, at, broken) && o.repo.cursor.height == broken)
  {
    hide Turn, Inv, CanonicalAt, Genuine, Fixed, Serves, Projects, Lands, OnSource, LinkedAt;
    FirstPass(repo, scope, decode, book, src, 0, safeHead, at);
    var p := Turn(scope, decode, repo, src, 0, safeHead);
    if p.result.None? {
      assert Climbed(p.repo, p.repo, scope, decode, book, src, at, broken);
      ClimbStalls(p.repo, scope, decode, book, src, p.tick, safeHead, at, broken);
      var o := Loop(scope, decode, p.repo, src, p.tick, safeHead);
      ClimbedLower(repo, p.repo, o.repo, scope, decode, book, src, at, broken);
    }
  }

  /** When the next block does not extend the cursor and the chains meet nowhere within the depth, nothing is stored. */
  lemma NoLandingIsTooDeep(repo: Repo, scope: Scope, decode: Decoder, book: Book, src: Source, safeHead: uint64)
    requires Standing(repo, scope, decode, book, src, safeHead) && (repo.cursor.isSet ==> repo.cursor.height < safeHead)
    requires src.patience >= 2 * safeHead + 3
    requires !Extends(repo, scope, src)
    requires forall h: uint64 :: repo.cursor.height - scope.maxReorgDepth <= h <= repo.cursor.height ==> !Meets(repo, src, h)
    ensures var o := Loop(scope, decode, repo, src, 0, safeHead); o.error == Some(ReorgTooDeep) && o.repo == repo
  {
    hide Turn, Inv, Ancestor, CanonicalAt, Genuine;
    ForkedPass(repo, scope, decode, book, src, 0, safeHead);
    WalkIsTooDeep(repo, src, 1, repo.cursor.height, Lowest(scope, repo.cursor.height));
  }

  lemma LandsOrNot(repo: Repo, scope: Scope, src: Source)
    ensures || (exists at: uint64 :: Lands(repo, scope, src, at))
            || (!Extends(repo, scope, src)
                && forall h: uint64 :: repo.cursor.height - scope.maxReorgDepth <= h <= repo.cursor.height ==> !Meets(repo, src, h))
  {
    if Extends(repo, scope, src) {
      assert Lands(repo, scope, src, Target(scope, repo.cursor));
    } else if h: uint64 :| repo.cursor.height - scope.maxReorgDepth <= h <= repo.cursor.height && Meets(repo, src, h) {
      var at := HighestMeeting(repo, src, h, repo.cursor.height);
      assert Lands(repo, scope, src, at);
    }
  }

  lemma {:induction false} HighestMeeting(repo: Repo, src: Source, h: uint64, top: uint64) returns (at: uint64)
    requires h <= top && Meets(repo, src, h)
    ensures h <= at <= top && Meets(repo, src, at) && forall k: uint64 :: at < k <= top ==> !Meets(repo, src, k)
    decreases top
  {
    if h == top || Meets(repo, src, top) {
      at := top;
    } else {
      at := HighestMeeting(repo, src, h, top - 1);
    }
  }

  /** The lowest broken link at or above a height. */
  lemma {:induction false} FirstBreak(src: Source, low: uint64, high: uint64) returns (broken: uint64)
    requires low <= high && !LinkedFrom(src, low, high)
    ensures low <= broken < high && LinkedFrom(src, low, broken) && !LinkedAt(src, broken)
    decreases high - low
  {
    if !LinkedAt(src, low) {
      broken := low;
    } else {
      assert !LinkedFrom(src, low + 1, high);
      broken := FirstBreak(src, low + 1, high);
      forall h: uint64 | low <= h < broken
        ensures LinkedAt(src, h)
      {
        assert h > low ==> h >= low + 1;
      }
    }
  }

  /**
   When a call against such a source succeeds, given the reads it needs: exactly when there is a
   landing and every block from the one above it to the safe head names its predecessor.
   */
  lemma {:induction false} SyncSucceedsIff(repo: Repo, scope: Scope, decode: Decoder, book: Book, src: Source, safeHead: uint64)
    requires Standing(repo, scope, decode, book, src, safeHead) && (repo.cursor.isSet ==> repo.cursor.height < safeHead)
    requires src.patience >= 2 * safeHead + 3
    ensures Loop(scope, decode, repo, src, 0, safeHead).error.None?
       <==> exists at: uint64 :: Lands(repo, scope, src, at) && LinkedFrom(src, at, safeHead)
  {
    if at: uint64 :| Lands(repo, scope, src, at) {
      if LinkedFrom(src, at, safeHead) {
        FirstPass(repo, scope, decode, book, src, 0, safeHead, at);
        var p := Turn(scope, decode, repo, src, 0, safeHead);
        ClimbArrives(p.repo, scope, decode, book, src, p.tick, safeHead);
      } else {
        var broken := FirstBreak(src, at, safeHead);
        BrokenSourceNeverReturns(repo, scope, decode, book, src, safeHead, at, broken);
        forall other: uint64 | Lands(repo, scope, src, other)
          ensures other == at
        {
        }
      }
    } else {
      LandsOrNot(repo, scope, src);
      NoLandingIsTooDeep(repo, scope, decode, book, src, safeHead);
    }
  }

  /** For a coherent source: the cursor is unset or the chains meet within the reorganisation depth. */
  lemma {:induction false} CoherentSyncSucceedsIff(repo: Repo, scope: Scope, decode: Decoder, book: Book, src: Source, safeHead: uint64)
    requires Standing(repo, scope, decode, book, src, safeHead) && (repo.cursor.isSet ==> repo.cursor.height < safeHead)
    requires src.patience >= 2 * safeHead + 3 && Coherent(src, scope.startBlock, safeHead)
    ensures Loop(scope, decode, repo, src, 0, safeHead).error.None? <==>
      (repo.cursor.isSet ==>
        exists h: uint64 :: repo.cursor.height - scope.maxReorgDepth <= h <= repo.cursor.height && Meets(repo, src, h))
  {
    SyncSucceedsIff(repo, scope, decode, book, src, safeHead);
    forall at: uint64 | Lands(repo, scope, src, at)
      ensures at >= scope.startBlock && LinkedFrom(src, at, safeHead)
    {
      assert at >= scope.startBlock;
      forall h: uint64 | at <= h < safeHead
        ensures LinkedAt(src, h)
      {
        assert h + 1 - 1 == h;
      }
    }
    if Extends(repo, scope, src) {
      assert Lands(repo, scope, src, Target(scope, repo.cursor));
      if repo.cursor.isSet {
        assert repo.cursor.height + 1 - 1 == repo.cursor.height;
        assert Meets(repo, src, repo.cursor.height);
      }
    } else {
      LandsOrNot(repo, scope, src);
    }
  }
}
