/**
 Incremental projection over any history of reorganisations against replay from
 scratch: what one SyncOnce call reaches when its source stands still.
 */
module ChainConvergence {
  import opened Wrappers
  import opened ChainStore
  import opened ChainProjector
  import opened ChainInvariant

  /** The source does not reorganise during the call. */
  ghost predicate Fixed(src: Source) {
    forall t: nat, h: uint64 :: src.answer(t, h) == src.answer(0, h)
  }

  function Chain(src: Source, height: uint64): Option<Block> {
    src.answer(0, height)
  }

  /** The source serves one linked chain on a range of heights. */
  ghost predicate Coherent(src: Source, low: uint64, high: uint64) {
    && (forall h: uint64 :: low <= h <= high ==> Chain(src, h).Some? && Chain(src, h).value.number == h)
    && (forall h: uint64 :: low < h <= high ==> Chain(src, h).value.parentHash == Chain(src, h - 1).value.hash)
  }

  /** The cursor's hash is the source's hash at that height. */
  ghost predicate OnSource(repo: Repo, src: Source) {
    repo.cursor.isSet ==> Meets(repo, src, repo.cursor.height)
  }

  ghost predicate Meets(repo: Repo, src: Source, height: uint64) {
    CanonicalAt(repo, height).Some? && Chain(src, height).Some? &&
    Chain(src, height).value.hash == CanonicalAt(repo, height).value.block.hash
  }

  /** Height h holds the source's block, decoded, as its canonical block. */
  ghost predicate Projects(repo: Repo, decode: Decoder, src: Source, h: uint64)
    requires Chain(src, h).Some?
  {
    && decode(Chain(src, h).value).Some?
    && CanonicalAt(repo, h) == Some(Stored(Chain(src, h).value, true, decode(Chain(src, h).value).value))
  }

  /** Where the chains meet, the store holds the source's block. */
  lemma MeetingProjects(repo: Repo, scope: Scope, decode: Decoder, book: Book, src: Source, h: uint64)
    requires Inv(repo, scope, decode, book) && Genuine(book, src) && Meets(repo, src, h)
    ensures Projects(repo, decode, src, h)
  {
    assert Shelf(At(repo, h), h, decode, book);
    assert book(Chain(src, h).value.hash) == Chain(src, h).value;
  }

  lemma {:induction false} MeetsBelow(repo: Repo, scope: Scope, decode: Decoder, book: Book, src: Source, top: uint64, h: uint64)
    requires Inv(repo, scope, decode, book) && Genuine(book, src) && repo.cursor.isSet
    requires scope.startBlock <= h <= top <= repo.cursor.height
    requires Coherent(src, scope.startBlock, top) && Meets(repo, src, top)
    ensures Meets(repo, src, h)
    decreases top - h
  {
    hide CanonicalAt, Shelved, Genuine;
    if h < top {
      MeetsBelow(repo, scope, decode, book, src, top, h + 1);
      MeetingProjects(repo, scope, decode, book, src, h + 1);
      assert h + 1 - 1 == h;
    }
  }

  /** If the two chains meet anywhere they are equal from there down. */
  lemma EqualBelow(repo: Repo, scope: Scope, decode: Decoder, book: Book, src: Source, top: uint64, h: uint64)
    requires Inv(repo, scope, decode, book) && Genuine(book, src) && repo.cursor.isSet
    requires scope.startBlock <= h <= top <= repo.cursor.height
    requires Coherent(src, scope.startBlock, top) && Meets(repo, src, top)
    ensures Projects(repo, decode, src, h)
  {
    MeetsBelow(repo, scope, decode, book, src, top, h);
    MeetingProjects(repo, scope, decode, book, src, h);
  }

  /** A pass over an unforked cursor applies the next block and stays on the source. */
  lemma TurnSteady(scope: Scope, decode: Decoder, book: Book, repo: Repo, src: Source, tick: nat, safeHead: uint64)
    requires Inv(repo, scope, decode, book) && Genuine(book, src) && Fixed(src)
    requires Coherent(src, scope.startBlock, safeHead) && OnSource(repo, src)
    requires !Reached(scope, repo.cursor, safeHead)
    ensures var p := Turn(scope, decode, repo, src, tick, safeHead);
      && Inv(p.repo, scope, decode, book)
      && (p.result.None? ==>
            && p.rewinds == 0 && p.tick == tick + 1 && OnSource(p.repo, src)
            && p.repo.cursor.isSet && p.repo.cursor.height == Target(scope, repo.cursor))
      && (p.result.Some? ==> p.result.value.1.Some?)
      && (p.result.None? <==>
            && tick < src.patience
            && !Malformed(Chain(src, Target(scope, repo.cursor)).value, Target(scope, repo.cursor))
            && decode(Chain(src, Target(scope, repo.cursor)).value).Some?)
  {
    var next := Target(scope, repo.cursor);
    var block := Chain(src, next).value;
    assert src.answer(tick, next) == Some(block);
    assert repo.cursor.isSet ==> next - 1 == repo.cursor.height;
    if tick < src.patience && !Malformed(block, next) && decode(block).Some? {
      ApplyKeeps(repo, scope, decode, book, block, decode(block).value);
    }
  }

  lemma {:induction false} LoopSteady(scope: Scope, decode: Decoder, book: Book, repo: Repo, src: Source, tick: nat, safeHead: uint64)
    requires Inv(repo, scope, decode, book) && Genuine(book, src) && Fixed(src)
    requires scope.startBlock <= safeHead && Coherent(src, scope.startBlock, safeHead) && OnSource(repo, src)
    requires repo.cursor.isSet ==> repo.cursor.height <= safeHead
    requires Loop(scope, decode, repo, src, tick, safeHead).error.None?
    ensures var o := Loop(scope, decode, repo, src, tick, safeHead);
      && o.rewinds == 0 && Inv(o.repo, scope, decode, book) && OnSource(o.repo, src)
      && o.repo.cursor.isSet && o.repo.cursor.height == safeHead && o.cursor == o.repo.cursor
    decreases if tick < src.patience then src.patience - tick else 0
  {
    if !Reached(scope, repo.cursor, safeHead) {
      TurnSteady(scope, decode, book, repo, src, tick, safeHead);
      var p := Turn(scope, decode, repo, src, tick, safeHead);
      LoopSteady(scope, decode, book, p.repo, src, p.tick, safeHead);
    }
  }

  /** The fork branch moves the cursor onto the source and takes one rewind. */
  lemma TurnBackLands(scope: Scope, decode: Decoder, book: Book, repo: Repo, src: Source, tick: nat)
    requires Inv(repo, scope, decode, book) && Genuine(book, src) && Fixed(src) && repo.cursor.isSet
    ensures var p := TurnBack(scope, repo, src, tick);
      && (p.result.None? ==>
            && p.rewinds == 1 && Inv(p.repo, scope, decode, book) && OnSource(p.repo, src)
            && p.repo.cursor.isSet && repo.cursor.height - scope.maxReorgDepth <= p.repo.cursor.height <= repo.cursor.height
            && Meets(repo, src, p.repo.cursor.height)
            && p.tick == tick + (repo.cursor.height - p.repo.cursor.height) + 1)
      && (p.result.Some? ==> p.result.value.1 == Some(SourceFailure) || p.result.value.1 == Some(ReorgTooDeep))
  {
    hide Rewind, Shelved, Linked, Ancestor, CanonicalAt;
    var top := repo.cursor.height;
    AncestorIsHighest(repo, src, tick, top, Lowest(scope, top));
    var search := Ancestor(repo, src, tick, top, Lowest(scope, top));
    if search.found.Success? {
      var a := search.found.value;
      assert src.answer(tick + (top - a), a) == Chain(src, a);
      RewindKeeps(repo, scope, decode, book, a);
    }
  }

  /**
   Against a source that stands still and serves one chain, a call that starts with the
   cursor unset or below the safe head and returns no error leaves exactly that chain:
   the source's blocks and their events from the start block to the safe head and
   nothing else, after at most one rewind.
   */
  lemma {:induction false} LoopConverges(scope: Scope, decode: Decoder, book: Book, repo: Repo, src: Source, tick: nat, safeHead: uint64)
    requires Inv(repo, scope, decode, book) && Genuine(book, src) && Fixed(src)
    requires scope.startBlock <= safeHead && Coherent(src, scope.startBlock, safeHead)
    requires repo.cursor.isSet ==> repo.cursor.height < safeHead
    requires Loop(scope, decode, repo, src, tick, safeHead).error.None?
    ensures var o := Loop(scope, decode, repo, src, tick, safeHead);
      && o.rewinds <= 1 && o.cursor == o.repo.cursor
      && o.cursor == Cursor(safeHead, Chain(src, safeHead).value.hash, true)
      && (forall h: uint64 :: scope.startBlock <= h <= safeHead ==> Projects(o.repo, decode, src, h))
      && (forall h: uint64 :: !(scope.startBlock <= h <= safeHead) ==> CanonicalAt(o.repo, h).None?)
  {
    hide Loop, Inv, Genuine, Fixed, Projects, CanonicalAt, Meets;
    LoopLands(scope, decode, book, repo, src, tick, safeHead);
    var o := Loop(scope, decode, repo, src, tick, safeHead);
    forall h: uint64 | scope.startBlock <= h <= safeHead
      ensures Projects(o.repo, decode, src, h)
    {
      EqualBelow(o.repo, scope, decode, book, src, safeHead, h);
    }
    AtTheHead(o.repo, scope, decode, book, src, safeHead);
  }

  /** A cursor on the source at the safe head names the source's block, and nothing is canonical outside the range. */
  lemma AtTheHead(repo: Repo, scope: Scope, decode: Decoder, book: Book, src: Source, safeHead: uint64)
    requires Inv(repo, scope, decode, book) && repo.cursor.isSet && repo.cursor.height == safeHead && Meets(repo, src, safeHead)
    ensures repo.cursor == Cursor(safeHead, Chain(src, safeHead).value.hash, true)
    ensures forall h: uint64 :: !(scope.startBlock <= h <= safeHead) ==> CanonicalAt(repo, h).None?
  {
    hide Shelved;
  }

  /** The loop takes at most one rewind, at its start, and ends with the cursor on the source at the safe head. */
  lemma LoopLands(scope: Scope, decode: Decoder, book: Book, repo: Repo, src: Source, tick: nat, safeHead: uint64)
    requires Inv(repo, scope, decode, book) && Genuine(book, src) && Fixed(src)
    requires scope.startBlock <= safeHead && Coherent(src, scope.startBlock, safeHead)
    requires repo.cursor.isSet ==> repo.cursor.height < safeHead
    requires Loop(scope, decode, repo, src, tick, safeHead).error.None?
    ensures var o := Loop(scope, decode, repo, src, tick, safeHead);
      && o.rewinds <= 1 && o.cursor == o.repo.cursor && Inv(o.repo, scope, decode, book)
      && o.repo.cursor.isSet && o.repo.cursor.height == safeHead && Meets(o.repo, src, safeHead)
  {
    hide Inv, Genuine, Turn, TurnBack, CanonicalAt, Meets, Coherent;
    if OnSource(repo, src) {
      LoopSteady(scope, decode, book, repo, src, tick, safeHead);
    } else {
      OffSource(scope, decode, book, repo, src, tick, safeHead);
      TurnBackLands(scope, decode, book, repo, src, tick + 1);
      var p := Turn(scope, decode, repo, src, tick, safeHead);
      if p.result.None? {
        LoopSteady(scope, decode, book, p.repo, src, p.tick, safeHead);
      }
    }
  }

  lemma CursorIsCanonical(repo: Repo, scope: Scope, decode: Decoder, book: Book)
    requires Inv(repo, scope, decode, book) && repo.cursor.isSet
    ensures scope.startBlock <= repo.cursor.height
    ensures CanonicalAt(repo, repo.cursor.height).Some? && CanonicalAt(repo, repo.cursor.height).value.block.hash == repo.cursor.hash
  {
  }

  /** Off the source, a pass either fails or takes the fork branch. */
  lemma OffSource(scope: Scope, decode: Decoder, book: Book, repo: Repo, src: Source, tick: nat, safeHead: uint64)
    requires Inv(repo, scope, decode, book) && Fixed(src) && repo.cursor.isSet && !OnSource(repo, src)
    requires scope.startBlock <= safeHead && Coherent(src, scope.startBlock, safeHead) && repo.cursor.height < safeHead
    ensures var p := Turn(scope, decode, repo, src, tick, safeHead);
      p == TurnBack(scope, repo, src, tick + 1) || (p.result.Some? && p.result.value.1.Some?)
  {
    hide TurnBack, Apply, Inv, CanonicalAt, Malformed;
    CursorIsCanonical(repo, scope, decode, book);
    var next := repo.cursor.height + 1;
    assert src.answer(tick, next) == Chain(src, next);
    assert next - 1 == repo.cursor.height;
  }

  /** The entry conditions of one call: the checks pass and the safe head is at or above the start block. */
  ghost predicate Enters(scope: Scope, src: Source)
    requires scope.confirmations > 0
  {
    && src.chainId == Some(scope.chainId) && src.head.Some?
    && scope.confirmations <= Succ(src.head.value)
    && scope.startBlock <= SafeHead(scope, src.head.value)
  }

  /**
   The refinement: after any history of calls against any sources, the next successful
   call against a standing coherent source gives the same cursor and the same canonical
   blocks and events at every height as a replay of that source into an empty store.
   */
  lemma {:induction false} ProjectionEqualsReplay(scope: Scope, decode: Decoder, book: Book, history: seq<Source>, src: Source)
    requires scope.confirmations > 0 && Enters(scope, src)
    requires forall i :: 0 <= i < |history| ==> Genuine(book, history[i])
    requires Genuine(book, src) && Fixed(src)
    requires var safeHead := SafeHead(scope, src.head.value);
      && Coherent(src, scope.startBlock, safeHead)
      && (After(scope, decode, history).cursor.isSet ==> After(scope, decode, history).cursor.height < safeHead)
    requires Sync(scope, decode, After(scope, decode, history), src).error.None?
    requires Sync(scope, decode, EMPTY, src).error.None?
    ensures var live, replay := Sync(scope, decode, After(scope, decode, history), src), Sync(scope, decode, EMPTY, src);
      && live.cursor == replay.cursor && live.repo.cursor == replay.repo.cursor
      && live.rewinds <= 1
      && (forall h: uint64 :: CanonicalAt(live.repo, h) == CanonicalAt(replay.repo, h))
  {
    var safeHead := SafeHead(scope, src.head.value);
    var before := After(scope, decode, history);
    ReachableInv(scope, decode, book, history);
    EmptyInv(scope, decode, book);
    LoopConverges(scope, decode, book, before, src, 0, safeHead);
    LoopConverges(scope, decode, book, EMPTY, src, 0, safeHead);
    var live, replay := Sync(scope, decode, before, src), Sync(scope, decode, EMPTY, src);
    forall h: uint64
      ensures CanonicalAt(live.repo, h) == CanonicalAt(replay.repo, h)
    {
      if scope.startBlock <= h <= safeHead {
        assert Projects(live.repo, decode, src, h) && Projects(replay.repo, decode, src, h);
      }
    }
  }
}
