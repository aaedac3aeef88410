/**
 What every reachable repository satisfies, whatever the sources answered: one
 linked canonical chain from the start block to the cursor and nothing beside it.

 A block hash determines the block, so all blocks ever served are entries of one
 `book` from hashes to blocks.
 */
module ChainInvariant {
  import opened Wrappers
  import opened ChainStore
  import opened ChainProjector

  type Book = string -> Block

  ghost predicate Genuine(book: Book, src: Source) {
    forall t: nat, h: uint64 :: src.answer(t, h).Some? ==> book(src.answer(t, h).value.hash) == src.answer(t, h).value
  }

  /** One height's list: genuine decoded blocks of that height, no hash twice, at most one canonical. */
  ghost predicate Shelf(items: seq<Stored>, height: uint64, decode: Decoder, book: Book) {
    && (forall i :: 0 <= i < |items| ==>
          && items[i].block.number == height
          && book(items[i].block.hash) == items[i].block
          && decode(items[i].block) == Some(items[i].events))
    && (forall i, j :: 0 <= i < j < |items| ==> items[i].block.hash != items[j].block.hash)
    && (forall i, j :: 0 <= i < j < |items| ==> !(items[i].canonical && items[j].canonical))
  }

  ghost predicate Shelved(repo: Repo, decode: Decoder, book: Book) {
    forall h: uint64 :: Shelf(At(repo, h), h, decode, book)
  }

  /** The canonical blocks are exactly the heights from the start block to the cursor. */
  ghost predicate Spans(repo: Repo, scope: Scope) {
    && (forall h: uint64 :: CanonicalAt(repo, h).Some? <==>
          repo.cursor.isSet && scope.startBlock <= h <= repo.cursor.height)
    && (repo.cursor.isSet ==> scope.startBlock <= repo.cursor.height)
  }

  /** Each canonical block names its predecessor as parent and the last one carries the cursor's hash. */
  ghost predicate Linked(repo: Repo, scope: Scope)
    requires Spans(repo, scope)
  {
    repo.cursor.isSet ==>
      && CanonicalAt(repo, repo.cursor.height).value.block.hash == repo.cursor.hash
      && forall h: uint64 :: scope.startBlock < h <= repo.cursor.height ==>
           CanonicalAt(repo, h).value.block.parentHash == CanonicalAt(repo, h - 1).value.block.hash
  }

  ghost predicate Inv(repo: Repo, scope: Scope, decode: Decoder, book: Book) {
    Shelved(repo, decode, book) && Spans(repo, scope) && Linked(repo, scope)
  }

  lemma EmptyInv(scope: Scope, decode: Decoder, book: Book)
    ensures Inv(EMPTY, scope, decode, book)
  {
    assert forall h: uint64 :: At(EMPTY, h) == [];
  }

  /** A canonical entry is the only one of its height. */
  lemma CanonicalIs(items: seq<Stored>, height: uint64, decode: Decoder, book: Book, i: nat)
    requires Shelf(items, height, decode, book) && i < |items| && items[i].canonical
    ensures FirstCanonical(items) == Some(items[i])
  {
  }

  /** Where a height has no canonical block, ApplyBlock leaves exactly the applied one. */
  lemma ApplyPuts(repo: Repo, decode: Decoder, book: Book, block: Block, events: seq<Event>)
    requires Shelved(repo, decode, book) && CanonicalAt(repo, block.number).None?
    requires book(block.hash) == block && decode(block) == Some(events)
    requires repo.cursor.isSet ==> block.number == Succ(repo.cursor.height) && block.parentHash == repo.cursor.hash
    ensures Apply(repo, block, events).1 == None
    ensures Apply(repo, block, events).0.cursor == CursorOn(block)
    ensures CanonicalAt(Apply(repo, block, events).0, block.number) == Some(Stored(block, true, events))
    ensures forall h: uint64 :: h != block.number ==> At(Apply(repo, block, events).0, h) == At(repo, h)
    ensures Shelved(Apply(repo, block, events).0, decode, book)
  {
    var n := block.number;
    var items := At(repo, n);
    var i := Stop(items, block.hash);
    var (after, failed) := Apply(repo, block, events);
    assert Shelf(items, n, decode, book);
    if i == |items| {
      assert failed == None && At(after, n) == items + [Stored(block, true, events)];
      ShelfAppend(items, n, decode, book, block, events);
    } else {
      assert items[i].block == block;
      assert failed == None && At(after, n) == items[i := items[i].(canonical := true)];
      ShelfRestore(items, n, decode, book, i);
    }
    forall h: uint64
      ensures Shelf(At(after, h), h, decode, book)
    {
      assert Shelf(At(repo, h), h, decode, book);
    }
  }

  lemma ApplyKeeps(repo: Repo, scope: Scope, decode: Decoder, book: Book, block: Block, events: seq<Event>)
    requires Inv(repo, scope, decode, book)
    requires book(block.hash) == block && decode(block) == Some(events)
    requires block.number == Target(scope, repo.cursor)
    requires repo.cursor.isSet ==> repo.cursor.height < MAX_UINT64 && block.parentHash == repo.cursor.hash
    ensures Apply(repo, block, events).1 == None
    ensures Inv(Apply(repo, block, events).0, scope, decode, book)
    ensures Apply(repo, block, events).0.cursor == CursorOn(block)
    ensures forall h: uint64 :: h != block.number ==> CanonicalAt(Apply(repo, block, events).0, h) == CanonicalAt(repo, h)
    ensures CanonicalAt(Apply(repo, block, events).0, block.number) == Some(Stored(block, true, events))
  {
    ApplyPuts(repo, decode, book, block, events);
    var after := Apply(repo, block, events).0;
    LinkOnto(repo, after, scope, block, events);
  }

  /** Extending a spanning linked chain by one block whose parent is the cursor's. */
  lemma LinkOnto(repo: Repo, after: Repo, scope: Scope, block: Block, events: seq<Event>)
    requires Spans(repo, scope) && Linked(repo, scope)
    requires block.number == Target(scope, repo.cursor)
    requires repo.cursor.isSet ==> repo.cursor.height < MAX_UINT64 && block.parentHash == repo.cursor.hash
    requires after.cursor == CursorOn(block)
    requires CanonicalAt(after, block.number) == Some(Stored(block, true, events))
    requires forall h: uint64 :: h != block.number ==> At(after, h) == At(repo, h)
    ensures forall h: uint64 :: h != block.number ==> CanonicalAt(after, h) == CanonicalAt(repo, h)
    ensures Spans(after, scope) && Linked(after, scope)
  {
    forall h: uint64
      ensures h != block.number ==> CanonicalAt(after, h) == CanonicalAt(repo, h)
    {
      assert h != block.number ==> At(after, h) == At(repo, h);
    }
    hide CanonicalAt, At;
  }

  lemma ShelfAppend(items: seq<Stored>, height: uint64, decode: Decoder, book: Book, block: Block, events: seq<Event>)
    requires Shelf(items, height, decode, book) && FirstCanonical(items).None?
    requires book(block.hash) == block && decode(block) == Some(events) && block.number == height
    requires forall j :: 0 <= j < |items| ==> items[j].block.hash != block.hash
    ensures Shelf(items + [Stored(block, true, events)], height, decode, book)
    ensures FirstCanonical(items + [Stored(block, true, events)]) == Some(Stored(block, true, events))
  {
    CanonicalIs(items + [Stored(block, true, events)], height, decode, book, |items|);
  }

  lemma ShelfRestore(items: seq<Stored>, height: uint64, decode: Decoder, book: Book, k: nat)
    requires Shelf(items, height, decode, book) && FirstCanonical(items).None? && k < |items|
    ensures Shelf(items[k := items[k].(canonical := true)], height, decode, book)
    ensures FirstCanonical(items[k := items[k].(canonical := true)]) == Some(items[k].(canonical := true))
  {
    CanonicalIs(items[k := items[k].(canonical := true)], height, decode, book, k);
  }

  lemma RewindPuts(repo: Repo, ancestor: uint64, h: uint64)
    requires CanonicalAt(repo, ancestor).Some?
    ensures Rewind(repo, ancestor).1 == None
    ensures Rewind(repo, ancestor).0.cursor == Cursor(ancestor, CanonicalAt(repo, ancestor).value.block.hash, true)
    ensures At(Rewind(repo, ancestor).0, h) == if h > ancestor then Orphan(At(repo, h)) else At(repo, h)
  {
    assert At(Rewind(repo, ancestor).0, ancestor) == At(repo, ancestor);
  }

  /** Cutting a spanning linked chain at one of its heights. */
  lemma LinkBack(repo: Repo, after: Repo, scope: Scope, ancestor: uint64)
    requires Spans(repo, scope) && Linked(repo, scope) && CanonicalAt(repo, ancestor).Some?
    requires after.cursor == Cursor(ancestor, CanonicalAt(repo, ancestor).value.block.hash, true)
    requires forall h: uint64 :: CanonicalAt(after, h) == if h > ancestor then None else CanonicalAt(repo, h)
    ensures Spans(after, scope) && Linked(after, scope)
  {
    hide CanonicalAt;
  }

  lemma RewindKeeps(repo: Repo, scope: Scope, decode: Decoder, book: Book, ancestor: uint64)
    requires Inv(repo, scope, decode, book) && CanonicalAt(repo, ancestor).Some?
    ensures Rewind(repo, ancestor).1 == None
    ensures Inv(Rewind(repo, ancestor).0, scope, decode, book)
    ensures Rewind(repo, ancestor).0.cursor == Cursor(ancestor, CanonicalAt(repo, ancestor).value.block.hash, true)
    ensures forall h: uint64 :: h <= ancestor ==> CanonicalAt(Rewind(repo, ancestor).0, h) == CanonicalAt(repo, h)
  {
    hide Rewind, Shelf, Orphan, FirstCanonical, At, Spans, Linked;
    var after := Rewind(repo, ancestor).0;
    RewindPuts(repo, ancestor, ancestor);
    forall h: uint64
      ensures Shelf(At(after, h), h, decode, book)
      ensures CanonicalAt(after, h) == if h > ancestor then None else CanonicalAt(repo, h)
    {
      RewindPuts(repo, ancestor, h);
      assert Shelf(At(repo, h), h, decode, book);
      OrphanShelf(At(repo, h), h, decode, book);
    }
    hide CanonicalAt;
    LinkBack(repo, after, scope, ancestor);
  }

  lemma OrphanShelf(items: seq<Stored>, height: uint64, decode: Decoder, book: Book)
    requires Shelf(items, height, decode, book)
    ensures Shelf(Orphan(items), height, decode, book) && FirstCanonical(Orphan(items)) == None
  {
  }

  /** On a walk down that reads height h at tick `base - h`, the read is answered but does not agree. */
  ghost predicate Misses(repo: Repo, src: Source, base: nat, h: uint64)
    requires h <= base
  {
    src.Read(base - h, h).Some? && !Agrees(repo, src, base - h, h)
  }

  ghost predicate AllMiss(repo: Repo, src: Source, base: nat, low: uint64, high: uint64)
    requires high <= base
  {
    forall h: uint64 :: low <= h <= high ==> Misses(repo, src, base, h)
  }

  /**
   commonAncestor: the first source failure met on the way down, else the highest agreeing
   height, else too deep, and then no height down to the lowest one agrees.
   */
  lemma {:induction false} AncestorIsHighest(repo: Repo, src: Source, tick: nat, height: uint64, lowest: uint64)
    requires lowest <= height
    ensures var s := Ancestor(repo, src, tick, height, lowest);
      match s.found
      case Success(a) =>
        && lowest <= a <= height && s.tick == tick + (height - a) + 1
        && Agrees(repo, src, tick + (height - a), a)
        && (a < height ==> AllMiss(repo, src, tick + height, a + 1, height))
      case Failure(e) =>
        && s.tick <= tick + (height - lowest) + 1
        && (e == ReorgTooDeep || e == SourceFailure)
        && (e == ReorgTooDeep <==> AllMiss(repo, src, tick + height, lowest, height))
    decreases height
  {
    if src.Read(tick, height).None? {
      assert !Misses(repo, src, tick + height, height);
    } else if Agrees(repo, src, tick, height) {
      assert !Misses(repo, src, tick + height, height);
    } else {
      assert Misses(repo, src, tick + height, height);
      if height > lowest {
        AncestorIsHighest(repo, src, tick + 1, height - 1, lowest);
        assert tick + 1 + (height - 1) == tick + height;
      }
    }
  }

  /** One pass of the loop keeps the invariant; its Rewind and Apply calls never fail. */
  lemma TurnKeeps(scope: Scope, decode: Decoder, book: Book, repo: Repo, src: Source, tick: nat, safeHead: uint64)
    requires Inv(repo, scope, decode, book) && Genuine(book, src)
    ensures Inv(Turn(scope, decode, repo, src, tick, safeHead).repo, scope, decode, book)
  {
    var cursor := repo.cursor;
    if !Reached(scope, cursor, safeHead) {
      var next := Target(scope, cursor);
      match src.Read(tick, next)
      case None =>
      case Some(block) =>
        if Malformed(block, next) {
        } else if cursor.isSet && block.parentHash != cursor.hash {
          AncestorIsHighest(repo, src, tick + 1, cursor.height, Lowest(scope, cursor.height));
          var search := Ancestor(repo, src, tick + 1, cursor.height, Lowest(scope, cursor.height));
          if search.found.Success? {
            RewindKeeps(repo, scope, decode, book, search.found.value);
          }
        } else if decode(block).Some? {
          ApplyKeeps(repo, scope, decode, book, block, decode(block).value);
        }
    }
  }

  lemma {:induction false} LoopKeeps(scope: Scope, decode: Decoder, book: Book, repo: Repo, src: Source, tick: nat, safeHead: uint64)
    requires Inv(repo, scope, decode, book) && Genuine(book, src)
    ensures Inv(Loop(scope, decode, repo, src, tick, safeHead).repo, scope, decode, book)
    decreases if tick < src.patience then src.patience - tick else 0
  {
    TurnKeeps(scope, decode, book, repo, src, tick, safeHead);
    var pass := Turn(scope, decode, repo, src, tick, safeHead);
    if pass.result.None? {
      LoopKeeps(scope, decode, book, pass.repo, src, pass.tick, safeHead);
    }
  }

  /** The repository after a history of calls, each against whatever its source said. */
  function After(scope: Scope, decode: Decoder, history: seq<Source>): Repo
    requires scope.confirmations > 0
  {
    if history == [] then EMPTY
    else Sync(scope, decode, After(scope, decode, history[..|history| - 1]), history[|history| - 1]).repo
  }

  /** Every reachable repository holds exactly one linked canonical chain. */
  lemma {:induction false} ReachableInv(scope: Scope, decode: Decoder, book: Book, history: seq<Source>)
    requires scope.confirmations > 0
    requires forall i :: 0 <= i < |history| ==> Genuine(book, history[i])
    ensures Inv(After(scope, decode, history), scope, decode, book)
  {
    if history == [] {
      EmptyInv(scope, decode, book);
    } else {
      var last := |history| - 1;
      var before := After(scope, decode, history[..last]);
      ReachableInv(scope, decode, book, history[..last]);
      var src := history[last];
      if src.head.Some? && scope.confirmations <= Succ(src.head.value) {
        LoopKeeps(scope, decode, book, before, src, 0, SafeHead(scope, src.head.value));
      }
    }
  }
}
