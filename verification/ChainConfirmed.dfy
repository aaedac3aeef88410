/**
 What the confirmation depth promises of one SyncOnce call: no block is stored, replaced or
 withdrawn before enough blocks were built on it, and a successful call goes exactly that far.
 */
module ChainConfirmed {
  import opened Wrappers
  import opened ChainStore
  import opened ChainProjector
  import opened ChainInvariant

  /** A pass that goes on changes nothing above the height it works towards, and leaves a cursor at most there. */
  lemma PassStaysBelow(scope: Scope, decode: Decoder, book: Book, repo: Repo, src: Source, tick: nat, safeHead: uint64)
    requires Inv(repo, scope, decode, book) && Genuine(book, src)
    ensures var p := Turn(scope, decode, repo, src, tick, safeHead);
      && (forall h: uint64 :: h > safeHead ==> CanonicalAt(p.repo, h) == CanonicalAt(repo, h))
      && (p.result.None? ==> p.repo.cursor.isSet && p.repo.cursor.height <= safeHead)
      && (p.result.Some? && p.result.value.1.None? ==>
            p.repo == repo && p.result.value.0 == repo.cursor && Reached(scope, repo.cursor, safeHead))
  {
    hide Apply, Rewind, Ancestor, CanonicalAt, Shelved, Linked;
    var cursor := repo.cursor;
    if !Reached(scope, cursor, safeHead) {
      var next := Target(scope, cursor);
      match src.Read(tick, next)
      case None =>
      case Some(block) =>
        if Malformed(block, next) {
        } else if cursor.isSet && block.parentHash != cursor.hash {
          AncestorIsHighest(repo, src, tick + 1, cursor.height, Lowest(scope, cursor.height));
          var search := Ancestor(repo, src, tick + 1, cursor.height, Lowest(scope, cursor.height));
          if search.found.Success? {
            RewindKeeps(repo, scope, decode, book, search.found.value);
          }
        } else if decode(block).Some? {
          ApplyKeeps(repo, scope, decode, book, block, decode(block).value);
        }
    }
  }

  lemma {:induction false} LoopStaysBelow(scope: Scope, decode: Decoder, book: Book, repo: Repo, src: Source, tick: nat, safeHead: uint64)
    requires Inv(repo, scope, decode, book) && Genuine(book, src)
    ensures forall h: uint64 :: h > safeHead ==> CanonicalAt(Loop(scope, decode, repo, src, tick, safeHead).repo, h) == CanonicalAt(repo, h)
    decreases if tick < src.patience then src.patience - tick else 0
  {
    hide Turn, CanonicalAt, Inv, Genuine;
    PassStaysBelow(scope, decode, book, repo, src, tick, safeHead);
    TurnKeeps(scope, decode, book, repo, src, tick, safeHead);
    var pass := Turn(scope, decode, repo, src, tick, safeHead);
    if pass.result.None? {
      LoopStaysBelow(scope, decode, book, pass.repo, src, pass.tick, safeHead);
    }
  }

  lemma ReachedBelow(scope: Scope, decode: Decoder, book: Book, repo: Repo, safeHead: uint64)
    requires Inv(repo, scope, decode, book) && scope.startBlock <= safeHead && (repo.cursor.isSet ==> repo.cursor.height <= safeHead)
    ensures Reached(scope, repo.cursor, safeHead) <==> repo.cursor.isSet && repo.cursor.height == safeHead
  {
    hide Shelved, Linked;
  }

  lemma {:induction false} LoopEndsThere(scope: Scope, decode: Decoder, book: Book, repo: Repo, src: Source, tick: nat, safeHead: uint64)
    requires Inv(repo, scope, decode, book) && Genuine(book, src)
    requires scope.startBlock <= safeHead && (repo.cursor.isSet ==> repo.cursor.height <= safeHead)
    ensures var o := Loop(scope, decode, repo, src, tick, safeHead);
      o.error.None? ==> o.cursor == o.repo.cursor && o.cursor.isSet && o.cursor.height == safeHead
    decreases if tick < src.patience then src.patience - tick else 0
  {
    hide Turn, Inv, Genuine, Reached;
    ReachedBelow(scope, decode, book, repo, safeHead);
    PassStaysBelow(scope, decode, book, repo, src, tick, safeHead);
    TurnKeeps(scope, decode, book, repo, src, tick, safeHead);
    var pass := Turn(scope, decode, repo, src, tick, safeHead);
    if pass.result.None? {
      LoopEndsThere(scope, decode, book, pass.repo, src, pass.tick, safeHead);
    }
  }

  /**
   After any history, whatever the source answers: wherever a call changes what is canonical, at least
   `confirmations` blocks up to the head it was told stand at or above that height.
   */
  lemma {:induction false} OnlyConfirmedChanges(scope: Scope, decode: Decoder, book: Book, history: seq<Source>, src: Source, h: uint64)
    requires scope.confirmations > 0 && Genuine(book, src)
    requires forall i :: 0 <= i < |history| ==> Genuine(book, history[i])
    requires var before := After(scope, decode, history); CanonicalAt(Sync(scope, decode, before, src).repo, h) != CanonicalAt(before, h)
    ensures src.head.Some? && h + scope.confirmations <= src.head.value + 1
  {
    hide Inv, Genuine, CanonicalAt, Loop;
    var before := After(scope, decode, history);
    ReachableInv(scope, decode, book, history);
    LoopStaysBelow(scope, decode, book, before, src, 0, SafeHead(scope, src.head.value));
  }

  /** There is confirmed work to do: the start block is confirmed and the cursor is below the last confirmed block. */
  predicate Behind(scope: Scope, cursor: Cursor, head: uint64) {
    && head < MAX_UINT64
    && scope.startBlock + scope.confirmations <= head + 1
    && (cursor.isSet ==> cursor.height + scope.confirmations <= head)
  }

  /**
   A call that gets its chain id and its head and succeeds ends with the cursor on the last block with
   enough confirmations if there was confirmed work to do; otherwise it reads nothing and changes nothing.
   */
  lemma {:induction false} SyncReachesTheLine(scope: Scope, decode: Decoder, book: Book, history: seq<Source>, src: Source)
    requires scope.confirmations > 0 && Genuine(book, src)
    requires forall i :: 0 <= i < |history| ==> Genuine(book, history[i])
    requires src.chainId == Some(scope.chainId) && src.head.Some?
    ensures var before := After(scope, decode, history); var o := Sync(scope, decode, before, src); var head := src.head.value;
      if Behind(scope, before.cursor, head) then
        o.error.None? ==> o.cursor == o.repo.cursor && o.cursor.isSet && o.cursor.height + scope.confirmations == head + 1
      else o == Outcome(before, before.cursor, None, 0, 0)
  {
    hide Genuine, CanonicalAt, Shelved, Linked;
    var before := After(scope, decode, history);
    ReachableInv(scope, decode, book, history);
    if Behind(scope, before.cursor, src.head.value) {
      hide Loop;
      LoopEndsThere(scope, decode, book, before, src, 0, SafeHead(scope, src.head.value));
    }
  }

  /** Without a matching chain id or a head the call fails before it reads a block. */
  lemma RefusedCallsReadNothing(scope: Scope, decode: Decoder, repo: Repo, src: Source)
    requires scope.confirmations > 0 && (src.chainId != Some(scope.chainId) || src.head.None?)
    ensures Sync(scope, decode, repo, src)
         == Outcome(repo, NO_CURSOR, Some(if src.chainId.Some? && src.chainId.value != scope.chainId then InvalidInput else SourceFailure), 0, 0)
  {
  }
}
