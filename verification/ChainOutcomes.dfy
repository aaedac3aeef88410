/** What the store does with a block and a rewind, and what a pass of the projector does with the answer it gets. */
module ChainOutcomes {
  import opened Wrappers
  import opened ChainStore
  import opened ChainProjector

  // ---- the store ----

  /** Nothing in the first i places is canonical or has the hash. */
  predicate FreeBefore(items: seq<Stored>, hash: string, i: nat) {
    i <= |items| && forall k :: 0 <= k < i ==> !items[k].canonical && items[k].block.hash != hash
  }

  /** Only this height's list changes, and the cursor moves onto the block. */
  predicate Puts(repo: Repo, after: Repo, block: Block) {
    && after.blocks.Keys == repo.blocks.Keys + {block.number}
    && (forall h :: h in repo.blocks && h != block.number ==> after.blocks[h] == repo.blocks[h])
    && after.cursor.isSet && after.cursor.height == block.number && after.cursor.hash == block.hash
  }

  /**
   A block that does not extend the cursor is a gap. Otherwise the first stored block that is canonical or
   has its hash decides: the same block becomes canonical again as it was stored, another canonical one is
   a gap, and without either the block is appended with its events.
   */
  lemma {:induction false} ApplyOutcome(repo: Repo, block: Block, events: seq<Event>, i: nat)
    ensures var (after, error) := Apply(repo, block, events);
      var items := if block.number in repo.blocks then repo.blocks[block.number] else [];
      if repo.cursor.isSet && !(block.parentHash == repo.cursor.hash && if repo.cursor.height < MAX_UINT64 then block.number == repo.cursor.height + 1 else block.number == 0) then
        after == repo && error == Some(Gap)
      else
        && (FreeBefore(items, block.hash, |items|) ==>
              error.None? && Puts(repo, after, block) && after.blocks[block.number] == items + [Stored(block, true, events)])
        && (i < |items| && FreeBefore(items, block.hash, i) && items[i].block.hash == block.hash ==>
              && error.None? && Puts(repo, after, block) && |after.blocks[block.number]| == |items|
              && after.blocks[block.number][i].canonical
              && after.blocks[block.number][i].block == items[i].block && after.blocks[block.number][i].events == items[i].events
              && forall k :: 0 <= k < |items| && k != i ==> after.blocks[block.number][k] == items[k])
        && (i < |items| && FreeBefore(items, block.hash, i) && items[i].canonical && items[i].block.hash != block.hash ==>
              after == repo && error == Some(Gap))
  {
    var items := At(repo, block.number);
    if i < |items| && FreeBefore(items, block.hash, i) && (items[i].canonical || items[i].block.hash == block.hash) {
      StopsAt(items, block.hash, i);
    }
    if FreeBefore(items, block.hash, |items|) {
      StopsAt(items, block.hash, |items|);
    }
    hide Stop;
  }

  lemma StopsAt(items: seq<Stored>, hash: string, i: nat)
    requires FreeBefore(items, hash, i) && (i < |items| ==> items[i].canonical || items[i].block.hash == hash)
    ensures Stop(items, hash) == i
  {
    var s := Stop(items, hash);
    hide Stop;
  }

  predicate Withdrawn(items: seq<Stored>, after: seq<Stored>) {
    |after| == |items| && forall k :: 0 <= k < |items| ==>
      !after[k].canonical && after[k].block == items[k].block && after[k].events == items[k].events
  }

  predicate FirstAt(items: seq<Stored>, i: nat) {
    i < |items| && items[i].canonical && forall k :: 0 <= k < i ==> !items[k].canonical
  }

  lemma {:induction false} FirstIs(items: seq<Stored>, i: nat)
    requires FirstAt(items, i)
    ensures FirstCanonical(items) == Some(items[i])
    decreases |items|
  {
    if i > 0 {
      assert !items[0].canonical;
      FirstIs(items[1..], i - 1);
    }
  }

  /** A rewind withdraws every block above the height and none below, and moves the cursor onto the first canonical block there. */
  lemma {:induction false} RewindOutcome(repo: Repo, ancestor: uint64, i: nat)
    ensures var (after, error) := Rewind(repo, ancestor);
      var items := if ancestor in repo.blocks then repo.blocks[ancestor] else [];
      && after.blocks.Keys == repo.blocks.Keys
      && (forall h :: h in repo.blocks ==>
            if h <= ancestor then after.blocks[h] == repo.blocks[h] else Withdrawn(repo.blocks[h], after.blocks[h]))
      && (FirstAt(items, i) ==> error.None? && after.cursor == Cursor(ancestor, items[i].block.hash, true))
      && ((forall k :: 0 <= k < |items| ==> !items[k].canonical) ==>
            if ancestor == 0 then error.None? && !after.cursor.isSet && after.cursor.height == 0 && after.cursor.hash == ""
            else error == Some(Gap) && after.cursor == repo.cursor)
  {
    var items := At(repo, ancestor);
    if FirstAt(items, i) {
      FirstIs(items, i);
    }
    hide FirstCanonical;
  }

  // ---- a pass ----

  predicate HexHash(value: string) {
    && |value| == 66 && value[0] == '0' && value[1] == 'x'
    && forall i :: 2 <= i < 66 ==> value[i] in "0123456789abcdef"
  }

  lemma HashIs(value: string)
    ensures ValidHash(value) <==> HexHash(value)
  {
    forall c: char
      ensures IsHexDigit(c) <==> c in "0123456789abcdef"
    {
      DigitIs(c);
    }
    hide IsHexDigit;
  }

  lemma DigitIs(c: char)
    ensures IsHexDigit(c) <==> c in "0123456789abcdef"
  {
    var digits := "0123456789abcdef";
    if '0' <= c <= '9' {
      assert digits[c as int - '0' as int] == c;
    } else if 'a' <= c <= 'f' {
      assert digits[10 + (c as int - 'a' as int)] == c;
    }
  }

  /** The block is what was asked for: its number, its hash and, above the first height, its parent's hash. */
  predicate WellFormed(block: Block, height: uint64) {
    block.number == height && HexHash(block.hash) && (height == 0 || HexHash(block.parentHash))
  }

  lemma MalformedIs(block: Block, height: uint64)
    ensures Malformed(block, height) <==> !WellFormed(block, height)
  {
    HashIs(block.hash);
    HashIs(block.parentHash);
    hide ValidHash, HexHash;
  }

  predicate Stays(p: Pass, repo: Repo, error: Option<Error>, tick: nat) {
    p.repo == repo && p.result == Some((repo.cursor, error)) && p.tick == tick && p.rewinds == 0
  }

  /** There is no confirmed block above the cursor, or none from the start block on. */
  predicate UpToDate(scope: Scope, cursor: Cursor, safeHead: uint64) {
    if cursor.isSet then cursor.height >= safeHead else scope.startBlock > safeHead
  }

  lemma WorksOn(scope: Scope, cursor: Cursor, safeHead: uint64)
    ensures Reached(scope, cursor, safeHead) <==> UpToDate(scope, cursor, safeHead)
    ensures !UpToDate(scope, cursor, safeHead) ==> Target(scope, cursor) == if cursor.isSet then cursor.height + 1 else scope.startBlock
  {
  }

  /**
   A pass asks for the block after the cursor. Without an answer, with a malformed block or one that cannot
   be decoded it fails and stores nothing; a linked block is applied, an unlinked one starts the search for
   the fork.
   */
  lemma {:induction false} PassOutcome(scope: Scope, decode: Decoder, repo: Repo, src: Source, tick: nat, safeHead: uint64)
    ensures var p := Turn(scope, decode, repo, src, tick, safeHead);
      if UpToDate(scope, repo.cursor, safeHead) then Stays(p, repo, None, tick)
      else
        var next: uint64 := if repo.cursor.isSet then repo.cursor.height + 1 else scope.startBlock;
        if tick >= src.patience || src.answer(tick, next).None? then Stays(p, repo, Some(SourceFailure), tick + 1)
        else
          var block := src.answer(tick, next).value;
          if !WellFormed(block, next) then Stays(p, repo, Some(Gap), tick + 1)
          else if repo.cursor.isSet && block.parentHash != repo.cursor.hash then p == TurnBack(scope, repo, src, tick + 1)
          else if decode(block).None? then Stays(p, repo, Some(DecodeFailure), tick + 1)
          else
            var (after, error) := Apply(repo, block, decode(block).value);
            p == Pass(after, tick + 1, 0, if error.Some? then Some((repo.cursor, error)) else None)
  {
    forall block, next: uint64
      ensures Malformed(block, next) <==> !WellFormed(block, next)
    {
      MalformedIs(block, next);
    }
    WorksOn(scope, repo.cursor, safeHead);
    hide Malformed, WellFormed, Apply, TurnBack, Reached, Target, UpToDate;
  }
}
