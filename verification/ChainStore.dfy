/**
 The canonical/orphaned block store of the chain projection
 (services/engine/internal/chain/memory.go), first as operations on values,
 then as a class whose fields the operations update.
 */
module ChainStore {
  import opened Wrappers

  const MAX_UINT64: nat := 0xFFFF_FFFF_FFFF_FFFF

  type uint64 = n: nat | n <= MAX_UINT64

  datatype Error = InvalidInput | Gap | ReorgTooDeep | SourceFailure | DecodeFailure

  /** Unsigned 64-bit increment, which wraps. */
  function Succ(n: uint64): uint64 {
    if n == MAX_UINT64 then 0 else n + 1
  }

  // body stands for the timestamp, the transactions and their logs
  datatype Block = Block(number: uint64, hash: string, parentHash: string, body: string)

  datatype Event = Event(id: string, transactionHash: string, payload: string)

  datatype Cursor = Cursor(height: uint64, hash: string, isSet: bool)

  const NO_CURSOR := Cursor(0, "", false)

  datatype Stored = Stored(block: Block, canonical: bool, events: seq<Event>)

  datatype Repo = Repo(blocks: map<uint64, seq<Stored>>, cursor: Cursor)

  const EMPTY := Repo(map[], NO_CURSOR)

  /** The blocks stored at one height, oldest first; none for a missing key. */
  function At(repo: Repo, height: uint64): seq<Stored> {
    if height in repo.blocks then repo.blocks[height] else []
  }

  /** The first canonical block of a height's list. */
  function FirstCanonical(items: seq<Stored>): (r: Option<Stored>)
    ensures r.None? <==> forall k :: 0 <= k < |items| ==> !items[k].canonical
    ensures r.Some? ==> exists k :: 0 <= k < |items| && items[k] == r.value && r.value.canonical
  {
    if items == [] then None
    else if items[0].canonical then Some(items[0])
    else FirstCanonical(items[1..])
  }

  function CanonicalAt(repo: Repo, height: uint64): Option<Stored> {
    FirstCanonical(At(repo, height))
  }

  /** Position of the first block that is canonical or has this hash. */
  function Stop(items: seq<Stored>, hash: string): (i: nat)
    ensures i <= |items|
    ensures forall k :: 0 <= k < i ==> !items[k].canonical && items[k].block.hash != hash
    ensures i < |items| ==> items[i].canonical || items[i].block.hash == hash
  {
    if items == [] || items[0].canonical || items[0].block.hash == hash then 0
    else 1 + Stop(items[1..], hash)
  }

  function CursorOn(block: Block): Cursor {
    Cursor(block.number, block.hash, true)
  }

  /** ApplyBlock: a known hash is made canonical again, a new one is appended. */
  function Apply(repo: Repo, block: Block, events: seq<Event>): (Repo, Option<Error>) {
    if repo.cursor.isSet && (block.number != Succ(repo.cursor.height) || block.parentHash != repo.cursor.hash) then
      (repo, Some(Gap))
    else
      var items := At(repo, block.number);
      var i := Stop(items, block.hash);
      if i == |items| then
        (Repo(repo.blocks[block.number := items + [Stored(block, true, events)]], CursorOn(block)), None)
      else if items[i].block.hash == block.hash then
        (Repo(repo.blocks[block.number := items[i := items[i].(canonical := true)]], CursorOn(block)), None)
      else
        (repo, Some(Gap))
  }

  function Orphan(items: seq<Stored>): (r: seq<Stored>)
    ensures |r| == |items|
    ensures forall k :: 0 <= k < |r| ==> r[k] == items[k].(canonical := false)
  {
    seq(|items|, k requires 0 <= k < |items| => items[k].(canonical := false))
  }

  function OrphanAbove(blocks: map<uint64, seq<Stored>>, ancestor: uint64): map<uint64, seq<Stored>> {
    map h | h in blocks :: if h > ancestor then Orphan(blocks[h]) else blocks[h]
  }

  /** Rewind: everything above the ancestor is orphaned and the cursor moves to its canonical block. */
  function Rewind(repo: Repo, ancestor: uint64): (Repo, Option<Error>) {
    var blocks := OrphanAbove(repo.blocks, ancestor);
    match FirstCanonical(if ancestor in blocks then blocks[ancestor] else [])
    case Some(found) => (Repo(blocks, Cursor(ancestor, found.block.hash, true)), None)
    case None =>
      if ancestor == 0 then (Repo(blocks, NO_CURSOR), None) else (Repo(blocks, repo.cursor), Some(Gap))
  }

  /** The in-memory repository; one object is shared by all callers and guarded by a mutex. */
  class MemoryRepository {
    var blocks: map<uint64, seq<Stored>>
    var cursor: Cursor

    constructor ()
      ensures Value() == EMPTY
    {
      blocks, cursor := map[], NO_CURSOR;
    }

    function Value(): Repo
      reads this
    {
      Repo(blocks, cursor)
    }

    method CanonicalHash(height: uint64) returns (hash: Option<string>)
      ensures hash == match CanonicalAt(Value(), height) { case Some(s) => Some(s.block.hash) case None => None }
    {
      var items := if height in blocks then blocks[height] else [];
      var i := 0;
      while i < |items|
        invariant 0 <= i <= |items|
        invariant FirstCanonical(items) == FirstCanonical(items[i..])
      {
        if items[i].canonical {
          return Some(items[i].block.hash);
        }
        i := i + 1;
      }
      return None;
    }

    method ApplyBlock(block: Block, events: seq<Event>) returns (error: Option<Error>)
      modifies this
      ensures (Value(), error) == Apply(old(Value()), block, events)
    {
      if cursor.isSet && (block.number != Succ(cursor.height) || block.parentHash != cursor.hash) {
        return Some(Gap);
      }
      var items := if block.number in blocks then blocks[block.number] else [];
      var i := 0;
      while i < |items|
        invariant 0 <= i <= |items|
        invariant Stop(items, block.hash) == i + Stop(items[i..], block.hash)
        invariant Value() == old(Value())
      {
        if items[i].block.hash == block.hash {
          blocks := blocks[block.number := items[i := items[i].(canonical := true)]];
          cursor := CursorOn(block);
          return None;
        }
        if items[i].canonical {
          return Some(Gap);
        }
        i := i + 1;
      }
      blocks := blocks[block.number := items + [Stored(block, true, events)]];
      cursor := CursorOn(block);
      return None;
    }

    /** The loop that orphans everything above the ancestor. */
    method OrphanBlocks(ancestor: uint64)
      modifies this`blocks
      ensures blocks == OrphanAbove(old(blocks), ancestor)
    {
      hide Orphan;
      var todo := blocks.Keys;
      while todo != {}
        invariant todo <= old(blocks).Keys && blocks.Keys == old(blocks).Keys
        invariant forall h :: h in blocks && h !in todo ==>
          blocks[h] == if h > ancestor then Orphan(old(blocks)[h]) else old(blocks)[h]
        invariant forall h :: h in todo ==> blocks[h] == old(blocks)[h]
        decreases todo
      {
        var h :| h in todo;
        if h > ancestor {
          blocks := blocks[h := Orphan(blocks[h])];
        }
        todo := todo - {h};
      }
    }

    method RewindTo(ancestor: uint64) returns (error: Option<Error>)
      modifies this
      ensures (Value(), error) == Rewind(old(Value()), ancestor)
    {
      hide OrphanAbove;
      OrphanBlocks(ancestor);
      var items := if ancestor in blocks then blocks[ancestor] else [];
      var i := 0;
      while i < |items|
        invariant 0 <= i <= |items|
        invariant FirstCanonical(items) == FirstCanonical(items[i..])
      {
        if items[i].canonical {
          cursor := Cursor(ancestor, items[i].block.hash, true);
          return None;
        }
        i := i + 1;
      }
      if ancestor == 0 {
        cursor := NO_CURSOR;
        return None;
      }
      return Some(Gap);
    }
  }
}
