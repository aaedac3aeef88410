/**
 The projector of services/engine/internal/chain/projector.go: the sync and
 rewind loop over a chain source that may reorganise between any two reads.
 */
module ChainProjector {
  import opened Wrappers
  import opened ChainStore

  datatype Scope = Scope(chainId: string, startBlock: uint64, confirmations: uint64, maxReorgDepth: uint64)

  /**
   A chain source as seen by one call: the answer to its t-th block read may be
   anything, so `answer` covers every reorganisation and every inconsistent node.
   `patience` is the number of reads after which the call's context has expired.
   */
  datatype Source = Source(
    chainId: Option<string>,
    head: Option<uint64>,
    answer: (nat, uint64) -> Option<Block>,
    patience: nat)
  {
    function Read(tick: nat, height: uint64): Option<Block> {
      if tick < patience then answer(tick, height) else None
    }
  }

  type Decoder = Block -> Option<seq<Event>>

  function IsHexDigit(c: char): bool { '0' <= c <= '9' || 'a' <= c <= 'f' }

  function ValidHash(value: string): bool {
    |value| == 66 && value[0] == '0' && value[1] == 'x' &&
    forall i :: 2 <= i < 66 ==> IsHexDigit(value[i])
  }

  function Lowest(scope: Scope, height: uint64): (r: uint64)
    ensures r <= height
  {
    if height > scope.maxReorgDepth then height - scope.maxReorgDepth else 0
  }

  datatype Search = Search(found: Result<uint64, Error>, tick: nat)

  /** Does the block read at this tick carry the hash that is canonical at this height? */
  predicate Agrees(repo: Repo, src: Source, tick: nat, height: uint64) {
    CanonicalAt(repo, height).Some? && src.Read(tick, height).Some? &&
    src.Read(tick, height).value.hash == CanonicalAt(repo, height).value.block.hash
  }

  /** commonAncestor, walking down from a height; one block read per height. */
  function Ancestor(repo: Repo, src: Source, tick: nat, height: uint64, lowest: uint64): (s: Search)
    requires lowest <= height
    ensures s.tick >= tick
    decreases height
  {
    if src.Read(tick, height).None? then Search(Failure(SourceFailure), tick + 1)
    else if Agrees(repo, src, tick, height) then Search(Success(height), tick + 1)
    else if height == lowest then Search(Failure(ReorgTooDeep), tick + 1)
    else Ancestor(repo, src, tick + 1, height - 1, lowest)
  }

  /** What one call did: the repository it left, its result, the reads and the rewinds it made. */
  datatype Outcome = Outcome(repo: Repo, cursor: Cursor, error: Option<Error>, tick: nat, rewinds: nat)

  predicate Malformed(block: Block, next: uint64) {
    block.number != next || !ValidHash(block.hash) || (next > 0 && !ValidHash(block.parentHash))
  }

  /** One pass of SyncOnce's loop: `result` is set when the pass returns from the call. */
  datatype Pass = Pass(repo: Repo, tick: nat, rewinds: nat, result: Option<(Cursor, Option<Error>)>)

  function Return(repo: Repo, cursor: Cursor, error: Option<Error>, tick: nat): Pass {
    Pass(repo, tick, 0, Some((cursor, error)))
  }

  function Target(scope: Scope, cursor: Cursor): uint64 {
    if cursor.isSet then Succ(cursor.height) else scope.startBlock
  }

  predicate Reached(scope: Scope, cursor: Cursor, safeHead: uint64) {
    (cursor.isSet && cursor.height >= safeHead) || Target(scope, cursor) > safeHead
  }

  function Turn(scope: Scope, decode: Decoder, repo: Repo, src: Source, tick: nat, safeHead: uint64): (p: Pass)
    ensures p.tick >= tick
    ensures p.result.None? ==> tick < src.patience && p.tick > tick
  {
    var cursor := repo.cursor;
    if Reached(scope, cursor, safeHead) then Return(repo, cursor, None, tick)
    else
      var next := Target(scope, cursor);
      match src.Read(tick, next)
      case None => Return(repo, cursor, Some(SourceFailure), tick + 1)
      case Some(block) =>
        if Malformed(block, next) then Return(repo, cursor, Some(Gap), tick + 1)
        else if cursor.isSet && block.parentHash != cursor.hash then
          TurnBack(scope, repo, src, tick + 1)
        else
          match decode(block)
          case None => Return(repo, cursor, Some(DecodeFailure), tick + 1)
          case Some(events) =>
            var (applied, failed) := Apply(repo, block, events);
            Pass(applied, tick + 1, 0, if failed.Some? then Some((cursor, failed)) else None)
  }

  /** The fork branch: find the common ancestor of the cursor's chain and rewind to it. */
  function TurnBack(scope: Scope, repo: Repo, src: Source, tick: nat): (p: Pass)
    ensures p.tick >= tick
  {
    var search := Ancestor(repo, src, tick, repo.cursor.height, Lowest(scope, repo.cursor.height));
    match search.found
    case Failure(e) => Return(repo, repo.cursor, Some(e), search.tick)
    case Success(ancestor) =>
      var (rewound, failed) := Rewind(repo, ancestor);
      Pass(rewound, search.tick, 1, if failed.Some? then Some((repo.cursor, failed)) else None)
  }

  /** The loop of SyncOnce, from the repository and the read count reached so far. */
  function Loop(scope: Scope, decode: Decoder, repo: Repo, src: Source, tick: nat, safeHead: uint64): (o: Outcome)
    decreases if tick < src.patience then src.patience - tick else 0
  {
    var pass := Turn(scope, decode, repo, src, tick, safeHead);
    match pass.result
    case Some((cursor, error)) => Outcome(pass.repo, cursor, error, pass.tick, pass.rewinds)
    case None =>
      var rest := Loop(scope, decode, pass.repo, src, pass.tick, safeHead);
      rest.(rewinds := pass.rewinds + rest.rewinds)
  }

  /** SyncOnce from its entry checks on; the head test is computed in 64-bit arithmetic. */
  function Sync(scope: Scope, decode: Decoder, repo: Repo, src: Source): Outcome
    requires scope.confirmations > 0
  {
    if src.chainId.None? then Outcome(repo, NO_CURSOR, Some(SourceFailure), 0, 0)
    else if src.chainId.value != scope.chainId then Outcome(repo, NO_CURSOR, Some(InvalidInput), 0, 0)
    else if src.head.None? then Outcome(repo, NO_CURSOR, Some(SourceFailure), 0, 0)
    else if Succ(src.head.value) < scope.confirmations then Outcome(repo, repo.cursor, None, 0, 0)
    else Loop(scope, decode, repo, src, 0, SafeHead(scope, src.head.value))
  }

  function SafeHead(scope: Scope, head: uint64): uint64
    requires scope.confirmations > 0 && scope.confirmations <= Succ(head)
  {
    head - (scope.confirmations - 1)
  }

  /** A projector bound to one repository and one scope. */
  class Projector {
    const scope: Scope
    const repository: MemoryRepository
    const decode: Decoder

    constructor (scope: Scope, repository: MemoryRepository, decode: Decoder)
      requires scope.confirmations > 0 && scope.maxReorgDepth > 0
      ensures this.scope == scope && this.repository == repository && this.decode == decode
    {
      this.scope, this.repository, this.decode := scope, repository, decode;
    }

    /**
     The highest height within the reorganisation depth at which the repository and
     the source agree; too deep exactly when every height was read and none agrees.
     */
    method CommonAncestor(src: Source, tick: nat, cursor: Cursor) returns (s: Search)
      ensures s == Ancestor(repository.Value(), src, tick, cursor.height, Lowest(scope, cursor.height))
    {
      var lowest := 0;
      if cursor.height > scope.maxReorgDepth {
        lowest := cursor.height - scope.maxReorgDepth;
      }
      var height, now := cursor.height, tick;
      while true
        invariant lowest <= height && lowest == Lowest(scope, cursor.height)
        invariant Ancestor(repository.Value(), src, now, height, lowest)
               == Ancestor(repository.Value(), src, tick, cursor.height, lowest)
        decreases height
      {
        var canonical := repository.CanonicalHash(height);
        var candidate := src.Read(now, height);
        now := now + 1;
        if candidate.None? {
          return Search(Failure(SourceFailure), now);
        }
        if canonical.Some? && candidate.value.hash == canonical.value {
          return Search(Success(height), now);
        }
        if height == lowest || height == 0 {
          return Search(Failure(ReorgTooDeep), now);
        }
        height := height - 1;
      }
    }

    method TakeTurn(src: Source, tick: nat, safeHead: uint64) returns (now: nat, rewinds: nat, result: Option<(Cursor, Option<Error>)>)
      modifies repository
      ensures Pass(repository.Value(), now, rewinds, result) == Turn(scope, decode, old(repository.Value()), src, tick, safeHead)
    {
      var cursor := repository.cursor;
      var next := scope.startBlock;
      if cursor.isSet {
        if cursor.height >= safeHead {
          return tick, 0, Some((cursor, None));
        }
        next := cursor.height + 1;
      }
      if next > safeHead {
        return tick, 0, Some((cursor, None));
      }
      var answer := src.Read(tick, next);
      now := tick + 1;
      if answer.None? {
        return now, 0, Some((cursor, Some(SourceFailure)));
      }
      var block := answer.value;
      if Malformed(block, next) {
        return now, 0, Some((cursor, Some(Gap)));
      }
      if cursor.isSet && block.parentHash != cursor.hash {
        var search := CommonAncestor(src, now, cursor);
        now := search.tick;
        if search.found.Failure? {
          return now, 0, Some((cursor, Some(search.found.error)));
        }
        var failed := repository.RewindTo(search.found.value);
        return now, 1, if failed.Some? then Some((cursor, failed)) else None;
      }
      var events := decode(block);
      if events.None? {
        return now, 0, Some((cursor, Some(DecodeFailure)));
      }
      var failed := repository.ApplyBlock(block, events.value);
      return now, 0, if failed.Some? then Some((cursor, failed)) else None;
    }

    method SyncOnce(src: Source) returns (cursor: Cursor, error: Option<Error>, tick: nat, rewinds: nat)
      requires scope.confirmations > 0
      modifies repository
      ensures Outcome(repository.Value(), cursor, error, tick, rewinds)
           == Sync(scope, decode, old(repository.Value()), src)
    {
      if src.chainId.None? {
        return NO_CURSOR, Some(SourceFailure), 0, 0;
      }
      if src.chainId.value != scope.chainId {
        return NO_CURSOR, Some(InvalidInput), 0, 0;
      }
      if src.head.None? {
        return NO_CURSOR, Some(SourceFailure), 0, 0;
      }
      var head := src.head.value;
      if Succ(head) < scope.confirmations {
        return repository.cursor, None, 0, 0;
      }
      var safeHead := SafeHead(scope, head);
      tick, rewinds := 0, 0;
      var result: Option<(Cursor, Option<Error>)> := None;
      while result.None?
        invariant result.None? ==>
          var rest := Loop(scope, decode, repository.Value(), src, tick, safeHead);
          rest.(rewinds := rewinds + rest.rewinds) == Sync(scope, decode, old(repository.Value()), src)
        invariant result.Some? ==>
          Outcome(repository.Value(), result.value.0, result.value.1, tick, rewinds) == Sync(scope, decode, old(repository.Value()), src)
        decreases result.None?, if tick < src.patience then src.patience - tick else 0
      {
        var rewound;
        tick, rewound, result := TakeTurn(src, tick, safeHead);
        rewinds := rewinds + rewound;
      }
      return result.value.0, result.value.1, tick, rewinds;
    }
  }
}
