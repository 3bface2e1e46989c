/**
 The engine tree: validating and connecting blocks, and moving the canonical head.
 */
module EngineTrees {
  import opened Blocks
  import opened ChainStates
  import opened ChainSwitch
  import opened CanonicalIndex
  import opened ChainRuns
  import opened InvalidAncestors
  import opened B = BlockBuffers
  import opened TreeSpecs
  import opened BlockHandling

  class EngineTree {
    const chain: ChainState
    const buffer: BlockBuffer
    const cache: InvalidHeaderCache
    const rules: Rules
    var head: NumHash
    var syncTarget: Option<Hash>
    var store: set<Code>
    ghost const genesis: Header
    ghost var executed: seq<(Hash, Witness)>
    ghost var history: seq<ChainEvent>
    ghost var failures: seq<Hash>
    ghost var evictions: seq<Hash>

    ghost function View(): TreeView
      reads this, chain, buffer, cache
    {
      TreeView(chain.View(), head, buffer.View(), store, executed, history, cache.failed, failures, evictions,
               cache.View())
    }

    ghost predicate Valid()
      reads this, chain, buffer, cache
    {
      && chain.Valid() && buffer.Valid() && cache.Valid() && buffer.limit == 256
      && Tracked(genesis, chain.View(), head, history) && Lawful(rules, history) && AllBreak(rules, cache.failed)
    }

    constructor (genesis: Header, rules: Rules, codes: set<Code>)
      requires IsGenesis(genesis)
      ensures Valid() && this.rules == rules && this.genesis == genesis && fresh(chain) && fresh(buffer) && fresh(cache)
      ensures head == genesis.ToNumHash() && syncTarget == None && store == codes && executed == [] && history == []
      ensures Gated(View()) && buffer.missing == map[] && buffer.blocks == map[]
      ensures cache.failed == {} && failures == [] && evictions == [] && cache.View() == CacheView(map[], [])
    {
      chain := new ChainState(genesis);
      buffer := new BlockBuffer(256);
      cache := new InvalidHeaderCache();
      head := genesis.ToNumHash();
      this.rules, this.genesis, syncTarget, store := rules, genesis, None, codes;
      executed, history, failures, evictions := [], [], [], [];
      new;
      TrackedStart(genesis, chain.View());
    }

    /** Puts a block into the buffer and records what that pushes out. */
    method BufferBlock(block: Header)
      requires Valid()
      modifies this`evictions, buffer
      ensures Valid() && View() == WithBlock(old(View()), block, buffer.limit)
    {
      evictions := evictions + PushedOut(buffer.View(), block, buffer.limit);
      buffer.InsertBlock(block);
    }

    method InsertBlock(block: Header, maybeWitness: Option<Witness>) returns (r: InsertResult)
      requires Valid()
      modifies this`executed, this`history, this`evictions, chain, buffer
      ensures Valid() && InsertEffect(rules, old(View()), block, maybeWitness, r, View(), buffer.limit)
      ensures r.Rejected? ==> Breaks(rules, HashOf(block))
    {
      if HashOf(block) in chain.blocks {
        return AlreadySeen;
      }
      if !rules.blockOk(block) {
        return Rejected;
      }
      if block.parent !in chain.blocks {
        r := BufferDisconnected(block, maybeWitness);
        return;
      }
      if !FitsParent(rules, chain.blocks, block) {
        return Rejected;
      }
      if maybeWitness.None? {
        BufferBlock(block);
        return NoWitness;
      }
      r := Execute(block, maybeWitness.value);
    }

    /** Buffers a block whose parent is not in memory and names the ancestor to fetch. */
    method BufferDisconnected(block: Header, maybeWitness: Option<Witness>) returns (r: InsertResult)
      requires Valid()
      modifies this`evictions, buffer
      ensures Valid() && r.Disconnected?
      ensures exists low :: WaitsFor(old(buffer.blocks), block, low, r.missingAncestor)
      ensures View() == WithBlock(old(View()).(buffer := Given(old(buffer.View()), HashOf(block), maybeWitness)), block,
                                  buffer.limit)
    {
      var low := buffer.LowestAncestor(block.parent);
      var missing := if low.Some? then low.value.ParentNumHash() else block.ParentNumHash();
      assert WaitsFor(buffer.blocks, block, low, missing);
      if maybeWitness.Some? {
        buffer.InsertWitness(HashOf(block), maybeWitness.value, {});
      }
      BufferBlock(block);
      return Disconnected(missing);
    }

    method Execute(block: Header, wit: Witness) returns (r: InsertResult)
      requires Valid() && rules.blockOk(block) && FitsParent(rules, chain.blocks, block)
      modifies this`executed, this`history, chain
      ensures Valid() && executed == old(executed) + [(HashOf(block), wit)]
      ensures match rules.execute(block, wit)
              case Crashes => r == Fatal && chain.View() == old(chain.View()) && history == old(history)
              case Fails => r == Rejected && chain.View() == old(chain.View()) && history == old(history)
              case Succeeds =>
                && r == Connected && chain.View() == Insert(old(chain.View()), block, Some(wit))
                && history == old(history) + [BlockExecuted(block, wit)]
    {
      executed := executed + [(HashOf(block), wit)];
      match rules.execute(block, wit)
      case Crashes => return Fatal;
      case Fails => return Rejected;
      case Succeeds =>
        TrackedNext(genesis, chain.View(), head, history, BlockExecuted(block, wit));
        LawfulNext(rules, history, BlockExecuted(block, wit));
        chain.InsertBlock(block, Some(wit));
        history := history + [BlockExecuted(block, wit)];
        return Connected;
    }

    /** Marks a rejected block invalid and finds the latest valid hash to report for it. */
    method OnInsertBlockError(block: Header) returns (status: PayloadStatus)
      requires Valid() && Breaks(rules, HashOf(block))
      modifies this`failures, cache
      ensures Valid() && Rejects(old(View()), block, status, View())
    {
      ghost var t := View();
      var latest := LatestValidHashForInvalidPayload(chain, cache, block.parent);
      ghost var walked := cache.View();
      RecordFailure(block);
      if latest.Some? {
        FailedAnswers(walked.entries, t.failed + {HashOf(block)}, t.failed, chain.blocks, block);
      }
      RejectsWith(t, block, latest, walked, View());
      status := PayloadInvalid(latest);
    }

    /** Notes that a block has failed. */
    method RecordFailure(block: Header)
      requires Valid() && Breaks(rules, HashOf(block))
      modifies this`failures, cache
      ensures Valid() && View() == WithFailure(old(View()), HashOf(block)).(cache := cache.View())
      ensures Recorded(old(cache.View()), HashOf(block), BlockWithParent(HashOf(block), block.parent), cache.View())
    {
      cache.Insert(block);
      failures := failures + [HashOf(block)];
    }

    /** Makes the target canonical if memory connects it to the current head. */
    method MakeCanonical(target: Hash) returns (moved: bool, ghost update: Option<NewCanonicalChain>)
      requires Valid()
      modifies this`head, this`history, chain
      ensures Valid() && View() == Switched(old(View()), target, update) && Justly(old(View()), target, update)
      ensures moved == update.Some? && (moved ==> target.HashOf? && target in chain.blocks)
    {
      var found := OnNewHead(chain, head, target);
      update, moved := found, found.Some?;
      if moved {
        SwitchTo(target, found.value);
      }
    }

    method SwitchTo(target: Hash, update: NewCanonicalChain)
      requires Valid() && target.HashOf? && |update.added| > 0 && update.added[|update.added| - 1] == target.header
      requires Sound(chain.View(), head) ==> IsUpdate(chain.blocks, head.hash, target, Some(update))
      modifies this`head, this`history, chain
      ensures Valid() && View() == Switched(old(View()), target, Some(update))
    {
      TrackedSwitch(genesis, chain.View(), head, history, target, update);
      OnCanonicalChainUpdate(update);
      history := history + [HeadRequested(target, update)];
    }

    method OnCanonicalChainUpdate(update: NewCanonicalChain)
      requires chain.Valid() && |update.added| > 0
      modifies this`head, chain
      ensures chain.Valid() && head == update.added[|update.added| - 1].ToNumHash()
      ensures chain.View() == old(chain.View()).(canonical := Applied(old(chain.canonical), update))
    {
      head := update.added[|update.added| - 1].ToNumHash();
      OnChainUpdate(chain, update.added, update.Removed());
    }

    /** Connects what was waiting for a block, directly or further down. Yields false on a fatal error. */
    method TryConnectBufferedBlocks(parentHash: Hash) returns (ok: bool, ghost log: ConnectLog)
      requires Valid()
      modifies this, chain, buffer, cache
      ensures Valid() && syncTarget == old(syncTarget)
      ensures Connects(rules, buffer.limit, syncTarget, old(View()), parentHash, log, ok, View())
    {
      ghost var a := View();
      var blocks := buffer.RemoveBlockWithChildren(parentHash);
      ghost var start, connections := View(), [];
      for i := 0 to |blocks|
        invariant Valid() && syncTarget == old(syncTarget) && |connections| == i && Alive(connections)
        invariant Connecting(rules, buffer.limit, syncTarget, start, blocks, connections)
        invariant View() == TreeAfter(start, connections)
      {
        ghost var c;
        ok, c := ConnectOne(blocks[i].0, blocks[i].1);
        ConnectingNext(rules, buffer.limit, syncTarget, start, blocks, connections, c);
        connections := connections + [c];
        if !ok {
          ConnectsDone(rules, buffer.limit, syncTarget, a, parentHash, start, blocks, connections);
          return ok, ConnectLog(blocks, start.buffer, connections);
        }
      }
      ConnectsDone(rules, buffer.limit, syncTarget, a, parentHash, start, blocks, connections);
      return true, ConnectLog(blocks, start.buffer, connections);
    }

    method ConnectOne(child: Header, wit: Witness) returns (ok: bool, ghost c: Connection)
      requires Valid()
      modifies this, chain, buffer, cache
      ensures Valid() && syncTarget == old(syncTarget) && View() == c.after && ok == !c.result.Fatal?
      ensures ConnectEffect(rules, buffer.limit, syncTarget, old(View()), (child, wit), c)
    {
      ghost var a := View();
      var r := InsertBlock(child, Some(wit));
      assert a == old(View()) && syncTarget == old(syncTarget);
      ok, c := FinishConnecting(child, wit, r, a);
    }

    method FinishConnecting(child: Header, ghost wit: Witness, r: InsertResult, ghost a: TreeView)
        returns (ok: bool, ghost c: Connection)
      requires Valid() && InsertEffect(rules, a, child, Some(wit), r, View(), buffer.limit)
      requires r.Rejected? ==> Breaks(rules, HashOf(child))
      modifies this`head, this`history, this`failures, chain, cache
      ensures Valid() && View() == c.after && ok == !c.result.Fatal?
      ensures ConnectEffect(rules, buffer.limit, syncTarget, a, (child, wit), c)
    {
      c := AfterConnecting(child, r);
      ConnectDone(rules, buffer.limit, syncTarget, a, child, wit, c);
      ok := !r.Fatal?;
    }

    /** What follows an attempt to connect a buffered child. */
    method AfterConnecting(child: Header, r: InsertResult) returns (ghost c: Connection)
      requires Valid() && (r.Rejected? ==> Breaks(rules, HashOf(child)))
      modifies this`head, this`history, this`failures, chain, cache
      ensures Valid() && c.result == r && c.mid == old(View()) && c.after == View()
      ensures AfterConnect(syncTarget, child, c)
    {
      ghost var mid, update := View(), None;
      if r.Rejected? {
        var _ := OnInsertBlockError(child);
      } else if r.Connected? && syncTarget == Some(HashOf(child)) {
        var _, switched := MakeCanonical(HashOf(child));
        update := switched;
      }
      c := Connection(r, mid, update, View());
    }

    /** The hash below everything buffered on the path from `hash`, or `hash` itself. */
    method LowestBufferedAncestorOr(hash: Hash) returns (r: Hash)
      requires Valid()
      ensures Gap(buffer.blocks, hash, r) && (r == hash <==> hash !in buffer.blocks)
    {
      var low := buffer.LowestAncestor(hash);
      LowestIsGap(buffer.blocks, hash, low);
      r := if low.Some? then low.value.parent else hash;
    }

    /** What follows the insertion of a new payload or a downloaded block. */
    method AfterInsertion(block: Header, r: InsertResult, connectSeen: bool)
        returns (outcome: TreeOutcome<PayloadStatus>, ghost joined: ConnectLog)
      requires Valid() && (r.Rejected? ==> Breaks(rules, HashOf(block)))
      modifies this, chain, buffer, cache
      ensures Valid() && syncTarget == old(syncTarget)
      ensures AfterInserting(rules, old(View()), block, r, connectSeen, syncTarget, joined, outcome, View(),
                             buffer.limit)
    {
      joined := ConnectLog([], buffer.View(), []);
      match r
      case NoWitness => return Outcome(Syncing, Some(DownloadWitness(HashOf(block)))), joined;
      case Disconnected(missing) => return Outcome(Syncing, Some(DownloadBlock(missing.hash))), joined;
      case Fatal => return Failure, joined;
      case Rejected =>
        var status := OnInsertBlockError(block);
        return Outcome(status, None), joined;
      case _ =>
        if Follows(r, connectSeen) {
          var ok;
          ok, joined := TryConnectBufferedBlocks(HashOf(block));
          if !ok {
            return Failure, joined;
          }
        }
        var canonical := syncTarget == Some(HashOf(block)) && Follows(r, connectSeen);
        outcome := Outcome(PayloadValid(HashOf(block)), if canonical then Some(Canonicalize(HashOf(block))) else None);
    }

    /**
     A payload from the consensus layer. Unless it is malformed or known bad, the answer follows
     from its insertion.
     */
    method OnNewPayload(payload: Payload, maybeWitness: Option<Witness>)
        returns (outcome: TreeOutcome<PayloadStatus>, ghost log: HandleLog)
      requires Valid()
      modifies this, chain, buffer, cache
      ensures Valid() && syncTarget == old(syncTarget)
      ensures HandlesPayload(rules, old(View()), payload, maybeWitness, syncTarget, log, outcome, View(), buffer.limit)
    {
      if payload.Malformed? {
        log := Refused(payload.parent, cache.View());
        var latest := OnMalformed(payload.parent, payload.hashFault);
        return Outcome(PayloadInvalid(latest), None), log;
      }
      var block := payload.block;
      var check := LowestBufferedAncestorOr(HashOf(block));
      if check == HashOf(block) {
        check := block.parent;
      }
      outcome, log := HandleBlock(block, maybeWitness, check, true);
    }

    /** The latest valid hash of a payload that could not be decoded. */
    method OnMalformed(parent: Hash, hashFault: bool) returns (latest: Option<Hash>)
      requires Valid()
      modifies cache`entries, cache`dropped
      ensures Valid() && View() == old(View()).(cache := cache.View())
      ensures MalformedAnswer(old(View()), parent, hashFault, latest, cache.View())
    {
      latest := None;
      if !hashFault {
        latest := LatestValidHashForInvalidPayload(chain, cache, parent);
        if latest.Some? {
          LatestValidSound(cache.entries, cache.failed, chain.blocks, parent);
        }
      }
    }

    /** Answers for a block that is known to be bad, or inserts it. */
    method HandleBlock(block: Header, maybeWitness: Option<Witness>, check: Hash, connectSeen: bool)
        returns (outcome: TreeOutcome<PayloadStatus>, ghost log: HandleLog)
      requires Valid() && AncestorOrSelf(check, HashOf(block))
      requires ChecksAt(buffer.blocks, block, connectSeen, check)
      modifies this, chain, buffer, cache
      ensures Valid() && syncTarget == old(syncTarget)
      ensures Handles(rules, old(View()), block, maybeWitness, connectSeen, syncTarget, log, outcome, View(),
                      buffer.limit)
    {
      var bad, checked := CheckInvalidAncestorWithHead(chain, cache, check, HashOf(block));
      if bad.Some? {
        return Outcome(PayloadInvalid(bad), None), Refused(check, checked);
      }
      ghost var result, inserted, joined;
      outcome, result, inserted, joined := InsertPayload(block, maybeWitness, connectSeen);
      log := Tried(check, checked, result, inserted, joined);
    }

    method InsertPayload(block: Header, maybeWitness: Option<Witness>, connectSeen: bool)
        returns (outcome: TreeOutcome<PayloadStatus>, ghost result: InsertResult, ghost inserted: TreeView,
                 ghost joined: ConnectLog)
      requires Valid()
      modifies this, chain, buffer, cache
      ensures Valid() && syncTarget == old(syncTarget)
      ensures InsertEffect(rules, old(View()), block, maybeWitness, result, inserted, buffer.limit)
      ensures AfterInserting(rules, inserted, block, result, connectSeen, syncTarget, joined, outcome, View(),
                             buffer.limit)
    {
      var r := InsertBlock(block, maybeWitness);
      result, inserted, joined := r, View(), ConnectLog([], buffer.View(), []);
      outcome, joined := AfterInsertion(block, r, connectSeen);
    }

    /** A block from the network, always with its witness. */
    method OnDownloadedBlock(block: Header, wit: Witness)
        returns (outcome: TreeOutcome<PayloadStatus>, ghost log: HandleLog)
      requires Valid()
      modifies this, chain, buffer, cache
      ensures Valid() && syncTarget == old(syncTarget)
      ensures Handles(rules, old(View()), block, Some(wit), false, syncTarget, log, outcome, View(), buffer.limit)
    {
      var check := LowestBufferedAncestorOr(HashOf(block));
      outcome, log := HandleBlock(block, Some(wit), check, false);
    }

    /** Both the finalized and the safe block, where given, are canonical. */
    method EnsureConsistentForkchoiceState(state: ForkchoiceState) returns (ok: bool)
      ensures ok <==> Consistent(chain.canonical, state)
    {
      if state.finalized != ZERO {
        var canonical := chain.IsHashCanonical(state.finalized);
        if !canonical {
          return false;
        }
      }
      if state.safe != ZERO {
        var canonical := chain.IsHashCanonical(state.safe);
        if !canonical {
          return false;
        }
      }
      return true;
    }

    /** Forgets what finality made obsolete, in memory and in the buffer. */
    method OnFinalized(finalized: Hash)
      requires Valid() && (finalized != ZERO ==> IsCanonical(chain.canonical, finalized))
      modifies this`history, chain, buffer
      ensures Valid() && Finalized(old(View()), finalized, View())
    {
      if finalized != ZERO {
        PruneMemory(finalized);
      }
      if finalized in chain.blocks {
        buffer.EvictOldBlocks(chain.blocks[finalized].number);
      }
    }

    method PruneMemory(finalized: Hash)
      requires Valid() && IsCanonical(chain.canonical, finalized)
      modifies this`history, chain
      ensures Valid() && history == old(history) + [FinalizedPruned(finalized)]
      ensures chain.View() == Prune(old(chain.View()), finalized)
    {
      TrackedNext(genesis, chain.View(), head, history, FinalizedPruned(finalized));
      chain.RemoveBlocksOnFinalized(finalized);
      history := history + [FinalizedPruned(finalized)];
    }

    /** Applies a new head and then finality. The head has moved even if the state turns out to be inconsistent. */
    method ApplyForkchoice(state: ForkchoiceState, attributes: Option<nat>)
        returns (status: Option<ForkchoiceStatus>, ghost update: Option<NewCanonicalChain>)
      requires Valid()
      modifies this`head, this`history, chain, buffer
      ensures Valid() && Justly(old(View()), state.head, update) && status.Some? == update.Some?
      ensures update.None? ==> View() == old(View())
      ensures update.Some? ==> Applies(rules, old(View()), state, attributes, update.value, status.value, View())
    {
      var moved;
      moved, update := MakeCanonical(state.head);
      if !moved {
        return None, update;
      }
      var tip := chain.blocks[state.head];
      var consistent := EnsureConsistentForkchoiceState(state);
      if !consistent {
        return Some(InvalidState), update;
      }
      OnFinalized(state.finalized);
      status := Some(if AttributesBad(rules, attributes, tip) then InvalidAttributes else ForkchoiceValid(state.head));
    }

    method OnForkchoiceUpdated(state: ForkchoiceState, attributes: Option<nat>)
        returns (outcome: TreeOutcome<ForkchoiceStatus>, ghost update: Option<NewCanonicalChain>)
      requires Valid()
      modifies this`head, this`history, chain, buffer, cache
      ensures Valid()
      ensures ForkchoiceAnswered(rules, old(View()), state, attributes, outcome, update, View())
    {
      update := None;
      if state.head == ZERO {
        return Outcome(InvalidState, None), update;
      }
      var check := LowestBufferedAncestorOr(state.head);
      var bad := CheckInvalidAncestor(chain, cache, check);
      if bad.Some? {
        LatestValidAbove(chain.blocks, cache.failed, check, bad.value, state.head);
        return Outcome(ForkchoiceInvalid(bad.value), None), update;
      }
      if head.hash == state.head {
        outcome := OnSameHead(state, attributes);
        return;
      }
      var applied;
      applied, update := ApplyForkchoice(state, attributes);
      if applied.Some? {
        return Outcome(applied.value, None), update;
      }
      if state.head in chain.blocks {
        return Outcome(ForkchoiceValid(state.head), None), update;
      }
      var event := SyncEvent(state);
      outcome := Outcome(ForkchoiceSyncing, event);
    }

    method OnSameHead(state: ForkchoiceState, attributes: Option<nat>) returns (outcome: TreeOutcome<ForkchoiceStatus>)
      requires Valid() && head.hash == state.head
      ensures outcome == SameHead(rules, View(), state, attributes)
    {
      var consistent := EnsureConsistentForkchoiceState(state);
      if !consistent {
        return Outcome(InvalidState, None);
      }
      if attributes.Some? {
        if head.hash !in chain.blocks {
          return Failure;
        }
        if AttributesBad(rules, attributes, chain.blocks[head.hash]) {
          return Outcome(InvalidAttributes, None);
        }
      }
      return Outcome(ForkchoiceValid(state.head), None);
    }

    /** What to download so that the requested head can be reached: the finalized block first, then the lowest gap. */
    method SyncEvent(state: ForkchoiceState) returns (event: Option<TreeEvent>)
      requires Valid()
      ensures SyncsTowards(View(), state, event)
    {
      if Unknown(chain.blocks, buffer.blocks, state.finalized) {
        return Some(DownloadFinalized(state.finalized));
      }
      var target := if Unknown(chain.blocks, buffer.blocks, state.safe) then state.safe else state.head;
      var gap := LowestBufferedAncestorOr(target);
      if gap != state.finalized && gap !in chain.blocks && gap !in buffer.blocks {
        return Some(DownloadBlock(gap));
      }
      return None;
    }

    /** Adopts a finalized block as head, together with the canonical hashes of its ancestors. */
    method AdoptFinalized(block: Header, ancestors: seq<Header>)
      requires Valid() && AncestorsOf(block, ancestors) && |ancestors| >= BLOCK_HASH_WINDOW
      modifies this`head, this`history, chain
      ensures Valid() && View() == Adopted(old(View()), block, ancestors)
    {
      TrackedNext(genesis, chain.View(), head, history, FinalizedSynced(block, ancestors));
      head := block.ToNumHash();
      RecordFinalized(block, ancestors);
      history := history + [FinalizedSynced(block, ancestors)];
    }

    /** Stores a finalized block and the canonical hashes of it and its ancestors. */
    method RecordFinalized(block: Header, ancestors: seq<Header>)
      requires chain.Valid()
      modifies chain
      ensures chain.Valid()
      ensures chain.View() ==
              Insert(old(chain.View()), block, None).(canonical := Synced(old(chain.canonical), block, ancestors))
    {
      chain.InsertCanonicalHash(block.number, HashOf(block));
      chain.InsertBlock(block, None);
      InsertAncestors(ancestors);
    }

    method InsertAncestors(ancestors: seq<Header>)
      requires chain.Valid()
      modifies chain
      ensures chain.Valid()
      ensures chain.View() == old(chain.View()).(canonical := InsertAll(old(chain.canonical), ancestors))
    {
      ghost var v := chain.View();
      for i := 0 to |ancestors|
        invariant chain.Valid()
        invariant chain.View() == v.(canonical := InsertAll(v.canonical, ancestors[..i]))
      {
        assert ancestors[..i + 1][..i] == ancestors[..i];
        chain.InsertCanonicalHash(ancestors[i].number, HashOf(ancestors[i]));
      }
      assert ancestors[..|ancestors|] == ancestors;
    }

    /** Remembers the target of a fork choice that could not be followed yet; one that was followed clears it. */
    method SetLatest(state: ForkchoiceState, status: ForkchoiceStatus)
      modifies this`syncTarget
      ensures syncTarget == TargetFor(old(syncTarget), state, status)
    {
      if status.ForkchoiceValid? || status.InvalidAttributes? {
        syncTarget := None;
      } else if status.ForkchoiceSyncing? {
        syncTarget := Some(state.head);
      }
    }
  }
}
