/**
 The event loop: download outcomes, engine messages, and at most one parked payload.
 */
module ConsensusEngines {
  import opened Blocks
  import opened ChainSwitch
  import opened ChainRuns
  import opened B = BlockBuffers
  import opened Fetch
  import opened Downloads
  import opened TreeSpecs
  import opened BlockHandling
  import opened T = EngineTrees
  import opened E = EngineSpecs

  class ConsensusEngine {
    const tree: EngineTree
    const downloader: EngineDownloader
    var parked: Option<Parked>
    var taken: seq<nat>
    var replies: seq<Reply>
    ghost var lost: set<Code>
    ghost var since: Mark

    ghost function View(): EngineView
      reads this, tree, tree.chain, tree.buffer, tree.cache, downloader
    {
      EngineView(parked, taken, replies, lost, since, tree.syncTarget, tree.View(), downloader.View())
    }

    ghost predicate Healthy()
      reads this, tree, tree.chain, tree.buffer, tree.cache, downloader
    {
      tree.Valid() && downloader.Valid() && Answered(taken, replies, parked)
    }

    /** While the blocks in `unlocked` are still to be processed, and with the given payload parked. */
    ghost predicate WaitingFor(still: Option<Parked>, unlocked: set<Hash>)
      reads this, tree, tree.chain, tree.buffer, tree.cache, downloader
    {
      Waiting(tree.rules, tree.View(), downloader.View(), still, unlocked, lost, since)
    }

    ghost predicate HandlingOf(outcome: Outcome)
      reads this, tree, tree.chain, tree.buffer, tree.cache, downloader
    {
      Handling(tree.rules, tree.View(), downloader.View(), parked, outcome, lost, since)
    }

    ghost predicate Valid()
      reads this, tree, tree.chain, tree.buffer, tree.cache, downloader
    {
      Healthy() && WaitingFor(parked, {})
    }

    ghost function Here(): World
      reads this, tree, tree.chain, tree.buffer, tree.cache, downloader
    {
      World(tree.View(), downloader.View())
    }

    constructor (genesis: Header, rules: Rules, checks: Checks, codes: set<Code>)
      requires IsGenesis(genesis)
      ensures Valid() && parked.None? && taken == [] && replies == [] && lost == {}
      ensures fresh(tree) && fresh(tree.chain) && fresh(tree.buffer) && fresh(tree.cache) && fresh(downloader)
      ensures tree.genesis == genesis && tree.history == [] && tree.rules == rules && tree.store == codes
    {
      tree := new EngineTree(genesis, rules, codes);
      downloader := new EngineDownloader(checks);
      parked, taken, replies, lost, since := None, [], [], {}, Mark(0, 0, 0);
    }

    // ---------- following up on the tree ----------

    method OnTreeEvent(event: TreeEvent) returns (ghost update: Option<NewCanonicalChain>)
      requires tree.Valid() && downloader.Valid()
      modifies tree`head, tree`history, tree.chain, downloader
      ensures tree.Valid() && downloader.Valid()
      ensures downloader.View() == Requesting(old(downloader.View()), Some(event), tree.buffer.witnesses.Keys)
      ensures FollowsUp(old(tree.View()), Some(event), update, tree.View())
    {
      update := None;
      if event.Canonicalize? {
        var _, switched := tree.MakeCanonical(event.target);
        update := switched;
      } else {
        StartDownload(event);
      }
    }

    method StartDownload(event: TreeEvent)
      requires downloader.Valid() && !event.Canonicalize?
      modifies downloader
      ensures downloader.Valid()
      ensures downloader.View() == Requesting(old(downloader.View()), Some(event), tree.buffer.witnesses.Keys)
    {
      match event
      case DownloadBlock(hash) =>
        downloader.DownloadFullBlock(hash);
        if hash !in tree.buffer.witnesses {
          downloader.DownloadWitness(hash);
        }
      case DownloadWitness(hash) =>
        downloader.DownloadWitness(hash);
      case DownloadFinalized(hash) =>
        downloader.DownloadFinalizedWithAncestors(hash);
    }

    /** Does what the tree asks for, if anything; whatever is waited for stays so. */
    method FollowUp(event: Option<TreeEvent>, ghost still: Option<Parked>, ghost unlocked: set<Hash>)
        returns (ghost update: Option<NewCanonicalChain>)
      requires tree.Valid() && downloader.Valid() && WaitingFor(still, unlocked)
      modifies tree`head, tree`history, tree.chain, downloader
      ensures tree.Valid() && downloader.Valid() && WaitingFor(still, unlocked)
      ensures downloader.View() == Requesting(old(downloader.View()), event, tree.buffer.witnesses.Keys)
      ensures FollowsUp(old(tree.View()), event, update, tree.View())
    {
      ghost var t, d := tree.View(), downloader.View();
      update := None;
      if event.Some? {
        update := OnTreeEvent(event.value);
      }
      StillWaiting(t, d, event, update, still, unlocked);
    }

    lemma StillWaiting(t: TreeView, d: DownloadView, event: Option<TreeEvent>, update: Option<NewCanonicalChain>,
                       still: Option<Parked>, unlocked: set<Hash>)
      requires Waiting(tree.rules, t, d, still, unlocked, lost, since) && FollowsUp(t, event, update, tree.View())
      requires downloader.View() == Requesting(d, event, tree.buffer.witnesses.Keys)
      ensures WaitingFor(still, unlocked)
    {
      FollowUpGrows(tree.rules, t, event, update, tree.View());
      WaitingGrows(tree.rules, t, tree.View(), d, still, unlocked, lost, since);
      RequestingAsks(d, event, tree.buffer.witnesses.Keys);
      RequestsAwait(d, downloader.View());
      WaitingAwaitsMore(tree.rules, tree.View(), d, downloader.View(), still, unlocked, lost, since);
    }

    // ---------- download outcomes ----------

    /** Takes one unlocked block out, if it is still there and ready. */
    method TakeUnlocked(hash: Hash, ghost unlocked: set<Hash>) returns (block: Option<(Header, Witness)>)
      requires tree.Valid() && WaitingFor(parked, unlocked)
      modifies tree.buffer
      ensures tree.Valid()
      ensures block.Some? <==> hash in AllReady(old(tree.buffer.View()))
      ensures block.Some? ==>
                TakenFrom(old(tree.View()), block.value.0, block.value.1, tree.View()) && HashOf(block.value.0) == hash
      ensures block.None? ==> tree.View() == old(tree.View())
      ensures WaitingFor(if block.Some? then Others(parked, hash) else parked, unlocked - {hash})
    {
      ghost var t := tree.View();
      block := tree.buffer.RemoveBlock(hash);
      if block.None? {
        WaitingSkips(tree.rules, t, downloader.View(), parked, unlocked, hash, lost, since);
      } else {
        WaitingTakes(tree.rules, t, downloader.View(), parked, unlocked, hash, lost, since);
      }
    }

    /** Inserts a block that has just been taken out, and follows up on what the tree asks for. */
    method HandToTree(block: Header, wit: Witness, ghost t: TreeView, ghost still: Option<Parked>,
                      ghost unlocked: set<Hash>)
        returns (status: Option<PayloadStatus>, ghost st: Step)
      requires tree.Valid() && downloader.Valid() && TakenFrom(t, block, wit, tree.View())
      requires WaitingFor(still, unlocked)
      modifies tree, tree.chain, tree.buffer, tree.cache, downloader
      ensures tree.Valid() && downloader.Valid() && tree.syncTarget == old(tree.syncTarget)
      ensures WaitingFor(still, unlocked) && StepOk(tree.rules, tree.syncTarget, tree.buffer.limit, st)
      ensures StepFrom(st, World(t, old(downloader.View())), HashOf(block), Here())
      ensures st.handled && status == StatusOf(st.outcome)
    {
      ghost var d := downloader.View();
      var outcome, log := InsertDownloaded(block, wit, still, unlocked);
      ghost var mid := tree.View();
      status := StatusOf(outcome);
      ghost var update := FollowUp(EventOf(outcome), still, unlocked);
      st := Step(HashOf(block), World(t, d), true, log, outcome, mid, update, Here());
      StepTaken(tree.rules, tree.syncTarget, tree.buffer.limit, st, block, wit);
    }

    method InsertDownloaded(block: Header, wit: Witness, ghost still: Option<Parked>, ghost unlocked: set<Hash>)
        returns (outcome: TreeOutcome<PayloadStatus>, ghost log: HandleLog)
      requires tree.Valid() && wit.codes <= tree.store && WaitingFor(still, unlocked)
      modifies tree, tree.chain, tree.buffer, tree.cache
      ensures tree.Valid() && tree.syncTarget == old(tree.syncTarget) && WaitingFor(still, unlocked)
      ensures Handles(tree.rules, old(tree.View()), block, Some(wit), false, tree.syncTarget, log, outcome, tree.View(),
                      tree.buffer.limit)
    {
      ghost var given := tree.View();
      outcome, log := tree.OnDownloadedBlock(block, wit);
      HandlesGrows(tree.rules, given, block, Some(wit), false, tree.syncTarget, log, outcome, tree.View(),
                   tree.buffer.limit);
      WaitingGrows(tree.rules, given, tree.View(), downloader.View(), still, unlocked, lost, since);
    }

    /** Answers the parked payload if it is for the given block. */
    method ResolveParked(hash: Hash, status: Option<PayloadStatus>, ghost st: Step)
      requires Answered(taken, replies, parked) && st.handled && st.hash == hash && status == StatusOf(st.outcome)
      modifies this`parked, this`replies
      ensures Answered(taken, replies, parked) && parked == Others(old(parked), hash)
      ensures Settles(old(parked), old(replies), [st], parked, replies)
    {
      OneStepSettles(parked, replies, st);
      if parked.Some? && parked.value.hash == hash {
        var reply := PayloadReply(parked.value.id, status);
        AnsweredNext(taken, replies, parked, reply);
        replies := replies + [reply];
        parked := None;
      }
    }

    /** Hands a block to the tree and answers the parked payload if it is that block. */
    method HandOver(block: Header, wit: Witness, ghost t: TreeView, ghost unlocked: set<Hash>) returns (ghost st: Step)
      requires Healthy() && TakenFrom(t, block, wit, tree.View()) && WaitingFor(Others(parked, HashOf(block)), unlocked)
      modifies this`parked, this`replies, tree, tree.chain, tree.buffer, tree.cache, downloader
      ensures Healthy() && WaitingFor(parked, unlocked) && tree.syncTarget == old(tree.syncTarget)
      ensures StepOk(tree.rules, tree.syncTarget, tree.buffer.limit, st)
      ensures StepFrom(st, World(t, old(downloader.View())), HashOf(block), Here())
      ensures Settles(old(parked), old(replies), [st], parked, replies)
    {
      var status;
      status, st := HandToTree(block, wit, t, Others(parked, HashOf(block)), unlocked);
      ResolveParked(HashOf(block), status, st);
    }

    /** Takes one unlocked block out and hands it to the tree; answers the parked payload if it is that block. */
    method ProcessUnlocked(hash: Hash, ghost unlocked: set<Hash>) returns (ghost st: Step)
      requires Healthy() && WaitingFor(parked, unlocked)
      modifies this`parked, this`replies, tree, tree.chain, tree.buffer, tree.cache, downloader
      ensures Healthy() && WaitingFor(parked, unlocked - {hash}) && tree.syncTarget == old(tree.syncTarget)
      ensures StepOk(tree.rules, tree.syncTarget, tree.buffer.limit, st) && StepFrom(st, old(Here()), hash, Here())
      ensures Settles(old(parked), old(replies), [st], parked, replies)
    {
      ghost var t := tree.View();
      var block := TakeUnlocked(hash, unlocked);
      if block.None? {
        st := Skipped(hash, Here());
        OneStepSettles(parked, replies, st);
      } else {
        st := HandOver(block.value.0, block.value.1, t, unlocked - {hash});
      }
    }

    /** Processes every unlocked block, in some order. */
    method ProcessAll(unlocked: set<Hash>) returns (ghost steps: seq<Step>)
      requires Healthy() && WaitingFor(parked, unlocked)
      modifies this`parked, this`replies, tree, tree.chain, tree.buffer, tree.cache, downloader
      ensures Valid() && tree.syncTarget == old(tree.syncTarget)
      ensures Processed(tree.rules, tree.syncTarget, tree.buffer.limit, old(Here()), unlocked, steps, Here())
      ensures Settles(old(parked), old(replies), steps, parked, replies)
    {
      steps := [];
      ghost var start, p, r := Here(), parked, replies;
      var rest := unlocked;
      ProcessingStarts(tree.rules, tree.syncTarget, tree.buffer.limit, start, unlocked, p, r);
      while rest != {}
        invariant Healthy() && WaitingFor(parked, rest) && tree.syncTarget == old(tree.syncTarget)
        invariant Processing(tree.rules, tree.syncTarget, tree.buffer.limit, start, unlocked, rest, steps, Here(),
                             p, r, parked, replies)
        decreases rest
      {
        var hash :| hash in rest;
        ghost var p', r' := parked, replies;
        ghost var st := ProcessUnlocked(hash, rest);
        ProcessingGoesOn(tree.rules, tree.syncTarget, tree.buffer.limit, start, unlocked, rest, steps, st, p, r, p', r',
                         parked, replies);
        rest, steps := rest - {hash}, steps + [st];
      }
      ProcessingEnds(tree.rules, tree.syncTarget, tree.buffer.limit, start, unlocked, steps, Here(), p, r, parked,
                     replies);
    }

    /** Buffers a witness and requests the bytecodes it needs and the store lacks. */
    method OnWitness(hash: Hash, wit: Witness) returns (missing: set<Code>)
      requires tree.Valid() && downloader.Valid()
      modifies tree.buffer, downloader
      ensures tree.Valid() && downloader.Valid() && missing == wit.codes - tree.store
      ensures tree.View() == old(tree.View()).(buffer := WitnessInserted(old(tree.buffer.View()), hash, wit, missing))
      ensures CodesAdded(old(downloader.View()), missing, downloader.View())
    {
      missing := wit.codes - tree.store;
      tree.buffer.InsertWitness(hash, wit, missing);
      RequestCodes(missing);
    }

    method RequestCodes(codes: set<Code>)
      requires downloader.Valid()
      modifies downloader
      ensures downloader.Valid() && CodesAdded(old(downloader.View()), codes, downloader.View())
    {
      ghost var d := downloader.View();
      var rest := codes;
      assert codes - rest == {};
      while rest != {}
        invariant downloader.Valid() && rest <= codes
        invariant CodesAdded(d, codes - rest, downloader.View())
        decreases rest
      {
        var code :| code in rest;
        CodesAddedNext(d, codes - rest, downloader.View(), code);
        assert codes - rest + {code} == codes - (rest - {code});
        downloader.DownloadBytecode(code);
        rest := rest - {code};
      }
      assert codes - {} == codes;
    }

    method StoreFinalized(block: Header, ancestors: seq<Header>)
      requires tree.Valid() && OutcomeOk(FinalizedBlock(block, ancestors))
      requires HandlingOf(FinalizedBlock(block, ancestors))
      modifies tree`head, tree`history, tree.chain
      ensures tree.Valid() && WaitingFor(parked, {HashOf(block)})
      ensures tree.View() == Stored(old(tree.View()), FinalizedBlock(block, ancestors), true, tree.buffer.limit)
    {
      FinalizedHandled(tree.rules, tree.View(), downloader.View(), parked, block, ancestors, lost, since);
      tree.AdoptFinalized(block, ancestors);
    }

    method StoreFullBlock(block: Header)
      requires tree.Valid() && HandlingOf(FullBlock(block))
      modifies tree`evictions, tree.buffer
      ensures tree.Valid() && WaitingFor(parked, {HashOf(block)})
      ensures tree.View() == Stored(old(tree.View()), FullBlock(block), true, tree.buffer.limit)
    {
      FullBlockHandled(tree.rules, tree.View(), downloader.View(), parked, block, tree.buffer.limit, lost, since);
      tree.BufferBlock(block);
    }

    method StoreWitness(hash: Hash, wit: Witness) returns (unlocked: set<Hash>)
      requires tree.Valid() && downloader.Valid() && HandlingOf(WitnessOf(hash, wit))
      modifies tree.buffer, downloader
      ensures tree.Valid() && downloader.Valid() && WaitingFor(parked, unlocked)
      ensures tree.View() == Stored(old(tree.View()), WitnessOf(hash, wit), true, tree.buffer.limit)
      ensures unlocked == UnlockedBy(old(tree.View()), WitnessOf(hash, wit), true)
      ensures StoredRequests(old(tree.View()), old(downloader.View()), WitnessOf(hash, wit), true, downloader.View())
    {
      ghost var t, d := tree.View(), downloader.View();
      var missing := OnWitness(hash, wit);
      CodesAwait(d, missing, downloader.View());
      WitnessHandled(tree.rules, t, d, downloader.View(), parked, hash, wit, lost, since);
      unlocked := if missing == {} then {hash} else {};
    }

    /** A failed write is only noted; the blocks waiting for that bytecode keep waiting. */
    method StoreBytecode(code: Code, written: bool) returns (unlocked: set<Hash>)
      requires tree.Valid() && HandlingOf(Bytecode(code))
      modifies this`lost, tree`store, tree.buffer
      ensures tree.Valid() && WaitingFor(parked, unlocked)
      ensures lost == if written then old(lost) - {code} else old(lost) + {code}
      ensures tree.View() == Stored(old(tree.View()), Bytecode(code), written, tree.buffer.limit)
      ensures unlocked == UnlockedBy(old(tree.View()), Bytecode(code), written)
    {
      BytecodeHandled(tree.rules, tree.View(), downloader.View(), parked, code, lost, since);
      if written {
        tree.store := tree.store + {code};
        unlocked := tree.buffer.OnBytecodeReceived(code);
        lost := lost - {code};
      } else {
        lost, unlocked := lost + {code}, {};
      }
    }

    /** Stores what an outcome carries; yields the blocks it unlocks, or a fatal error. */
    method StoreOutcome(outcome: Outcome, tick: Tick) returns (ok: bool, unlocked: set<Hash>)
      requires Healthy() && OutcomeOk(outcome) && HandlingOf(outcome)
      modifies this`lost, tree`head, tree`history, tree`store, tree`evictions, tree.chain, tree.buffer, downloader
      ensures Healthy() && ok == !IsFatal(outcome, tick) && (ok ==> WaitingFor(parked, unlocked))
      ensures lost == LostAfter(old(lost), outcome, tick)
      ensures tree.View() == Stored(old(tree.View()), outcome, Accepted(outcome, tick), tree.buffer.limit)
      ensures unlocked == if ok then UnlockedBy(old(tree.View()), outcome, Accepted(outcome, tick)) else {}
      ensures StoredRequests(old(tree.View()), old(downloader.View()), outcome, Accepted(outcome, tick),
                             downloader.View())
    {
      if outcome.FinalizedBlock? || outcome.FullBlock? {
        ok, unlocked := StoreBlock(outcome, tick.recovers);
      } else {
        ok, unlocked := StoreData(outcome, tick);
      }
    }

    /** A block that cannot be recovered is dropped, but a finalized one is not to be done without. */
    method StoreBlock(outcome: Outcome, recovers: bool) returns (ok: bool, unlocked: set<Hash>)
      requires tree.Valid() && OutcomeOk(outcome) && HandlingOf(outcome)
      requires outcome.FinalizedBlock? || outcome.FullBlock?
      modifies tree`head, tree`history, tree`evictions, tree.chain, tree.buffer
      ensures tree.Valid() && ok == (recovers || outcome.FullBlock?) && (ok ==> WaitingFor(parked, unlocked))
      ensures tree.View() == Stored(old(tree.View()), outcome, recovers, tree.buffer.limit)
      ensures unlocked == if recovers then {HashOf(outcome.block)} else {}
    {
      ok, unlocked := true, {};
      match outcome
      case FinalizedBlock(block, ancestors) =>
        ok := recovers;
        if ok {
          StoreFinalized(block, ancestors);
          unlocked := {HashOf(block)};
        }
      case FullBlock(block) =>
        if recovers {
          StoreFullBlock(block);
          unlocked := {HashOf(block)};
        } else {
          BlockDropped(tree.rules, tree.View(), downloader.View(), parked, block, lost, since);
        }
    }

    method StoreData(outcome: Outcome, tick: Tick) returns (ok: bool, unlocked: set<Hash>)
      requires tree.Valid() && downloader.Valid() && HandlingOf(outcome) && (outcome.WitnessOf? || outcome.Bytecode?)
      modifies this`lost, tree`store, tree.buffer, downloader
      ensures tree.Valid() && downloader.Valid()
      ensures ok == !IsFatal(outcome, tick) && (ok ==> WaitingFor(parked, unlocked))
      ensures lost == LostAfter(old(lost), outcome, tick)
      ensures tree.View() == Stored(old(tree.View()), outcome, Accepted(outcome, tick), tree.buffer.limit)
      ensures unlocked == if ok then UnlockedBy(old(tree.View()), outcome, Accepted(outcome, tick)) else {}
      ensures StoredRequests(old(tree.View()), old(downloader.View()), outcome, Accepted(outcome, tick),
                             downloader.View())
    {
      ok, unlocked := true, {};
      match outcome
      case WitnessOf(hash, wit) =>
        ok := tick.databaseReads;
        if ok {
          unlocked := StoreWitness(hash, wit);
        }
      case Bytecode(code) =>
        unlocked := StoreBytecode(code, tick.databaseWrites);
    }

    method Store(outcome: Outcome, tick: Tick) returns (ok: bool, unlocked: set<Hash>)
      requires Healthy() && OutcomeOk(outcome) && HandlingOf(outcome)
      modifies this`lost, tree`head, tree`history, tree`store, tree`evictions, tree.chain, tree.buffer, downloader
      ensures Healthy() && ok == !IsFatal(outcome, tick) && (ok ==> WaitingFor(parked, unlocked))
      ensures StoredEffect(tree.buffer.limit, old(View()), outcome, tick, View())
      ensures unlocked == if ok then UnlockedBy(old(tree.View()), outcome, Accepted(outcome, tick)) else {}
    {
      ok, unlocked := StoreOutcome(outcome, tick);
    }

    /** Processes what an outcome unlocked. */
    method FinishOutcome(unlocked: set<Hash>) returns (ghost steps: seq<Step>)
      requires Healthy() && WaitingFor(parked, unlocked)
      modifies this`parked, this`replies, tree, tree.chain, tree.buffer, tree.cache, downloader
      ensures Valid() && ProcessedEffect(tree.rules, tree.buffer.limit, old(View()), unlocked, steps, View())
    {
      steps := ProcessAll(unlocked);
    }

    /** Handles one finished download. Yields false on a fatal error, which ends the engine. */
    method OnDownloadOutcome(outcome: Outcome, tick: Tick)
        returns (ok: bool, ghost stored: DownloadView, ghost steps: seq<Step>)
      requires Healthy() && OutcomeOk(outcome) && HandlingOf(outcome)
      modifies this`parked, this`replies, this`lost, tree, tree.chain, tree.buffer, tree.cache, downloader
      ensures Healthy() && ok == !IsFatal(outcome, tick) && (ok ==> Valid())
      ensures OutcomeEffect(tree.rules, tree.buffer.limit, old(View()), outcome, tick, stored, steps, View())
      ensures SyncsAdded(old(tree.View()), Some(outcome), tick, tree.View())
    {
      ghost var a := View();
      var unlocked;
      ok, unlocked := Store(outcome, tick);
      ghost var m := View();
      steps, stored := [], m.downloads;
      if ok {
        steps := FinishOutcome(unlocked);
      } else {
        NothingProcessed(tree.rules, tree.buffer.limit, m);
      }
      OutcomeDone(tree.rules, tree.buffer.limit, a, outcome, tick, m, unlocked, steps, View());
    }

    // ---------- engine messages ----------

    /** Answers a request that has just been taken. */
    method Answer(reply: Reply)
      requires parked.None? && Answered(taken, replies, None)
      modifies this`taken, this`replies
      ensures taken == old(taken) + [reply.id] && replies == old(replies) + [reply] && Answered(taken, replies, None)
    {
      AnsweredNext(taken, replies, None, reply);
      taken := taken + [reply.id];
      replies := replies + [reply];
    }

    /** Answers a request in an engine that waits for nothing in vain; that changes nothing else. */
    method AnswerNow(reply: Reply)
      requires Valid() && parked.None?
      modifies this`taken, this`replies
      ensures Valid() && View() == old(View()).(taken := old(taken) + [reply.id], replies := old(replies) + [reply])
    {
      Answer(reply);
    }

    /** Runs a payload through the tree, with whatever complete witness the buffer holds for it. */
    method InsertPayload(payload: Payload)
        returns (outcome: TreeOutcome<PayloadStatus>, hasWitness: bool, ghost log: HandleLog)
      requires tree.Valid() && WaitingFor(None, {})
      modifies tree, tree.chain, tree.buffer, tree.cache
      ensures tree.Valid() && WaitingFor(None, {}) && tree.syncTarget == old(tree.syncTarget)
      ensures hasWitness <==> Ready(old(tree.buffer.View()), payload.BlockHash())
      ensures AsksForOwnWitness(payload, outcome, tree.View()) && Lengthens(old(tree.View()), tree.View())
      ensures HandlesPayload(tree.rules,
                             old(tree.View()).(buffer := WitnessTaken(old(tree.buffer.View()), payload.BlockHash())),
                             payload, HeldWitness(old(tree.buffer.View()), payload.BlockHash()), tree.syncTarget, log,
                             outcome, tree.View(), tree.buffer.limit)
    {
      WitnessLeaves(tree.rules, tree.View(), downloader.View(), payload.BlockHash(), lost, since);
      var wit := tree.buffer.RemoveWitness(payload.BlockHash());
      hasWitness := wit.Some?;
      outcome, log := TryPayload(payload, wit);
    }

    method TryPayload(payload: Payload, wit: Option<Witness>)
        returns (outcome: TreeOutcome<PayloadStatus>, ghost log: HandleLog)
      requires tree.Valid() && WaitingFor(None, {}) && (wit.Some? ==> wit.value.codes <= tree.store)
      modifies tree, tree.chain, tree.buffer, tree.cache
      ensures tree.Valid() && WaitingFor(None, {}) && tree.syncTarget == old(tree.syncTarget)
      ensures AsksForOwnWitness(payload, outcome, tree.View()) && Lengthens(old(tree.View()), tree.View())
      ensures HandlesPayload(tree.rules, old(tree.View()), payload, wit, tree.syncTarget, log, outcome, tree.View(),
                             tree.buffer.limit)
    {
      ghost var t := tree.View();
      outcome, log := tree.OnNewPayload(payload, wit);
      PayloadAsksOwn(tree.rules, t, payload, wit, tree.syncTarget, log, outcome, tree.View(), tree.buffer.limit);
      PayloadGrows(tree.rules, t, payload, wit, tree.syncTarget, log, outcome, tree.View(), tree.buffer.limit);
      WaitingKeeps(tree.rules, t, tree.View(), downloader.View(), lost, since);
    }

    /** Handles a new payload: answers it, or parks it while its witness is fetched. */
    method OnNewPayload(id: nat, payload: Payload) returns (ghost service: Service)
      requires Valid() && parked.None?
      modifies this, tree, tree.chain, tree.buffer, tree.cache, downloader
      ensures Valid() && PayloadEffect(tree.rules, tree.buffer.limit, old(View()), id, payload, service, View())
      ensures Lengthens(old(tree.View()), tree.View())
    {
      ghost var a := View();
      var outcome;
      outcome, service := TryAndFetch(payload);
      ghost var m := View();
      ParkRequested(tree.rules, tree.buffer.limit, a, payload, service, m);
      Conclude(id, payload, outcome);
      PayloadDone(tree.rules, tree.buffer.limit, a, id, payload, service, m, View());
    }

    /** Runs a payload through the tree and starts the downloads it calls for. */
    method TryAndFetch(payload: Payload) returns (outcome: TreeOutcome<PayloadStatus>, ghost service: Service)
      requires Healthy() && WaitingFor(None, {})
      modifies tree, tree.chain, tree.buffer, tree.cache, downloader
      ensures Healthy() && WaitingFor(None, {}) && AsksForOwnWitness(payload, outcome, tree.View())
      ensures PayloadFetched(tree.rules, tree.buffer.limit, old(View()), payload, service, View())
      ensures service.payload == outcome
    {
      ghost var a := View();
      var hasWitness;
      ghost var log;
      outcome, hasWitness, log := InsertPayload(payload);
      ghost var mid := tree.View();
      ghost var update := FetchForPayload(outcome, hasWitness, payload.BlockHash());
      StillAsksOwn(payload, outcome, mid, update, tree.View());
      service := PayloadService(log, outcome, mid, update);
      FetchedAfter(tree.rules, tree.buffer.limit, a, payload, hasWitness, service, View());
    }

    /** Answers a payload whose downloads have been started, or parks it. */
    method Conclude(id: nat, payload: Payload, outcome: TreeOutcome<PayloadStatus>)
      requires Healthy() && parked.None? && WaitingFor(None, {}) && AsksForOwnWitness(payload, outcome, tree.View())
      requires Parks(outcome) ==> outcome.event.value.hash in downloader.witnesses
      modifies this`parked, this`taken, this`replies, this`since
      ensures Valid() && Concludes(old(View()), id, payload, outcome, View())
      ensures View() == old(View()).(parked := parked, taken := taken, replies := replies, since := since)
    {
      ghost var a := View();
      if Parks(outcome) {
        Park(outcome.event.value.hash, id);
      } else {
        AnswerNow(PayloadReply(id, StatusOf(outcome)));
      }
      ConcludesWith(a, id, payload, outcome, View());
    }

    /** Starts the downloads a payload calls for. */
    method FetchForPayload(outcome: TreeOutcome<PayloadStatus>, hasWitness: bool, hash: Hash)
        returns (ghost update: Option<NewCanonicalChain>)
      requires tree.Valid() && downloader.Valid() && WaitingFor(None, {})
      modifies tree`head, tree`history, tree.chain, downloader
      ensures tree.Valid() && downloader.Valid() && WaitingFor(None, {})
      ensures FollowedUp(old(tree.View()), outcome, update, tree.View())
      ensures downloader.View() == PayloadRequests(old(downloader.View()), outcome, hasWitness, hash,
                                                   tree.buffer.witnesses.Keys)
    {
      update := FollowUp(EventOf(outcome), None, {});
      if outcome.Outcome? && outcome.event.Some? && !Parks(outcome) && !hasWitness {
        Fetch(Some(DownloadWitness(hash)));
      }
    }

    method Park(hash: Hash, id: nat)
      requires Healthy() && parked.None? && WaitingFor(None, {}) && hash in downloader.witnesses
      requires hash.HashOf? && hash in tree.buffer.blocks && hash.header.parent in tree.chain.blocks
      modifies this`parked, this`taken, this`since
      ensures Valid() && parked == Some(Parked(hash, id)) && since == MarkOf(tree.View()) && taken == old(taken) + [id]
    {
      parked, taken, since := Some(Parked(hash, id)), taken + [id], MarkOf(tree.View());
    }

    method OnForkchoiceUpdated(id: nat, state: ForkchoiceState,
                               attributes: Option<nat>) returns (ghost service: Service)
      requires Valid() && parked.None?
      modifies this`taken, this`replies, tree, tree.chain, tree.buffer, tree.cache, downloader
      ensures Valid() && ForkchoiceEffect(tree.rules, old(View()), id, state, attributes, service, View())
      ensures Lengthens(old(tree.View()), tree.View())
    {
      ghost var a := View();
      var outcome, update := ChooseFork(state, attributes);
      service := ForkchoiceService(outcome, update);
      ghost var m := View();
      AnswerNow(ForkchoiceReply(id, StatusOf(outcome)));
      ForkchoiceDone(tree.rules, a, id, state, attributes, service, m, View());
    }

    /** Runs a fork choice through the tree and starts the download it calls for, if any. */
    method ChooseFork(state: ForkchoiceState, attributes: Option<nat>)
        returns (outcome: TreeOutcome<ForkchoiceStatus>, ghost update: Option<NewCanonicalChain>)
      requires tree.Valid() && downloader.Valid() && WaitingFor(None, {})
      modifies tree, tree.chain, tree.buffer, tree.cache, downloader
      ensures tree.Valid() && downloader.Valid() && WaitingFor(None, {})
      ensures ForkchoiceAnswered(tree.rules, old(tree.View()), state, attributes, outcome, update, tree.View())
      ensures Lengthens(old(tree.View()), tree.View())
      ensures tree.syncTarget == TargetAfter(old(tree.syncTarget), state, outcome)
      ensures downloader.View() == Requesting(old(downloader.View()), EventOf(outcome), tree.buffer.witnesses.Keys)
    {
      ghost var t := tree.View();
      outcome, update := DecideFork(state, attributes);
      NoSwitchAsked(tree.rules, t, state, attributes, outcome, update, tree.View());
      Fetch(EventOf(outcome));
    }

    method Fetch(event: Option<TreeEvent>)
      requires downloader.Valid() && WaitingFor(None, {}) && (event.Some? ==> !event.value.Canonicalize?)
      modifies downloader
      ensures downloader.Valid() && WaitingFor(None, {})
      ensures downloader.View() == Requesting(old(downloader.View()), event, tree.buffer.witnesses.Keys)
    {
      ghost var d := downloader.View();
      if event.Some? {
        StartDownload(event.value);
      }
      StillWaiting(tree.View(), d, event, None, None, {});
    }

    method DecideFork(state: ForkchoiceState, attributes: Option<nat>)
        returns (outcome: TreeOutcome<ForkchoiceStatus>, ghost update: Option<NewCanonicalChain>)
      requires tree.Valid() && WaitingFor(None, {})
      modifies tree`head, tree`history, tree`syncTarget, tree.chain, tree.buffer, tree.cache
      ensures tree.Valid() && WaitingFor(None, {})
      ensures ForkchoiceAnswered(tree.rules, old(tree.View()), state, attributes, outcome, update, tree.View())
      ensures Lengthens(old(tree.View()), tree.View())
      ensures tree.syncTarget == TargetAfter(old(tree.syncTarget), state, outcome)
    {
      ghost var t := tree.View();
      outcome, update := tree.OnForkchoiceUpdated(state, attributes);
      if outcome.Outcome? {
        tree.SetLatest(state, outcome.status);
      }
      ForkchoiceKeeps(tree.rules, t, state, attributes, outcome, update, tree.View());
      WaitingKeeps(tree.rules, t, tree.View(), downloader.View(), lost, since);
    }

    /** Taken only while nothing is parked, so a parked payload is never overwritten. */
    method OnEngineMessage(message: Message) returns (ghost service: Service)
      requires Valid() && parked.None?
      modifies this, tree, tree.chain, tree.buffer, tree.cache, downloader
      ensures Valid() && MessageEffect(tree.rules, tree.buffer.limit, old(View()), message, service, View())
      ensures Lengthens(old(tree.View()), tree.View())
    {
      service := NoService;
      match message
      case NewPayload(id, payload) => service := OnNewPayload(id, payload);
      case ForkchoiceUpdated(id, state, attributes) => service := OnForkchoiceUpdated(id, state, attributes);
      case TransitionConfigurationExchanged =>
    }

    // ---------- the loop ----------

    /** A parked payload that was not served in time is answered "syncing". */
    method TimeOut()
      requires Valid() && parked.Some?
      modifies this`parked, this`replies
      ensures Valid() && View() == TimedOut(old(View()))
    {
      var reply := PayloadReply(parked.value.id, Some(Syncing));
      AnsweredNext(taken, replies, parked, reply);
      replies := replies + [reply];
      parked := None;
    }

    /** Polls the downloader; an outcome is in hand, or everything awaited still is. */
    method PollDownloader(a: Arrivals) returns (outcome: Option<Outcome>)
      requires downloader.Valid() && WaitingFor(parked, {})
      modifies downloader
      ensures downloader.Valid() && Polled(old(downloader.View()), a, outcome, downloader.View())
      ensures if outcome.Some? then OutcomeOk(outcome.value) && HandlingOf(outcome.value) else WaitingFor(parked, {})
    {
      ghost var d := downloader.View();
      outcome := downloader.Poll(a);
      AfterPoll(tree.rules, tree.View(), d, a, outcome, downloader.View(), parked, lost, since);
    }

    method PollFirst(a: Arrivals) returns (outcome: Option<Outcome>)
      requires Valid()
      modifies downloader
      ensures Healthy() && Polled(old(downloader.View()), a, outcome, downloader.View())
      ensures if outcome.Some? then OutcomeOk(outcome.value) && HandlingOf(outcome.value) else WaitingFor(parked, {})
    {
      outcome := PollDownloader(a);
    }

    /** What follows when no download has finished: the parked payload's timeout, then the next message. */
    method ServeMessages(tick: Tick) returns (progress: bool, ghost service: Service)
      requires Valid()
      modifies this, tree, tree.chain, tree.buffer, tree.cache, downloader
      ensures Valid() && ServeEffect(tree.rules, tree.buffer.limit, old(View()), tick, service, View())
      ensures progress <==> MessagesServed(old(parked), tick) && tick.message.Some?
      ensures Lengthens(old(tree.View()), tree.View())
    {
      progress, service := false, NoService;
      if parked.Some? {
        if !tick.timedOut {
          return;
        }
        TimeOut();
      }
      if tick.message.Some? {
        service := OnEngineMessage(tick.message.value);
        progress := true;
      }
    }

    /** One pass of the loop body. */
    method Turn(tick: Tick) returns (r: TurnResult, ghost log: TurnLog)
      requires Valid()
      modifies this, tree, tree.chain, tree.buffer, tree.cache, downloader
      ensures Healthy() && (!r.Exit? ==> Valid())
      ensures TurnEffect(tree.rules, tree.buffer.limit, old(View()), tick, log, View())
      ensures r.Exit? <==> log.outcome.Some? && IsFatal(log.outcome.value, tick)
      ensures r.Pending? <==> log.outcome.None? && !(MessagesServed(old(parked), tick) && tick.message.Some?)
    {
      ghost var a := View();
      var polled := PollFirst(tick.arrivals);
      if polled.Some? {
        r, log := HandleTurn(polled.value, tick, a);
      } else {
        r, log := ServeTurn(tick, a);
      }
    }

    /** The rest of a turn in which a download has finished. */
    method HandleTurn(outcome: Outcome, tick: Tick, ghost a: EngineView) returns (r: TurnResult, ghost log: TurnLog)
      requires Healthy() && OutcomeOk(outcome) && HandlingOf(outcome)
      requires View() == a.(downloads := downloader.View())
      requires Polled(a.downloads, tick.arrivals, Some(outcome), downloader.View())
      modifies this`parked, this`replies, this`lost
      modifies tree, tree.chain, tree.buffer, tree.cache, downloader
      ensures Healthy() && (!r.Exit? ==> Valid()) && !r.Pending?
      ensures TurnEffect(tree.rules, tree.buffer.limit, a, tick, log, View()) && log.outcome == Some(outcome)
      ensures r.Exit? <==> IsFatal(outcome, tick)
    {
      ghost var d := downloader.View();
      var ok;
      ghost var stored, steps;
      ok, stored, steps := OnDownloadOutcome(outcome, tick);
      log := TurnLog(Some(outcome), d, stored, steps, NoService);
      r := if ok then Continue else Exit;
      TurnHandled(tree.rules, tree.buffer.limit, a, tick, log, View());
    }

    /** The rest of a turn in which no download has finished. */
    method ServeTurn(tick: Tick, ghost a: EngineView) returns (r: TurnResult, ghost log: TurnLog)
      requires Valid() && View() == a.(downloads := downloader.View())
      requires Polled(a.downloads, tick.arrivals, None, downloader.View())
      modifies this, tree, tree.chain, tree.buffer, tree.cache, downloader
      ensures Valid() && TurnEffect(tree.rules, tree.buffer.limit, a, tick, log, View()) && log.outcome.None?
      ensures !r.Exit? && (r.Continue? <==> MessagesServed(a.parked, tick) && tick.message.Some?)
    {
      ghost var d := downloader.View();
      var progress;
      ghost var service;
      progress, service := ServeMessages(tick);
      log := TurnLog(None, d, d, [], service);
      r := if progress then Continue else Pending;
      TurnServed(tree.rules, tree.buffer.limit, a, tick, log, View());
    }

    /**
     Any number of turns, over any number of polls, until a fatal error. Replies come in the order
     the requests were taken, one each, with at most the last one parked. Nothing is waited for in
     vain but a bytecode whose write failed, and a parked block makes progress unless it lacks such a
     bytecode, or it or an execution failed after it was parked, or it was pushed out of the buffer or
     is in memory already. The index is sound as long as every finalized sync the
     downloader delivered met the consensus-layer condition, and block-hash lookups are complete as
     long as finality kept to its condition.
     */
    method Run(ticks: seq<Tick>) returns (exited: bool, ghost turns: seq<Turned>)
      requires Valid()
      modifies this, tree, tree.chain, tree.buffer, tree.cache, downloader
      ensures Healthy() && (!exited ==> Valid() && |turns| == |ticks|)
      ensures Reached(old(View()), ticks, turns)
      ensures RunAdded(old(View()), ticks, turns, View()) && InOrder(taken, replies, parked)
      ensures Lawful(tree.rules, tree.history) && AllBreak(tree.rules, tree.cache.failed)
      ensures ChainOk(tree.genesis, tree.View()) && (!exited ==> Steady(tree.rules, View()))
    {
      ghost var start := View();
      exited, turns := TakeTurns(ticks);
      RunAdds(tree.rules, tree.buffer.limit, start, ticks, turns);
      TrackedIsOk(tree.genesis, tree.View());
      AnsweredInOrder(taken, replies, parked);
      if !exited {
        WaitingIsSteady(tree.rules, View());
      }
    }

    /** The engine is where the turns so far have led. */
    ghost predicate Reached(start: EngineView, ticks: seq<Tick>, turns: seq<Turned>)
      reads this, tree, tree.chain, tree.buffer, tree.cache, downloader
    {
      Ran(tree.rules, tree.buffer.limit, start, ticks, turns) && View() == StateAfter(start, turns)
    }

    method TakeTurns(ticks: seq<Tick>) returns (exited: bool, ghost turns: seq<Turned>)
      requires Valid()
      modifies this, tree, tree.chain, tree.buffer, tree.cache, downloader
      ensures Healthy() && (!exited ==> Valid() && |turns| == |ticks|) && Reached(old(View()), ticks, turns)
    {
      turns := [];
      ghost var start := View();
      for i := 0 to |ticks|
        invariant Valid() && |turns| == i && Reached(start, ticks, turns)
      {
        exited, turns := NextTurn(ticks, i, start, turns);
        if exited {
          return;
        }
      }
      exited := false;
    }

    method NextTurn(ticks: seq<Tick>, i: nat, ghost start: EngineView, ghost turns: seq<Turned>)
        returns (exited: bool, ghost turns': seq<Turned>)
      requires Valid() && |turns| == i < |ticks| && Reached(start, ticks, turns)
      modifies this, tree, tree.chain, tree.buffer, tree.cache, downloader
      ensures Healthy() && (!exited ==> Valid()) && |turns'| == i + 1 && Reached(start, ticks, turns')
    {
      var r, log := Turn(ticks[i]);
      ghost var turned := Turned(log, View());
      turns' := turns + [turned];
      exited := r.Exit?;
      RanNext(tree.rules, tree.buffer.limit, start, ticks, turns, turned);
    }
  }
}
