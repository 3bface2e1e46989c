/**
 What the engine's answers and turns mean, in terms of what is in memory, buffered, recorded as bad,
 and in flight.
 */
module Answers {
  import opened Blocks
  import opened ChainStates
  import opened ChainSwitch
  import opened CanonicalIndex
  import opened ChainRuns
  import opened InvalidAncestors
  import opened B = BlockBuffers
  import opened Downloads
  import opened TreeSpecs
  import opened BlockHandling
  import opened EngineSpecs

  // ---------- replies ----------

  /** What is reported to the consensus layer: the tree's status, or nothing for an internal error. */
  ghost predicate Reports<T>(outcome: TreeOutcome<T>, status: Option<T>)
  {
    if outcome.Outcome? then status == Some(outcome.status) else status == None
  }

  /** A payload is answered at once with the tree's own status, unless it is parked. */
  lemma PayloadReported(rules: Rules, limit: nat, a: EngineView, id: nat, payload: Payload, service: Service,
                        b: EngineView)
    requires PayloadEffect(rules, limit, a, id, payload, service, b)
    ensures b.taken == a.taken + [id]
    ensures if b.parked.Some? then b.parked.value.id == id && b.replies == a.replies
            else exists status :: Reports(service.payload, status) &&
                                  b.replies == a.replies + [PayloadReply(id, status)]
  {
    assert Reports(service.payload, StatusOf(service.payload));
  }

  /** So is a parked payload by the step that handles its block. */
  lemma ParkedReported(rules: Rules, a: EngineView, st: Step, b: EngineView)
    requires a.parked.Some? && AnswersParked(rules, a, st, b)
    ensures exists status :: Reports(st.outcome, status) &&
                             b.replies == a.replies + [PayloadReply(a.parked.value.id, status)]
  {
    assert Reports(st.outcome, StatusOf(st.outcome));
  }

  /** A fork choice is answered at once, and its head becomes the sync target exactly if it cannot be followed yet. */
  lemma ForkchoiceReported(rules: Rules, a: EngineView, id: nat, state: ForkchoiceState, attributes: Option<nat>,
                           service: Service, b: EngineView)
    requires ForkchoiceEffect(rules, a, id, state, attributes, service, b)
    ensures b.taken == a.taken + [id] && b.parked.None?
    ensures exists status :: Reports(service.forkchoice, status) &&
                             b.replies == a.replies + [ForkchoiceReply(id, status)]
    ensures service.forkchoice.Outcome? ==>
              var status := service.forkchoice.status;
              && (status.ForkchoiceSyncing? ==> b.target == Some(state.head))
              && (status.ForkchoiceValid? || status.InvalidAttributes? ==> b.target == None)
              && (status.ForkchoiceInvalid? || status.InvalidState? ==> b.target == a.target)
    ensures service.forkchoice.Failure? ==> b.target == a.target
  {
    assert Reports(service.forkchoice, StatusOf(service.forkchoice));
  }

  // ---------- payloads ----------

  /** The block obeys the rules on its own and against its parent. */
  ghost predicate Acceptable(rules: Rules, block: Header)
  {
    && rules.blockOk(block) && block.parent.HashOf? && block.number == block.parent.header.number + 1
    && rules.againstParentOk(block, block.parent.header)
  }

  /** What is known of the tree a payload is tried on. */
  ghost predicate Regular(t: TreeView, limit: nat)
  {
    ChainStates.Coherent(t.chain) && B.Coherent(t.buffer, limit) && limit >= 1
  }

  /** A complete witness is held for the block. */
  ghost predicate HoldsWitness(b: BufferView, h: Hash)
  {
    h in b.witnesses && h !in b.missing
  }

  /**
   A payload is parked exactly if its block is tried, is new, obeys the rules, has its parent in memory,
   and no complete witness is held for it.
   */
  lemma ParkedIff(rules: Rules, limit: nat, a: EngineView, id: nat, payload: Payload, service: Service, b: EngineView)
    requires PayloadEffect(rules, limit, a, id, payload, service, b) && Regular(a.tree, limit)
    ensures b.parked.Some? <==>
            && payload.WellFormed? && service.log.Tried? && HashOf(payload.block) !in a.tree.chain.blocks
            && payload.block.parent in a.tree.chain.blocks && Acceptable(rules, payload.block)
            && !HoldsWitness(a.tree.buffer, HashOf(payload.block))
  {
    if payload.WellFormed? && service.log.Tried? {
      var start := TriedOn(a, payload).(cache := service.log.checked);
      InsertTable(rules, start, payload.block, HeldWitness(a.tree.buffer, HashOf(payload.block)), service.log.result,
                  service.log.inserted, limit);
    }
  }

  /** The tree a payload is tried on: a complete witness has been taken out for it. */
  ghost function TriedOn(a: EngineView, payload: Payload): TreeView
  {
    a.tree.(buffer := WitnessTaken(a.tree.buffer, payload.BlockHash()))
  }

  /**
   A payload whose block is tried, obeys the rules on its own, and misses its parent: it is answered
   "syncing", and both its first unbuffered ancestor and its own witness, unless held, are in flight.
   */
  lemma DisconnectedFetches(rules: Rules, limit: nat, a: EngineView, id: nat, payload: Payload, service: Service,
                            b: EngineView, m: Hash)
    requires PayloadEffect(rules, limit, a, id, payload, service, b) && Regular(a.tree, limit)
    requires payload.WellFormed? && service.log.Tried? && rules.blockOk(payload.block)
    requires HashOf(payload.block) !in a.tree.chain.blocks && payload.block.parent !in a.tree.chain.blocks
    requires Gap(a.tree.buffer.blocks, payload.block.parent, m)
    ensures service.payload == Outcome(Syncing, Some(DownloadBlock(m))) && b.parked.None?
    ensures Fetching(b.downloads.fullBlocks, m)
    ensures HoldsWitness(a.tree.buffer, HashOf(payload.block)) || HashOf(payload.block) in b.downloads.witnesses
  {
    var block, held := payload.block, b.tree.buffer.witnesses.Keys;
    AnswersTable(rules, TriedOn(a, payload), block, HeldWitness(a.tree.buffer, HashOf(block)), true, a.target,
                 service.log, service.payload, service.mid, limit);
    RequestingAsks(a.downloads, EventOf(service.payload), held);
  }

  /**
   A payload whose block is or gets into memory is answered "valid", and becomes the head if it is the
   sync target and memory allows.
   */
  lemma ValidMakesHead(rules: Rules, limit: nat, a: EngineView, id: nat, payload: Payload, service: Service,
                       b: EngineView)
    requires PayloadEffect(rules, limit, a, id, payload, service, b)
    requires payload.WellFormed? && service.log.Tried? && service.payload.Outcome?
    requires HashOf(payload.block) in service.mid.chain.blocks
    ensures service.payload.status == PayloadValid(HashOf(payload.block))
    ensures a.target == Some(HashOf(payload.block)) && Sound(service.mid.chain, service.mid.head)
            && Switchable(service.mid.chain.blocks, service.mid.head.hash, HashOf(payload.block)) ==>
              b.tree.head.hash == HashOf(payload.block)
  {
    var block := payload.block;
    AnswersTable(rules, TriedOn(a, payload), block, HeldWitness(a.tree.buffer, HashOf(block)), true, a.target,
                 service.log, service.payload, service.mid, limit);
  }

  /** The requests an event may start. */
  ghost predicate StartedFor(d: DownloadView, event: Option<TreeEvent>, more: set<Hash>, e: DownloadView)
  {
    && e.codes == d.codes && e.outcomes == d.outcomes
    && (forall h :: h in e.witnesses ==> || h in d.witnesses || h in more || event == Some(DownloadBlock(h))
                                         || event == Some(DownloadWitness(h)))
    && (forall f :: f in e.fullBlocks ==> f in d.fullBlocks || event == Some(DownloadBlock(f.hash)))
    && (forall f :: f in e.finalized ==> f in d.finalized || event == Some(DownloadFinalized(f.fetch.hash)))
  }

  lemma RequestsNoMore(d: DownloadView, event: Option<TreeEvent>, held: set<Hash>)
    ensures StartedFor(d, event, {}, Requesting(d, event, held))
  {
  }

  /** Nothing but what the tree asks for, and the payload's own witness, is requested for a payload. */
  lemma PayloadFetchesNoMore(rules: Rules, limit: nat, a: EngineView, id: nat, payload: Payload, service: Service,
                             b: EngineView)
    requires PayloadEffect(rules, limit, a, id, payload, service, b)
    ensures StartedFor(a.downloads, EventOf(service.payload), {payload.BlockHash()}, b.downloads)
  {
    RequestsNoMore(a.downloads, EventOf(service.payload), b.tree.buffer.witnesses.Keys);
  }

  /**
   A malformed payload is answered "invalid". Unless its hash is at fault, the answer names its parent
   if that is in memory, or else what the entries left in the cache lead to from it. Nothing is asked
   for, and nothing but the cache changes.
   */
  lemma MalformedReported(rules: Rules, limit: nat, a: EngineView, id: nat, payload: Payload, service: Service,
                          b: EngineView)
    requires PayloadEffect(rules, limit, a, id, payload, service, b) && payload.Malformed?
    ensures b.parked.None? && b.downloads == a.downloads
    ensures b.tree == TriedOn(a, payload).(cache := b.tree.cache)
    ensures exists latest ::
              && b.replies == a.replies + [PayloadReply(id, Some(PayloadInvalid(latest)))]
              && (payload.hashFault ==> latest == None)
              && (!payload.hashFault && payload.parent in a.tree.chain.blocks ==> latest == Some(payload.parent))
              && (!payload.hashFault && payload.parent !in a.tree.chain.blocks ==>
                    forall c :: Leads(b.tree.cache.entries, payload.parent, c) && c !in b.tree.cache.entries ==>
                                  latest == if c in a.tree.chain.blocks then Some(c) else None)
  {
    var latest := service.payload.status.latestValid;
    assert service.payload.status == PayloadInvalid(latest);
  }

  // ---------- fork choices ----------

  /**
   A fork choice without a head is "invalid state"; an internal error comes about exactly if the
   current head is asked for again with attributes and a consistent state, but is not in memory.
   */
  lemma ForkchoiceErrorIff(rules: Rules, a: TreeView, state: ForkchoiceState, attributes: Option<nat>,
                           outcome: TreeOutcome<ForkchoiceStatus>, update: Option<NewCanonicalChain>, b: TreeView)
    requires ForkchoiceAnswered(rules, a, state, attributes, outcome, update, b)
    requires !(outcome.Outcome? && outcome.status.ForkchoiceInvalid?)
    ensures state.head == ZERO ==> outcome == Outcome(InvalidState, None) && b == a
    ensures outcome.Failure? <==>
            && state.head != ZERO && a.head.hash == state.head && state.head !in a.chain.blocks && attributes.Some?
            && OnIndex(a.chain.canonical, state.finalized) && OnIndex(a.chain.canonical, state.safe)
    ensures a.head.hash == state.head ==> b == a.(cache := b.cache)
  {
  }

  /** The index a fork choice is held against: the one after the head has moved, if it does. */
  ghost function IndexAfter(a: TreeView, state: ForkchoiceState, update: Option<NewCanonicalChain>): map<nat, Hash>
  {
    if a.head.hash != state.head && update.Some? then Applied(a.chain.canonical, update.value) else a.chain.canonical
  }

  ghost predicate OnIndex(canonical: map<nat, Hash>, h: Hash)
  {
    h == ZERO || IsCanonical(canonical, h)
  }

  /** The requested head is the current one, or the head moves to it. */
  ghost predicate Reaches(a: TreeView, state: ForkchoiceState, update: Option<NewCanonicalChain>)
  {
    a.head.hash == state.head || update.Some?
  }

  /**
   A fork choice whose head is reached: "invalid state" exactly if the finalized or the safe hash is not
   canonical; otherwise "invalid attributes" exactly if attributes are given and bad for that head;
   otherwise "valid", for that head.
   */
  lemma ReachedForkchoice(rules: Rules, a: TreeView, state: ForkchoiceState, attributes: Option<nat>,
                          outcome: TreeOutcome<ForkchoiceStatus>, update: Option<NewCanonicalChain>, b: TreeView)
    requires ForkchoiceAnswered(rules, a, state, attributes, outcome, update, b) && ChainStates.Coherent(a.chain)
    requires state.head != ZERO && outcome.Outcome? && !outcome.status.ForkchoiceInvalid? && Reaches(a, state, update)
    ensures var index := IndexAfter(a, state, update);
            outcome.status.InvalidState? <==> !OnIndex(index, state.finalized) || !OnIndex(index, state.safe)
    ensures !outcome.status.InvalidState? && attributes.Some? ==>
              state.head.HashOf? &&
              (outcome.status.InvalidAttributes? <==> !rules.attributesOk(attributes.value, state.head.header))
    ensures outcome.status.InvalidAttributes? ==> attributes.Some?
    ensures outcome.status.InvalidState? || outcome.status.InvalidAttributes? ||
            outcome.status == ForkchoiceValid(state.head)
  {
  }

  /** The hash is given, but neither in memory nor buffered. */
  ghost predicate Missing(t: TreeView, h: Hash)
  {
    h != ZERO && h !in t.chain.blocks && h !in t.buffer.blocks
  }

  /**
   A fork choice whose head is not reached: "valid" if the head is in memory, and otherwise "syncing".
   Then the finalized block is asked for if it is missing; else the first unbuffered hash below the safe
   block, if that is missing, or below the head.
   */
  lemma UnreachedForkchoice(rules: Rules, a: TreeView, state: ForkchoiceState, attributes: Option<nat>,
                            outcome: TreeOutcome<ForkchoiceStatus>, update: Option<NewCanonicalChain>, b: TreeView)
    requires ForkchoiceAnswered(rules, a, state, attributes, outcome, update, b)
    requires state.head != ZERO && !(outcome.Outcome? && outcome.status.ForkchoiceInvalid?)
    requires !Reaches(a, state, update)
    ensures b == a.(cache := b.cache)
    ensures state.head in a.chain.blocks ==> outcome == Outcome(ForkchoiceValid(state.head), None)
    ensures state.head !in a.chain.blocks ==> outcome.Outcome? && outcome.status.ForkchoiceSyncing?
    ensures state.head !in a.chain.blocks && Missing(a, state.finalized) ==>
              outcome.event == Some(DownloadFinalized(state.finalized))
    ensures state.head !in a.chain.blocks && !Missing(a, state.finalized) ==>
              forall t :: Gap(a.buffer.blocks, if Missing(a, state.safe) then state.safe else state.head, t) ==>
                            outcome.event == if t == state.finalized || t in a.chain.blocks then None
                                             else Some(DownloadBlock(t))
  {
    if state.head !in a.chain.blocks && !Missing(a, state.finalized) {
      var towards := if Missing(a, state.safe) then state.safe else state.head;
      var at :| Gap(a.buffer.blocks, towards, at) &&
                outcome.event == if at == state.finalized || at in a.chain.blocks then None
                                 else Some(DownloadBlock(at));
      forall t | Gap(a.buffer.blocks, towards, t)
        ensures t == at
      {
        GapUnique(a.buffer.blocks, towards, t, at);
      }
    }
  }

  /** And what is asked for is then in flight. */
  lemma SyncingFetches(rules: Rules, a: EngineView, id: nat, state: ForkchoiceState, attributes: Option<nat>,
                       service: Service, b: EngineView)
    requires ForkchoiceEffect(rules, a, id, state, attributes, service, b) && service.forkchoice.Outcome?
    ensures match service.forkchoice.event
            case Some(DownloadFinalized(h)) => FetchingFinalized(b.downloads.finalized, h)
            case Some(DownloadBlock(h)) =>
              Fetching(b.downloads.fullBlocks, h) && (h in b.tree.buffer.witnesses || h in b.downloads.witnesses)
            case _ => b.downloads == a.downloads
  {
    NoSwitchAsked(rules, a.tree, state, attributes, service.forkchoice, service.update, b.tree);
    RequestingAsks(a.downloads, EventOf(service.forkchoice), b.tree.buffer.witnesses.Keys);
  }

  // ---------- turns without a finished download ----------

  /** While a payload stays parked nothing else is served; once its time is up it is answered "syncing". */
  lemma ParkedFirst(rules: Rules, limit: nat, a: EngineView, tick: Tick, log: TurnLog, b: EngineView)
    requires TurnEffect(rules, limit, a, tick, log, b) && log.outcome.None? && a.parked.Some?
    ensures !tick.timedOut ==> b == a.(downloads := log.polled)
    ensures tick.timedOut ==> a.replies + [PayloadReply(a.parked.value.id, Some(Syncing))] <= b.replies
    ensures tick.timedOut && tick.message.None? ==> b.parked.None?
  {
    ParkedServed(rules, limit, a.(downloads := log.polled), tick, log.service, b);
  }

  lemma ParkedServed(rules: Rules, limit: nat, a: EngineView, tick: Tick, service: Service, b: EngineView)
    requires ServeEffect(rules, limit, a, tick, service, b) && a.parked.Some?
    ensures !tick.timedOut ==> b == a
    ensures tick.timedOut ==> a.replies + [PayloadReply(a.parked.value.id, Some(Syncing))] <= b.replies
    ensures tick.timedOut && tick.message.None? ==> b.parked.None?
  {
    if tick.timedOut && tick.message.Some? {
      match tick.message.value
      case NewPayload(id, payload) =>
        PayloadReported(rules, limit, TimedOut(a), id, payload, service, b);
      case ForkchoiceUpdated(id, state, attributes) =>
        ForkchoiceReported(rules, TimedOut(a), id, state, attributes, service, b);
      case TransitionConfigurationExchanged =>
    }
  }

  /** The state a message is served in: that before the turn, with the downloader polled. */
  ghost predicate ServedIn(a: EngineView, polled: DownloadView, c: EngineView)
  {
    c.tree == a.tree && c.target == a.target && c.downloads == polled
  }

  /** Otherwise the next message is served: each request is taken, and handled as its kind says. */
  lemma NextIsServed(rules: Rules, limit: nat, a: EngineView, tick: Tick, log: TurnLog, b: EngineView)
    requires TurnEffect(rules, limit, a, tick, log, b) && log.outcome.None? && tick.message.Some?
    requires a.parked.None? || tick.timedOut
    ensures match tick.message.value
            case NewPayload(id, payload) =>
              b.taken == a.taken + [id] &&
              exists c: EngineView :: ServedIn(a, log.polled, c) &&
                                      PayloadEffect(rules, limit, c, id, payload, log.service, b)
            case ForkchoiceUpdated(id, state, attributes) =>
              b.taken == a.taken + [id] &&
              exists c: EngineView :: ServedIn(a, log.polled, c) &&
                                      ForkchoiceEffect(rules, c, id, state, attributes, log.service, b)
            case TransitionConfigurationExchanged => b.taken == a.taken && b.tree == a.tree
  {
    assert ServedIn(a, log.polled, TimedOut(a.(downloads := log.polled)));
  }

  // ---------- turns with a finished download ----------

  lemma NothingLacking(codes: set<Code>, store: set<Code>)
    ensures codes - store == {} <==> codes <= store
  {
    if codes - store == {} {
      forall c | c in codes
        ensures c in store
      {
        assert c !in codes - store;
      }
    }
  }

  /** The blocks that have a step after each kind of outcome. */
  lemma StepsAfter(rules: Rules, limit: nat, a: EngineView, outcome: Outcome, tick: Tick, stored: DownloadView,
                   steps: seq<Step>, b: EngineView)
    requires OutcomeEffect(rules, limit, a, outcome, tick, stored, steps, b)
    ensures match outcome
            case FinalizedBlock(block, _) => StepHashes(steps) == if tick.recovers then {HashOf(block)} else {}
            case FullBlock(block) => StepHashes(steps) == if tick.recovers then {HashOf(block)} else {}
            case WitnessOf(hash, wit) =>
              StepHashes(steps) == if tick.databaseReads && wit.codes <= a.tree.store then {hash} else {}
            case Bytecode(code) =>
              forall h :: h in StepHashes(steps) <==>
                            tick.databaseWrites && h in a.tree.buffer.missing && a.tree.buffer.missing[h] == {code}
    ensures if outcome.Bytecode? then
              && (outcome.code in b.lost <==> !tick.databaseWrites)
              && (forall c :: c != outcome.code ==> (c in b.lost <==> c in a.lost))
            else b.lost == a.lost
  {
    if outcome.WitnessOf? {
      NothingLacking(outcome.wit.codes, a.tree.store);
    }
  }

  /** What is in the tree before those steps. */
  ghost predicate StoredFirst(a: TreeView, outcome: Outcome, tick: Tick, limit: nat, t: TreeView)
  {
    match outcome
    case FinalizedBlock(block, _) =>
      if tick.recovers then
        t.head == block.ToNumHash() && t.chain.blocks == a.chain.blocks[HashOf(block) := block] && t.buffer == a.buffer
      else t == a
    case FullBlock(block) =>
      if tick.recovers then
        HashOf(block) in t.buffer.blocks && t.buffer.blocks[HashOf(block)] == block && t.chain == a.chain
        && (HoldsWitness(a.buffer, HashOf(block)) ==> HoldsWitness(t.buffer, HashOf(block)))
      else t == a
    case WitnessOf(hash, wit) =>
      if tick.databaseReads then
        hash in t.buffer.witnesses && t.buffer.witnesses[hash] == wit && t.chain == a.chain
        && (if wit.codes <= a.store then t.buffer.missing == a.buffer.missing
            else hash in t.buffer.missing && t.buffer.missing[hash] == wit.codes - a.store)
      else t == a
    case Bytecode(code) =>
      if tick.databaseWrites then
        t.store == a.store + {code} && t.chain == a.chain
        && (forall h :: h in t.buffer.missing ==> code !in t.buffer.missing[h])
      else t == a
  }

  lemma OutcomeStored(a: TreeView, outcome: Outcome, tick: Tick, limit: nat)
    requires B.Coherent(a.buffer, limit) && limit >= 1
    ensures StoredFirst(a, outcome, tick, limit, Stored(a, outcome, Accepted(outcome, tick), limit))
  {
    match outcome
    case FullBlock(block) => InsertedMakesRoom(a.buffer, block, limit);
    case WitnessOf(hash, wit) => NothingLacking(wit.codes, a.store);
    case _ =>
  }

  /** Of the requests only a witness's bytecodes are new: afterwards exactly those it lacks are in flight too. */
  lemma OutcomeFetches(rules: Rules, limit: nat, a: EngineView, outcome: Outcome, tick: Tick, stored: DownloadView,
                       steps: seq<Step>, b: EngineView)
    requires OutcomeEffect(rules, limit, a, outcome, tick, stored, steps, b)
    ensures stored == a.downloads.(codes := stored.codes)
    ensures forall c :: c in stored.codes <==>
                          || c in a.downloads.codes
                          || (outcome.WitnessOf? && tick.databaseReads && c in outcome.wit.codes && c !in a.tree.store)
  {
    if outcome.WitnessOf? && tick.databaseReads {
      forall c
        ensures c in stored.codes <==> c in a.downloads.codes || (c in outcome.wit.codes && c !in a.tree.store)
      {
        CodeIn(a.downloads, outcome.wit.codes - a.tree.store, stored, c);
      }
    }
  }

  /** The engine ends exactly if a finalized block cannot be recovered or the store not be read for a witness. */
  lemma FatalIff(outcome: Outcome, tick: Tick)
    ensures IsFatal(outcome, tick) <==> || (outcome.FinalizedBlock? && !tick.recovers)
                                        || (outcome.WitnessOf? && !tick.databaseReads)
  {
  }

  // ---------- what becomes of an unlocked block ----------

  /** Since the mark the block got into memory or failed, or an execution was fatal. */
  ghost predicate Decided(rules: Rules, since: Mark, t: TreeView, h: Hash)
  {
    || h in t.chain.blocks || LoggedSince(t.failures, since.failures, h)
    || CrashedSince(rules, t.executed, since.executed)
  }

  lemma DecidedStays(rules: Rules, since: Mark, a: TreeView, b: TreeView, h: Hash)
    requires Records(a, b) && Decided(rules, since, a, h)
    ensures Decided(rules, since, b, h)
  {
    if LoggedSince(a.failures, since.failures, h) {
      LoggedStays(a.failures, b.failures, since.failures, h);
    } else if CrashedSince(rules, a.executed, since.executed) {
      CrashedStays(rules, a.executed, b.executed, since.executed);
    }
  }

  /** The step of a ready block whose parent is in memory decides it, unless it is recorded as bad. */
  lemma StepDecides(rules: Rules, target: Option<Hash>, limit: nat, st: Step)
    requires StepOk(rules, target, limit, st) && st.hash in AllReady(st.before.tree.buffer) && st.hash.HashOf?
    requires st.hash.header.parent in st.before.tree.chain.blocks
    ensures Decided(rules, MarkOf(st.before.tree), st.after.tree, st.hash) || st.hash in st.before.tree.cache.entries
  {
    var t := st.before.tree;
    var block, wit, given := t.buffer.blocks[st.hash], t.buffer.witnesses[st.hash], WithoutBlock(t, st.hash);
    FollowUpKeeps(st.mid, EventOf(st.outcome), st.update, st.after.tree);
    if st.outcome.Failure? {
      HandlesJustified(rules, given, block, Some(wit), false, target, st.log, st.outcome, st.mid, limit);
    } else if st.log.Tried? {
      TriedDecides(rules, given, block, wit, target, st.log, st.outcome, st.mid, limit);
    }
  }

  /**
   After the step of a block that obeys the rules on its own and misses its parent, its first unbuffered
   ancestor is being fetched, with its witness unless that is held.
   */
  lemma StepFetches(rules: Rules, target: Option<Hash>, limit: nat, st: Step, m: Hash)
    requires StepOk(rules, target, limit, st) && st.hash in AllReady(st.before.tree.buffer) && st.hash.HashOf?
    requires st.log.Tried? && rules.blockOk(st.hash.header) && st.hash !in st.before.tree.chain.blocks
    requires st.hash.header.parent !in st.before.tree.chain.blocks && st.outcome.Outcome?
    requires Gap(st.before.tree.buffer.blocks - {st.hash}, st.hash.header.parent, m)
    ensures Fetching(st.after.downloads.fullBlocks, m)
    ensures m in st.after.tree.buffer.witnesses || m in st.after.downloads.witnesses
  {
    var t := st.before.tree;
    var block, wit := t.buffer.blocks[st.hash], t.buffer.witnesses[st.hash];
    AnswersTable(rules, WithoutBlock(t, st.hash), block, Some(wit), false, target, st.log, st.outcome, st.mid, limit);
    RequestingAsks(st.before.downloads, EventOf(st.outcome), st.after.tree.buffer.witnesses.Keys);
  }

  /** The step that gets the sync target into memory makes it the head, if memory allows. */
  lemma StepMakesHead(rules: Rules, target: Option<Hash>, limit: nat, st: Step)
    requires StepOk(rules, target, limit, st) && st.hash in AllReady(st.before.tree.buffer)
    requires st.log.Tried? && st.outcome.Outcome? && target == Some(st.hash)
    requires st.hash !in st.before.tree.chain.blocks && st.hash in st.mid.chain.blocks
    requires Sound(st.mid.chain, st.mid.head) && Switchable(st.mid.chain.blocks, st.mid.head.hash, st.hash)
    ensures st.after.tree.head.hash == st.hash
  {
    var t := st.before.tree;
    var block, wit := t.buffer.blocks[st.hash], t.buffer.witnesses[st.hash];
    AnswersTable(rules, WithoutBlock(t, st.hash), block, Some(wit), false, target, st.log, st.outcome, st.mid, limit);
  }

  lemma TriedDecides(rules: Rules, a: TreeView, block: Header, wit: Witness, target: Option<Hash>, log: HandleLog,
                     outcome: TreeOutcome<PayloadStatus>, b: TreeView, limit: nat)
    requires Handles(rules, a, block, Some(wit), false, target, log, outcome, b, limit)
    requires log.Tried? && outcome.Outcome? && block.parent in a.chain.blocks
    ensures HashOf(block) in b.chain.blocks || LoggedSince(b.failures, |a.failures|, HashOf(block))
  {
    if log.result.Rejected? {
      assert b.failures[|a.failures|] == HashOf(block);
    } else {
      AnswersTable(rules, a, block, Some(wit), false, target, log, outcome, b, limit);
    }
  }

  lemma {:induction false} FirstStep(rules: Rules, target: Option<Hash>, limit: nat, start: World, steps: seq<Step>)
    requires Stepwise(rules, target, limit, start, steps) && steps != []
    ensures steps[0].before == start && StepOk(rules, target, limit, steps[0]) && steps[0].hash in StepHashes(steps)
    ensures Records(steps[0].after.tree, Upto(start, steps).tree)
    decreases |steps|
  {
    var before, last := steps[..|steps| - 1], steps[|steps| - 1];
    if before != [] {
      FirstStep(rules, target, limit, start, before);
      if last.handled {
        StepGrows(rules, target, limit, last);
      }
    }
  }

  /** If one block is unlocked, ready and has its parent in memory, the turn decides it unless it is recorded as bad. */
  lemma UnlockedIsDecided(rules: Rules, target: Option<Hash>, limit: nat, start: World, steps: seq<Step>, end: World,
                          h: Hash)
    requires Processed(rules, target, limit, start, {h}, steps, end)
    requires h in AllReady(start.tree.buffer) && h.HashOf? && h.header.parent in start.tree.chain.blocks
    ensures Decided(rules, MarkOf(start.tree), end.tree, h) || h in start.tree.cache.entries
  {
    assert steps != [];
    FirstStep(rules, target, limit, start, steps);
    StepDecides(rules, target, limit, steps[0]);
    if h !in start.tree.cache.entries {
      DecidedStays(rules, MarkOf(start.tree), steps[0].after.tree, end.tree, h);
    }
  }

  /**
   A downloaded block that can be recovered, whose witness is held and whose parent is in memory: once
   the turn is over it is in memory, has failed in it, or an execution in it was fatal, unless the
   block is recorded as bad.
   */
  lemma DownloadedIsDecided(rules: Rules, limit: nat, a: EngineView, block: Header, tick: Tick, stored: DownloadView,
                            steps: seq<Step>, b: EngineView)
    requires OutcomeEffect(rules, limit, a, FullBlock(block), tick, stored, steps, b) && Regular(a.tree, limit)
    requires tick.recovers && HoldsWitness(a.tree.buffer, HashOf(block)) && block.parent in a.tree.chain.blocks
    ensures Decided(rules, MarkOf(a.tree), b.tree, HashOf(block)) || HashOf(block) in a.tree.cache.entries
  {
    var t := Stored(a.tree, FullBlock(block), true, limit);
    OutcomeStored(a.tree, FullBlock(block), tick, limit);
    UnlockedIsDecided(rules, a.target, limit, World(t, stored), steps, World(b.tree, b.downloads), HashOf(block));
  }

  /** So is a buffered block whose complete witness arrives. */
  lemma WitnessedIsDecided(rules: Rules, limit: nat, a: EngineView, hash: Hash, wit: Witness, tick: Tick,
                           stored: DownloadView, steps: seq<Step>, b: EngineView)
    requires OutcomeEffect(rules, limit, a, WitnessOf(hash, wit), tick, stored, steps, b) && Regular(a.tree, limit)
    requires tick.databaseReads && wit.codes <= a.tree.store && hash !in a.tree.buffer.missing
    requires hash in a.tree.buffer.blocks && hash.HashOf? && hash.header.parent in a.tree.chain.blocks
    ensures Decided(rules, MarkOf(a.tree), b.tree, hash) || hash in a.tree.cache.entries
  {
    var t := Stored(a.tree, WitnessOf(hash, wit), true, limit);
    NothingLacking(wit.codes, a.tree.store);
    UnlockedIsDecided(rules, a.target, limit, World(t, stored), steps, World(b.tree, b.downloads), hash);
  }
}
