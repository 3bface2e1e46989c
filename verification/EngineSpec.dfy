/**
 The event loop as a value: what one turn does to requests, tree and downloads, and what it keeps.
 */
module EngineSpecs {
  import opened Blocks
  import opened ChainSwitch
  import opened CanonicalIndex
  import opened ChainRuns
  import opened B = BlockBuffers
  import opened Downloads
  import opened TreeSpecs
  import opened BlockHandling

  datatype Message =
    | NewPayload(id: nat, payload: Payload)
    | ForkchoiceUpdated(id: nat, state: ForkchoiceState, attributes: Option<nat>)
    | TransitionConfigurationExchanged

  /** An answer to a request; no status means an internal error was reported. */
  datatype Reply =
    | PayloadReply(id: nat, payload: Option<PayloadStatus>)
    | ForkchoiceReply(id: nat, forkchoice: Option<ForkchoiceStatus>)

  datatype Parked = Parked(hash: Hash, id: nat)

  /** What the environment does during one turn of the loop. */
  datatype Tick = Tick(
    arrivals: Arrivals,
    recovers: bool,
    databaseReads: bool,
    databaseWrites: bool,
    timedOut: bool,
    message: Option<Message>)

  datatype TurnResult = Continue | Pending | Exit

  /**
   The whole engine. Two of its parts are only observed: the bytecodes whose last write failed, and
   how far the tree's records had got when the parked payload was parked.
   */
  datatype EngineView = EngineView(
    parked: Option<Parked>,
    taken: seq<nat>,
    replies: seq<Reply>,
    lost: set<Code>,
    since: Mark,
    target: Option<Hash>,
    tree: TreeView,
    downloads: DownloadView)

  function StatusOf<T>(outcome: TreeOutcome<T>): Option<T>
  {
    if outcome.Outcome? then Some(outcome.status) else None
  }

  // ---------- replies ----------

  function Ids(replies: seq<Reply>): seq<nat>
  {
    seq(|replies|, i requires 0 <= i < |replies| => replies[i].id)
  }

  /** Requests are answered once each and in the order taken; only the parked one may be open. */
  ghost predicate Answered(taken: seq<nat>, replies: seq<Reply>, parked: Option<Parked>)
  {
    taken == Ids(replies) + (if parked.Some? then [parked.value.id] else [])
  }

  /** Replies come in the order of the requests, one each, and only a parked payload is still to be answered. */
  ghost predicate InOrder(taken: seq<nat>, replies: seq<Reply>, parked: Option<Parked>)
  {
    && |taken| == |replies| + (if parked.Some? then 1 else 0)
    && (forall i :: 0 <= i < |replies| ==> replies[i].id == taken[i])
    && (parked.Some? ==> taken[|taken| - 1] == parked.value.id)
  }

  lemma AnsweredInOrder(taken: seq<nat>, replies: seq<Reply>, parked: Option<Parked>)
    requires Answered(taken, replies, parked)
    ensures InOrder(taken, replies, parked)
  {
  }

  lemma AnsweredNext(taken: seq<nat>, replies: seq<Reply>, parked: Option<Parked>, reply: Reply)
    requires Answered(taken, replies, parked)
    ensures parked.Some? && reply.id == parked.value.id ==> Answered(taken, replies + [reply], None)
    ensures parked.None? ==> Answered(taken + [reply.id], replies + [reply], None)
  {
    assert Ids(replies + [reply]) == Ids(replies) + [reply.id];
  }

  // ---------- what the tree asks for ----------

  /** The requests in flight once the tree's event has been followed; a block's witness is fetched unless it is held. */
  ghost function Requesting(d: DownloadView, event: Option<TreeEvent>, held: set<Hash>): DownloadView
  {
    match event
    case None => d
    case Some(DownloadBlock(hash)) => if hash in held then AddBlock(d, hash) else AddWitness(AddBlock(d, hash), hash)
    case Some(DownloadWitness(hash)) => AddWitness(d, hash)
    case Some(DownloadFinalized(hash)) => AddFinalized(d, hash)
    case Some(Canonicalize(_)) => d
  }

  /** What an event asks for is in flight; a witness is fetched along with a block unless one is there. */
  ghost predicate Requested(event: TreeEvent, d: DownloadView, held: set<Hash>)
  {
    match event
    case DownloadBlock(hash) => Fetching(d.fullBlocks, hash) && (hash in held || hash in d.witnesses)
    case DownloadWitness(hash) => hash in d.witnesses
    case DownloadFinalized(hash) => FetchingFinalized(d.finalized, hash)
    case Canonicalize(_) => true
  }

  /** Following an event starts what it asks for and disturbs nothing in flight. */
  lemma RequestingAsks(d: DownloadView, event: Option<TreeEvent>, held: set<Hash>)
    ensures RequestsMore(d, Requesting(d, event, held))
    ensures event.Some? ==> Requested(event.value, Requesting(d, event, held), held)
  {
    match event
    case Some(DownloadBlock(hash)) => BlockRequested(d, hash);
    case Some(DownloadFinalized(hash)) => FinalizedRequested(d, hash);
    case _ =>
  }

  /** Requests are added; nothing in flight or queued is touched. */
  ghost predicate RequestsMore(d: DownloadView, e: DownloadView)
  {
    && d.fullBlocks <= e.fullBlocks && d.codes <= e.codes && d.witnesses <= e.witnesses && d.finalized <= e.finalized
    && d.outcomes == e.outcomes && d.checks == e.checks
  }

  lemma RequestsAwait(d: DownloadView, e: DownloadView)
    requires RequestsMore(d, e)
    ensures AwaitsMore(d, e)
  {
  }

  // ---------- processing unlocked blocks ----------

  /** The tree and what is being downloaded. */
  datatype World = World(tree: TreeView, downloads: DownloadView)

  /** One unlocked block: the world before and after, and what the tree said if the block was handed to it. */
  datatype Step = Step(
    hash: Hash,
    before: World,
    handled: bool,
    log: HandleLog,
    outcome: TreeOutcome<PayloadStatus>,
    mid: TreeView,
    update: Option<NewCanonicalChain>,
    after: World)

  function EventOf<T>(outcome: TreeOutcome<T>): Option<TreeEvent>
  {
    if outcome.Outcome? then outcome.event else None
  }

  /** What the tree asks for is done: only a new canonical chain changes it. */
  ghost predicate FollowsUp(mid: TreeView, event: Option<TreeEvent>, update: Option<NewCanonicalChain>, after: TreeView)
  {
    if event.Some? && event.value.Canonicalize? then
      after == Switched(mid, event.value.target, update) && Justly(mid, event.value.target, update)
    else after == mid
  }

  ghost predicate FollowedUp<T>(mid: TreeView, outcome: TreeOutcome<T>, update: Option<NewCanonicalChain>,
                                after: TreeView)
  {
    FollowsUp(mid, EventOf(outcome), update, after)
  }

  lemma FollowUpGrows(rules: Rules, mid: TreeView, event: Option<TreeEvent>, update: Option<NewCanonicalChain>,
                      after: TreeView)
    requires FollowsUp(mid, event, update, after)
    ensures Grows(rules, mid, after) && (Gated(mid) ==> Gated(after))
  {
    if event.Some? && event.value.Canonicalize? {
      SwitchGrows(rules, mid, event.value.target, update);
    } else {
      GrowsSelf(rules, mid);
    }
  }

  /**
   A block is handed over exactly if it is buffered and ready; it leaves the buffer with a complete
   witness, and what the tree then asks for is requested.
   */
  ghost predicate StepOk(rules: Rules, target: Option<Hash>, limit: nat, st: Step)
  {
    && (st.handled <==> st.hash in AllReady(st.before.tree.buffer))
    && (!st.handled ==> st.after == st.before)
    && (st.handled ==> StepHandles(rules, target, limit, st))
  }

  ghost predicate StepHandles(rules: Rules, target: Option<Hash>, limit: nat, st: Step)
    requires st.hash in AllReady(st.before.tree.buffer)
  {
    var t := st.before.tree;
    var block, wit := t.buffer.blocks[st.hash], t.buffer.witnesses[st.hash];
    && HashOf(block) == st.hash && wit.codes <= t.store
    && Handles(rules, WithoutBlock(t, st.hash), block, Some(wit), false, target, st.log, st.outcome, st.mid, limit)
    && FollowedUp(st.mid, st.outcome, st.update, st.after.tree)
    && st.after.downloads ==
       Requesting(st.before.downloads, EventOf(st.outcome), st.after.tree.buffer.witnesses.Keys)
  }

  ghost function WithoutBlock(t: TreeView, h: Hash): TreeView
  {
    t.(buffer := Taken(t.buffer, h))
  }

  /** `given` is `t` with a ready block taken out, whose witness is complete. */
  ghost predicate TakenFrom(t: TreeView, block: Header, wit: Witness, given: TreeView)
  {
    var hash := HashOf(block);
    && hash in AllReady(t.buffer) && t.buffer.blocks[hash] == block && t.buffer.witnesses[hash] == wit
    && wit.codes <= t.store && given == WithoutBlock(t, hash)
  }

  /** A step about `hash` that leads from one world to another. */
  ghost predicate StepFrom(st: Step, before: World, hash: Hash, after: World)
  {
    st.hash == hash && st.before == before && st.after == after
  }

  ghost function Skipped(hash: Hash, w: World): Step
  {
    Step(hash, w, false, Refused(hash, w.tree.cache), Failure, w.tree, None, w)
  }

  lemma StepTaken(rules: Rules, target: Option<Hash>, limit: nat, st: Step, block: Header, wit: Witness)
    requires st.handled && st.hash == HashOf(block)
    requires TakenFrom(st.before.tree, block, wit, WithoutBlock(st.before.tree, st.hash))
    requires Handles(rules, WithoutBlock(st.before.tree, st.hash), block, Some(wit), false, target, st.log, st.outcome,
                     st.mid, limit)
    requires FollowedUp(st.mid, st.outcome, st.update, st.after.tree)
    requires st.after.downloads ==
             Requesting(st.before.downloads, EventOf(st.outcome), st.after.tree.buffer.witnesses.Keys)
    ensures StepOk(rules, target, limit, st)
  {
  }

  /** A step that hands a block over takes nothing else away without a recorded cause. */
  lemma StepGrows(rules: Rules, target: Option<Hash>, limit: nat, st: Step)
    requires StepOk(rules, target, limit, st) && st.handled
    ensures Grows(rules, WithoutBlock(st.before.tree, st.hash), st.after.tree)
  {
    var t := st.before.tree;
    var block, wit := t.buffer.blocks[st.hash], t.buffer.witnesses[st.hash];
    HandlesGrows(rules, WithoutBlock(t, st.hash), block, Some(wit), false, target, st.log, st.outcome, st.mid, limit);
    FollowUpGrows(rules, st.mid, EventOf(st.outcome), st.update, st.after.tree);
    GrowsTransitive(rules, WithoutBlock(t, st.hash), st.mid, st.after.tree);
  }

  lemma StepLengthens(rules: Rules, target: Option<Hash>, limit: nat, st: Step)
    requires StepOk(rules, target, limit, st)
    ensures Lengthens(st.before.tree, st.after.tree)
  {
    if st.handled {
      StepGrows(rules, target, limit, st);
    }
  }

  /** The blocks a step takes out along with its own. */
  ghost predicate StepSweeps(st: Step, h: Hash)
  {
    st.log.Tried? && Follows(st.log.result, false) && TakenAlong(Taken(st.before.tree.buffer, st.hash), st.hash, h)
  }

  /**
   Exactly when another block whose parent is in memory leaves the buffer in a step: when it is
   pushed out at the limit, or when it is ready and linked below the step's block and that block is
   connected. In the latter case it is then in memory or failed, unless an execution was fatal.
   */
  lemma StepKeepsIff(rules: Rules, target: Option<Hash>, limit: nat, st: Step, h: Hash)
    requires StepOk(rules, target, limit, st) && st.handled && h != st.hash
    requires h in st.before.tree.buffer.blocks && h.HashOf? && h.header.parent in st.before.tree.chain.blocks
    ensures h in st.after.tree.buffer.blocks <==>
            !StepSweeps(st, h) && !LoggedSince(st.after.tree.evictions, |st.before.tree.evictions|, h)
    ensures StepSweeps(st, h) && st.outcome.Outcome? ==>
              h in st.after.tree.chain.blocks ||
              LoggedSince(st.after.tree.failures, |st.before.tree.failures|, h)
  {
    var t := st.before.tree;
    var block, wit := t.buffer.blocks[st.hash], t.buffer.witnesses[st.hash];
    HandlesKeepsIff(rules, WithoutBlock(t, st.hash), block, Some(wit), false, target, st.log, st.outcome, st.mid, limit,
                    h);
    FollowUpKeeps(st.mid, EventOf(st.outcome), st.update, st.after.tree);
  }

  /** Following up leaves the buffer, memory and the records alone. */
  lemma FollowUpKeeps(mid: TreeView, event: Option<TreeEvent>, update: Option<NewCanonicalChain>, after: TreeView)
    requires FollowsUp(mid, event, update, after)
    ensures after.buffer == mid.buffer && after.chain.blocks == mid.chain.blocks && after.executed == mid.executed
    ensures after.failed == mid.failed && after.failures == mid.failures && after.evictions == mid.evictions
  {
  }

  /** The steps' answer to the parked payload, if there is one, has been given. */
  ghost predicate Settles(p: Option<Parked>, r: seq<Reply>, steps: seq<Step>, p': Option<Parked>, r': seq<Reply>)
  {
    p' == StillParked(p, steps) && r' == r + StepReplies(p, steps)
  }

  lemma OneStepSettles(p: Option<Parked>, r: seq<Reply>, st: Step)
    ensures if st.handled && p.Some? && p.value.hash == st.hash
            then Settles(p, r, [st], None, r + [PayloadReply(p.value.id, StatusOf(st.outcome))])
            else Settles(p, r, [st], p, r)
  {
    OneStepReplies(p, st);
  }

  /** Some unlocked blocks have had their step, the others are still to come. */
  ghost predicate Processing(rules: Rules, target: Option<Hash>, limit: nat, start: World, unlocked: set<Hash>,
                             rest: set<Hash>,
                             steps: seq<Step>, t: World, p: Option<Parked>, r: seq<Reply>, p': Option<Parked>,
                             r': seq<Reply>)
  {
    && rest <= unlocked && Processed(rules, target, limit, start, unlocked - rest, steps, t)
    && Settles(p, r, steps, p', r')
  }

  lemma ProcessingStarts(rules: Rules, target: Option<Hash>, limit: nat, start: World, unlocked: set<Hash>,
                         p: Option<Parked>, r: seq<Reply>)
    ensures Processing(rules, target, limit, start, unlocked, unlocked, [], start, p, r, p, r)
  {
    ProcessedStart(rules, target, limit, start);
    assert unlocked - unlocked == {};
  }

  lemma ProcessingGoesOn(rules: Rules, target: Option<Hash>, limit: nat, start: World, unlocked: set<Hash>,
                         rest: set<Hash>,
                         steps: seq<Step>, st: Step, p: Option<Parked>, r: seq<Reply>,
                         p1: Option<Parked>, r1: seq<Reply>, p2: Option<Parked>, r2: seq<Reply>)
    requires Processing(rules, target, limit, start, unlocked, rest, steps, st.before, p, r, p1, r1) && st.hash in rest
    requires StepOk(rules, target, limit, st) && Settles(p1, r1, [st], p2, r2)
    ensures Processing(rules, target, limit, start, unlocked, rest - {st.hash}, steps + [st], st.after, p, r, p2, r2)
  {
    ProcessedNext(rules, target, limit, start, unlocked - rest, steps, st);
    assert unlocked - rest + {st.hash} == unlocked - (rest - {st.hash});
    StepRepliesNext(p, steps, st);
  }

  lemma ProcessingEnds(rules: Rules, target: Option<Hash>, limit: nat, start: World, unlocked: set<Hash>,
                       steps: seq<Step>, t: World, p: Option<Parked>, r: seq<Reply>, p': Option<Parked>,
                       r': seq<Reply>)
    requires Processing(rules, target, limit, start, unlocked, {}, steps, t, p, r, p', r')
    ensures Processed(rules, target, limit, start, unlocked, steps, t) && Settles(p, r, steps, p', r')
  {
    assert unlocked - {} == unlocked;
  }

  lemma OneStepReplies(parked: Option<Parked>, st: Step)
    ensures if st.handled && parked.Some? && parked.value.hash == st.hash
            then && StillParked(parked, [st]) == None
                 && StepReplies(parked, [st]) == [PayloadReply(parked.value.id, StatusOf(st.outcome))]
            else StillParked(parked, [st]) == parked && StepReplies(parked, [st]) == []
  {
    assert [st][..0] == [];
  }

  ghost function Upto(start: World, steps: seq<Step>): World
  {
    if steps == [] then start else steps[|steps| - 1].after
  }

  /** The steps follow each other from `start`. */
  ghost predicate Stepwise(rules: Rules, target: Option<Hash>, limit: nat, start: World, steps: seq<Step>)
  {
    steps == [] ||
    (var before, st := steps[..|steps| - 1], steps[|steps| - 1];
     && Stepwise(rules, target, limit, start, before)
     && StepOk(rules, target, limit, st) && st.before == Upto(start, before))
  }

  ghost function StepHashes(steps: seq<Step>): set<Hash>
  {
    if steps == [] then {} else StepHashes(steps[..|steps| - 1]) + {steps[|steps| - 1].hash}
  }

  /** Each step is one the engine may take. */
  lemma {:induction false} StepwiseEach(rules: Rules, target: Option<Hash>, limit: nat, start: World,
                                        steps: seq<Step>, i: nat)
    requires Stepwise(rules, target, limit, start, steps) && i < |steps|
    ensures StepOk(rules, target, limit, steps[i])
    decreases |steps|
  {
    if i < |steps| - 1 {
      StepwiseEach(rules, target, limit, start, steps[..|steps| - 1], i);
    }
  }

  /** Every unlocked block has had its step, leading from `start` to `end`. */
  ghost predicate Processed(rules: Rules, target: Option<Hash>, limit: nat, start: World, unlocked: set<Hash>,
                            steps: seq<Step>, end: World)
  {
    && Stepwise(rules, target, limit, start, steps) && end == Upto(start, steps) && StepHashes(steps) == unlocked
    && Lengthens(start.tree, end.tree)
  }

  lemma ProcessedStart(rules: Rules, target: Option<Hash>, limit: nat, start: World)
    ensures Processed(rules, target, limit, start, {}, [], start)
  {
  }

  lemma ProcessedNext(rules: Rules, target: Option<Hash>, limit: nat, start: World, unlocked: set<Hash>,
                      steps: seq<Step>, st: Step)
    requires Processed(rules, target, limit, start, unlocked, steps, st.before)
    requires StepOk(rules, target, limit, st)
    ensures Processed(rules, target, limit, start, unlocked + {st.hash}, steps + [st], st.after)
  {
    StepLengthens(rules, target, limit, st);
    assert (steps + [st])[..|steps|] == steps;
  }

  /** The answer given to a block by a step is a justified one. */
  lemma StepJustified(rules: Rules, target: Option<Hash>, limit: nat, st: Step)
    requires StepOk(rules, target, limit, st) && st.handled
    ensures Justified(rules, |st.before.tree.executed|, st.after.tree, st.hash, st.outcome)
  {
    var t := st.before.tree;
    var block, wit := t.buffer.blocks[st.hash], t.buffer.witnesses[st.hash];
    HandlesJustified(rules, WithoutBlock(t, st.hash), block, Some(wit), false, target, st.log, st.outcome, st.mid,
                     limit);
  }

  /** What is left of the parked payload once the steps are done. */
  ghost function StillParked(parked: Option<Parked>, steps: seq<Step>): Option<Parked>
  {
    if steps == [] then parked
    else
      var p, st := StillParked(parked, steps[..|steps| - 1]), steps[|steps| - 1];
      if st.handled && p.Some? && p.value.hash == st.hash then None else p
  }

  /** The replies the steps lead to: the tree's answer about the parked payload's block, when it comes to that block. */
  ghost function StepReplies(parked: Option<Parked>, steps: seq<Step>): seq<Reply>
  {
    if steps == [] then []
    else
      var before, st := steps[..|steps| - 1], steps[|steps| - 1];
      var p := StillParked(parked, before);
      StepReplies(parked, before) +
      (if st.handled && p.Some? && p.value.hash == st.hash
       then [PayloadReply(p.value.id, StatusOf(st.outcome))] else [])
  }

  lemma StepRepliesNext(parked: Option<Parked>, steps: seq<Step>, st: Step)
    ensures StillParked(parked, steps + [st]) == StillParked(StillParked(parked, steps), [st])
    ensures StepReplies(parked, steps + [st]) ==
            StepReplies(parked, steps) + StepReplies(StillParked(parked, steps), [st])
  {
    assert (steps + [st])[..|steps|] == steps && [st][..0] == [];
  }

  /**
   A parked payload is answered by the steps exactly if one of them hands its own block to the
   tree, and then once, with that step's answer.
   */
  lemma {:induction false} ParkedResolves(parked: Parked, steps: seq<Step>)
    ensures StillParked(Some(parked), steps).None? <==> exists i :: 0 <= i < |steps| && Hits(parked, steps[i])
    ensures StillParked(Some(parked), steps).Some? ==>
              StillParked(Some(parked), steps) == Some(parked) && StepReplies(Some(parked), steps) == []
    ensures StillParked(Some(parked), steps).None? ==>
              exists i :: 0 <= i < |steps| && Hits(parked, steps[i]) &&
                          StepReplies(Some(parked), steps) == [PayloadReply(parked.id, StatusOf(steps[i].outcome))]
  {
    if steps != [] {
      var before, last := steps[..|steps| - 1], |steps| - 1;
      ParkedResolves(parked, before);
      assert forall i :: 0 <= i < |before| ==> before[i] == steps[i];
      if StillParked(Some(parked), before).Some? {
        assert !Hits(parked, steps[last]) ==> forall i :: 0 <= i < |steps| ==> !Hits(parked, steps[i]);
      }
    }
  }

  ghost predicate Hits(parked: Parked, st: Step)
  {
    st.handled && st.hash == parked.hash
  }

  /**
   A parked block that is ready and linked below another unlocked block is taken out along with it if
   that one comes first and is connected. Its own step then finds nothing to hand over: the block is
   in memory or failed, and the payload stays parked without an answer.
   */
  lemma {:induction false} ParkedIsBypassed(rules: Rules, target: Option<Hash>, limit: nat, parked: Parked, first: Step,
                                            own: Step)
    requires StepOk(rules, target, limit, first) && first.handled && first.outcome.Outcome?
    requires StepOk(rules, target, limit, own) && own.before == first.after
    requires own.hash == parked.hash != first.hash && StepSweeps(first, parked.hash)
    requires parked.hash.HashOf? && parked.hash.header.parent in first.before.tree.chain.blocks
    ensures !own.handled && own.after == first.after && parked.hash !in own.after.tree.buffer.blocks
    ensures parked.hash in own.after.tree.chain.blocks ||
            LoggedSince(own.after.tree.failures, |first.before.tree.failures|, parked.hash)
    ensures StillParked(Some(parked), [first, own]) == Some(parked) && StepReplies(Some(parked), [first, own]) == []
  {
    StepKeepsIff(rules, target, limit, first, parked.hash);
    assert [first, own] == [first] + [own];
    StepRepliesNext(Some(parked), [first], own);
    OneStepReplies(Some(parked), first);
    OneStepReplies(Some(parked), own);
  }

  // ---------- waiting ----------

  /** Every bytecode some block waits for is being fetched or queued, unless it is one of the given ones. */
  ghost predicate NoOrphanedWait(b: BufferView, d: DownloadView, but: set<Code>)
  {
    forall h, c :: h in b.missing && c in b.missing[h] ==> CodeAwaited(d, c) || c in but
  }

  /**
   A bytecode lost to a failed write orphans a wait exactly when some block still lacks it and
   nobody fetches it again.
   */
  lemma FailedWriteOrphans(b: BufferView, d: DownloadView, lost: set<Code>, code: Code)
    requires NoOrphanedWait(b, d, lost + {code})
    ensures NoOrphanedWait(b, d, lost) <==>
            CodeAwaited(d, code) || code in lost || forall h :: h in b.missing ==> code !in b.missing[h]
  {
  }

  /** What a parked block waits for is on its way, or it is itself about to be handled. */
  ghost predicate ParkedWaits(b: BufferView, d: DownloadView, hash: Hash, unlocked: set<Hash>)
  {
    WitnessAwaited(d, hash) || hash in b.missing || (hash in unlocked && hash in b.witnesses)
  }

  /** A waiting block's witness is on its way, or it lacks some bytecodes and all of those are. */
  ghost predicate Progresses(b: BufferView, d: DownloadView, hash: Hash)
  {
    WitnessAwaited(d, hash) ||
    (hash in b.missing && b.missing[hash] != {} && forall c :: c in b.missing[hash] ==> CodeAwaited(d, c))
  }

  /** A block lacks a bytecode whose last write failed and that nobody fetches. */
  ghost predicate Starved(b: BufferView, d: DownloadView, lost: set<Code>, hash: Hash)
  {
    hash in b.missing && exists c :: c in b.missing[hash] && c in lost && !CodeAwaited(d, c)
  }

  lemma CodesAwait(d: DownloadView, codes: set<Code>, e: DownloadView)
    requires CodesAdded(d, codes, e)
    ensures AwaitsMore(d, e) && forall c :: c in codes ==> CodeAwaited(e, c)
  {
    forall c | c in codes
      ensures CodeAwaited(e, c)
    {
      CodeIn(d, codes, e, c);
    }
  }

  /** More may be awaited, nothing less. */
  ghost predicate AwaitsMore(d: DownloadView, e: DownloadView)
  {
    && (forall c :: CodeAwaited(d, c) ==> CodeAwaited(e, c))
    && (forall h :: WitnessAwaited(d, h) ==> WitnessAwaited(e, h))
  }

  /** A parked block is in the buffer, waiting for something that is on its way, or a recorded cause took it away. */
  ghost predicate WaitsOrGone(rules: Rules, t: TreeView, since: Mark, h: Hash, waits: bool)
  {
    (h in t.buffer.blocks && waits) || Gone(rules, t, since, h)
  }

  /** What is known of the block of a parked payload all along: its parent is in memory. */
  ghost predicate ParkedOk(t: TreeView, parked: Option<Parked>, since: Mark)
  {
    parked.Some? ==>
      && parked.value.hash.HashOf? && parked.value.hash.header.parent in t.chain.blocks && NotAfter(since, MarkOf(t))
  }

  /** The engine between two unlocked blocks of one step. */
  ghost predicate Waiting(rules: Rules, t: TreeView, d: DownloadView, parked: Option<Parked>, unlocked: set<Hash>,
                          lost: set<Code>, since: Mark)
  {
    && Gated(t) && ParkedOk(t, parked, since)
    && NoOrphanedWait(t.buffer, d, lost)
    && (parked.Some? ==>
          WaitsOrGone(rules, t, since, parked.value.hash, ParkedWaits(t.buffer, d, parked.value.hash, unlocked)))
  }

  lemma WaitingAwaitsMore(rules: Rules, t: TreeView, d: DownloadView, e: DownloadView, parked: Option<Parked>,
                          unlocked: set<Hash>, lost: set<Code>, since: Mark)
    requires Waiting(rules, t, d, parked, unlocked, lost, since) && AwaitsMore(d, e)
    ensures Waiting(rules, t, e, parked, unlocked, lost, since)
  {
  }

  lemma WaitsOrGoneGrows(rules: Rules, a: TreeView, b: TreeView, since: Mark, h: Hash, waits: bool)
    requires Grows(rules, a, b) && WaitsOrGone(rules, a, since, h, waits) && NotAfter(since, MarkOf(a))
    requires h.HashOf? && h.header.parent in a.chain.blocks
    ensures WaitsOrGone(rules, b, since, h, waits && StillBuffered(a.buffer, b.buffer, h))
  {
    if Gone(rules, a, since, h) {
      GoneStays(rules, a, b, since, h);
    } else if Gone(rules, b, MarkOf(a), h) {
      GoneEarlier(rules, b, since, MarkOf(a), h);
    }
  }

  lemma WaitingGrows(rules: Rules, a: TreeView, b: TreeView, d: DownloadView, parked: Option<Parked>,
                     unlocked: set<Hash>, lost: set<Code>, since: Mark)
    requires Waiting(rules, a, d, parked, unlocked, lost, since) && Grows(rules, a, b) && Gated(b)
    ensures Waiting(rules, b, d, parked, unlocked, lost, since)
  {
    if parked.Some? {
      var h := parked.value.hash;
      WaitsOrGoneGrows(rules, a, b, since, h, ParkedWaits(a.buffer, d, h, unlocked));
    }
  }

  /** The parked payload, unless it is for the given block. */
  function Others(parked: Option<Parked>, h: Hash): Option<Parked>
  {
    if parked.Some? && parked.value.hash == h then None else parked
  }

  /** A block that cannot be taken out is off the list of unlocked ones. */
  lemma WaitingSkips(rules: Rules, t: TreeView, d: DownloadView, parked: Option<Parked>, unlocked: set<Hash>, h: Hash,
                     lost: set<Code>, since: Mark)
    requires Waiting(rules, t, d, parked, unlocked, lost, since)
    requires !(h in t.buffer.blocks && Ready(t.buffer, h))
    ensures Waiting(rules, t, d, parked, unlocked - {h}, lost, since)
  {
  }

  lemma SameRecordsGone(rules: Rules, a: TreeView, b: TreeView, since: Mark, h: Hash)
    requires Gone(rules, a, since, h)
    requires b.evictions == a.evictions && b.chain == a.chain && b.failures == a.failures && b.executed == a.executed
    ensures Gone(rules, b, since, h)
  {
  }

  /** Taking a ready block out hands over a complete witness and disturbs no other block. */
  lemma WaitingTakes(rules: Rules, t: TreeView, d: DownloadView, parked: Option<Parked>, unlocked: set<Hash>, h: Hash,
                     lost: set<Code>, since: Mark)
    requires Waiting(rules, t, d, parked, unlocked, lost, since) && h in t.buffer.blocks && Ready(t.buffer, h)
    ensures t.buffer.witnesses[h].codes <= t.store
    ensures Waiting(rules, WithoutBlock(t, h), d, Others(parked, h), unlocked - {h}, lost, since)
  {
    if parked.Some? && Gone(rules, t, since, parked.value.hash) {
      SameRecordsGone(rules, t, WithoutBlock(t, h), since, parked.value.hash);
    }
  }

  /**
   Between turns: execution is gated, no wait is orphaned but for bytecodes whose write failed, and a
   parked block is buffered and never stuck, unless it lacks such a bytecode or something has
   happened since it was parked that has taken it away.
   */
  ghost predicate Steady(rules: Rules, v: EngineView)
  {
    && Gated(v.tree) && NoOrphanedWait(v.tree.buffer, v.downloads, v.lost)
    && (v.parked.Some? ==>
          var h := v.parked.value.hash;
          WaitsOrGone(rules, v.tree, v.since, h,
                      Progresses(v.tree.buffer, v.downloads, h) || Starved(v.tree.buffer, v.downloads, v.lost, h)))
  }

  lemma WaitingIsSteady(rules: Rules, v: EngineView)
    requires Waiting(rules, v.tree, v.downloads, v.parked, {}, v.lost, v.since)
    requires MissingOk(v.tree.buffer.witnesses, v.tree.buffer.missing)
    ensures Steady(rules, v)
  {
    if v.parked.Some? {
      ParkedProgresses(rules, v.tree, v.downloads, v.parked.value, v.lost, v.since);
    }
  }

  /**
   Between turns a parked block is in the buffer, where it makes progress or lacks a bytecode whose
   write failed; or since it was parked it was pushed out at the buffer's limit or failed, or an
   execution was fatal; or it is in memory.
   */
  lemma ParkedProgresses(rules: Rules, t: TreeView, d: DownloadView, parked: Parked, lost: set<Code>, since: Mark)
    requires Waiting(rules, t, d, Some(parked), {}, lost, since) && MissingOk(t.buffer.witnesses, t.buffer.missing)
    ensures || (parked.hash in t.buffer.blocks && Progresses(t.buffer, d, parked.hash))
            || (parked.hash in t.buffer.blocks && Starved(t.buffer, d, lost, parked.hash))
            || LoggedSince(t.evictions, since.evictions, parked.hash) || parked.hash in t.chain.blocks
            || LoggedSince(t.failures, since.failures, parked.hash)
            || CrashedSince(rules, t.executed, since.executed)
  {
  }

  // ---------- handling one outcome ----------

  /** What a parked block waits for is on its way or in hand. */
  ghost predicate ParkedServed(b: BufferView, d: DownloadView, h: Hash, outcome: Outcome)
  {
    WitnessAwaited(d, h) || h in b.missing || (outcome.WitnessOf? && outcome.hash == h)
  }

  /** The engine with one outcome in hand: what it carries no longer counts as awaited. */
  ghost predicate Handling(rules: Rules, t: TreeView, d: DownloadView, parked: Option<Parked>, outcome: Outcome,
                           lost: set<Code>, since: Mark)
  {
    && Gated(t) && ParkedOk(t, parked, since)
    && NoOrphanedWait(t.buffer, d, if outcome.Bytecode? then lost + {outcome.code} else lost)
    && (parked.Some? ==>
          WaitsOrGone(rules, t, since, parked.value.hash, ParkedServed(t.buffer, d, parked.value.hash, outcome)))
  }

  lemma AfterPoll(rules: Rules, t: TreeView, d: DownloadView, a: Arrivals, outcome: Option<Outcome>, e: DownloadView,
                  parked: Option<Parked>, lost: set<Code>, since: Mark)
    requires Waiting(rules, t, d, parked, {}, lost, since) && FetchesOk(d) && Polled(d, a, outcome, e)
    ensures if outcome.Some? then Handling(rules, t, e, parked, outcome.value, lost, since)
            else Waiting(rules, t, e, parked, {}, lost, since)
  {
    PollKeepsAwaited(d, a, outcome, e);
    if outcome.Some? {
      HandlingStarts(rules, t, d, outcome.value, e, parked, lost, since);
    } else {
      WaitingAwaitsMore(rules, t, d, e, parked, {}, lost, since);
    }
  }

  /** Everything awaited still is, apart from what the outcome delivers. */
  ghost predicate AwaitsOther(d: DownloadView, outcome: Outcome, e: DownloadView)
  {
    && (forall c :: CodeAwaited(d, c) ==> CodeAwaited(e, c) || outcome == Bytecode(c))
    && (forall h :: WitnessAwaited(d, h) ==> WitnessAwaited(e, h) || (outcome.WitnessOf? && outcome.hash == h))
  }

  lemma HandlingStarts(rules: Rules, t: TreeView, d: DownloadView, outcome: Outcome, e: DownloadView,
                       parked: Option<Parked>, lost: set<Code>, since: Mark)
    requires Waiting(rules, t, d, parked, {}, lost, since) && AwaitsOther(d, outcome, e)
    ensures Handling(rules, t, e, parked, outcome, lost, since)
  {
  }

  lemma FullBlockHandled(rules: Rules, t: TreeView, d: DownloadView, parked: Option<Parked>, block: Header, limit: nat,
                         lost: set<Code>, since: Mark)
    requires Handling(rules, t, d, parked, FullBlock(block), lost, since)
    ensures Waiting(rules, WithBlock(t, block, limit), d, parked, {HashOf(block)}, lost, since)
  {
    InsertedKeeps(t.buffer, block, limit);
    WithBlockGrows(rules, t, block, limit);
    if parked.Some? {
      var h := parked.value.hash;
      WaitsOrGoneGrows(rules, t, WithBlock(t, block, limit), since, h, ParkedServed(t.buffer, d, h, FullBlock(block)));
    }
  }

  lemma WitnessHandled(rules: Rules, t: TreeView, d: DownloadView, e: DownloadView, parked: Option<Parked>, hash: Hash,
                       wit: Witness, lost: set<Code>, since: Mark)
    requires Handling(rules, t, d, parked, WitnessOf(hash, wit), lost, since) && AwaitsMore(d, e)
    requires forall c :: c in wit.codes - t.store ==> CodeAwaited(e, c)
    ensures Waiting(rules, t.(buffer := WitnessInserted(t.buffer, hash, wit, wit.codes - t.store)), e, parked,
                    if wit.codes - t.store == {} then {hash} else {}, lost, since)
  {
    var b := WitnessInserted(t.buffer, hash, wit, wit.codes - t.store);
    forall h | h in b.witnesses
      ensures b.witnesses[h].codes <= t.store + Lacking(b, h)
    {
      if h == hash {
        assert forall c :: c in wit.codes && c !in t.store ==> c in wit.codes - t.store;
      }
    }
    if parked.Some? && Gone(rules, t, since, parked.value.hash) {
      SameRecordsGone(rules, t, t.(buffer := b), since, parked.value.hash);
    }
  }

  lemma BytecodeHandled(rules: Rules, t: TreeView, d: DownloadView, parked: Option<Parked>, code: Code, lost: set<Code>,
                        since: Mark)
    requires Handling(rules, t, d, parked, Bytecode(code), lost, since)
    requires MissingOk(t.buffer.witnesses, t.buffer.missing)
    ensures Waiting(rules, Stored(t, Bytecode(code), true, 0), d, parked, Unlocked(t.buffer.missing, code),
                    lost - {code}, since)
    ensures Waiting(rules, t, d, parked, {}, lost + {code}, since)
  {
    var b := t.buffer.(missing := BytecodeReceived(t.buffer.missing, code));
    forall h | h in b.witnesses
      ensures b.witnesses[h].codes <= t.store + {code} + Lacking(b, h)
    {
      assert b.witnesses[h].codes <= t.store + Lacking(t.buffer, h);
    }
    if parked.Some? && Gone(rules, t, since, parked.value.hash) {
      SameRecordsGone(rules, t, Stored(t, Bytecode(code), true, 0), since, parked.value.hash);
    }
  }

  lemma FinalizedHandled(rules: Rules, t: TreeView, d: DownloadView, parked: Option<Parked>, block: Header,
                         ancestors: seq<Header>, lost: set<Code>, since: Mark)
    requires Handling(rules, t, d, parked, FinalizedBlock(block, ancestors), lost, since)
    ensures Waiting(rules, Adopted(t, block, ancestors), d, parked, {HashOf(block)}, lost, since)
  {
    if parked.Some? && Gone(rules, t, since, parked.value.hash) {
      GoneStays(rules, t, Adopted(t, block, ancestors), since, parked.value.hash);
    }
  }

  /** A witness is asked for only when the payload's own block waits for it, connected and buffered. */
  ghost predicate AsksForOwnWitness(payload: Payload, outcome: TreeOutcome<PayloadStatus>, t: TreeView)
  {
    outcome.Outcome? && outcome.event.Some? && outcome.event.value.DownloadWitness? ==>
      && payload.WellFormed? && outcome == Outcome(Syncing, Some(DownloadWitness(HashOf(payload.block))))
      && HashOf(payload.block) in t.buffer.blocks && payload.block.parent in t.chain.blocks
      && HashOf(payload.block) !in t.chain.blocks
  }

  lemma StillAsksOwn(payload: Payload, outcome: TreeOutcome<PayloadStatus>, mid: TreeView,
                     update: Option<NewCanonicalChain>, after: TreeView)
    requires AsksForOwnWitness(payload, outcome, mid) && FollowedUp(mid, outcome, update, after)
    ensures AsksForOwnWitness(payload, outcome, after)
  {
  }

  lemma PayloadAsksOwn(rules: Rules, a: TreeView, payload: Payload, wit: Option<Witness>, target: Option<Hash>,
                       log: HandleLog, outcome: TreeOutcome<PayloadStatus>, b: TreeView, limit: nat)
    requires HandlesPayload(rules, a, payload, wit, target, log, outcome, b, limit)
    requires B.Coherent(a.buffer, limit) && limit >= 1
    ensures AsksForOwnWitness(payload, outcome, b)
  {
    if payload.WellFormed? && outcome.Outcome? && outcome.event.Some? && outcome.event.value.DownloadWitness? {
      HandlesAsks(rules, a, payload.block, wit, true, target, log, outcome, b, limit);
    }
  }

  lemma WitnessLeaves(rules: Rules, t: TreeView, d: DownloadView, h: Hash, lost: set<Code>, since: Mark)
    requires Waiting(rules, t, d, None, {}, lost, since)
    ensures Waiting(rules, t.(buffer := WitnessTaken(t.buffer, h)), d, None, {}, lost, since)
    ensures Ready(t.buffer, h) ==> t.buffer.witnesses[h].codes <= t.store
  {
  }

  lemma WaitingKeeps(rules: Rules, a: TreeView, b: TreeView, d: DownloadView, lost: set<Code>, since: Mark)
    requires Waiting(rules, a, d, None, {}, lost, since) && Keeps(a, b) && Gated(b)
    ensures Waiting(rules, b, d, None, {}, lost, since)
  {
  }

  /** Whether the environment lets an outcome be stored. */
  function Accepted(outcome: Outcome, tick: Tick): bool
  {
    match outcome
    case FinalizedBlock(_, _) => tick.recovers
    case FullBlock(_) => tick.recovers
    case WitnessOf(_, _) => tick.databaseReads
    case Bytecode(_) => tick.databaseWrites
  }

  /** The tree once an outcome has been stored. */
  ghost function Stored(t: TreeView, outcome: Outcome, accepted: bool, limit: nat): TreeView
  {
    if !accepted then t
    else
      match outcome
      case FinalizedBlock(block, ancestors) => Adopted(t, block, ancestors)
      case FullBlock(block) => WithBlock(t, block, limit)
      case WitnessOf(hash, wit) => t.(buffer := WitnessInserted(t.buffer, hash, wit, wit.codes - t.store))
      case Bytecode(code) =>
        t.(store := t.store + {code}, buffer := t.buffer.(missing := BytecodeReceived(t.buffer.missing, code)))
  }

  /** The requests in flight once an outcome has been stored: a witness calls for the bytecodes it lacks. */
  ghost predicate StoredRequests(t: TreeView, d: DownloadView, outcome: Outcome, accepted: bool, e: DownloadView)
  {
    if accepted && outcome.WitnessOf? then CodesAdded(d, outcome.wit.codes - t.store, e) else e == d
  }

  /** The blocks to look at next: the one that arrived, or those that waited for nothing else. */
  ghost function UnlockedBy(t: TreeView, outcome: Outcome, accepted: bool): set<Hash>
  {
    if !accepted then {}
    else
      match outcome
      case FinalizedBlock(block, _) => {HashOf(block)}
      case FullBlock(block) => {HashOf(block)}
      case WitnessOf(hash, wit) => if wit.codes - t.store == {} then {hash} else {}
      case Bytecode(code) => Unlocked(t.buffer.missing, code)
  }

  lemma BlockDropped(rules: Rules, t: TreeView, d: DownloadView, parked: Option<Parked>, block: Header, lost: set<Code>,
                     since: Mark)
    requires Handling(rules, t, d, parked, FullBlock(block), lost, since)
    ensures Waiting(rules, t, d, parked, {}, lost, since)
  {
  }

  // ---------- one turn ----------

  /** A request that was served: what the tree said to it. */
  datatype Service =
    | NoService
    | PayloadService(log: HandleLog, payload: TreeOutcome<PayloadStatus>, mid: TreeView,
                     update: Option<NewCanonicalChain>)
    | ForkchoiceService(forkchoice: TreeOutcome<ForkchoiceStatus>, update: Option<NewCanonicalChain>)

  /**
   What happened in a turn: the downloader's outcome, its state after the poll and after storing the
   outcome, the blocks processed, the request served.
   */
  datatype TurnLog = TurnLog(
    outcome: Option<Outcome>,
    polled: DownloadView,
    stored: DownloadView,
    steps: seq<Step>,
    service: Service)

  /** An outcome that cannot be stored at all ends the engine. */
  predicate IsFatal(outcome: Outcome, tick: Tick)
  {
    !Accepted(outcome, tick) && (outcome.FinalizedBlock? || outcome.WitnessOf?)
  }

  /** The bytecodes whose last write failed, once an outcome has been stored. */
  function LostAfter(lost: set<Code>, outcome: Outcome, tick: Tick): set<Code>
  {
    if !outcome.Bytecode? then lost
    else if tick.databaseWrites then lost - {outcome.code} else lost + {outcome.code}
  }

  /** Storing a download, processing what it unlocks, and answering the parked payload if it is among that. */
  ghost predicate OutcomeEffect(rules: Rules, limit: nat, a: EngineView, outcome: Outcome, tick: Tick,
                                stored: DownloadView, steps: seq<Step>, b: EngineView)
  {
    var start := World(Stored(a.tree, outcome, Accepted(outcome, tick), limit), stored);
    && b.taken == a.taken && b.target == a.target && b.since == a.since
    && b.lost == LostAfter(a.lost, outcome, tick)
    && StoredRequests(a.tree, a.downloads, outcome, Accepted(outcome, tick), stored)
    && Processed(rules, a.target, limit, start,
                 if IsFatal(outcome, tick) then {} else UnlockedBy(a.tree, outcome, Accepted(outcome, tick)),
                 steps, World(b.tree, b.downloads))
    && Settles(a.parked, a.replies, steps, b.parked, b.replies)
  }

  /** A payload only lacks its witness. */
  predicate Parks(outcome: TreeOutcome<PayloadStatus>)
  {
    outcome.Outcome? && outcome.event.Some? && outcome.event.value.DownloadWitness? && outcome.status.Syncing?
  }

  /** The complete witness the buffer holds for a block, if any. */
  ghost function HeldWitness(b: BufferView, h: Hash): Option<Witness>
  {
    if Ready(b, h) then Some(b.witnesses[h]) else None
  }

  /**
   The requests a payload leads to: what the tree asks for, and then the payload's witness unless
   it was held or the payload is parked.
   */
  ghost function PayloadRequests(d: DownloadView, outcome: TreeOutcome<PayloadStatus>, hasWitness: bool, hash: Hash,
                                 held: set<Hash>): DownloadView
  {
    var e := Requesting(d, EventOf(outcome), held);
    if EventOf(outcome).Some? && !Parks(outcome) && !hasWitness then AddWitness(e, hash) else e
  }

  /** A payload is answered with what the tree says, or parked while its witness is on its way. */
  ghost predicate Concludes(a: EngineView, id: nat, payload: Payload, outcome: TreeOutcome<PayloadStatus>,
                            b: EngineView)
  {
    && b.taken == a.taken + [id]
    && if Parks(outcome) then
         && payload.WellFormed? && b.parked == Some(Parked(HashOf(payload.block), id)) && b.replies == a.replies
         && b.since == MarkOf(b.tree) && WitnessAwaited(b.downloads, HashOf(payload.block))
         && HashOf(payload.block) in b.tree.buffer.blocks && HashOf(payload.block) !in b.tree.chain.blocks
       else
         b.parked == None && b.replies == a.replies + [PayloadReply(id, StatusOf(outcome))] && b.since == a.since
  }

  lemma ConcludesWith(a: EngineView, id: nat, payload: Payload, outcome: TreeOutcome<PayloadStatus>, b: EngineView)
    requires a.parked.None? && AsksForOwnWitness(payload, outcome, a.tree)
    requires Parks(outcome) ==> outcome.event.value.hash in a.downloads.witnesses
    requires b == if Parks(outcome) then
                    a.(parked := Some(Parked(outcome.event.value.hash, id)), taken := a.taken + [id],
                       since := MarkOf(a.tree))
                  else a.(taken := a.taken + [id], replies := a.replies + [PayloadReply(id, StatusOf(outcome))])
    ensures Concludes(a, id, payload, outcome, b)
  {
  }

  /** A payload has been tried, with the complete witness the buffer holds for it, and its downloads started. */
  ghost predicate PayloadFetched(rules: Rules, limit: nat, a: EngineView, payload: Payload, service: Service,
                                 m: EngineView)
  {
    var hash := payload.BlockHash();
    var given := a.tree.(buffer := WitnessTaken(a.tree.buffer, hash));
    && service.PayloadService?
    && HandlesPayload(rules, given, payload, HeldWitness(a.tree.buffer, hash), a.target, service.log, service.payload,
                      service.mid, limit)
    && FollowedUp(service.mid, service.payload, service.update, m.tree)
    && m == a.(tree := m.tree, downloads := PayloadRequests(a.downloads, service.payload, Ready(a.tree.buffer, hash),
                                                            hash, m.tree.buffer.witnesses.Keys))
  }

  /** Handling a payload: it is tried, its downloads are started, and then it is answered or parked. */
  ghost predicate PayloadEffect(rules: Rules, limit: nat, a: EngineView, id: nat, payload: Payload, service: Service,
                                b: EngineView)
  {
    var m := a.(tree := b.tree, downloads := b.downloads);
    && PayloadFetched(rules, limit, a, payload, service, m) && Concludes(m, id, payload, service.payload, b)
    && b.lost == a.lost && b.target == a.target
  }

  lemma ParkRequested(rules: Rules, limit: nat, a: EngineView, payload: Payload, service: Service, m: EngineView)
    requires PayloadFetched(rules, limit, a, payload, service, m)
    ensures Parks(service.payload) ==> service.payload.event.value.hash in m.downloads.witnesses
  {
  }

  lemma FetchedAfter(rules: Rules, limit: nat, a: EngineView, payload: Payload, hasWitness: bool, service: Service,
                     m: EngineView)
    requires service.PayloadService? && hasWitness == Ready(a.tree.buffer, payload.BlockHash())
    requires HandlesPayload(rules, a.tree.(buffer := WitnessTaken(a.tree.buffer, payload.BlockHash())), payload,
                            HeldWitness(a.tree.buffer, payload.BlockHash()), a.target, service.log, service.payload,
                            service.mid, limit)
    requires FollowedUp(service.mid, service.payload, service.update, m.tree)
    requires m == a.(tree := m.tree, downloads := PayloadRequests(a.downloads, service.payload, hasWitness,
                                                                  payload.BlockHash(), m.tree.buffer.witnesses.Keys))
    ensures PayloadFetched(rules, limit, a, payload, service, m)
  {
  }

  lemma PayloadDone(rules: Rules, limit: nat, a: EngineView, id: nat, payload: Payload, service: Service,
                    m: EngineView, b: EngineView)
    requires PayloadFetched(rules, limit, a, payload, service, m) && Concludes(m, id, payload, service.payload, b)
    requires b == m.(parked := b.parked, taken := b.taken, replies := b.replies, since := b.since)
    ensures PayloadEffect(rules, limit, a, id, payload, service, b) && Lengthens(a.tree, b.tree)
  {
    var given := a.tree.(buffer := WitnessTaken(a.tree.buffer, payload.BlockHash()));
    PayloadGrows(rules, given, payload, HeldWitness(a.tree.buffer, payload.BlockHash()), a.target, service.log,
                 service.payload, service.mid, limit);
    FollowUpGrows(rules, service.mid, EventOf(service.payload), service.update, b.tree);
  }

  /** When a payload is parked its block is waiting for its witness, and none of the causes to be gone applies. */
  lemma ParkingStarts(rules: Rules, limit: nat, a: EngineView, id: nat, payload: Payload, service: Service,
                      b: EngineView)
    requires PayloadEffect(rules, limit, a, id, payload, service, b) && b.parked.Some?
    ensures Parks(service.payload) && b.parked.value.hash in b.tree.buffer.blocks
    ensures Progresses(b.tree.buffer, b.downloads, b.parked.value.hash)
    ensures !Gone(rules, b.tree, b.since, b.parked.value.hash)
  {
  }

  /** The target of the last fork choice that could not be followed yet; an internal error leaves it. */
  function TargetAfter(target: Option<Hash>, state: ForkchoiceState,
                       outcome: TreeOutcome<ForkchoiceStatus>): Option<Hash>
  {
    if outcome.Failure? then target else TargetFor(target, state, outcome.status)
  }

  /** A fork choice never asks for another change of the canonical chain. */
  lemma NoSwitchAsked(rules: Rules, a: TreeView, state: ForkchoiceState, attributes: Option<nat>,
                      outcome: TreeOutcome<ForkchoiceStatus>, update: Option<NewCanonicalChain>, b: TreeView)
    requires ForkchoiceAnswered(rules, a, state, attributes, outcome, update, b)
    ensures EventOf(outcome).Some? ==> !EventOf(outcome).value.Canonicalize?
  {
  }

  ghost predicate ForkchoiceEffect(rules: Rules, a: EngineView, id: nat, state: ForkchoiceState,
                                   attributes: Option<nat>,
                                   service: Service, b: EngineView)
  {
    && service.ForkchoiceService?
    && ForkchoiceAnswered(rules, a.tree, state, attributes, service.forkchoice, service.update, b.tree)
    && b.taken == a.taken + [id] && b.lost == a.lost && b.since == a.since
    && b.target == TargetAfter(a.target, state, service.forkchoice)
    && b.downloads == Requesting(a.downloads, EventOf(service.forkchoice), b.tree.buffer.witnesses.Keys)
    && b.parked == None && b.replies == a.replies + [ForkchoiceReply(id, StatusOf(service.forkchoice))]
  }

  lemma ForkchoiceDone(rules: Rules, a: EngineView, id: nat, state: ForkchoiceState, attributes: Option<nat>,
                       service: Service, m: EngineView, b: EngineView)
    requires service.ForkchoiceService? && a.parked.None?
    requires ForkchoiceAnswered(rules, a.tree, state, attributes, service.forkchoice, service.update, m.tree)
    requires m == a.(tree := m.tree, target := TargetAfter(a.target, state, service.forkchoice),
                     downloads := Requesting(a.downloads, EventOf(service.forkchoice), m.tree.buffer.witnesses.Keys))
    requires b == m.(taken := m.taken + [id],
                     replies := m.replies + [ForkchoiceReply(id, StatusOf(service.forkchoice))])
    ensures ForkchoiceEffect(rules, a, id, state, attributes, service, b)
  {
  }

  ghost predicate MessageEffect(rules: Rules, limit: nat, a: EngineView, message: Message, service: Service,
                                b: EngineView)
  {
    match message
    case NewPayload(id, payload) => PayloadEffect(rules, limit, a, id, payload, service, b)
    case ForkchoiceUpdated(id, state, attributes) => ForkchoiceEffect(rules, a, id, state, attributes, service, b)
    case TransitionConfigurationExchanged => b == a
  }

  /** The parked payload is answered "syncing". */
  ghost function TimedOut(a: EngineView): EngineView
  {
    if a.parked.None? then a
    else a.(parked := None, replies := a.replies + [PayloadReply(a.parked.value.id, Some(Syncing))])
  }

  /** Whether a turn without a finished download goes on to the next message. */
  predicate MessagesServed(parked: Option<Parked>, tick: Tick)
  {
    parked.Some? ==> tick.timedOut
  }

  /** Without a finished download nothing happens while a payload stays parked; otherwise the next message is served. */
  ghost predicate ServeEffect(rules: Rules, limit: nat, a: EngineView, tick: Tick, service: Service, b: EngineView)
  {
    if !MessagesServed(a.parked, tick) then b == a
    else if tick.message.None? then b == TimedOut(a)
    else MessageEffect(rules, limit, TimedOut(a), tick.message.value, service, b)
  }

  /** The finalized sync a turn makes. */
  ghost function SyncOf(outcome: Option<Outcome>, tick: Tick): seq<ChainEvent>
  {
    if outcome.Some? && outcome.value.FinalizedBlock? && tick.recovers
    then [FinalizedSynced(outcome.value.block, outcome.value.ancestors)] else []
  }

  /** The history grows, and the only new finalized sync in it is the one the outcome calls for. */
  ghost predicate SyncsAdded(a: TreeView, outcome: Option<Outcome>, tick: Tick, b: TreeView)
  {
    a.history <= b.history && Syncs(b.history) == Syncs(a.history) + SyncOf(outcome, tick)
  }

  lemma LengthensAdds(a: TreeView, outcome: Option<Outcome>, tick: Tick, b: TreeView)
    requires Lengthens(a, b) && outcome.None?
    ensures SyncsAdded(a, outcome, tick, b)
  {
  }

  lemma StoredSyncs(t: TreeView, outcome: Outcome, tick: Tick, limit: nat)
    ensures SyncsAdded(t, Some(outcome), tick, Stored(t, outcome, Accepted(outcome, tick), limit))
  {
    if outcome.FinalizedBlock? {
      SyncsMore(t.history, FinalizedSynced(outcome.block, outcome.ancestors));
    }
  }

  /**
   What the engine guarantees of its chain: it is what the recorded events lead to; it is sound if
   every finalized sync met its condition; and if moreover finality kept to its condition, lookups from
   the finalized root's descendants are complete and later prunes change none of them.
   */
  ghost predicate ChainOk(genesis: Header, t: TreeView)
  {
    var s := After(Start(genesis), t.history);
    && s.view == t.chain && s.head == t.head
    && (SyncsOk(Start(genesis), t.history) ==> Sound(t.chain, t.head))
    && (SyncsOk(Start(genesis), t.history) && IsFinalRun(Start(genesis), t.history) ==>
          s.root in t.chain.blocks && Complete(s) && PrunesCleanly(s))
  }

  lemma TrackedIsOk(genesis: Header, t: TreeView)
    requires Tracked(genesis, t.chain, t.head, t.history)
    ensures ChainOk(genesis, t)
  {
    if SyncsOk(Start(genesis), t.history) {
      TrackedSound(genesis, t.chain, t.head, t.history);
      if IsFinalRun(Start(genesis), t.history) {
        EveryFinalRunIsComplete(genesis, t.history);
      }
    }
  }

  /** One turn: the downloader is polled, and its outcome handled or else a message served. */
  ghost predicate TurnEffect(rules: Rules, limit: nat, a: EngineView, tick: Tick, log: TurnLog, b: EngineView)
  {
    var polled := a.(downloads := log.polled);
    && Polled(a.downloads, tick.arrivals, log.outcome, log.polled)
    && (if log.outcome.Some? then OutcomeEffect(rules, limit, polled, log.outcome.value, tick, log.stored, log.steps, b)
        else ServeEffect(rules, limit, polled, tick, log.service, b))
    && SyncsAdded(a.tree, log.outcome, tick, b.tree)
  }

  /** Storing an outcome changes the tree, what is downloaded, and whether every write has succeeded. */
  ghost predicate StoredEffect(limit: nat, a: EngineView, outcome: Outcome, tick: Tick, m: EngineView)
  {
    && m == a.(tree := Stored(a.tree, outcome, Accepted(outcome, tick), limit), downloads := m.downloads,
               lost := LostAfter(a.lost, outcome, tick))
    && StoredRequests(a.tree, a.downloads, outcome, Accepted(outcome, tick), m.downloads)
  }

  /** Processing what was unlocked answers the parked payload, if it is among that, and changes tree and downloads. */
  ghost predicate ProcessedEffect(rules: Rules, limit: nat, m: EngineView, unlocked: set<Hash>, steps: seq<Step>,
                                  b: EngineView)
  {
    && b == m.(parked := b.parked, replies := b.replies, tree := b.tree, downloads := b.downloads)
    && Processed(rules, m.target, limit, World(m.tree, m.downloads), unlocked, steps, World(b.tree, b.downloads))
    && Settles(m.parked, m.replies, steps, b.parked, b.replies)
  }

  lemma NothingProcessed(rules: Rules, limit: nat, m: EngineView)
    ensures ProcessedEffect(rules, limit, m, {}, [], m)
  {
    ProcessedStart(rules, m.target, limit, World(m.tree, m.downloads));
  }

  lemma OutcomeDone(rules: Rules, limit: nat, a: EngineView, outcome: Outcome, tick: Tick, m: EngineView,
                    unlocked: set<Hash>, steps: seq<Step>, b: EngineView)
    requires StoredEffect(limit, a, outcome, tick, m) && ProcessedEffect(rules, limit, m, unlocked, steps, b)
    requires unlocked == if IsFatal(outcome, tick) then {} else UnlockedBy(a.tree, outcome, Accepted(outcome, tick))
    ensures OutcomeEffect(rules, limit, a, outcome, tick, m.downloads, steps, b)
    ensures SyncsAdded(a.tree, Some(outcome), tick, b.tree)
  {
    StoredSyncs(a.tree, outcome, tick, limit);
  }

  lemma TurnHandled(rules: Rules, limit: nat, a: EngineView, tick: Tick, log: TurnLog, b: EngineView)
    requires Polled(a.downloads, tick.arrivals, log.outcome, log.polled) && log.outcome.Some?
    requires OutcomeEffect(rules, limit, a.(downloads := log.polled), log.outcome.value, tick, log.stored, log.steps, b)
    requires SyncsAdded(a.tree, log.outcome, tick, b.tree)
    ensures TurnEffect(rules, limit, a, tick, log, b)
  {
  }

  lemma TurnServed(rules: Rules, limit: nat, a: EngineView, tick: Tick, log: TurnLog, b: EngineView)
    requires Polled(a.downloads, tick.arrivals, log.outcome, log.polled) && log.outcome.None?
    requires ServeEffect(rules, limit, a.(downloads := log.polled), tick, log.service, b) && Lengthens(a.tree, b.tree)
    ensures TurnEffect(rules, limit, a, tick, log, b)
  {
    LengthensAdds(a.tree, log.outcome, tick, b.tree);
  }

  /** The request a message makes, if any. */
  function RequestIn(message: Option<Message>): seq<nat>
  {
    if message.None? || message.value.TransitionConfigurationExchanged? then [] else [message.value.id]
  }

  /** The request a turn takes: none while a download has finished or a payload stays parked. */
  ghost function TakenBy(a: EngineView, tick: Tick, log: TurnLog): seq<nat>
  {
    if log.outcome.None? && MessagesServed(a.parked, tick) then RequestIn(tick.message) else []
  }

  /** What a turn adds: exactly the request it should take, no reply taken back, no event but its own sync. */
  ghost predicate TurnAdds(a: EngineView, tick: Tick, log: TurnLog, b: EngineView)
  {
    && b.taken == a.taken + TakenBy(a, tick, log) && a.replies <= b.replies
    && (tick.databaseWrites ==> b.lost <= a.lost)
    && SyncsAdded(a.tree, log.outcome, tick, b.tree)
  }

  /**
   A parked payload goes away only because its own block was handed to the tree or its time was up,
   and is then answered with what the tree said about the block, or "syncing".
   */
  ghost predicate ParkedKept(rules: Rules, a: EngineView, tick: Tick, log: TurnLog, b: EngineView)
  {
    a.parked.Some? && b.parked != a.parked ==>
      if log.outcome.Some? then b.parked.None? && AnsweredByStep(rules, a, log, b)
      else tick.timedOut && a.replies + [PayloadReply(a.parked.value.id, Some(Syncing))] <= b.replies
  }

  /** The parked payload was answered with the justified answer its own block got. */
  ghost predicate AnsweredByStep(rules: Rules, a: EngineView, log: TurnLog, b: EngineView)
    requires a.parked.Some?
  {
    exists i :: 0 <= i < |log.steps| && AnswersParked(rules, a, log.steps[i], b)
  }

  ghost predicate AnswersParked(rules: Rules, a: EngineView, st: Step, b: EngineView)
    requires a.parked.Some?
  {
    && Hits(a.parked.value, st) && Justified(rules, |st.before.tree.executed|, st.after.tree, st.hash, st.outcome)
    && b.replies == a.replies + [PayloadReply(a.parked.value.id, StatusOf(st.outcome))]
  }

  lemma ServeAdds(rules: Rules, limit: nat, a: EngineView, tick: Tick, service: Service, b: EngineView)
    requires ServeEffect(rules, limit, a, tick, service, b)
    ensures b.taken == a.taken + (if MessagesServed(a.parked, tick) then RequestIn(tick.message) else [])
    ensures TimedOut(a).replies <= b.replies || b == a
    ensures b.lost == a.lost
  {
  }

  lemma OutcomeResolves(rules: Rules, limit: nat, a: EngineView, outcome: Outcome, tick: Tick, log: TurnLog,
                        b: EngineView)
    requires OutcomeEffect(rules, limit, a, outcome, tick, log.stored, log.steps, b)
    requires a.parked.Some? && b.parked != a.parked
    ensures b.parked.None? && AnsweredByStep(rules, a, log, b)
  {
    ParkedResolves(a.parked.value, log.steps);
    var i :| 0 <= i < |log.steps| && Hits(a.parked.value, log.steps[i]) &&
             StepReplies(a.parked, log.steps) == [PayloadReply(a.parked.value.id, StatusOf(log.steps[i].outcome))];
    StepwiseEach(rules, a.target, limit, World(Stored(a.tree, outcome, Accepted(outcome, tick), limit), log.stored),
                 log.steps, i);
    StepJustified(rules, a.target, limit, log.steps[i]);
    assert AnswersParked(rules, a, log.steps[i], b);
  }

  lemma TurnKeepsOrder(rules: Rules, limit: nat, a: EngineView, tick: Tick, log: TurnLog, b: EngineView)
    requires TurnEffect(rules, limit, a, tick, log, b)
    ensures TurnAdds(a, tick, log, b) && ParkedKept(rules, a, tick, log, b)
  {
    var polled := a.(downloads := log.polled);
    if log.outcome.None? {
      ServeAdds(rules, limit, polled, tick, log.service, b);
    } else if a.parked.Some? && b.parked != a.parked {
      OutcomeResolves(rules, limit, polled, log.outcome.value, tick, log, b);
      var i :| 0 <= i < |log.steps| && AnswersParked(rules, polled, log.steps[i], b);
      assert AnswersParked(rules, a, log.steps[i], b);
    }
  }

  // ---------- runs ----------

  /** A turn of a run and the state it led to. */
  datatype Turned = Turned(log: TurnLog, after: EngineView)

  ghost function StateAfter(start: EngineView, turns: seq<Turned>): EngineView
  {
    if turns == [] then start else turns[|turns| - 1].after
  }

  /** The `i`th turn starts where the one before has led. */
  ghost predicate TurnAt(rules: Rules, limit: nat, start: EngineView, ticks: seq<Tick>, turns: seq<Turned>, i: nat)
    requires i < |turns| <= |ticks|
  {
    TurnEffect(rules, limit, StateAfter(start, turns[..i]), ticks[i], turns[i].log, turns[i].after)
  }

  ghost predicate Ran(rules: Rules, limit: nat, start: EngineView, ticks: seq<Tick>, turns: seq<Turned>)
  {
    |turns| <= |ticks| && forall i :: 0 <= i < |turns| ==> TurnAt(rules, limit, start, ticks, turns, i)
  }

  lemma SameTurn(rules: Rules, limit: nat, start: EngineView, ticks: seq<Tick>, turns: seq<Turned>, n: nat, i: nat)
    requires i < n <= |turns| <= |ticks|
    ensures TurnAt(rules, limit, start, ticks, turns, i) <==> TurnAt(rules, limit, start, ticks, turns[..n], i)
  {
    assert turns[..n][..i] == turns[..i];
  }

  /** The requests taken and the finalized syncs made in a run, turn by turn. */
  ghost function TakenIn(start: EngineView, ticks: seq<Tick>, turns: seq<Turned>): seq<nat>
    requires |turns| <= |ticks|
  {
    if turns == [] then []
    else
      var before := turns[..|turns| - 1];
      TakenIn(start, ticks, before) +
      TakenBy(StateAfter(start, before), ticks[|turns| - 1], turns[|turns| - 1].log)
  }

  ghost function SyncsIn(ticks: seq<Tick>, turns: seq<Turned>): seq<ChainEvent>
    requires |turns| <= |ticks|
  {
    if turns == [] then []
    else SyncsIn(ticks, turns[..|turns| - 1]) + SyncOf(turns[|turns| - 1].log.outcome, ticks[|turns| - 1])
  }

  lemma RanNext(rules: Rules, limit: nat, start: EngineView, ticks: seq<Tick>, turns: seq<Turned>, turn: Turned)
    requires Ran(rules, limit, start, ticks, turns) && |turns| < |ticks|
    requires TurnEffect(rules, limit, StateAfter(start, turns), ticks[|turns|], turn.log, turn.after)
    ensures Ran(rules, limit, start, ticks, turns + [turn])
  {
    var all := turns + [turn];
    assert all[..|turns|] == turns;
    forall i | 0 <= i < |turns|
      ensures TurnAt(rules, limit, start, ticks, all, i)
    {
      SameTurn(rules, limit, start, ticks, all, |turns|, i);
    }
  }

  lemma RanBefore(rules: Rules, limit: nat, start: EngineView, ticks: seq<Tick>, turns: seq<Turned>)
    requires Ran(rules, limit, start, ticks, turns) && turns != []
    ensures Ran(rules, limit, start, ticks, turns[..|turns| - 1])
  {
    var n := |turns| - 1;
    var before := turns[..n];
    forall i | 0 <= i < n
      ensures TurnAt(rules, limit, start, ticks, before, i)
    {
      SameTurn(rules, limit, start, ticks, turns, n, i);
    }
  }

  lemma LastTurnAdds(rules: Rules, limit: nat, start: EngineView, ticks: seq<Tick>, turns: seq<Turned>)
    requires turns != [] && |turns| <= |ticks| && TurnAt(rules, limit, start, ticks, turns, |turns| - 1)
    ensures var before, last := turns[..|turns| - 1], |turns| - 1;
            TurnAdds(StateAfter(start, before), ticks[last], turns[last].log, turns[last].after)
  {
    var before, last := turns[..|turns| - 1], |turns| - 1;
    TurnKeepsOrder(rules, limit, StateAfter(start, before), ticks[last], turns[last].log, turns[last].after);
  }

  /**
   What a run adds: the requests of exactly the turns that served one, no reply taken back, and
   exactly the finalized syncs the downloader delivered.
   */
  ghost predicate RunAdded(start: EngineView, ticks: seq<Tick>, turns: seq<Turned>, end: EngineView)
  {
    && |turns| <= |ticks|
    && end.taken == start.taken + TakenIn(start, ticks, turns) && start.replies <= end.replies
    && ((forall i :: 0 <= i < |turns| ==> ticks[i].databaseWrites) ==> end.lost <= start.lost)
    && start.tree.history <= end.tree.history
    && Syncs(end.tree.history) == Syncs(start.tree.history) + SyncsIn(ticks, turns)
  }

  lemma RunAddsMore(start: EngineView, ticks: seq<Tick>, turns: seq<Turned>)
    requires 0 < |turns| <= |ticks|
    requires var before, last := turns[..|turns| - 1], |turns| - 1;
             && RunAdded(start, ticks, before, StateAfter(start, before))
             && TurnAdds(StateAfter(start, before), ticks[last], turns[last].log, turns[last].after)
    ensures RunAdded(start, ticks, turns, turns[|turns| - 1].after)
  {
  }

  lemma {:induction false} RunAdds(rules: Rules, limit: nat, start: EngineView, ticks: seq<Tick>, turns: seq<Turned>)
    requires Ran(rules, limit, start, ticks, turns)
    ensures RunAdded(start, ticks, turns, StateAfter(start, turns))
    decreases |turns|
  {
    if turns != [] {
      RanBefore(rules, limit, start, ticks, turns);
      RunAdds(rules, limit, start, ticks, turns[..|turns| - 1]);
      LastTurnAdds(rules, limit, start, ticks, turns);
      RunAddsMore(start, ticks, turns);
    }
  }
}
