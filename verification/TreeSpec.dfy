/**
 The engine tree as a value: what inserting a block, switching the canonical chain and applying a
 fork choice do to it, and what they keep. EVM execution and consensus rules are an arbitrary
 deterministic oracle.
 */
module TreeSpecs {
  import opened Blocks
  import opened ChainStates
  import opened ChainSwitch
  import opened CanonicalIndex
  import opened ChainRuns
  import opened InvalidAncestors
  import opened B = BlockBuffers

  datatype Execution = Succeeds | Fails | Crashes

  /** The rules a block is held to, apart from its number following its parent's. */
  datatype Rules = Rules(
    blockOk: Header -> bool,
    againstParentOk: (Header, Header) -> bool,
    execute: (Header, Witness) -> Execution,
    attributesOk: (nat, Header) -> bool)

  datatype InsertResult =
    | AlreadySeen
    | Connected
    | Disconnected(missingAncestor: NumHash)
    | NoWitness
    | Rejected
    | Fatal

  datatype PayloadStatus = PayloadValid(hash: Hash) | Syncing | PayloadInvalid(latestValid: Option<Hash>)

  datatype TreeEvent =
    | DownloadBlock(hash: Hash)
    | DownloadWitness(hash: Hash)
    | DownloadFinalized(hash: Hash)
    | Canonicalize(target: Hash)

  /** A payload as decoded: a block, or a fault found while decoding it. */
  datatype Payload = WellFormed(block: Header) | Malformed(hash: Hash, parent: Hash, hashFault: bool) {
    function BlockHash(): Hash {
      if WellFormed? then HashOf(block) else hash
    }
  }

  datatype ForkchoiceState = ForkchoiceState(head: Hash, safe: Hash, finalized: Hash)

  datatype ForkchoiceStatus =
    | ForkchoiceValid(head: Hash)
    | ForkchoiceSyncing
    | ForkchoiceInvalid(latestValid: Hash)
    | InvalidState
    | InvalidAttributes

  datatype TreeOutcome<+T> = Outcome(status: T, event: Option<TreeEvent>) | Failure

  // ---------- the tree as a value ----------

  /**
   Besides what the code stores: the executions so far, the chain events so far, the blocks that
   failed validation, also as a list in the order they did, the blocks pushed out of the buffer at its
   limit, and with the invalid-header cache the entries an access to it has dropped.
   */
  datatype TreeView = TreeView(
    chain: ChainView,
    head: NumHash,
    buffer: BufferView,
    store: set<Code>,
    executed: seq<(Hash, Witness)>,
    history: seq<ChainEvent>,
    failed: set<Hash>,
    failures: seq<Hash>,
    evictions: seq<Hash>,
    cache: CacheView)

  // ---------- the history ----------

  /** The finalized syncs of a history, in order. */
  ghost function Syncs(history: seq<ChainEvent>): seq<ChainEvent>
  {
    if history == [] then []
    else
      var before, e := history[..|history| - 1], history[|history| - 1];
      Syncs(before) + (if e.FinalizedSynced? then [e] else [])
  }

  lemma SyncsMore(history: seq<ChainEvent>, e: ChainEvent)
    ensures Syncs(history + [e]) == Syncs(history) + (if e.FinalizedSynced? then [e] else [])
  {
    assert (history + [e])[..|history|] == history;
  }

  /**
   The chain and the head are what the recorded events lead to from genesis, and the events are
   a run of the chain's state machine, given the consensus layer's part in every sync.
   */
  ghost predicate Tracked(genesis: Header, chain: ChainView, head: NumHash, history: seq<ChainEvent>)
  {
    var s := After(Start(genesis), history);
    && IsGenesis(genesis) && s.view == chain && s.head == head
    && (SyncsOk(Start(genesis), history) ==> IsRun(Start(genesis), history))
  }

  lemma TrackedStart(genesis: Header, chain: ChainView)
    requires IsGenesis(genesis) && chain == Start(genesis).view
    ensures Tracked(genesis, chain, genesis.ToNumHash(), [])
  {
  }

  /** A tracked chain is sound as long as every sync met its condition. */
  lemma TrackedSound(genesis: Header, chain: ChainView, head: NumHash, history: seq<ChainEvent>)
    requires Tracked(genesis, chain, head, history) && SyncsOk(Start(genesis), history)
    ensures Sound(chain, head)
  {
    RunsStaySound(genesis, history);
  }

  /** One more event that the code lets happen in a sound state. */
  lemma TrackedNext(genesis: Header, chain: ChainView, head: NumHash, history: seq<ChainEvent>, e: ChainEvent)
    requires Tracked(genesis, chain, head, history)
    requires var s := Chain(chain, head, ZERO);
             Sound(chain, head) && SyncOk(s, e) ==> Enabled(s, e)
    ensures var s := Next(Chain(chain, head, ZERO), e);
            Tracked(genesis, s.view, s.head, history + [e])
  {
    OneMore(Start(genesis), history, e);
    if SyncsOk(Start(genesis), history + [e]) {
      TrackedSound(genesis, chain, head, history);
    }
  }

  lemma TrackedSwitch(genesis: Header, chain: ChainView, head: NumHash, history: seq<ChainEvent>, target: Hash,
                      update: NewCanonicalChain)
    requires Tracked(genesis, chain, head, history) && target.HashOf?
    requires Sound(chain, head) ==> IsUpdate(chain.blocks, head.hash, target, Some(update))
    ensures Tracked(genesis, chain.(canonical := Applied(chain.canonical, update)), target.header.ToNumHash(),
                    history + [HeadRequested(target, update)])
  {
    TrackedNext(genesis, chain, head, history, HeadRequested(target, update));
  }

  /** The tree after a change of the canonical chain. */
  ghost function Switched(t: TreeView, target: Hash, update: Option<NewCanonicalChain>): TreeView
  {
    if update.None? || target.Opaque? then t
    else
      t.(head := target.header.ToNumHash(),
         chain := t.chain.(canonical := Applied(t.chain.canonical, update.value)),
         history := t.history + [HeadRequested(target, update.value)])
  }

  /** The tree after a finalized sync. */
  ghost function Adopted(t: TreeView, block: Header, ancestors: seq<Header>): TreeView
  {
    t.(head := block.ToNumHash(),
       chain := Insert(t.chain, block, None).(canonical := Synced(t.chain.canonical, block, ancestors)),
       history := t.history + [FinalizedSynced(block, ancestors)])
  }

  /** In a sound tree the update is the one the blocks in memory call for. */
  ghost predicate Justly(t: TreeView, target: Hash, update: Option<NewCanonicalChain>)
  {
    Sound(t.chain, t.head) ==> IsUpdate(t.chain.blocks, t.head.hash, target, update)
  }

  // ---------- what operations keep ----------

  function Lacking(b: BufferView, h: Hash): set<Code>
  {
    if h in b.missing then b.missing[h] else {}
  }

  /**
   The execution gate: the bytecodes of every buffered witness are stored or recorded as
   missing, and every block was executed with a witness all of whose bytecodes are stored.
   */
  ghost predicate Gated(t: TreeView)
  {
    && (forall h :: h in t.buffer.witnesses ==> t.buffer.witnesses[h].codes <= t.store + Lacking(t.buffer, h))
    && (forall e :: e in t.executed ==> e.1.codes <= t.store)
  }

  /** No missing set appears or changes. */
  ghost predicate MissingKept(a: BufferView, b: BufferView)
  {
    forall h :: h in b.missing ==> h in a.missing && b.missing[h] == a.missing[h]
  }

  /** Events are added to the history, but no finalized sync. */
  ghost predicate Lengthens(a: TreeView, b: TreeView)
  {
    a.history <= b.history && Syncs(b.history) == Syncs(a.history)
  }

  /** How far the records of a tree had got at some moment. */
  datatype Mark = Mark(executed: nat, failures: nat, evictions: nat)

  ghost function MarkOf(t: TreeView): Mark
  {
    Mark(|t.executed|, |t.failures|, |t.evictions|)
  }

  ghost predicate NotAfter(a: Mark, b: Mark)
  {
    a.executed <= b.executed && a.failures <= b.failures && a.evictions <= b.evictions
  }

  /** An execution after the first `since` ones ended in a fatal error. */
  ghost predicate CrashedSince(rules: Rules, executed: seq<(Hash, Witness)>, since: nat)
  {
    exists i :: since <= i < |executed| && IsCrash(rules, executed[i])
  }

  predicate IsCrash(rules: Rules, e: (Hash, Witness))
  {
    e.0.HashOf? && rules.execute(e.0.header, e.1) == Crashes
  }

  /** A block was recorded after the first `since` records. */
  ghost predicate LoggedSince(log: seq<Hash>, since: nat, h: Hash)
  {
    exists i :: since <= i < |log| && log[i] == h
  }

  /**
   Why a waiting block may be missing from the buffer: since the mark it was pushed out at the limit
   or failed, or an execution was fatal; or it is in memory.
   */
  ghost predicate Gone(rules: Rules, t: TreeView, since: Mark, h: Hash)
  {
    || LoggedSince(t.evictions, since.evictions, h) || h in t.chain.blocks
    || LoggedSince(t.failures, since.failures, h) || CrashedSince(rules, t.executed, since.executed)
  }

  /** A block is buffered as before: what it has and whether it lacks bytecodes is the same. */
  ghost predicate StillBuffered(a: BufferView, b: BufferView, h: Hash)
  {
    h in b.blocks && (h in a.missing ==> h in b.missing) && (h in a.witnesses ==> h in b.witnesses)
  }

  /** A buffered block whose parent is in memory stays buffered, unless one of the known causes takes it away. */
  ghost predicate Stays(rules: Rules, a: TreeView, b: TreeView)
  {
    forall h :: h in a.buffer.blocks && h.HashOf? && h.header.parent in a.chain.blocks ==>
                  StillBuffered(a.buffer, b.buffer, h) || Gone(rules, b, MarkOf(a), h)
  }

  /** Memory and the records only grow. */
  ghost predicate Records(a: TreeView, b: TreeView)
  {
    && a.chain.blocks.Keys <= b.chain.blocks.Keys && a.executed <= b.executed && a.failed <= b.failed
    && a.failures <= b.failures && a.evictions <= b.evictions && a.cache.dropped <= b.cache.dropped
  }

  /** What every tree operation but finality keeps. */
  ghost predicate Grows(rules: Rules, a: TreeView, b: TreeView)
  {
    Records(a, b) && Keeps(a, b) && Stays(rules, a, b)
  }

  /** What every tree operation keeps, pruning included. */
  ghost predicate Keeps(a: TreeView, b: TreeView)
  {
    a.store == b.store && Lengthens(a, b) && MissingKept(a.buffer, b.buffer)
  }

  lemma CrashedStays(rules: Rules, a: seq<(Hash, Witness)>, b: seq<(Hash, Witness)>, since: nat)
    requires a <= b && CrashedSince(rules, a, since)
    ensures CrashedSince(rules, b, since)
  {
    var i :| since <= i < |a| && IsCrash(rules, a[i]);
    assert b[i] == a[i];
  }

  lemma LoggedStays(a: seq<Hash>, b: seq<Hash>, since: nat, h: Hash)
    requires a <= b && LoggedSince(a, since, h)
    ensures LoggedSince(b, since, h)
  {
    var i :| since <= i < |a| && a[i] == h;
    assert b[i] == h;
  }

  lemma GoneStays(rules: Rules, a: TreeView, b: TreeView, since: Mark, h: Hash)
    requires Records(a, b) && Gone(rules, a, since, h)
    ensures Gone(rules, b, since, h)
  {
    if CrashedSince(rules, a.executed, since.executed) {
      CrashedStays(rules, a.executed, b.executed, since.executed);
    } else if LoggedSince(a.evictions, since.evictions, h) {
      LoggedStays(a.evictions, b.evictions, since.evictions, h);
    } else if LoggedSince(a.failures, since.failures, h) {
      LoggedStays(a.failures, b.failures, since.failures, h);
    }
  }

  /** A cause that applies since a later moment applies since an earlier one. */
  lemma GoneEarlier(rules: Rules, t: TreeView, since: Mark, later: Mark, h: Hash)
    requires NotAfter(since, later) && Gone(rules, t, later, h)
    ensures Gone(rules, t, since, h)
  {
  }

  lemma StaysTransitive(rules: Rules, a: TreeView, b: TreeView, c: TreeView)
    requires Records(a, b) && Records(b, c) && Stays(rules, a, b) && Stays(rules, b, c)
    ensures Stays(rules, a, c)
  {
    forall h | h in a.buffer.blocks && h.HashOf? && h.header.parent in a.chain.blocks
      ensures StillBuffered(a.buffer, c.buffer, h) || Gone(rules, c, MarkOf(a), h)
    {
      if StillBuffered(a.buffer, b.buffer, h) {
        if !StillBuffered(b.buffer, c.buffer, h) {
          GoneEarlier(rules, c, MarkOf(a), MarkOf(b), h);
        }
      } else {
        GoneStays(rules, b, c, MarkOf(a), h);
      }
    }
  }

  lemma GrowsTransitive(rules: Rules, a: TreeView, b: TreeView, c: TreeView)
    requires Grows(rules, a, b) && Grows(rules, b, c)
    ensures Grows(rules, a, c)
  {
    StaysTransitive(rules, a, b, c);
  }

  /** An operation that leaves the buffer alone. */
  lemma SameBufferGrows(rules: Rules, a: TreeView, b: TreeView)
    requires b.buffer == a.buffer && Records(a, b) && a.store == b.store && Lengthens(a, b)
    ensures Grows(rules, a, b)
  {
  }

  /** The block an insertion pushes out, if any. */
  ghost function PushedOut(v: BufferView, block: Header, limit: nat): seq<Hash>
  {
    var full := HashOf(block) !in v.lru && limit <= |v.lru| && v.lru != [];
    if full && v.lru[0] in Indexed(v, block).blocks then [v.lru[0]] else []
  }

  /** The tree with a block marked as failed. */
  ghost function WithFailure(t: TreeView, h: Hash): TreeView
  {
    t.(failed := t.failed + {h}, failures := t.failures + [h])
  }

  /** The tree with a block put into the buffer. */
  ghost function WithBlock(t: TreeView, block: Header, limit: nat): TreeView
  {
    t.(buffer := Inserted(t.buffer, block, limit), evictions := t.evictions + PushedOut(t.buffer, block, limit))
  }

  lemma InsertedFields(v: BufferView, block: Header, limit: nat)
    ensures var w, out := Inserted(v, block, limit), PushedOut(v, block, limit);
            && (forall h :: h in w.blocks <==> (h in v.blocks || h == HashOf(block)) && h !in out)
            && (forall h :: h in w.witnesses <==> h in v.witnesses && h !in out)
            && (forall h :: h in w.missing <==> h in v.missing && h !in out)
            && (forall h :: h in w.witnesses ==> w.witnesses[h] == v.witnesses[h])
            && (forall h :: h in w.missing ==> w.missing[h] == v.missing[h])
  {
    InsertedMaps(v, block, limit);
  }

  lemma InsertedMaps(v: BufferView, block: Header, limit: nat)
    ensures var w, out := Inserted(v, block, limit), PushedOut(v, block, limit);
            && w.blocks == (if out == [] then v.blocks[HashOf(block) := block]
                            else v.blocks[HashOf(block) := block] - {out[0]})
            && w.witnesses == (if out == [] then v.witnesses else v.witnesses - {out[0]})
            && w.missing == (if out == [] then v.missing else v.missing - {out[0]}) && |out| <= 1
  {
    var w := Indexed(v, block);
    if PushedOut(v, block, limit) != [] {
      var oldest, full := v.lru[0], w.(lru := v.lru[1..] + [HashOf(block)]);
      assert Inserted(v, block, limit) == Taken(full, oldest) && oldest in full.blocks;
    } else {
      assert Inserted(v, block, limit) == w.(lru := Inserted(v, block, limit).lru);
    }
  }

  lemma SwitchGrows(rules: Rules, t: TreeView, target: Hash, update: Option<NewCanonicalChain>)
    ensures Grows(rules, t, Switched(t, target, update)) && (Gated(t) ==> Gated(Switched(t, target, update)))
  {
    if update.Some? && target.HashOf? {
      SyncsMore(t.history, HeadRequested(target, update.value));
    }
    SameBufferGrows(rules, t, Switched(t, target, update));
  }

  lemma InsertedKeeps(v: BufferView, block: Header, limit: nat)
    ensures MissingKept(v, Inserted(v, block, limit))
    ensures forall h :: h in Inserted(v, block, limit).witnesses ==>
                          h in v.witnesses && Inserted(v, block, limit).witnesses[h] == v.witnesses[h]
    ensures forall h :: h in Inserted(v, block, limit).witnesses ==>
              Lacking(Inserted(v, block, limit), h) == Lacking(v, h)
    ensures forall h :: h in Inserted(v, block, limit).blocks ==> h in v.blocks || h == HashOf(block)
  {
    InsertedFields(v, block, limit);
  }

  /** Putting a block into the buffer pushes out no more than what is then recorded. */
  lemma WithBlockGrows(rules: Rules, t: TreeView, block: Header, limit: nat)
    ensures Grows(rules, t, WithBlock(t, block, limit))
  {
    var u, out := WithBlock(t, block, limit), PushedOut(t.buffer, block, limit);
    InsertedFields(t.buffer, block, limit);
    forall h | h in t.buffer.blocks
      ensures StillBuffered(t.buffer, u.buffer, h) || LoggedSince(u.evictions, |t.evictions|, h)
    {
      if h in out {
        assert u.evictions[|t.evictions|] == h;
      }
    }
  }

  lemma CollectedKeeps(v: BufferView, roots: set<Hash>, removed: seq<(Header, Witness)>, w: BufferView)
    requires Collected(v, roots, removed, w)
    ensures MissingKept(v, w)
    ensures forall h :: h in w.witnesses ==>
              h in v.witnesses && w.witnesses[h] == v.witnesses[h] && Lacking(w, h) == Lacking(v, h)
  {
  }

  /** The blocks a traversal hands out come with complete witnesses. */
  lemma CollectedComplete(t: TreeView, roots: set<Hash>, removed: seq<(Header, Witness)>, w: BufferView)
    requires Gated(t) && Collected(t.buffer, roots, removed, w)
    ensures Gated(t.(buffer := w)) && forall x :: x in removed ==> x.1.codes <= t.store
  {
    CollectedKeeps(t.buffer, roots, removed, w);
    forall x | x in removed
      ensures x.1.codes <= t.store
    {
      assert HashOf(x.0) in HashSet(removed);
    }
  }

  // ---------- the missing ancestor ----------

  /** The ancestor a disconnected block waits for. */
  ghost predicate WaitsFor(blocks: map<Hash, Header>, block: Header, low: Option<Header>, m: NumHash)
  {
    if low.None? then block.parent !in blocks && m == block.ParentNumHash()
    else Lowest(blocks, block.parent, low.value) && m == low.value.ParentNumHash()
  }

  lemma {:induction false} LowestUnique(blocks: map<Hash, Header>, h: Hash, a: Header, b: Header)
    requires Lowest(blocks, h, a) && Lowest(blocks, h, b)
    ensures a == b
  {
    if h == HashOf(a) {
      BottomOfPath(blocks, h, HashOf(b));
    } else if h == HashOf(b) {
      BottomOfPath(blocks, h, HashOf(a));
    } else {
      LowestUnique(blocks, h.header.parent, a, b);
    }
  }

  lemma BottomOfPath(blocks: map<Hash, Header>, h: Hash, low: Hash)
    requires Buffered(blocks, h, low) && h.HashOf? && h.header.parent !in blocks
    ensures h == low
  {
  }

  lemma {:induction false} BufferedIsAncestor(blocks: map<Hash, Header>, h: Hash, low: Hash)
    requires Buffered(blocks, h, low)
    ensures AncestorOrSelf(low, h) && forall a :: AncestorOrSelf(a, h) && Depth(a) >= Depth(low) ==> a in blocks
  {
    if h != low {
      BufferedIsAncestor(blocks, h.header.parent, low);
    } else {
      forall a | AncestorOrSelf(a, h) && Depth(a) >= Depth(low)
        ensures a in blocks
      {
        AncestorDepth(a, h);
      }
    }
  }

  /**
   The reported ancestor is a true ancestor, everything between it and the block is buffered,
   and it is itself unbuffered, both before and after the block is buffered with a possible eviction.
   */
  lemma MissingAncestor(v: BufferView, block: Header, low: Option<Header>, m: NumHash, limit: nat)
    requires WaitsFor(v.blocks, block, low, m)
    ensures AncestorOrSelf(m.hash, block.parent)
    ensures forall a :: AncestorOrSelf(a, block.parent) && Depth(a) > Depth(m.hash) ==> a in v.blocks
    ensures m.hash !in v.blocks && m.hash !in Inserted(v, block, limit).blocks
  {
    InsertedKeeps(v, block, limit);
    if low.Some? {
      BufferedIsAncestor(v.blocks, block.parent, HashOf(low.value));
      assert AncestorOrSelf(m.hash, HashOf(low.value));
      AncestorTransitive(m.hash, HashOf(low.value), block.parent);
    } else {
      forall a | AncestorOrSelf(a, block.parent) && Depth(a) > Depth(m.hash)
        ensures false
      {
        AncestorDepth(a, block.parent);
      }
    }
    AncestorDepth(m.hash, block.parent);
  }

  lemma LowestIsGap(blocks: map<Hash, Header>, h: Hash, low: Option<Header>)
    requires low.None? <==> h !in blocks
    requires low.Some? ==> Lowest(blocks, h, low.value)
    ensures Gap(blocks, h, if low.Some? then low.value.parent else h)
    ensures low.Some? ==> low.value.parent != h
  {
    if low.Some? {
      var bottom := HashOf(low.value);
      BufferedIsAncestor(blocks, h, bottom);
      assert AncestorOrSelf(low.value.parent, bottom);
      AncestorTransitive(low.value.parent, bottom, h);
      AncestorDepth(bottom, h);
    } else {
      forall a | AncestorOrSelf(a, h) && Depth(a) > Depth(h)
        ensures false
      {
        AncestorDepth(a, h);
      }
    }
  }

  // ---------- inserting a block ----------

  function Given(b: BufferView, h: Hash, wit: Option<Witness>): BufferView
  {
    if wit.Some? then WitnessInserted(b, h, wit.value, {}) else b
  }

  /** The block passes the checks that need its parent. */
  predicate FitsParent(rules: Rules, parents: map<Hash, Header>, block: Header)
  {
    && block.parent in parents && block.number == parents[block.parent].number + 1
    && rules.againstParentOk(block, parents[block.parent])
  }

  /** The block passes every check before execution and has a witness. */
  ghost predicate Executable(rules: Rules, parents: map<Hash, Header>, block: Header, wit: Option<Witness>)
  {
    rules.blockOk(block) && FitsParent(rules, parents, block) && wit.Some?
  }

  // ---------- the rules ----------

  /** What every executed block meets: the rules on its own and against its parent, and a successful execution. */
  ghost predicate Obeys(rules: Rules, block: Header, wit: Witness)
  {
    && rules.blockOk(block) && block.parent.HashOf? && block.number == block.parent.header.number + 1
    && rules.againstParentOk(block, block.parent.header) && rules.execute(block, wit) == Succeeds
  }

  /** Every block of the history that was executed obeyed the rules. */
  ghost predicate Lawful(rules: Rules, history: seq<ChainEvent>)
  {
    forall e :: e in history && e.BlockExecuted? ==> Obeys(rules, e.block, e.wit)
  }

  lemma LawfulNext(rules: Rules, history: seq<ChainEvent>, e: ChainEvent)
    requires Lawful(rules, history) && (e.BlockExecuted? ==> Obeys(rules, e.block, e.wit))
    ensures Lawful(rules, history + [e])
  {
  }

  /** The block breaks a rule on its own or against its parent, or some witness makes its execution fail. */
  ghost predicate Breaks(rules: Rules, h: Hash)
  {
    h.HashOf? &&
    (|| !rules.blockOk(h.header)
     || (h.header.parent.HashOf? && (|| h.header.number != h.header.parent.header.number + 1
                                     || !rules.againstParentOk(h.header, h.header.parent.header)))
     || exists w :: rules.execute(h.header, w) == Fails)
  }

  /** No block is marked as failed without a reason. */
  ghost predicate AllBreak(rules: Rules, failed: set<Hash>)
  {
    forall h :: h in failed ==> Breaks(rules, h)
  }

  /** Everything an insertion does, by result; the conditions leave exactly one result for every input. */
  ghost predicate InsertEffect(rules: Rules, a: TreeView, block: Header, wit: Option<Witness>, r: InsertResult,
                               b: TreeView, limit: nat)
  {
    var hash := HashOf(block);
    var parents := a.chain.blocks;
    && (r.AlreadySeen? <==> hash in parents)
    && match r
       case AlreadySeen => b == a
       case Disconnected(missing) =>
         && rules.blockOk(block) && block.parent !in parents
         && (exists low :: WaitsFor(a.buffer.blocks, block, low, missing))
         && b == WithBlock(a.(buffer := Given(a.buffer, hash, wit)), block, limit)
       case NoWitness =>
         && rules.blockOk(block) && FitsParent(rules, parents, block) && wit.None?
         && b == WithBlock(a, block, limit)
       case Connected =>
         && Executable(rules, parents, block, wit) && rules.execute(block, wit.value) == Succeeds
         && b == a.(chain := Insert(a.chain, block, wit), executed := a.executed + [(hash, wit.value)],
                    history := a.history + [BlockExecuted(block, wit.value)])
       case Rejected =>
         || (b == a && (!rules.blockOk(block) || (block.parent in parents && !FitsParent(rules, parents, block))))
         || (&& Executable(rules, parents, block, wit) && rules.execute(block, wit.value) == Fails
             && b == a.(executed := a.executed + [(hash, wit.value)]))
       case Fatal =>
         && Executable(rules, parents, block, wit) && rules.execute(block, wit.value) == Crashes
         && b == a.(executed := a.executed + [(hash, wit.value)])
  }

  /** The insertion of a block has one result, missing ancestor included, and one effect. */
  lemma InsertDetermined(rules: Rules, a: TreeView, block: Header, wit: Option<Witness>,
                         r: InsertResult, b: TreeView, r': InsertResult, b': TreeView, limit: nat)
    requires InsertEffect(rules, a, block, wit, r, b, limit) && InsertEffect(rules, a, block, wit, r', b', limit)
    ensures r == r' && b == b'
  {
    if r.Disconnected? {
      var low :| WaitsFor(a.buffer.blocks, block, low, r.missingAncestor);
      var low' :| WaitsFor(a.buffer.blocks, block, low', r'.missingAncestor);
      if low.Some? && low'.Some? {
        LowestUnique(a.buffer.blocks, block.parent, low.value, low'.value);
      }
    }
  }

  /**
   When each result comes about: in terms of what memory holds, the rules the block meets on its own
   and against its parent, and what its execution yields.
   */
  lemma InsertTable(rules: Rules, a: TreeView, block: Header, wit: Option<Witness>, r: InsertResult, b: TreeView,
                    limit: nat)
    requires InsertEffect(rules, a, block, wit, r, b, limit) && ChainStates.Coherent(a.chain)
    ensures r.AlreadySeen? <==> HashOf(block) in a.chain.blocks
    ensures r.Disconnected? ==> rules.blockOk(block) && block.parent !in a.chain.blocks
    ensures r.NoWitness? || r.Connected? || r.Fatal? ==>
              && rules.blockOk(block) && block.parent in a.chain.blocks
              && block.number == block.parent.header.number + 1 && rules.againstParentOk(block, block.parent.header)
    ensures r.NoWitness? ==> wit.None?
    ensures r.Connected? ==> wit.Some? && rules.execute(block, wit.value) == Succeeds
    ensures r.Fatal? ==> wit.Some? && rules.execute(block, wit.value) == Crashes
    ensures r.Rejected? ==> Breaks(rules, HashOf(block))
    ensures !r.AlreadySeen? && !r.Disconnected? && rules.blockOk(block) && block.parent in a.chain.blocks
            && block.number == block.parent.header.number + 1 && rules.againstParentOk(block, block.parent.header) ==>
              if wit.None? then r.NoWitness?
              else match rules.execute(block, wit.value)
                   case Succeeds => r.Connected?
                   case Fails => r.Rejected?
                   case Crashes => r.Fatal?
  {
  }

  /**
   A connected block is in memory, with everything that was; nothing else about memory changes by an
   insertion, nor does the buffer unless the block has to wait.
   */
  lemma InsertIntoMemory(rules: Rules, a: TreeView, block: Header, wit: Option<Witness>, r: InsertResult, b: TreeView,
                         limit: nat)
    requires InsertEffect(rules, a, block, wit, r, b, limit)
    ensures r.Connected? ==>
              && b.chain.blocks == a.chain.blocks[HashOf(block) := block]
              && b.chain.witnesses == a.chain.witnesses[HashOf(block) := wit.value]
              && b.chain.canonical == a.chain.canonical
    ensures !r.Connected? ==> b.chain == a.chain
    ensures b.head == a.head && b.store == a.store && (r.Disconnected? || r.NoWitness? || b.buffer == a.buffer)
  {
  }

  /** A block that waits is in the buffer, and a disconnected one keeps the witness it came with. */
  lemma WaitingBlockIsKept(rules: Rules, a: TreeView, block: Header, wit: Option<Witness>, r: InsertResult, b: TreeView,
                           limit: nat)
    requires InsertEffect(rules, a, block, wit, r, b, limit) && B.Coherent(a.buffer, limit) && limit >= 1
    ensures r.Disconnected? || r.NoWitness? ==> HashOf(block) in b.buffer.blocks
    ensures r.Disconnected? && wit.Some? ==>
              HashOf(block) in b.buffer.witnesses && b.buffer.witnesses[HashOf(block)] == wit.value
  {
    if r.Disconnected? || r.NoWitness? {
      var given := Given(a.buffer, HashOf(block), wit);
      InsertedCoherent(given, block, limit);
      InsertedCoherent(a.buffer, block, limit);
      InsertedFields(given, block, limit);
    }
  }

  lemma InsertGrows(rules: Rules, a: TreeView, block: Header, wit: Option<Witness>, r: InsertResult, b: TreeView,
                    limit: nat)
    requires InsertEffect(rules, a, block, wit, r, b, limit)
    ensures Grows(rules, a, b)
  {
    if r.Connected? {
      SyncsMore(a.history, BlockExecuted(block, wit.value));
      SameBufferGrows(rules, a, b);
    } else if r.Disconnected? {
      var given := a.(buffer := Given(a.buffer, HashOf(block), wit));
      WithBlockGrows(rules, given, block, limit);
      assert Grows(rules, a, given);
      GrowsTransitive(rules, a, given, b);
    } else if r.NoWitness? {
      WithBlockGrows(rules, a, block, limit);
    } else {
      SameBufferGrows(rules, a, b);
    }
  }

  lemma InsertGated(rules: Rules, a: TreeView, block: Header, wit: Option<Witness>, r: InsertResult, b: TreeView,
                    limit: nat)
    requires InsertEffect(rules, a, block, wit, r, b, limit) && Gated(a)
    requires wit.Some? ==> wit.value.codes <= a.store
    ensures Gated(b)
  {
    if r.Disconnected? {
      InsertedKeeps(Given(a.buffer, HashOf(block), wit), block, limit);
    } else if r.NoWitness? {
      InsertedKeeps(a.buffer, block, limit);
    }
  }

  lemma FatalIsCrash(rules: Rules, a: TreeView, block: Header, wit: Option<Witness>, r: InsertResult, b: TreeView,
                     limit: nat)
    requires InsertEffect(rules, a, block, wit, r, b, limit) && r.Fatal?
    ensures CrashedSince(rules, b.executed, |a.executed|)
  {
    assert b.executed[|a.executed|] == (HashOf(block), wit.value);
  }

  // ---------- fork choice ----------

  /** Both the finalized and the safe block, where given, are canonical. */
  ghost predicate Consistent(canonical: map<nat, Hash>, state: ForkchoiceState)
  {
    && (state.finalized != ZERO ==> IsCanonical(canonical, state.finalized))
    && (state.safe != ZERO ==> IsCanonical(canonical, state.safe))
  }

  /** The tree once finality has been applied: memory is pruned, and the buffer rid of everything doomed. */
  ghost predicate Finalized(a: TreeView, finalized: Hash, b: TreeView)
  {
    && b.head == a.head && b.store == a.store && b.executed == a.executed
    && b.failed == a.failed && b.failures == a.failures && b.evictions == a.evictions && b.cache == a.cache
    && (if finalized == ZERO then b.chain == a.chain && b.history == a.history
        else b.chain == Prune(a.chain, finalized) && b.history == a.history + [FinalizedPruned(finalized)])
    && (if finalized in b.chain.blocks
        then Minus(a.buffer, Doomed(a.buffer, b.chain.blocks[finalized].number), b.buffer)
        else b.buffer == a.buffer)
  }

  /** Applying finality to a consistent state keeps the gate, the waits, the head and the finalized entry. */
  lemma FinalizedKeeps(a: TreeView, finalized: Hash, b: TreeView)
    requires (finalized != ZERO ==> IsCanonical(a.chain.canonical, finalized)) && Finalized(a, finalized, b)
    ensures Keeps(a, b) && (Gated(a) ==> Gated(b)) && FinalityDone(b.chain.blocks, b.buffer.blocks, finalized)
    ensures Sound(a.chain, a.head) && a.head.hash in a.chain.blocks ==> a.head.hash in b.chain.blocks
    ensures Sound(a.chain, a.head) && finalized != ZERO ==> IsCanonical(b.chain.canonical, finalized)
  {
    FinalizedFinishes(a, finalized, b);
    if finalized != ZERO {
      SyncsMore(a.history, FinalizedPruned(finalized));
      if Sound(a.chain, a.head) {
        if a.head.hash in a.chain.blocks { PruneKeepsHead(a.chain, a.head, finalized); }
        FinalizedStays(a.chain, a.head, finalized);
      }
    }
  }

  /** Finality leaves a buffered block alone, with all it has, if every buffered block it builds on is higher. */
  lemma FinalitySpares(a: TreeView, finalized: Hash, b: TreeView, h: Hash)
    requires Finalized(a, finalized, b) && h in a.buffer.blocks
    requires finalized in b.chain.blocks ==>
               forall x :: x in a.buffer.blocks && AncestorOrSelf(x, h) ==>
                             a.buffer.blocks[x].number > b.chain.blocks[finalized].number
    ensures h in b.buffer.blocks && b.buffer.blocks[h] == a.buffer.blocks[h]
    ensures h in a.buffer.witnesses ==> h in b.buffer.witnesses && b.buffer.witnesses[h] == a.buffer.witnesses[h]
    ensures h in a.buffer.missing ==> h in b.buffer.missing && b.buffer.missing[h] == a.buffer.missing[h]
  {
    if finalized in b.chain.blocks {
      var n := b.chain.blocks[finalized].number;
      if BelowAny(a.buffer.children, UpTo(a.buffer, n), h) {
        var root := BelowIsAncestor(a.buffer.children, UpTo(a.buffer, n), h);
      }
    }
  }

  lemma {:induction false} BelowIsAncestor(children: map<Hash, set<Hash>>, roots: set<Hash>, h: Hash)
      returns (root: Hash)
    requires BelowAny(children, roots, h)
    ensures root in roots && AncestorOrSelf(root, h)
  {
    if h in roots {
      root := h;
    } else {
      root := BelowIsAncestor(children, roots, h.header.parent);
    }
  }

  /** Nothing below the finalized block is left in memory, and nothing at or below its height in the buffer. */
  ghost predicate FinalityDone(blocks: map<Hash, Header>, buffered: map<Hash, Header>, finalized: Hash)
  {
    finalized != ZERO && finalized in blocks ==>
      && (forall h :: h in blocks ==> blocks[h].number >= blocks[finalized].number)
      && (forall h :: h in buffered ==> buffered[h].number > blocks[finalized].number)
  }

  lemma FinalizedFinishes(a: TreeView, finalized: Hash, b: TreeView)
    requires Finalized(a, finalized, b)
    ensures FinalityDone(b.chain.blocks, b.buffer.blocks, finalized)
  {
    if finalized in b.chain.blocks {
      var n := b.chain.blocks[finalized].number;
      assert forall h :: h in UpTo(a.buffer, n) ==> h in Doomed(a.buffer, n);
    }
  }

  lemma FinalizedStays(v: ChainView, head: NumHash, finalized: Hash)
    requires Sound(v, head) && IsCanonical(v.canonical, finalized)
    ensures IsCanonical(Prune(v, finalized).canonical, finalized)
  {
    var n :| n in v.canonical && v.canonical[n] == finalized;
    AncestorAtSpec(head.hash, n);
    assert n in Prune(v, finalized).canonical && Prune(v, finalized).canonical[n] == finalized;
  }

  predicate AttributesBad(rules: Rules, attributes: Option<nat>, head: Header)
  {
    attributes.Some? && !rules.attributesOk(attributes.value, head)
  }

  /**
   A new head is applied first. If the state turns out inconsistent with the new index, that is
   all; otherwise finality is applied too, and only then the attributes are looked at.
   */
  ghost predicate Applies(rules: Rules, a: TreeView, state: ForkchoiceState, attributes: Option<nat>,
                          update: NewCanonicalChain, status: ForkchoiceStatus, b: TreeView)
  {
    var mid := Switched(a, state.head, Some(update));
    && state.head.HashOf?
    && if !Consistent(mid.chain.canonical, state) then status == InvalidState && b == mid
       else
         && Finalized(mid, state.finalized, b)
         && status == if AttributesBad(rules, attributes,
                                       state.head.header) then InvalidAttributes else ForkchoiceValid(state.head)
  }

  /** The answer when the requested head already is the canonical one. */
  ghost function SameHead(rules: Rules, a: TreeView, state: ForkchoiceState,
                          attributes: Option<nat>): TreeOutcome<ForkchoiceStatus>
  {
    if !Consistent(a.chain.canonical, state) then Outcome(InvalidState, None)
    else if attributes.Some? && a.head.hash !in a.chain.blocks then Failure
    else if attributes.Some? && AttributesBad(rules, attributes,
                                              a.chain.blocks[a.head.hash]) then Outcome(InvalidAttributes, None)
    else Outcome(ForkchoiceValid(state.head), None)
  }

  /** `t` is the first hash below `h` that is not buffered. */
  ghost predicate Gap(buffered: map<Hash, Header>, h: Hash, t: Hash)
  {
    && AncestorOrSelf(t, h) && t !in buffered
    && forall a :: AncestorOrSelf(a, h) && Depth(a) > Depth(t) ==> a in buffered
  }

  predicate Unknown(blocks: map<Hash, Header>, buffered: map<Hash, Header>, h: Hash)
  {
    h != ZERO && h !in blocks && h !in buffered
  }

  /** What to download: the finalized block if it is unknown, else the gap below the safe or the requested head. */
  ghost predicate SyncsTowards(a: TreeView, state: ForkchoiceState, event: Option<TreeEvent>)
  {
    if Unknown(a.chain.blocks, a.buffer.blocks, state.finalized) then event == Some(DownloadFinalized(state.finalized))
    else
      var towards := if Unknown(a.chain.blocks, a.buffer.blocks, state.safe) then state.safe else state.head;
      exists t :: Gap(a.buffer.blocks, towards, t) &&
                  event == if t == state.finalized || t in a.chain.blocks then None else Some(DownloadBlock(t))
  }

  /** The answer to a fork choice whose head is not known to be invalid, and the new tree, case by case. */
  ghost predicate ForkchoiceFollowed(rules: Rules, a: TreeView, state: ForkchoiceState, attributes: Option<nat>,
                                     outcome: TreeOutcome<ForkchoiceStatus>, update: Option<NewCanonicalChain>,
                                     b: TreeView)
  {
    if a.head.hash == state.head then b == a && outcome == SameHead(rules, a, state, attributes)
    else
      && Justly(a, state.head, update)
      && if update.Some? then
           && outcome.Outcome? && outcome.event.None?
           && Applies(rules, a, state, attributes, update.value, outcome.status, b)
         else if state.head in a.chain.blocks then b == a && outcome == Outcome(ForkchoiceValid(state.head), None)
         else b == a && outcome.Outcome? && outcome.status.ForkchoiceSyncing? && SyncsTowards(a, state, outcome.event)
  }

  /** A head is answered invalid with the latest valid hash found for it, and nothing else changes. */
  ghost predicate ForkchoiceRefused(a: TreeView, state: ForkchoiceState, outcome: TreeOutcome<ForkchoiceStatus>,
                                    valid: Hash, b: TreeView)
  {
    && outcome == Outcome(ForkchoiceInvalid(valid), None) && b == a.(cache := b.cache) && Invalid(a.failed, state.head)
    && (valid != ZERO ==> IsLatestValid(a.chain.blocks, a.failed, state.head, valid))
  }

  /**
   The answer to a fork choice and the new tree. The first unbuffered hash below the head is looked up
   in the invalid-header cache before anything else is done.
   */
  ghost predicate ForkchoiceAnswered(rules: Rules, a: TreeView, state: ForkchoiceState, attributes: Option<nat>,
                                     outcome: TreeOutcome<ForkchoiceStatus>, update: Option<NewCanonicalChain>,
                                     b: TreeView)
  {
    if state.head == ZERO then b == a && outcome == Outcome(InvalidState, None)
    else
      exists check, valid ::
        && Gap(a.buffer.blocks, state.head, check) && Checked(a.cache, a.chain.blocks, check, valid, b.cache)
        && match valid
           case Some(hash) => ForkchoiceRefused(a, state, outcome, hash, b)
           case None =>
             ForkchoiceFollowed(rules, a.(cache := b.cache), state, attributes, outcome, update, b)
  }

  lemma GapUnique(buffered: map<Hash, Header>, h: Hash, t: Hash, u: Hash)
    requires Gap(buffered, h, t) && Gap(buffered, h, u)
    ensures t == u
  {
    assert Depth(u) > Depth(t) ==> u in buffered;
    assert Depth(t) > Depth(u) ==> t in buffered;
    AncestorsComparable(t, u, h);
    AncestorDepth(t, u);
  }

  /** If a failed block is recorded for the hash looked up, the head is refused, unless looking dropped the record. */
  lemma KnownBadHeadIsRefused(rules: Rules, a: TreeView, state: ForkchoiceState, attributes: Option<nat>,
                              outcome: TreeOutcome<ForkchoiceStatus>, update: Option<NewCanonicalChain>, b: TreeView,
                              check: Hash)
    requires ForkchoiceAnswered(rules, a, state, attributes, outcome, update, b) && state.head != ZERO
    requires Gap(a.buffer.blocks, state.head, check)
    ensures check !in a.cache.entries ==> b.cache == a.cache && !(outcome.Outcome? && outcome.status.ForkchoiceInvalid?)
    ensures check in a.cache.entries ==>
            || b.cache.dropped == a.cache.dropped + [check]
            || (&& outcome.Outcome? && outcome.status.ForkchoiceInvalid? && b == a.(cache := b.cache)
                && Walked(a.cache, a.cache.entries[check].parent, b.cache)
                && Responds(b.cache.entries, a.chain.blocks, a.cache.entries[check].parent,
                            outcome.status.latestValid))
  {
    var at, valid :| Gap(a.buffer.blocks, state.head, at) && Checked(a.cache, a.chain.blocks, at, valid, b.cache)
                     && match valid
                        case Some(hash) => ForkchoiceRefused(a, state, outcome, hash, b)
                        case None =>
                          ForkchoiceFollowed(rules, a.(cache := b.cache), state, attributes, outcome, update, b);
    GapUnique(a.buffer.blocks, state.head, at, check);
  }

  /** The target of the last fork choice that could not be followed yet, once another one has been answered. */
  function TargetFor(target: Option<Hash>, state: ForkchoiceState, status: ForkchoiceStatus): Option<Hash>
  {
    match status
    case ForkchoiceValid(_) => None
    case InvalidAttributes => None
    case ForkchoiceSyncing => Some(state.head)
    case _ => target
  }

  lemma FollowedKeeps(rules: Rules, a: TreeView, state: ForkchoiceState, attributes: Option<nat>,
                      outcome: TreeOutcome<ForkchoiceStatus>, update: Option<NewCanonicalChain>, b: TreeView)
    requires ForkchoiceFollowed(rules, a, state, attributes, outcome, update, b)
    ensures Keeps(a, b) && (Gated(a) ==> Gated(b))
  {
    if a.head.hash != state.head && update.Some? {
      var mid := Switched(a, state.head, Some(update.value));
      SwitchGrows(rules, a, state.head, update);
      if Consistent(mid.chain.canonical, state) {
        FinalizedKeeps(mid, state.finalized, b);
      }
    }
  }

  /** What every answered fork choice keeps. */
  lemma ForkchoiceKeeps(rules: Rules, a: TreeView, state: ForkchoiceState, attributes: Option<nat>,
                        outcome: TreeOutcome<ForkchoiceStatus>, update: Option<NewCanonicalChain>, b: TreeView)
    requires ForkchoiceAnswered(rules, a, state, attributes, outcome, update, b)
    ensures Keeps(a, b) && (Gated(a) ==> Gated(b))
  {
    if state.head != ZERO && !(outcome.Outcome? && outcome.status.ForkchoiceInvalid?) {
      FollowedKeeps(rules, a.(cache := b.cache), state, attributes, outcome, update, b);
    }
  }

  /**
   In a sound tree: the head moves exactly when memory connects it, also if the state is then found
   inconsistent; and a head that has moved stays in memory, with the finalized block canonical and
   nothing older left unless the state was inconsistent.
   */
  lemma ForkchoiceMoves(rules: Rules, a: TreeView, state: ForkchoiceState, attributes: Option<nat>,
                        outcome: TreeOutcome<ForkchoiceStatus>, update: Option<NewCanonicalChain>, b: TreeView)
    requires ForkchoiceAnswered(rules, a, state, attributes, outcome, update, b) && Sound(a.chain, a.head)
    requires state.head != a.head.hash && state.head != ZERO && outcome.Outcome? && !outcome.status.ForkchoiceInvalid?
    ensures b.head.hash == state.head <==> Switchable(a.chain.blocks, a.head.hash, state.head)
    ensures b.head.hash == state.head ==> b.head.hash in b.chain.blocks
    ensures b.head.hash == state.head && !outcome.status.InvalidState? ==>
              && FinalityDone(b.chain.blocks, b.buffer.blocks, state.finalized)
              && (state.finalized != ZERO ==> IsCanonical(b.chain.canonical, state.finalized))
  {
    if update.Some? {
      var mid, s := Switched(a.(cache := b.cache), state.head, update), Chain(a.chain, a.head, ZERO);
      UpdateNeedsPath(a.chain, a.head, state.head, update.value);
      StepStaysSound(s, HeadRequested(state.head, update.value));
      if b != mid {
        FinalizedKeeps(mid, state.finalized, b);
      }
    }
  }

  /** Any update there is proves that the target could be reached. */
  lemma UpdateNeedsPath(v: ChainView, head: NumHash, target: Hash, update: NewCanonicalChain)
    requires Situated(v, head) && IsUpdate(v.blocks, head.hash, target, Some(update))
    ensures Switchable(v.blocks, head.hash, target)
  {
    var base := update.added[0].parent;
    RisingInMemory(v.blocks, update.added, base, target);
    if update.Reorg? {
      RisingInMemory(v.blocks, update.removed, base, head.hash);
    }
    RisingMembers(update.added, base, target);
    DepthOfNumbered(target);
    assert Depth(base) == Depth(head.hash) ==> Depth(base) > 0;
    assert InMemory(v.blocks, target.header.parent, base);
    assert InMemory(v.blocks, head.hash, base);
  }
}
