/**
 The chain side of the node as a state machine, and what holds after every run of it.
 */
module ChainRuns {
  import opened Blocks
  import opened ChainStates
  import opened ChainSwitch
  import opened CanonicalIndex

  /** Blocks, index and head; `root` is the block finality was last anchored to. */
  datatype Chain = Chain(view: ChainView, head: NumHash, root: Hash)

  datatype ChainEvent =
    | BlockExecuted(block: Header, wit: Witness)
    | HeadRequested(target: Hash, update: NewCanonicalChain)
    | FinalizedSynced(block: Header, ancestors: seq<Header>)
    | FinalizedPruned(finalized: Hash)

  ghost function Start(genesis: Header): Chain
  {
    var hash := HashOf(genesis);
    Chain(ChainView(map[0 := hash], map[hash := genesis], map[0 := {hash}], map[]), genesis.ToNumHash(), hash)
  }

  ghost predicate IsGenesis(genesis: Header)
  {
    genesis.number == 0 && genesis.parent == ZERO
  }

  /** What the consensus layer guarantees of a sync: a real block whose ancestry holds the entries that stay. */
  ghost predicate SyncOk(s: Chain, e: ChainEvent)
  {
    e.FinalizedSynced? ==>
      Numbered(HashOf(e.block)) && EntriesOnAncestry(s.view.canonical, e.block, e.ancestors)
  }

  /** When the code lets an event happen, given what the consensus layer guarantees of syncs. */
  ghost predicate Enabled(s: Chain, e: ChainEvent)
  {
    && SyncOk(s, e)
    && match e
       case BlockExecuted(block, _) =>
         block.parent in s.view.blocks && block.number == s.view.blocks[block.parent].number + 1
       case HeadRequested(target, update) => IsUpdate(s.view.blocks, s.head.hash, target, Some(update))
       case FinalizedSynced(block, ancestors) =>
         AncestorsOf(block, ancestors) && |ancestors| >= BLOCK_HASH_WINDOW
       case FinalizedPruned(finalized) => IsCanonical(s.view.canonical, finalized)
  }

  /** The root follows finality, except to a block below it. */
  ghost function Next(s: Chain, e: ChainEvent): Chain
  {
    match e
    case BlockExecuted(block, wit) => s.(view := Insert(s.view, block, Some(wit)))
    case HeadRequested(target, update) =>
      if target.HashOf? then
        s.(view := s.view.(canonical := Applied(s.view.canonical, update)), head := target.header.ToNumHash())
      else s
    case FinalizedSynced(block, ancestors) =>
      Chain(Insert(s.view, block, None).(canonical := Synced(s.view.canonical, block, ancestors)),
            block.ToNumHash(), HashOf(block))
    case FinalizedPruned(finalized) =>
      var moved := finalized in s.view.blocks && s.root.HashOf? &&
                   s.root.header.number <= s.view.blocks[finalized].number;
      s.(view := Prune(s.view, finalized), root := if moved then finalized else s.root)
  }

  ghost function After(s: Chain, events: seq<ChainEvent>): Chain
  {
    if events == [] then s else Next(After(s, events[..|events| - 1]), events[|events| - 1])
  }

  ghost predicate IsRun(s: Chain, events: seq<ChainEvent>)
  {
    events == [] ||
    (IsRun(s, events[..|events| - 1]) && Enabled(After(s, events[..|events| - 1]), events[|events| - 1]))
  }

  /** Every sync met the consensus-layer condition when it happened. */
  ghost predicate SyncsOk(s: Chain, events: seq<ChainEvent>)
  {
    events == [] ||
    (SyncsOk(s, events[..|events| - 1]) && SyncOk(After(s, events[..|events| - 1]), events[|events| - 1]))
  }

  lemma OneMore(s: Chain, events: seq<ChainEvent>, e: ChainEvent)
    ensures After(s, events + [e]) == Next(After(s, events), e)
    ensures IsRun(s, events + [e]) <==> IsRun(s, events) && Enabled(After(s, events), e)
    ensures SyncsOk(s, events + [e]) <==> SyncsOk(s, events) && SyncOk(After(s, events), e)
  {
    assert (events + [e])[..|events|] == events;
  }

  // ---------- soundness ----------

  lemma StepStaysSound(s: Chain, e: ChainEvent)
    requires Sound(s.view, s.head) && Enabled(s, e)
    ensures Sound(Next(s, e).view, Next(s, e).head)
  {
    match e
    case BlockExecuted(block, wit) =>
      InsertCoherent(s.view, block, Some(wit));
      assert Numbered(HashOf(block));
    case HeadRequested(target, update) =>
      assert Numbered(target);
      AppliedIndex(s.view.blocks, s.view.canonical, s.head.hash, target, update);
      assert Coherent(Next(s, e).view);
    case FinalizedSynced(block, ancestors) =>
      InsertCoherent(s.view, block, None);
      SyncSoundIff(s.view.canonical, block, ancestors);
    case FinalizedPruned(finalized) =>
      PruneSound(s.view, s.head, finalized);
  }

  /** Canonical index soundness: it holds after every run from genesis. */
  lemma {:induction false} RunsStaySound(genesis: Header, events: seq<ChainEvent>)
    requires IsGenesis(genesis) && IsRun(Start(genesis), events)
    ensures Sound(After(Start(genesis), events).view, After(Start(genesis), events).head)
  {
    if events != [] {
      var before := events[..|events| - 1];
      RunsStaySound(genesis, before);
      StepStaysSound(After(Start(genesis), before), events[|events| - 1]);
    }
  }

  // ---------- completeness ----------

  /** The root hangs off the head's chain by a path held in memory. */
  ghost predicate Hangs(blocks: map<Hash, Header>, root: Hash, head: Hash)
  {
    exists c :: InMemory(blocks, root, c) && AncestorOrSelf(c, head)
  }

  /**
   Finality is anchored: the root is in memory and hangs off the head's chain, the index has no
   gap from the root's window up to the head, and blocks above the root have their parents in
   memory. The head itself may be anywhere, even on a chain that leaves the root out.
   */
  ghost predicate Anchored(s: Chain)
  {
    && s.root in s.view.blocks && s.root.HashOf? && Hangs(s.view.blocks, s.root, s.head.hash)
    && (forall n: nat :: WindowStart(s.root.header.number) <= n <= s.head.number ==> n in s.view.canonical)
    && (forall h :: h in s.view.blocks && h.HashOf? && h.header.number > s.root.header.number ==>
                      h.header.parent in s.view.blocks)
  }

  /** Going down a path in memory to a block of the head's chain finds everything the index then continues with. */
  lemma {:induction false} PathFound(v: ChainView, head: NumHash, at: NumHash, c: Hash, n: nat)
    requires Sound(v, head) && Numbered(at.hash) && at.number == at.hash.header.number && n <= at.number
    requires InMemory(v.blocks, at.hash, c) && AncestorOrSelf(c, head.hash)
    requires forall m: nat :: n <= m <= head.number ==> m in v.canonical
    ensures Lookup(v, at, n) == AncestorAt(at.hash, n) && Lookup(v, at, n).Some?
    decreases at.hash
  {
    if at.hash == c {
      AncestorOrSelfIsAncestorAt(c, head.hash);
      CanonicalFound(v, head, at, n);
    } else if at.number != n {
      PathFound(v, head, at.hash.header.ParentNumHash(), c, n);
    }
  }

  lemma {:induction false} LookupFinds(s: Chain, at: NumHash, n: nat)
    requires Sound(s.view, s.head) && Anchored(s)
    requires at.hash in s.view.blocks && at.number == at.hash.header.number
    requires AncestorAt(at.hash, s.root.header.number) == Some(s.root)
    requires WindowStart(s.root.header.number) <= n <= at.number
    ensures Lookup(s.view, at, n) == AncestorAt(at.hash, n) && Lookup(s.view, at, n).Some?
    decreases at.hash
  {
    AncestorAtSpec(at.hash, s.root.header.number);
    if at.number == s.root.header.number {
      var c :| InMemory(s.view.blocks, s.root, c) && AncestorOrSelf(c, s.head.hash);
      PathFound(s.view, s.head, at, c, n);
    } else if at.number != n {
      LookupFinds(s, at.hash.header.ParentNumHash(), n);
    }
  }

  /** Each of the last 256 ancestors a BLOCKHASH can ask for is found, for every descendant of the root in memory. */
  lemma RecentAncestorsFound(s: Chain, parent: Hash, n: nat)
    requires Sound(s.view, s.head) && Anchored(s)
    requires parent in s.view.blocks && AncestorOrSelf(s.root, parent)
    requires n <= parent.header.number < n + 256
    ensures Lookup(s.view, parent.header.ToNumHash(), n) == AncestorAt(parent, n)
    ensures Lookup(s.view, parent.header.ToNumHash(), n).Some?
  {
    AncestorOrSelfIsAncestorAt(s.root, parent);
    LookupFinds(s, parent.header.ToNumHash(), n);
  }

  // ---------- anchoring over runs ----------

  /** Every block above the given one has its parent in memory, or is its child. */
  ghost predicate NoOrphanAbove(blocks: map<Hash, Header>, block: Header)
  {
    forall h :: h in blocks && h.HashOf? && h.header.number > block.number ==>
                  h.header.parent in blocks || h.header.parent == HashOf(block)
  }

  /** The finalized block is not below the root, or its parent lies on the root's own ancestry. */
  ghost predicate NotBehind(root: Hash, finalized: Hash)
  {
    && root.HashOf? && finalized.HashOf?
    && (root.header.number <= finalized.header.number || AncestorOrSelf(finalized.header.parent, root))
  }

  /** When finality keeps the chain anchored; heads and executed blocks always do. */
  ghost predicate FinalityOk(s: Chain, e: ChainEvent)
  {
    match e
    case FinalizedSynced(block, _) => NoOrphanAbove(s.view.blocks, block)
    case FinalizedPruned(finalized) => finalized in s.view.blocks ==> NotBehind(s.root, finalized)
    case _ => true
  }

  ghost predicate IsFinalRun(s: Chain, events: seq<ChainEvent>)
  {
    events == [] ||
    (IsFinalRun(s, events[..|events| - 1]) && FinalityOk(After(s, events[..|events| - 1]), events[|events| - 1]))
  }

  lemma {:induction false} InMemoryJoins(blocks: map<Hash, Header>, a: Hash, b: Hash, c: Hash)
    requires InMemory(blocks, a, b) && InMemory(blocks, b, c)
    ensures InMemory(blocks, a, c)
  {
    if a != b {
      InMemoryJoins(blocks, a.header.parent, b, c);
    }
  }

  lemma {:induction false} RisingInMemory(blocks: map<Hash, Header>, s: seq<Header>, base: Hash, tip: Hash)
    requires Rising(s, base, tip) && Held(blocks, s)
    ensures InMemory(blocks, tip, base)
    decreases |s|
  {
    if |s| > 0 {
      var rest, last := s[..|s| - 1], s[|s| - 1];
      assert last in s && forall x :: x in rest ==> x in s;
      RisingInMemory(blocks, rest, base, last.parent);
    }
  }

  /** Whatever head an update moves to, the root still hangs off its chain. */
  lemma HangsAfterUpdate(blocks: map<Hash, Header>, root: Hash, head: Hash, target: Hash, update: NewCanonicalChain)
    requires Hangs(blocks, root, head) && IsUpdate(blocks, head, target, Some(update))
    ensures Hangs(blocks, root, target)
  {
    var c :| InMemory(blocks, root, c) && AncestorOrSelf(c, head);
    var base := UpdateBase(update);
    RisingMembers(update.added, base, target);
    RisingMembers(update.Removed(), base, head);
    if Depth(c) <= Depth(base) {
      AncestorsComparable(c, base, head);
      AncestorTransitive(c, base, target);
    } else {
      RisingInMemory(blocks, update.Removed(), base, head);
      InMemorySuffix(blocks, head, c, base);
      InMemoryJoins(blocks, root, c, base);
    }
  }

  lemma HeadStaysAnchored(s: Chain, e: ChainEvent)
    requires Sound(s.view, s.head) && Anchored(s) && e.HeadRequested? && Enabled(s, e)
    ensures Anchored(Next(s, e))
  {
    assert Numbered(e.target);
    AppliedIndex(s.view.blocks, s.view.canonical, s.head.hash, e.target, e.update);
    HangsAfterUpdate(s.view.blocks, s.root, s.head.hash, e.target, e.update);
    var base := UpdateBase(e.update);
    RisingMembers(e.update.Removed(), base, s.head.hash);
    AncestorDepth(base, s.head.hash);
    DepthOfNumbered(s.head.hash);
    var start, s' := WindowStart(s.root.header.number), Next(s, e);
    forall n: nat | start <= n <= s'.head.number
      ensures n in s'.view.canonical
    {
      assert n < Depth(base) ==> n <= s.head.number;
    }
  }

  /** A sync anchors its block exactly if no block above it is left without its parent. */
  lemma SyncAnchorsIff(s: Chain, e: ChainEvent)
    requires Sound(s.view, s.head) && e.FinalizedSynced? && Enabled(s, e)
    ensures Anchored(Next(s, e)) <==> NoOrphanAbove(s.view.blocks, e.block)
  {
    FallingCovers(e.block, e.ancestors);
    forall n: nat | WindowStart(e.block.number) <= n <= e.block.number
      ensures n in Next(s, e).view.canonical
    {
      SyncedIndex(s.view.canonical, e.block, e.ancestors, n);
    }
    assert InMemory(Next(s, e).view.blocks, HashOf(e.block), HashOf(e.block));
  }

  /** Pruning keeps every path whose blocks lie at or above the finalized height. */
  lemma {:induction false} HighPathSurvives(v: ChainView, finalized: Hash, h: Hash, c: Hash)
    requires Coherent(v) && (forall x :: x in v.blocks ==> Numbered(x)) && finalized in v.blocks
    requires InMemory(v.blocks, h, c) && Depth(finalized) <= Depth(c) + 1
    ensures InMemory(Prune(v, finalized).blocks, h, c)
  {
    if h != c {
      DepthOfNumbered(h);
      DepthOfNumbered(finalized);
      InMemoryIsAncestor(v.blocks, h.header.parent, c);
      AncestorDepth(c, h.header.parent);
      HighPathSurvives(v, finalized, h.header.parent, c);
    }
  }

  /** After a prune at a block whose parent is on the root's ancestry, the root still hangs off the head's chain. */
  lemma HangsAfterPrune(s: Chain, finalized: Hash)
    requires Sound(s.view, s.head) && Anchored(s) && IsCanonical(s.view.canonical, finalized)
    requires finalized in s.view.blocks && AncestorOrSelf(finalized.header.parent, s.root)
    ensures Hangs(Prune(s.view, finalized).blocks, s.root, s.head.hash)
  {
    var c :| InMemory(s.view.blocks, s.root, c) && AncestorOrSelf(c, s.head.hash);
    var base := finalized.header.parent;
    CanonicalAncestor(s, finalized);
    assert AncestorOrSelf(base, finalized);
    AncestorTransitive(base, finalized, s.head.hash);
    if Depth(c) <= Depth(base) {
      InMemoryPrefix(s.view.blocks, s.root, base, c);
      HighPathSurvives(s.view, finalized, s.root, base);
    } else {
      HighPathSurvives(s.view, finalized, s.root, c);
    }
  }

  lemma CanonicalAncestor(s: Chain, finalized: Hash)
    requires Sound(s.view, s.head) && IsCanonical(s.view.canonical, finalized) && finalized in s.view.blocks
    ensures finalized.HashOf? && Numbered(finalized) && AncestorOrSelf(finalized, s.head.hash)
  {
    CanonicalBlock(s.view, s.head, finalized);
    AncestorAtSpec(s.head.hash, finalized.header.number);
  }

  /** A path that survived a prune ends no lower than just below the finalized height. */
  lemma {:induction false} SurvivorsAreHigh(v: ChainView, finalized: Hash, h: Hash, c: Hash)
    requires Coherent(v) && (forall x :: x in v.blocks ==> Numbered(x)) && finalized in v.blocks
    requires InMemory(Prune(v, finalized).blocks, h, c) && h != c
    ensures Depth(finalized) <= Depth(c) + 1 && AncestorOrSelf(c, h)
  {
    DepthOfNumbered(h);
    DepthOfNumbered(finalized);
    if h.header.parent != c {
      SurvivorsAreHigh(v, finalized, h.header.parent, c);
    }
  }

  /** If the root hangs after a prune below it, the finalized block's parent is on the root's ancestry. */
  lemma HangingIsNotBehind(s: Chain, finalized: Hash)
    requires Sound(s.view, s.head) && s.root in s.view.blocks && IsCanonical(s.view.canonical, finalized)
    requires finalized in s.view.blocks && finalized.header.number < s.root.header.number
    requires Hangs(Prune(s.view, finalized).blocks, s.root, s.head.hash)
    ensures AncestorOrSelf(finalized.header.parent, s.root)
  {
    var c :| InMemory(Prune(s.view, finalized).blocks, s.root, c) && AncestorOrSelf(c, s.head.hash);
    var base := finalized.header.parent;
    CanonicalAncestor(s, finalized);
    assert AncestorOrSelf(base, finalized);
    AncestorTransitive(base, finalized, s.head.hash);
    if s.root == c {
      DepthOfNumbered(s.root);
      DepthOfNumbered(finalized);
    } else {
      SurvivorsAreHigh(s.view, finalized, s.root, c);
    }
    AncestorsComparable(base, c, s.head.hash);
    AncestorTransitive(base, c, s.root);
  }

  lemma {:induction false} InMemoryPrefix(blocks: map<Hash, Header>, h: Hash, m: Hash, c: Hash)
    requires InMemory(blocks, h, c) && AncestorOrSelf(m, h) && Depth(c) <= Depth(m)
    ensures InMemory(blocks, h, m)
  {
    if h != m {
      AncestorDepth(m, h.header.parent);
      InMemoryPrefix(blocks, h.header.parent, m, c);
    }
  }

  lemma PruneStaysAnchored(s: Chain, e: ChainEvent)
    requires Sound(s.view, s.head) && Anchored(s) && e.FinalizedPruned? && Enabled(s, e) && FinalityOk(s, e)
    ensures Anchored(Next(s, e))
  {
    var f, s' := e.finalized, Next(s, e);
    if f in s.view.blocks {
      CanonicalBlock(s.view, s.head, f);
      CanonicalAncestor(s, f);
      if s'.root == f {
        assert InMemory(s'.view.blocks, f, f);
      } else {
        HangsAfterPrune(s, f);
      }
      assert s'.root in s'.view.blocks;
      forall n: nat | WindowStart(s'.root.header.number) <= n <= s.head.number
        ensures n in s'.view.canonical
      {
        assert n in s.view.canonical;
      }
      forall h | h in s'.view.blocks && h.header.number > s'.root.header.number
        ensures h.header.parent in s'.view.blocks
      {
        assert Numbered(h) && h.header.parent in s.view.blocks;
      }
    }
  }

  /** A prune keeps the chain anchored exactly if it does not fall behind the root. */
  lemma PruneAnchoredIff(s: Chain, e: ChainEvent)
    requires Sound(s.view, s.head) && Anchored(s) && e.FinalizedPruned? && Enabled(s, e)
    ensures Anchored(Next(s, e)) <==> FinalityOk(s, e)
  {
    if FinalityOk(s, e) {
      PruneStaysAnchored(s, e);
    } else if Anchored(Next(s, e)) {
      HangingIsNotBehind(s, e.finalized);
    }
  }

  /** Every event keeps the chain anchored exactly under its condition. */
  lemma StepAnchoredIff(s: Chain, e: ChainEvent)
    requires Sound(s.view, s.head) && Anchored(s) && Enabled(s, e)
    ensures Anchored(Next(s, e)) <==> FinalityOk(s, e)
  {
    match e
    case BlockExecuted(block, wit) => HangsAfterInsert(s, block, wit);
    case HeadRequested(_, _) => HeadStaysAnchored(s, e);
    case FinalizedSynced(_, _) => SyncAnchorsIff(s, e);
    case FinalizedPruned(_) => PruneAnchoredIff(s, e);
  }

  lemma HangsAfterInsert(s: Chain, block: Header, wit: Witness)
    requires Hangs(s.view.blocks, s.root, s.head.hash)
    ensures Hangs(Insert(s.view, block, Some(wit)).blocks, s.root, s.head.hash)
  {
    var c :| InMemory(s.view.blocks, s.root, c) && AncestorOrSelf(c, s.head.hash);
    InMemoryGrows(s.view.blocks, Insert(s.view, block, Some(wit)).blocks, s.root, c);
  }

  lemma {:induction false} InMemoryGrows(blocks: map<Hash, Header>, more: map<Hash, Header>, h: Hash, c: Hash)
    requires InMemory(blocks, h, c) && blocks.Keys <= more.Keys
    ensures InMemory(more, h, c)
  {
    if h != c {
      InMemoryGrows(blocks, more, h.header.parent, c);
    }
  }

  lemma StartAnchored(genesis: Header)
    requires IsGenesis(genesis)
    ensures Sound(Start(genesis).view, Start(genesis).head) && Anchored(Start(genesis))
  {
    var s := Start(genesis);
    assert InMemory(s.view.blocks, s.root, s.root);
  }

  /** After every run in which finality keeps to its condition, wherever the head has moved, the root is anchored. */
  lemma {:induction false} RunsStayAnchored(genesis: Header, events: seq<ChainEvent>)
    requires IsGenesis(genesis) && IsRun(Start(genesis), events) && IsFinalRun(Start(genesis), events)
    ensures Anchored(After(Start(genesis), events))
  {
    if events == [] {
      StartAnchored(genesis);
    } else {
      var before := events[..|events| - 1];
      RunsStaySound(genesis, before);
      RunsStayAnchored(genesis, before);
      StepAnchoredIff(After(Start(genesis), before), events[|events| - 1]);
    }
  }

  ghost predicate AnchoredThroughout(s: Chain, events: seq<ChainEvent>)
  {
    Anchored(After(s, events)) && (events == [] || AnchoredThroughout(s, events[..|events| - 1]))
  }

  /** The chain is anchored all along a run exactly if finality keeps to its condition all along. */
  lemma {:induction false} AnchoredThroughoutIff(genesis: Header, events: seq<ChainEvent>)
    requires IsGenesis(genesis) && IsRun(Start(genesis), events)
    ensures AnchoredThroughout(Start(genesis), events) <==> IsFinalRun(Start(genesis), events)
  {
    if events == [] {
      StartAnchored(genesis);
    } else {
      var before := events[..|events| - 1];
      AnchoredThroughoutIff(genesis, before);
      if IsFinalRun(Start(genesis), before) {
        RunsStaySound(genesis, before);
        RunsStayAnchored(genesis, before);
        StepAnchoredIff(After(Start(genesis), before), events[|events| - 1]);
      }
    }
  }

  // ---------- every run from genesis ----------

  /** After every run, each canonical entry is the head's true ancestor and any lookup answer the queried block's. */
  lemma EveryRunIsSound(genesis: Header, events: seq<ChainEvent>, at: NumHash, n: nat)
    requires IsGenesis(genesis) && IsRun(Start(genesis), events)
    requires Numbered(at.hash) && at.number == at.hash.header.number
    ensures var s := After(Start(genesis), events);
            && IndexSound(s.view.canonical, s.head.hash)
            && (n in s.view.canonical ==> n <= s.head.number)
            && (Lookup(s.view, at, n).Some? ==> Lookup(s.view, at, n) == AncestorAt(at.hash, n))
  {
    var s := After(Start(genesis), events);
    RunsStaySound(genesis, events);
    LookupSound(s.view, s.head, at, n);
    AncestorAtSpec(s.head.hash, n);
  }

  /** Every in-memory descendant of the root finds each of its last 256 ancestors. */
  ghost predicate Complete(s: Chain)
  {
    forall parent, n: nat ::
      parent in s.view.blocks && parent.HashOf? && AncestorOrSelf(s.root, parent) &&
      n <= parent.header.number < n + 256 ==>
        && Lookup(s.view, parent.header.ToNumHash(), n) == AncestorAt(parent, n)
        && AncestorAt(parent, n).Some?
  }

  /** Pruning at any canonical block that is not below the root changes no lookup in that block's window. */
  ghost predicate PrunesCleanly(s: Chain)
  {
    s.root.HashOf? ==>
      forall f :: f in s.view.blocks && f.HashOf? && IsCanonical(s.view.canonical, f) ==>
                    s.root.header.number <= f.header.number ==> Transparent(s.view, f)
  }

  /** Finality that does not go back below the root finds no gap in the index below it. */
  lemma AnchoredHasNoGap(s: Chain, finalized: Hash)
    requires Sound(s.view, s.head) && Anchored(s) && IsCanonical(s.view.canonical, finalized)
    requires finalized in s.view.blocks && s.root.header.number <= finalized.header.number
    ensures NoGap(s.view.canonical, finalized.header.number)
  {
    CanonicalBlock(s.view, s.head, finalized);
  }

  lemma AnchoredIsComplete(s: Chain)
    requires Sound(s.view, s.head) && Anchored(s)
    ensures Complete(s) && PrunesCleanly(s)
  {
    forall parent, n: nat | parent in s.view.blocks && parent.HashOf? && AncestorOrSelf(s.root, parent) &&
                            n <= parent.header.number < n + 256
      ensures Lookup(s.view, parent.header.ToNumHash(), n) == AncestorAt(parent, n) && AncestorAt(parent, n).Some?
    {
      RecentAncestorsFound(s, parent, n);
    }
    forall f | f in s.view.blocks && f.HashOf? && IsCanonical(s.view.canonical, f) &&
               s.root.header.number <= f.header.number
      ensures Transparent(s.view, f)
    {
      AnchoredHasNoGap(s, f);
      forall at: NumHash, m: nat | Descends(f, at) && WindowStart(f.header.number) <= m
        ensures Lookup(Prune(s.view, f), at, m) == Lookup(s.view, at, m)
      {
        PruneTransparent(s.view, s.head, f, at, m);
      }
    }
  }

  /**
   After every run in which finality keeps to its condition, block-hash lookups from the root's
   descendants in memory are complete, and pruning at a later canonical block changes none.
   */
  lemma EveryFinalRunIsComplete(genesis: Header, events: seq<ChainEvent>)
    requires IsGenesis(genesis) && IsRun(Start(genesis), events) && IsFinalRun(Start(genesis), events)
    ensures var s := After(Start(genesis), events);
            s.root in s.view.blocks && Complete(s) && PrunesCleanly(s)
  {
    RunsStaySound(genesis, events);
    RunsStayAnchored(genesis, events);
    AnchoredIsComplete(After(Start(genesis), events));
  }

  // ---------- exactly which lookups a finality event costs ----------

  /** Below a prune that fell behind the root, lookups from the root's ancestry end in nothing. */
  lemma {:induction false} LostBelow(s: Chain, finalized: Hash, at: NumHash)
    requires Sound(s.view, s.head) && IsCanonical(s.view.canonical, finalized) && finalized in s.view.blocks
    requires finalized.header.number > 0 && Numbered(at.hash) && at.number == at.hash.header.number
    requires finalized.header.number <= at.number + 1 && !AncestorOrSelf(finalized.header.parent, at.hash)
    ensures Lookup(Prune(s.view, finalized), at, finalized.header.number - 1) == None
    decreases at.hash
  {
    CanonicalAncestor(s, finalized);
    var w, base := Prune(s.view, finalized), finalized.header.parent;
    if at.hash in w.blocks {
      LostBelow(s, finalized, at.hash.header.ParentNumHash());
    } else if at.number in w.canonical && w.canonical[at.number] == at.hash {
      AncestorAtSpec(s.head.hash, at.number);
      assert AncestorOrSelf(base, finalized);
      AncestorTransitive(base, finalized, s.head.hash);
      DepthOfNumbered(base);
      DepthOfNumbered(at.hash);
      AncestorsComparable(base, at.hash, s.head.hash);
    }
  }

  /** Going down in memory finds every height the path reaches. */
  lemma {:induction false} WalkFound(v: ChainView, at: Hash, c: Hash, n: nat)
    requires Numbered(at) && InMemory(v.blocks, at, c) && Depth(c) <= n <= at.header.number
    ensures Lookup(v, at.header.ToNumHash(), n).Some?
  {
    DepthOfNumbered(at);
    if at.header.number != n {
      InMemoryIsAncestor(v.blocks, at, c);
      WalkFound(v, at.header.parent, c, n);
    }
  }

  /** From a descendant of the root, down to the root, in memory. */
  lemma {:induction false} PathToRoot(s: Chain, h: Hash)
    requires Sound(s.view, s.head) && Anchored(s) && h in s.view.blocks && AncestorOrSelf(s.root, h)
    ensures InMemory(s.view.blocks, h, s.root)
  {
    if h != s.root {
      AncestorOrSelfIsAncestorAt(s.root, h.header.parent);
      PathToRoot(s, h.header.parent);
    }
  }

  /** Far enough above the finalized height, a prune that fell behind the root costs nothing. */
  lemma FarPruneStaysComplete(s: Chain, finalized: Hash)
    requires Sound(s.view, s.head) && Anchored(s) && Enabled(s, FinalizedPruned(finalized))
    requires finalized in s.view.blocks && !NotBehind(s.root, finalized)
    requires s.root.header.number > finalized.header.number + 254
    ensures Complete(Next(s, FinalizedPruned(finalized)))
  {
    var s' := Next(s, FinalizedPruned(finalized));
    PruneSound(s.view, s.head, finalized);
    forall parent, n: nat | parent in s'.view.blocks && parent.HashOf? && AncestorOrSelf(s'.root, parent) &&
                            n <= parent.header.number < n + 256
      ensures Lookup(s'.view, parent.header.ToNumHash(), n) == AncestorAt(parent, n) && AncestorAt(parent, n).Some?
    {
      AncestorOrSelfIsAncestorAt(s.root, parent);
      FarFound(s, finalized, parent, n);
      LookupSound(s'.view, s'.head, parent.header.ToNumHash(), n);
    }
  }

  /** Where the root's path meets the head's chain, if the finalized block's parent is not on the root's ancestry. */
  lemma MeetsLow(s: Chain, finalized: Hash) returns (c: Hash)
    requires Sound(s.view, s.head) && Anchored(s) && IsCanonical(s.view.canonical, finalized)
    requires finalized in s.view.blocks && !AncestorOrSelf(finalized.header.parent, s.root)
    ensures InMemory(s.view.blocks, s.root, c) && Depth(c) < Depth(finalized)
  {
    c :| InMemory(s.view.blocks, s.root, c) && AncestorOrSelf(c, s.head.hash);
    var base := finalized.header.parent;
    CanonicalAncestor(s, finalized);
    assert AncestorOrSelf(base, finalized);
    AncestorTransitive(base, finalized, s.head.hash);
    InMemoryIsAncestor(s.view.blocks, s.root, c);
    if Depth(c) > Depth(base) {
      AncestorsComparable(base, c, s.head.hash);
      AncestorTransitive(base, c, s.root);
    }
  }

  lemma FarFound(s: Chain, finalized: Hash, parent: Hash, n: nat)
    requires Sound(s.view, s.head) && Anchored(s) && IsCanonical(s.view.canonical, finalized)
    requires finalized in s.view.blocks && !AncestorOrSelf(finalized.header.parent, s.root)
    requires parent in s.view.blocks && AncestorOrSelf(s.root, parent)
    requires finalized.header.number <= n <= parent.header.number
    ensures Lookup(Prune(s.view, finalized), parent.header.ToNumHash(), n).Some?
  {
    var c := MeetsLow(s, finalized);
    AncestorAtSpec(parent, n);
    var at := AncestorAt(parent, n).value;
    var below := at.header.parent;
    PathToRoot(s, parent);
    InMemoryJoins(s.view.blocks, parent, s.root, c);
    DepthOfNumbered(finalized);
    DepthOfNumbered(at);
    assert AncestorOrSelf(below, at);
    AncestorTransitive(below, at, parent);
    InMemoryPrefix(s.view.blocks, parent, below, c);
    HighPathSurvives(s.view, finalized, parent, below);
    WalkFound(Prune(s.view, finalized), parent, below, n);
  }

  /**
   A prune leaves lookups from the root's descendants complete exactly if it does not fall behind
   the root, or falls so far behind that the root's last 256 ancestors are all above it.
   */
  lemma PruneCompleteIff(s: Chain, finalized: Hash)
    requires Sound(s.view, s.head) && Anchored(s) && Enabled(s, FinalizedPruned(finalized))
    requires finalized in s.view.blocks && finalized.HashOf?
    ensures Complete(Next(s, FinalizedPruned(finalized))) <==>
            NotBehind(s.root, finalized) || s.root.header.number > finalized.header.number + 254
  {
    var e, s' := FinalizedPruned(finalized), Next(s, FinalizedPruned(finalized));
    if NotBehind(s.root, finalized) {
      PruneStaysAnchored(s, e);
      StepStaysSound(s, e);
      AnchoredIsComplete(s');
    } else if s.root.header.number > finalized.header.number + 254 {
      FarPruneStaysComplete(s, finalized);
    } else {
      CanonicalAncestor(s, finalized);
      assert finalized.header.number > 0 by {
        if finalized.header.number == 0 { GenesisBelow(s.root); }
      }
      LostBelow(s, finalized, s.root.header.ToNumHash());
      assert s'.root == s.root && s.root in s'.view.blocks && AncestorOrSelf(s.root, s.root);
      assert !(Lookup(s'.view, s.root.header.ToNumHash(), finalized.header.number - 1).Some?);
    }
  }

  lemma {:induction false} GenesisBelow(h: Hash)
    requires Numbered(h)
    ensures AncestorOrSelf(ZERO, h)
  {
    if h.header.number > 0 {
      GenesisBelow(h.header.parent);
    }
  }

  /** Every strict descendant of the block in memory has its parent in memory, or is the block's child. */
  ghost predicate NoOrphanDescendant(blocks: map<Hash, Header>, block: Header)
  {
    forall h :: h in blocks && h.HashOf? && h != HashOf(block) && AncestorOrSelf(HashOf(block), h) ==>
                  h.header.parent in blocks || h.header.parent == HashOf(block)
  }

  lemma {:induction false} PathToSynced(blocks: map<Hash, Header>, block: Header, h: Hash)
    requires NoOrphanDescendant(blocks, block) && AncestorOrSelf(HashOf(block), h)
    requires h in blocks || h == HashOf(block)
    ensures InMemory(blocks, h, HashOf(block))
  {
    if h != HashOf(block) {
      PathToSynced(blocks, block, h.header.parent);
    }
  }

  /** A sync leaves lookups from its block's descendants complete exactly if none of them is left without its parent. */
  lemma SyncCompleteIff(s: Chain, e: ChainEvent)
    requires Sound(s.view, s.head) && e.FinalizedSynced? && Enabled(s, e)
    ensures Complete(Next(s, e)) <==> NoOrphanDescendant(s.view.blocks, e.block)
  {
    var s', root := Next(s, e), HashOf(e.block);
    StepStaysSound(s, e);
    FallingCovers(e.block, e.ancestors);
    if NoOrphanDescendant(s.view.blocks, e.block) {
      forall parent, n: nat | parent in s'.view.blocks && parent.HashOf? && AncestorOrSelf(s'.root, parent) &&
                              n <= parent.header.number < n + 256
        ensures Lookup(s'.view, parent.header.ToNumHash(), n) == AncestorAt(parent, n) && AncestorAt(parent, n).Some?
      {
        SyncFinds(s, e, parent, n);
      }
    } else {
      var h :| h in s.view.blocks && h.HashOf? && h != root && AncestorOrSelf(root, h) &&
               h.header.parent !in s.view.blocks && h.header.parent != root;
      OrphanLoses(s', h);
    }
  }

  lemma SyncFinds(s: Chain, e: ChainEvent, parent: Hash, n: nat)
    requires Sound(s.view, s.head) && e.FinalizedSynced? && Enabled(s, e) && NoOrphanDescendant(s.view.blocks, e.block)
    requires parent in Next(s, e).view.blocks && AncestorOrSelf(HashOf(e.block), parent)
    requires Sound(Next(s, e).view, Next(s, e).head) && n <= parent.header.number < n + 256
    ensures Lookup(Next(s, e).view, parent.header.ToNumHash(), n) == AncestorAt(parent, n)
    ensures AncestorAt(parent, n).Some?
  {
    var s', root := Next(s, e), HashOf(e.block);
    PathToSynced(s.view.blocks, e.block, parent);
    InMemoryGrows(s.view.blocks, s'.view.blocks, parent, root);
    AncestorOrSelfIsAncestorAt(root, parent);
    forall m: nat | n <= m <= s'.head.number
      ensures m in s'.view.canonical
    {
      SyncedIndex(s.view.canonical, e.block, e.ancestors, m);
    }
    PathFound(s'.view, s'.head, parent.header.ToNumHash(), root, n);
  }

  /** A block above the head whose parent is not in memory does not find that parent. */
  lemma OrphanLoses(s: Chain, h: Hash)
    requires Sound(s.view, s.head) && s.root == s.head.hash && h in s.view.blocks && AncestorOrSelf(s.root, h)
    requires h != s.root && h.header.parent !in s.view.blocks && h.header.parent != s.root
    ensures !Complete(s)
  {
    var above := h.header.parent;
    AncestorOrSelfIsAncestorAt(s.root, h);
    AncestorOrSelfIsAncestorAt(s.root, above);
    AncestorDepth(s.root, above);
    DepthOfNumbered(s.root);
    DepthOfNumbered(above);
    AncestorAtSpec(s.head.hash, above.header.number);
    assert above.header.number !in s.view.canonical;
    assert Lookup(s.view, above.header.ToNumHash(), above.header.number) == None;
    assert Lookup(s.view, h.header.ToNumHash(), above.header.number) == None;
  }
  /** When an event leaves lookups from the root's descendants complete. */
  ghost predicate LookupsOk(s: Chain, e: ChainEvent)
  {
    match e
    case FinalizedSynced(block, _) => NoOrphanDescendant(s.view.blocks, block)
    case FinalizedPruned(finalized) =>
      finalized in s.view.blocks && finalized.HashOf? && s.root.HashOf? ==>
        NotBehind(s.root, finalized) || s.root.header.number > finalized.header.number + 254
    case _ => true
  }

  lemma StepCompleteIff(s: Chain, e: ChainEvent)
    requires Sound(s.view, s.head) && Anchored(s) && Enabled(s, e)
    ensures Complete(Next(s, e)) <==> LookupsOk(s, e)
  {
    if e.FinalizedSynced? {
      SyncCompleteIff(s, e);
    } else if e.FinalizedPruned? && e.finalized in s.view.blocks {
      CanonicalAncestor(s, e.finalized);
      PruneCompleteIff(s, e.finalized);
    } else {
      StepStaysSound(s, e);
      StepAnchoredIff(s, e);
      AnchoredIsComplete(Next(s, e));
    }
  }

  /**
   After a run in which finality kept to its condition, the next event, whatever it is, leaves
   block-hash lookups complete exactly under its own condition.
   */
  lemma NextEventIsCompleteIff(genesis: Header, events: seq<ChainEvent>, e: ChainEvent)
    requires IsGenesis(genesis) && IsRun(Start(genesis), events + [e]) && IsFinalRun(Start(genesis), events)
    ensures Complete(After(Start(genesis), events + [e])) <==> LookupsOk(After(Start(genesis), events), e)
  {
    OneMore(Start(genesis), events, e);
    RunsStaySound(genesis, events);
    RunsStayAnchored(genesis, events);
    StepCompleteIff(After(Start(genesis), events), e);
  }
}
