/**
 Runs of the chain that show what goes wrong when syncs or finality break their conditions.
 */
module ChainExamples {
  import opened Blocks
  import opened ChainStates
  import opened ChainSwitch
  import opened CanonicalIndex
  import opened ChainRuns

  const GENESIS := Header(ZERO, 0, false, 0)

  /** Straight chains of blocks, one per height, on a common genesis block. */
  ghost function Line(side: nat, n: nat): Header
  {
    if n == 0 then GENESIS else Header(HashOf(Line(side, n - 1)), n, false, side)
  }

  /** The 256 headers of a line that a sync fetches below height `m`. */
  ghost function Below(side: nat, m: nat): seq<Header>
  {
    seq(BLOCK_HASH_WINDOW, i requires 0 <= i => Line(side, if i < m then m - 1 - i else 0))
  }

  /** The headers of the line above height `from`, up to height `to`. */
  ghost function Up(from: nat, to: nat): seq<Header>
    requires from <= to
  {
    seq(to - from, i requires 0 <= i < to - from => Line(0, from + 1 + i))
  }

  const NO_CODES := Witness({}, 0)

  /** Executing the line up to height `n`. */
  ghost function Execute(n: nat): seq<ChainEvent>
  {
    if n == 0 then [] else Execute(n - 1) + [BlockExecuted(Line(0, n), NO_CODES)]
  }

  lemma {:induction false} LineAncestor(side: nat, i: nat, n: nat)
    requires i <= n
    ensures Line(side, n).number == n && Numbered(HashOf(Line(side, n)))
    ensures AncestorOrSelf(HashOf(Line(side, i)), HashOf(Line(side, n)))
    ensures AncestorAt(HashOf(Line(side, n)), i) == Some(HashOf(Line(side, i)))
    decreases n
  {
    if i < n {
      LineAncestor(side, i, n - 1);
    } else if n > 0 {
      LineAncestor(side, n - 1, n - 1);
    }
  }

  lemma BelowFalls(side: nat, m: nat)
    requires m > BLOCK_HASH_WINDOW
    ensures |Below(side, m)| == BLOCK_HASH_WINDOW
    ensures Falling(Below(side, m), HashOf(Line(side, m - 1)), HashOf(Line(side, m - 1 - BLOCK_HASH_WINDOW)))
  {
    var s := Below(side, m);
    forall i | 0 < i < |s|
      ensures s[i - 1].parent == HashOf(s[i])
    {
      assert s[i - 1] == Line(side, m - i);
    }
    assert s[|s| - 1] == Line(side, m - |s|);
  }

  lemma UpRises(from: nat, to: nat)
    requires from <= to
    ensures Rising(Up(from, to), HashOf(Line(0, from)), HashOf(Line(0, to)))
  {
    var s := Up(from, to);
    forall i | 0 < i < |s|
      ensures s[i].parent == HashOf(s[i - 1])
    {
      assert s[i] == Line(0, from + 1 + i);
    }
  }

  ghost predicate LineHeld(blocks: map<Hash, Header>, n: nat)
  {
    forall i: nat :: i <= n ==> HashOf(Line(0, i)) in blocks
  }

  /** Memory holds blocks of the line up to height `n` and no others. */
  ghost predicate OnlyLine(blocks: map<Hash, Header>, n: nat)
  {
    forall h :: h in blocks ==> h.HashOf? && h.header.number <= n && h == HashOf(Line(0, h.header.number))
  }

  /** The state after executing the line up to height `n`: neither head nor index has moved. */
  ghost predicate AtLine(s: Chain, n: nat)
  {
    && Sound(s.view, s.head) && s.head == GENESIS.ToNumHash()
    && LineHeld(s.view.blocks, n) && OnlyLine(s.view.blocks, n)
    && s.root == HashOf(GENESIS) && s.view.canonical == map[0 := HashOf(GENESIS)]
  }

  lemma LineGrows(blocks: map<Hash, Header>, n: nat)
    requires LineHeld(blocks, n) && OnlyLine(blocks, n)
    ensures var block := Line(0, n + 1);
            LineHeld(blocks[HashOf(block) := block], n + 1) && OnlyLine(blocks[HashOf(block) := block], n + 1)
  {
  }

  lemma ExecuteStep(s: Chain, n: nat, block: Header)
    requires AtLine(s, n) && block == Line(0, n + 1)
    ensures Enabled(s, BlockExecuted(block, NO_CODES)) && AtLine(Next(s, BlockExecuted(block, NO_CODES)), n + 1)
  {
    var parent := Line(0, n);
    assert HashOf(parent) in s.view.blocks && s.view.blocks[HashOf(parent)] == parent;
    LineAncestor(0, n, n);
    LineGrows(s.view.blocks, n);
    StepStaysSound(s, BlockExecuted(block, NO_CODES));
  }

  /** A run in which finality keeps to its condition has executed the line up to height `n`. */
  ghost predicate Executed(start: Chain, events: seq<ChainEvent>, n: nat)
  {
    IsRun(start, events) && IsFinalRun(start, events) && AtLine(After(start, events), n)
  }

  lemma ExecuteOne(start: Chain, events: seq<ChainEvent>, n: nat, block: Header)
    requires Executed(start, events, n) && block == Line(0, n + 1)
    ensures Executed(start, events + [BlockExecuted(block, NO_CODES)], n + 1)
  {
    ExecuteStep(After(start, events), n, block);
    OneMoreFinal(start, events, BlockExecuted(block, NO_CODES));
  }

  lemma {:induction false} ExecuteRuns(n: nat)
    ensures Executed(Start(GENESIS), Execute(n), n)
  {
    if n > 0 {
      ExecuteRuns(n - 1);
      ExecuteOne(Start(GENESIS), Execute(n - 1), n - 1, Line(0, n));
    } else {
      StartAtLine();
    }
  }

  lemma StartAtLine()
    ensures AtLine(Start(GENESIS), 0)
  {
    RunsStaySound(GENESIS, []);
  }

  lemma OneMoreFinal(s: Chain, events: seq<ChainEvent>, e: ChainEvent)
    ensures After(s, events + [e]) == Next(After(s, events), e)
    ensures IsRun(s, events + [e]) <==> IsRun(s, events) && Enabled(After(s, events), e)
    ensures IsFinalRun(s, events + [e]) <==> IsFinalRun(s, events) && FinalityOk(After(s, events), e)
  {
    assert (events + [e])[..|events|] == events;
  }

  // ---------- a sync that breaks the index ----------

  ghost function CommitLine(k: nat): seq<ChainEvent>
  {
    Execute(k) + [HeadRequested(HashOf(Line(0, k)), Commit(Up(0, k)))]
  }

  ghost predicate AtCommit(s: Chain, k: nat)
  {
    Sound(s.view, s.head) && k in s.view.canonical
  }

  lemma CommitLineRuns(k: nat)
    requires k > 0
    ensures IsRun(Start(GENESIS), CommitLine(k)) && AtCommit(After(Start(GENESIS), CommitLine(k)), k)
  {
    var s, target := After(Start(GENESIS), Execute(k)), HashOf(Line(0, k));
    var update := Commit(Up(0, k));
    ExecuteRuns(k);
    LineAncestor(0, k, k);
    UpRises(0, k);
    assert IsUpdate(s.view.blocks, s.head.hash, target, Some(update));
    OneMore(Start(GENESIS), Execute(k), HeadRequested(target, update));
    AppliedIndex(s.view.blocks, s.view.canonical, s.head.hash, target, update);
    assert UpdateBase(update) == HashOf(GENESIS);
    RunsStaySound(GENESIS, CommitLine(k));
  }

  /** A block next to the line one below height k. */
  ghost function Sibling(k: nat): Header
    requires k >= 2
  {
    Header(HashOf(Line(0, k - 2)), k - 1, false, 1)
  }

  lemma SiblingSyncs(k: nat)
    requires k > BLOCK_HASH_WINDOW + 1
    ensures Numbered(HashOf(Sibling(k))) && AncestorsOf(Sibling(k), Below(0, k - 1))
  {
    LineAncestor(0, k - 2, k - 2);
    BelowFalls(0, k - 1);
  }

  /** A sync of a real block with real ancestors takes a sound index to one that is not. */
  ghost predicate BreaksIndex(s: Chain, block: Header, ancestors: seq<Header>)
  {
    && Numbered(HashOf(block)) && AncestorsOf(block, ancestors) && |ancestors| >= BLOCK_HASH_WINDOW
    && IndexSound(s.view.canonical, s.head.hash)
    && var after := Next(s, FinalizedSynced(block, ancestors));
       !IndexSound(after.view.canonical, after.head.hash)
  }

  lemma SiblingBreaks(s: Chain, k: nat)
    requires k > BLOCK_HASH_WINDOW + 1 && AtCommit(s, k)
    ensures BreaksIndex(s, Sibling(k), Below(0, k - 1))
  {
    SiblingSyncs(k);
    LeftBehind(s.view.canonical, Sibling(k), Below(0, k - 1), k);
  }

  /**
   The line up to height k is canonical, and then a block next to the one below is synced, with
   all its 256 ancestors: the entry above it stays behind, and the index is no longer sound.
   */
  lemma SyncCanBreakIndex(k: nat)
    requires k > BLOCK_HASH_WINDOW + 1
    ensures IsRun(Start(GENESIS), CommitLine(k))
    ensures BreaksIndex(After(Start(GENESIS), CommitLine(k)), Sibling(k), Below(0, k - 1))
  {
    CommitLineRuns(k);
    SiblingBreaks(After(Start(GENESIS), CommitLine(k)), k);
  }

  /** An entry above a synced block is never overwritten. */
  lemma LeftBehind(canonical: map<nat, Hash>, block: Header, ancestors: seq<Header>, n: nat)
    requires Numbered(HashOf(block)) && AncestorsOf(block, ancestors) && n in canonical && block.number < n
    ensures !IndexSound(Synced(canonical, block, ancestors), HashOf(block))
  {
    SyncSoundIff(canonical, block, ancestors);
    AncestorAtSpec(HashOf(block), n);
  }

  // ---------- a prune that loses hashes ----------

  ghost function SyncLine(k: nat, m: nat): seq<ChainEvent>
  {
    Execute(k) + [FinalizedSynced(Line(0, m), Below(0, m))]
  }

  /** Memory holds no block of the line between the executed ones and the synced one, nor any above. */
  ghost predicate OnlyLineAnd(blocks: map<Hash, Header>, k: nat, m: nat)
  {
    forall h :: h in blocks ==> h.HashOf? && (h.header.number <= k || h.header.number == m)
  }

  /** After the sync: exactly the genesis entry and the segment it wrote are canonical. */
  ghost predicate AtSync(s: Chain, k: nat, m: nat)
  {
    && Sound(s.view, s.head) && LineHeld(s.view.blocks, k) && s.head == Line(0, m).ToNumHash()
    && s.root == HashOf(Line(0, m)) && HashOf(Line(0, m)) in s.view.blocks && OnlyLineAnd(s.view.blocks, k, m)
    && (forall n: nat :: n in s.view.canonical <==> n == 0 || m - BLOCK_HASH_WINDOW <= n <= m)
  }

  lemma SyncStep(s: Chain, k: nat, m: nat)
    requires AtLine(s, k) && k <= m && m > BLOCK_HASH_WINDOW
    ensures var e := FinalizedSynced(Line(0, m), Below(0, m));
            Enabled(s, e) && FinalityOk(s, e) && AtSync(Next(s, e), k, m)
  {
    LineAncestor(0, 0, m);
    LineAncestor(0, 0, 0);
    LineAncestor(0, m, m);
    LineSyncs(0, m, s.view.canonical);
    StepStaysSound(s, FinalizedSynced(Line(0, m), Below(0, m)));
  }

  lemma LineSyncs(side: nat, m: nat, canonical: map<nat, Hash>)
    requires m > BLOCK_HASH_WINDOW
    ensures AncestorsOf(Line(side, m), Below(side, m)) && |Below(side, m)| == BLOCK_HASH_WINDOW
    ensures forall n: nat :: n in Synced(canonical, Line(side, m), Below(side, m)) <==>
                               n in canonical || m - BLOCK_HASH_WINDOW <= n <= m
  {
    LineAncestor(side, m, m);
    BelowFalls(side, m);
    forall n: nat
      ensures n in Synced(canonical, Line(side, m), Below(side, m)) <==>
              n in canonical || m - BLOCK_HASH_WINDOW <= n <= m
    {
      SyncedIndex(canonical, Line(side, m), Below(side, m), n);
    }
  }

  lemma SyncLineRuns(k: nat, m: nat)
    requires k <= m && m > BLOCK_HASH_WINDOW
    ensures IsRun(Start(GENESIS), SyncLine(k, m)) && IsFinalRun(Start(GENESIS), SyncLine(k, m))
    ensures AtSync(After(Start(GENESIS), SyncLine(k, m)), k, m)
  {
    ExecuteRuns(k);
    SyncStep(After(Start(GENESIS), Execute(k)), k, m);
    OneMoreFinal(Start(GENESIS), Execute(k), FinalizedSynced(Line(0, m), Below(0, m)));
  }

  lemma {:induction false} LineFloor(blocks: map<Hash, Header>, n: nat)
    requires LineHeld(blocks, n)
    ensures Floor(blocks, HashOf(Line(0, n))) == 0
  {
    if n > 0 {
      LineFloor(blocks, n - 1);
    }
  }

  lemma LineIsCanonical(v: ChainView, m: nat, n: nat)
    requires Sound(v, Line(0, m).ToNumHash()) && n <= m && n in v.canonical
    ensures IsCanonical(v.canonical, HashOf(Line(0, n)))
  {
    LineAncestor(0, n, m);
    assert v.canonical[n] == HashOf(Line(0, n));
  }

  /**
   The line is executed up to height k, and then a higher block is synced. Finality going back to
   height k afterwards finds a gap in the index below it, and pruning there loses hashes.
   */
  lemma PruneCanLoseHashes(k: nat, m: nat)
    requires k < m <= k + BLOCK_HASH_WINDOW && m > BLOCK_HASH_WINDOW + 1
    ensures var s := After(Start(GENESIS), SyncLine(k, m));
            && IsRun(Start(GENESIS), SyncLine(k, m)) && Enabled(s, FinalizedPruned(HashOf(Line(0, k))))
            && !Transparent(s.view, HashOf(Line(0, k)))
  {
    var s := After(Start(GENESIS), SyncLine(k, m));
    SyncLineRuns(k, m);
    LineAncestor(0, k, k);
    LineIsCanonical(s.view, m, k);
    LineFloor(s.view.blocks, k);
    assert m - BLOCK_HASH_WINDOW - 1 !in s.view.canonical;
    PruneTransparentIff(s.view, s.head, HashOf(Line(0, k)));
  }

  // ---------- finality that goes back ----------

  /** Two blocks forking off the line below height k. */
  ghost function Fork1(k: nat): Header
    requires k >= 3
  {
    Header(HashOf(Line(0, k - 3)), k - 2, false, 1)
  }

  ghost function Fork2(k: nat): Header
    requires k >= 3
  {
    Header(HashOf(Fork1(k)), k - 1, false, 1)
  }

  ghost function ForkUpdate(k: nat): NewCanonicalChain
    requires k >= 3
  {
    Reorg([Fork1(k), Fork2(k)], Up(k - 3, k))
  }

  /** The line and the fork are executed, the line's tip is synced, and then the head moves to the fork. */
  ghost function LeaveRoot(k: nat): seq<ChainEvent>
    requires k > BLOCK_HASH_WINDOW
  {
    SyncLine(k, k)
    + [BlockExecuted(Fork1(k), NO_CODES)] + [BlockExecuted(Fork2(k), NO_CODES)]
    + [HeadRequested(HashOf(Fork2(k)), ForkUpdate(k))]
  }

  lemma ForkIsUpdate(blocks: map<Hash, Header>, k: nat)
    requires k >= 3 && LineHeld(blocks, k) && HashOf(Fork1(k)) in blocks && HashOf(Fork2(k)) in blocks
    ensures IsUpdate(blocks, HashOf(Line(0, k)), HashOf(Fork2(k)), Some(ForkUpdate(k)))
  {
    var base := HashOf(Line(0, k - 3));
    UpRises(k - 3, k);
    ForkOffLine(k);
    assert Held(blocks, ForkUpdate(k).added) && Held(blocks, ForkUpdate(k).removed);
  }

  lemma ForkOffLine(k: nat)
    requires k >= 3
    ensures Fork(HashOf(Line(0, k - 3)), HashOf(Line(0, k)), HashOf(Fork1(k)))
  {
    LineAncestor(0, k - 3, k);
    LineAncestor(0, k - 2, k);
    LineAncestor(0, k - 2, k - 2);
    var base, tip, side := HashOf(Line(0, k - 3)), HashOf(Line(0, k)), HashOf(Fork1(k));
    AncestorOrSelfIsAncestorAt(side, tip);
    assert AncestorOrSelf(base, side);
    forall c | AncestorOrSelf(c, tip) && AncestorOrSelf(c, side)
      ensures AncestorOrSelf(c, base)
    {
      assert c != side;
    }
  }

  /** The fork is in memory next to the line, whose tip is the root. */
  ghost predicate AtFork(s: Chain, k: nat)
    requires k >= 3
  {
    && Sound(s.view, s.head) && LineHeld(s.view.blocks, k) && s.root == HashOf(Line(0, k))
    && HashOf(Fork1(k)) in s.view.blocks && HashOf(Fork2(k)) in s.view.blocks
  }

  lemma ForkSteps(s: Chain, k: nat)
    requires k > BLOCK_HASH_WINDOW && AtSync(s, k, k)
    ensures var e1, e2 := BlockExecuted(Fork1(k), NO_CODES), BlockExecuted(Fork2(k), NO_CODES);
            && Enabled(s, e1) && Enabled(Next(s, e1), e2)
            && AtFork(Next(Next(s, e1), e2), k) && Next(Next(s, e1), e2).head == Line(0, k).ToNumHash()
  {
    var e1, e2 := BlockExecuted(Fork1(k), NO_CODES), BlockExecuted(Fork2(k), NO_CODES);
    LineAncestor(0, k - 3, k - 3);
    assert s.view.blocks[HashOf(Line(0, k - 3))] == Line(0, k - 3);
    StepStaysSound(s, e1);
    StepStaysSound(Next(s, e1), e2);
  }

  lemma LeaveStep(s: Chain, k: nat)
    requires k > BLOCK_HASH_WINDOW && AtFork(s, k) && s.head == Line(0, k).ToNumHash()
    ensures var e := HeadRequested(HashOf(Fork2(k)), ForkUpdate(k));
            && Enabled(s, e) && AtFork(Next(s, e), k) && Next(s, e).head == Fork2(k).ToNumHash()
            && k - 2 in Next(s, e).view.canonical && k - 1 in Next(s, e).view.canonical
  {
    ForkIsUpdate(s.view.blocks, k);
    StepStaysSound(s, HeadRequested(HashOf(Fork2(k)), ForkUpdate(k)));
    LineAncestor(0, k - 3, k - 3);
    DepthOfNumbered(HashOf(Line(0, k - 3)));
    AppliedIndex(s.view.blocks, s.view.canonical, s.head.hash, HashOf(Fork2(k)), ForkUpdate(k));
  }

  lemma LeaveRootRuns(k: nat)
    requires k > BLOCK_HASH_WINDOW
    ensures var s := After(Start(GENESIS), LeaveRoot(k));
            && IsRun(Start(GENESIS), LeaveRoot(k)) && IsFinalRun(Start(GENESIS), LeaveRoot(k))
            && AtFork(s, k) && s.head == Fork2(k).ToNumHash()
            && k - 2 in s.view.canonical && k - 1 in s.view.canonical
  {
    var start, r0 := Start(GENESIS), SyncLine(k, k);
    var e1, e2 := BlockExecuted(Fork1(k), NO_CODES), BlockExecuted(Fork2(k), NO_CODES);
    SyncLineRuns(k, k);
    ForkSteps(After(start, r0), k);
    OneMoreFinal(start, r0, e1);
    OneMoreFinal(start, r0 + [e1], e2);
    LeaveStep(After(start, r0 + [e1] + [e2]), k);
    OneMoreFinal(start, r0 + [e1] + [e2], HeadRequested(HashOf(Fork2(k)), ForkUpdate(k)));
  }

  /**
   With the head off the root, finality going back to a block whose parent is not the root's ancestor prunes
   the path below the root: the root no longer finds the hash two heights below it.
   */
  lemma FinalityGoingBackLosesHashes(k: nat)
    requires k > BLOCK_HASH_WINDOW
    ensures var before, e := After(Start(GENESIS), LeaveRoot(k)), FinalizedPruned(HashOf(Fork2(k)));
            && IsRun(Start(GENESIS), LeaveRoot(k) + [e]) && IsFinalRun(Start(GENESIS), LeaveRoot(k))
            && Complete(before) && !FinalityOk(before, e) && !Complete(Next(before, e))
  {
    var s, f := After(Start(GENESIS), LeaveRoot(k)), HashOf(Fork2(k));
    LeaveRootRuns(k);
    EveryFinalRunIsComplete(GENESIS, LeaveRoot(k));
    RunsStayAnchored(GENESIS, LeaveRoot(k));
    assert AncestorAt(f, k - 1) == Some(f);
    assert IsCanonical(s.view.canonical, f);
    OneMore(Start(GENESIS), LeaveRoot(k), FinalizedPruned(f));
    LostBelowRoot(s, k);
  }

  lemma LostBelowRoot(s: Chain, k: nat)
    requires k > BLOCK_HASH_WINDOW && AtFork(s, k) && s.head == Fork2(k).ToNumHash() && Anchored(s)
    requires IsCanonical(s.view.canonical, HashOf(Fork2(k)))
    ensures var e := FinalizedPruned(HashOf(Fork2(k)));
            !FinalityOk(s, e) && !Complete(Next(s, e))
  {
    OffTheLine(k);
    PruneCompleteIff(s, HashOf(Fork2(k)));
  }

  /** The fork is not on the line's ancestry. */
  lemma OffTheLine(k: nat)
    requires k >= 3
    ensures Line(0, k).number == k && !AncestorOrSelf(HashOf(Fork1(k)), HashOf(Line(0, k)))
  {
    LineAncestor(0, k - 2, k);
    Elsewhere(HashOf(Line(0, k)), HashOf(Line(0, k - 2)), HashOf(Fork1(k)));
  }

  lemma Elsewhere(tip: Hash, on: Hash, off: Hash)
    requires Numbered(tip) && off.HashOf? && off != on && AncestorAt(tip, off.header.number) == Some(on)
    ensures !AncestorOrSelf(off, tip)
  {
    if AncestorOrSelf(off, tip) {
      AncestorOrSelfIsAncestorAt(off, tip);
    }
  }

  // ---------- a sync that goes back ----------

  lemma LinesApart(i: nat, n: nat)
    requires i > 0
    ensures HashOf(Line(0, n)) != HashOf(Line(1, i))
  {
  }

  /** One block of the other line is in memory, the one below it is not, and nothing is higher. */
  ghost predicate Orphaned(blocks: map<Hash, Header>, m: nat)
    requires m > 0
  {
    && HashOf(Line(1, m)) in blocks && HashOf(Line(1, m - 1)) !in blocks
    && forall h :: h in blocks && h.HashOf? ==> h.header.number <= m
  }

  /** Besides the genesis entry, only heights from `low` on are canonical. */
  ghost predicate EntriesFrom(canonical: map<nat, Hash>, low: nat)
  {
    0 in canonical && forall n: nat :: n in canonical && n != 0 ==> low <= n
  }

  /** Both lines' blocks at height m are in memory, and the head is on one of the lines. */
  ghost predicate AtDouble(s: Chain, m: nat, side: nat, tip: nat)
    requires m > 0
  {
    && Sound(s.view, s.head) && LineHeld(s.view.blocks, m) && Orphaned(s.view.blocks, m)
    && s.head == Line(side, tip).ToNumHash() && EntriesFrom(s.view.canonical, WindowStart(m))
  }

  /** A line's block may be synced whenever the entries it leaves in place are below it and the genesis one. */
  lemma LineSyncOk(s: Chain, from: nat, side: nat, tip: nat, m: nat)
    requires Sound(s.view, s.head) && s.head == Line(from, tip).ToNumHash()
    requires m > BLOCK_HASH_WINDOW && tip <= m && EntriesFrom(s.view.canonical, m - BLOCK_HASH_WINDOW)
    ensures Enabled(s, FinalizedSynced(Line(side, m), Below(side, m)))
  {
    LineAncestor(from, 0, tip);
    LineAncestor(from, tip, tip);
    LineAncestor(side, 0, m);
    BelowFalls(side, m);
    forall n | n in s.view.canonical && !(m - BLOCK_HASH_WINDOW <= n <= m)
      ensures n == 0 && s.view.canonical[n] == HashOf(Line(side, 0))
    {
      AncestorAtSpec(s.head.hash, n);
    }
  }

  lemma SyncOther(s: Chain, m: nat)
    requires AtLine(s, m) && m > BLOCK_HASH_WINDOW
    ensures var e := FinalizedSynced(Line(1, m), Below(1, m));
            Enabled(s, e) && FinalityOk(s, e) && AtDouble(Next(s, e), m, 1, m)
  {
    var e := FinalizedSynced(Line(1, m), Below(1, m));
    LineSyncOk(s, 0, 1, 0, m);
    LineAncestor(1, m - 1, m - 1);
    LineAncestor(1, m, m);
    LinesApart(m - 1, m - 1);
    LineSyncs(1, m, s.view.canonical);
    StepStaysSound(s, e);
  }

  lemma SyncBack(s: Chain, m: nat)
    requires m > BLOCK_HASH_WINDOW && AtDouble(s, m, 1, m)
    ensures var e := FinalizedSynced(Line(0, m), Below(0, m));
            Enabled(s, e) && FinalityOk(s, e) && AtDouble(Next(s, e), m, 0, m)
  {
    var e := FinalizedSynced(Line(0, m), Below(0, m));
    LineSyncOk(s, 1, 0, m, m);
    LineAncestor(0, m, m);
    LinesApart(m - 1, m);
    LineSyncs(0, m, s.view.canonical);
    StepStaysSound(s, e);
  }

  ghost function Retreat(m: nat): ChainEvent
    requires m >= 3
  {
    HeadRequested(HashOf(Line(0, m - 2)), Reorg([Line(0, m - 2)], Up(m - 3, m)))
  }

  lemma RetreatIsUpdate(blocks: map<Hash, Header>, m: nat)
    requires m >= 3 && LineHeld(blocks, m)
    ensures IsUpdate(blocks, HashOf(Line(0, m)), HashOf(Line(0, m - 2)), Some(Retreat(m).update))
  {
    LineAncestor(0, m - 3, m);
    LineAncestor(0, m - 2, m - 2);
    UpRises(m - 3, m);
    assert Held(blocks, Retreat(m).update.added) && Held(blocks, Retreat(m).update.removed);
  }

  lemma RetreatStep(s: Chain, m: nat)
    requires m > BLOCK_HASH_WINDOW && AtDouble(s, m, 0, m)
    ensures Enabled(s, Retreat(m)) && AtDouble(Next(s, Retreat(m)), m, 0, m - 2)
  {
    RetreatIsUpdate(s.view.blocks, m);
    StepStaysSound(s, Retreat(m));
    LineAncestor(0, m - 3, m - 3);
    LineAncestor(0, m - 2, m - 2);
    DepthOfNumbered(HashOf(Line(0, m - 3)));
    AppliedIndex(s.view.blocks, s.view.canonical, s.head.hash, Retreat(m).target, Retreat(m).update);
  }

  /**
   The line is executed, the other line's block at its height synced and then the line's own; the
   head moves back two blocks.
   */
  ghost function Cross(m: nat): seq<ChainEvent>
    requires m >= 3
  {
    Execute(m) + [FinalizedSynced(Line(1, m), Below(1, m))] + [FinalizedSynced(Line(0, m), Below(0, m))] + [Retreat(m)]
  }

  lemma CrossRuns(m: nat)
    requires m > BLOCK_HASH_WINDOW
    ensures var s := After(Start(GENESIS), Cross(m));
            && IsRun(Start(GENESIS), Cross(m)) && IsFinalRun(Start(GENESIS), Cross(m))
            && AtDouble(s, m, 0, m - 2)
  {
    var start, r0 := Start(GENESIS), Execute(m);
    var e1, e2 := FinalizedSynced(Line(1, m), Below(1, m)), FinalizedSynced(Line(0, m), Below(0, m));
    ExecuteRuns(m);
    SyncOther(After(start, r0), m);
    OneMoreFinal(start, r0, e1);
    SyncBack(After(start, r0 + [e1]), m);
    OneMoreFinal(start, r0 + [e1], e2);
    RetreatStep(After(start, r0 + [e1] + [e2]), m);
    OneMoreFinal(start, r0 + [e1] + [e2], Retreat(m));
  }

  /**
   Syncing an ancestor of the other line's block then leaves that block in memory without its
   parent, and it no longer finds its parent's hash.
   */
  lemma SyncGoingBackLosesHashes(m: nat)
    requires m > BLOCK_HASH_WINDOW + 2
    ensures var before := After(Start(GENESIS), Cross(m));
            var e := FinalizedSynced(Line(1, m - 2), Below(1, m - 2));
            && IsRun(Start(GENESIS), Cross(m) + [e]) && IsFinalRun(Start(GENESIS), Cross(m))
            && Complete(before) && !FinalityOk(before, e) && !Complete(Next(before, e))
  {
    var s, e := After(Start(GENESIS), Cross(m)), FinalizedSynced(Line(1, m - 2), Below(1, m - 2));
    CrossRuns(m);
    EveryFinalRunIsComplete(GENESIS, Cross(m));
    LostAboveSync(s, m, e);
    OneMore(Start(GENESIS), Cross(m), e);
  }

  lemma LostAboveSync(s: Chain, m: nat, e: ChainEvent)
    requires m > BLOCK_HASH_WINDOW + 2 && AtDouble(s, m, 0, m - 2)
    requires e == FinalizedSynced(Line(1, m - 2), Below(1, m - 2))
    ensures Enabled(s, e) && !FinalityOk(s, e) && !Complete(Next(s, e))
  {
    LineSyncOk(s, 0, 1, m - 2, m - 2);
    OrphanOnLine(s.view.blocks, m, e.block);
    OrphanedSync(s, e);
  }

  lemma OrphanedSync(s: Chain, e: ChainEvent)
    requires Sound(s.view, s.head) && e.FinalizedSynced? && Enabled(s, e)
    requires !NoOrphanAbove(s.view.blocks, e.block) && !NoOrphanDescendant(s.view.blocks, e.block)
    ensures !FinalityOk(s, e) && !Complete(Next(s, e))
  {
    SyncCompleteIff(s, e);
  }

  lemma OrphanOnLine(blocks: map<Hash, Header>, m: nat, block: Header)
    requires m > 2 && Orphaned(blocks, m) && block == Line(1, m - 2)
    ensures !NoOrphanAbove(blocks, block) && !NoOrphanDescendant(blocks, block)
  {
    var root, above, top := HashOf(block), HashOf(Line(1, m - 1)), HashOf(Line(1, m));
    LineAncestor(1, m - 2, m);
    LineAncestor(1, m - 2, m - 2);
    LineAncestor(1, m - 1, m - 1);
    assert top.header.parent == above && above != root && top != root;
  }
}
