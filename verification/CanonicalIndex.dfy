/**
 The canonical index against the full block tree, over whole runs.
 */
module CanonicalIndex {
  import opened Blocks
  import opened ChainStates
  import opened ChainSwitch

  // ---------- applying an update ----------

  function RemoveAll(canonical: map<nat, Hash>, removed: seq<Header>): map<nat, Hash>
  {
    if removed == [] then canonical
    else
      var last := removed[|removed| - 1];
      RemoveCanonical(RemoveAll(canonical, removed[..|removed| - 1]), last.number, HashOf(last))
  }

  function InsertAll(canonical: map<nat, Hash>, added: seq<Header>): map<nat, Hash>
  {
    if added == [] then canonical
    else
      var last := added[|added| - 1];
      InsertAll(canonical, added[..|added| - 1])[last.number := HashOf(last)]
  }

  function Applied(canonical: map<nat, Hash>, update: NewCanonicalChain): map<nat, Hash>
  {
    InsertAll(RemoveAll(canonical, update.Removed()), update.added)
  }

  /** Replaces the removed headers' hashes by the added ones'. */
  method OnChainUpdate(chain: ChainState, added: seq<Header>, removed: seq<Header>)
    requires chain.Valid()
    modifies chain
    ensures chain.Valid()
    ensures chain.View() == old(chain.View()).(canonical := InsertAll(RemoveAll(old(chain.canonical), removed), added))
  {
    for i := 0 to |removed|
      invariant chain.Valid()
      invariant chain.View() == old(chain.View()).(canonical := RemoveAll(old(chain.canonical), removed[..i]))
    {
      assert removed[..i + 1][..i] == removed[..i];
      chain.RemoveCanonicalHash(removed[i].number, HashOf(removed[i]));
    }
    assert removed[..|removed|] == removed;
    ghost var cleared := chain.canonical;
    for i := 0 to |added|
      invariant chain.Valid()
      invariant chain.View() == old(chain.View()).(canonical := InsertAll(cleared, added[..i]))
    {
      assert added[..i + 1][..i] == added[..i];
      chain.InsertCanonicalHash(added[i].number, HashOf(added[i]));
    }
    assert added[..|added|] == added;
  }

  // ---------- soundness of the index ----------

  /** Every entry is the head's true ancestor at that height; in particular none lies above the head. */
  ghost predicate IndexSound(canonical: map<nat, Hash>, head: Hash)
  {
    forall n :: n in canonical ==> AncestorAt(head, n) == Some(canonical[n])
  }

  ghost predicate Sound(v: ChainView, head: NumHash)
  {
    Situated(v, head) && IndexSound(v.canonical, head.hash)
  }

  /** The tip's ancestor at height `n` is among `s`. */
  ghost predicate Covers(s: seq<Header>, tip: Hash, n: nat)
  {
    AncestorAt(tip, n).Some? && AncestorAt(tip, n).value.HashOf? && AncestorAt(tip, n).value.header in s
  }

  ghost predicate AllOn(s: seq<Header>, tip: Hash)
  {
    forall x :: x in s ==> AncestorAt(tip, x.number) == Some(HashOf(x))
  }

  lemma {:induction false} RemoveAllSpec(canonical: map<nat, Hash>, removed: seq<Header>, n: nat)
    ensures n in RemoveAll(canonical, removed) <==>
            n in canonical &&
            !(canonical[n].HashOf? && canonical[n].header in removed && canonical[n].header.number == n)
    ensures n in RemoveAll(canonical, removed) ==> RemoveAll(canonical, removed)[n] == canonical[n]
    decreases |removed|
  {
    if removed != [] {
      var rest := removed[..|removed| - 1];
      assert removed == rest + [removed[|removed| - 1]];
      RemoveAllSpec(canonical, rest, n);
    }
  }

  lemma {:induction false} InsertAllSpec(canonical: map<nat, Hash>, added: seq<Header>, tip: Hash, n: nat)
    requires AllOn(added, tip)
    ensures n in InsertAll(canonical, added) <==> n in canonical || Covers(added, tip, n)
    ensures n in InsertAll(canonical, added) ==>
              InsertAll(canonical, added)[n] == if Covers(added, tip, n) then AncestorAt(tip, n).value else canonical[n]
    decreases |added|
  {
    if added != [] {
      var rest, last := added[..|added| - 1], added[|added| - 1];
      assert added == rest + [last];
      assert last in added;
      InsertAllSpec(canonical, rest, tip, n);
      CoveredNumber(added, tip, n);
    }
  }

  lemma CoveredNumber(s: seq<Header>, tip: Hash, n: nat)
    ensures Covers(s, tip, n) ==> AncestorAt(tip, n).value.header.number == n
  {
    if Covers(s, tip, n) {
      AncestorAtNumber(tip, n);
    }
  }

  lemma {:induction false} AncestorAtNumber(h: Hash, n: nat)
    ensures AncestorAt(h, n).Some? ==> AncestorAt(h, n).value.HashOf? && AncestorAt(h, n).value.header.number == n
  {
    if h.HashOf? && h.header.number != n {
      AncestorAtNumber(h.header.parent, n);
    }
  }

  /** A rising run covers exactly the heights from its base's up to its tip's. */
  lemma RisingCovers(s: seq<Header>, base: Hash, tip: Hash)
    requires Rising(s, base, tip) && Numbered(tip)
    ensures AllOn(s, tip)
    ensures AncestorOrSelf(base, tip)
    ensures forall n: nat :: Covers(s, tip, n) <==> Depth(base) <= n <= tip.header.number
  {
    RisingMembers(s, base, tip);
    forall x | x in s
      ensures AncestorAt(tip, x.number) == Some(HashOf(x))
    {
      AncestorOrSelfIsAncestorAt(HashOf(x), tip);
    }
    forall n: nat
      ensures Covers(s, tip, n) <==> Depth(base) <= n <= tip.header.number
    {
      AncestorAtSpec(tip, n);
      if n <= tip.header.number {
        DepthOfNumbered(AncestorAt(tip, n).value);
      }
    }
  }

  ghost function UpdateBase(update: NewCanonicalChain): Hash
    requires |update.added| > 0
  {
    update.added[0].parent
  }

  /** After an update the index is the old one below the fork, and the new chain above it. */
  lemma AppliedIndex(blocks: map<Hash, Header>, canonical: map<nat, Hash>, head: Hash, target: Hash,
                     update: NewCanonicalChain)
    requires Numbered(head) && Numbered(target) && IndexSound(canonical, head)
    requires IsUpdate(blocks, head, target, Some(update))
    ensures forall n: nat :: n in Applied(canonical, update) <==>
                          || (n in canonical && n < Depth(UpdateBase(update)))
                               || Depth(UpdateBase(update)) <= n <= target.header.number
    ensures IndexSound(Applied(canonical, update), target)
  {
    var base := UpdateBase(update);
    RisingCovers(update.added, base, target);
    RisingCovers(update.Removed(), base, head);
    forall n: nat
      ensures n in Applied(canonical, update) <==>
                (n in canonical && n < Depth(base)) || Depth(base) <= n <= target.header.number
      ensures n in Applied(canonical, update) ==> AncestorAt(target, n) == Some(Applied(canonical, update)[n])
    {
      RemoveAllSpec(canonical, update.Removed(), n);
      InsertAllSpec(RemoveAll(canonical, update.Removed()), update.added, target, n);
      AncestorAtNumber(head, n);
      if n in canonical {
        AncestorAtSpec(head, n);
        assert Covers(update.Removed(), head, n) <==> Depth(base) <= n;
        if n < Depth(base) {
          SameBelow(base, head, target, n);
        }
      }
    }
  }

  lemma SameBelow(base: Hash, a: Hash, b: Hash, n: nat)
    requires Numbered(a) && Numbered(b) && AncestorOrSelf(base, a) && AncestorOrSelf(base, b) && n < Depth(base)
    ensures AncestorAt(a, n) == AncestorAt(b, n)
  {
    AncestorOrSelfIsAncestorAt(base, a);
    AncestorOrSelfIsAncestorAt(base, b);
    DepthOfNumbered(base);
    AncestorAtCompose(a, base.header.number, n);
    AncestorAtCompose(b, base.header.number, n);
  }

  // ---------- finalized sync ----------

  function Synced(canonical: map<nat, Hash>, block: Header, ancestors: seq<Header>): map<nat, Hash>
  {
    InsertAll(canonical[block.number := HashOf(block)], ancestors)
  }

  /** The downloaded ancestors: parent-linked headers going down from the block's parent. */
  ghost predicate AncestorsOf(block: Header, ancestors: seq<Header>)
  {
    exists to :: Falling(ancestors, block.parent, to)
  }

  /** Every entry the sync does not overwrite already lies on the synced block's ancestry. */
  ghost predicate EntriesOnAncestry(canonical: map<nat, Hash>, block: Header, ancestors: seq<Header>)
  {
    forall n :: n in canonical && !(block.number - |ancestors| <= n <= block.number) ==>
                  AncestorAt(HashOf(block), n) == Some(canonical[n])
  }

  lemma FallingCovers(block: Header, ancestors: seq<Header>)
    requires Numbered(HashOf(block)) && AncestorsOf(block, ancestors)
    ensures |ancestors| <= block.number && AllOn(ancestors, HashOf(block))
    ensures forall n: nat :: Covers([block] + ancestors, HashOf(block), n) <==>
            block.number - |ancestors| <= n <= block.number
  {
    var to :| Falling(ancestors, block.parent, to);
    var run := [block] + ancestors;
    FallingJoins([block], ancestors, HashOf(block), block.parent, to);
    ReversedRises(run, HashOf(block), to);
    RisingCovers(Reversed(run), to, HashOf(block));
    FallingDepth(run, HashOf(block), to);
    DepthOfNumbered(HashOf(block));
    forall n: nat
      ensures Covers(run, HashOf(block), n) <==> block.number - |ancestors| <= n <= block.number
    {
      assert Covers(Reversed(run), HashOf(block), n) <==> Covers(run, HashOf(block), n);
    }
    forall x | x in ancestors
      ensures AncestorAt(HashOf(block), x.number) == Some(HashOf(x))
    {
      assert x in run;
    }
  }

  /** The sync writes the whole segment from its lowest ancestor to the block, and nothing else. */
  lemma SyncedIndex(canonical: map<nat, Hash>, block: Header, ancestors: seq<Header>, n: nat)
    requires Numbered(HashOf(block)) && AncestorsOf(block, ancestors)
    ensures n in Synced(canonical, block, ancestors) <==>
            n in canonical || block.number - |ancestors| <= n <= block.number
    ensures block.number - |ancestors| <= n <= block.number ==>
              AncestorAt(HashOf(block), n) == Some(Synced(canonical, block, ancestors)[n])
    ensures n in canonical && !(block.number - |ancestors| <= n <= block.number) ==>
              Synced(canonical, block, ancestors)[n] == canonical[n]
  {
    FallingCovers(block, ancestors);
    InsertAllSpec(canonical[block.number := HashOf(block)], ancestors, HashOf(block), n);
    AncestorAtNumber(HashOf(block), n);
    assert Covers([block] + ancestors, HashOf(block), n) <==> block.number - |ancestors| <= n <= block.number;
    assert Covers([block] + ancestors, HashOf(block), n) <==> Covers(ancestors, HashOf(block), n) || n == block.number;
  }

  /** A finalized sync leaves a sound index exactly when the entries it keeps are the block's ancestors. */
  lemma SyncSoundIff(canonical: map<nat, Hash>, block: Header, ancestors: seq<Header>)
    requires Numbered(HashOf(block)) && AncestorsOf(block, ancestors)
    ensures IndexSound(Synced(canonical, block, ancestors), HashOf(block)) <==>
            EntriesOnAncestry(canonical, block, ancestors)
  {
    var after := Synced(canonical, block, ancestors);
    forall n: nat | n in after || n in canonical
      ensures n in canonical && !(block.number - |ancestors| <= n <= block.number) ==>
                n in after && after[n] == canonical[n]
      ensures block.number - |ancestors| <= n <= block.number ==>
                n in after && AncestorAt(HashOf(block), n) == Some(after[n])
      ensures n in after ==> n in canonical || block.number - |ancestors| <= n <= block.number
    {
      SyncedIndex(canonical, block, ancestors, n);
    }
  }

  // ---------- block-hash lookups ----------

  /** Any answer is the true ancestor: the lookup refines the plain walk over the unpruned chain. */
  lemma {:induction false} LookupSound(v: ChainView, head: NumHash, at: NumHash, n: nat)
    requires Sound(v, head) && Numbered(at.hash) && at.number == at.hash.header.number
    ensures Lookup(v, at, n).Some? ==> Lookup(v, at, n) == AncestorAt(at.hash, n)
    decreases at.hash
  {
    if at.hash in v.blocks {
      if at.number == 0 {
        AncestorAtNumber(head.hash, 0);
        assert Lookup(v, NumHash(0, ZERO), n) == None;
      } else if at.number != n {
        LookupSound(v, head, at.hash.header.ParentNumHash(), n);
      }
    } else if Lookup(v, at, n).Some? {
      AncestorAtSpec(head.hash, at.number);
      AncestorAtCompose(head.hash, at.number, n);
    }
  }

  /** Nothing is ever found above the starting block. */
  lemma NothingAbove(v: ChainView, head: NumHash, at: NumHash, n: nat)
    requires Sound(v, head) && Numbered(at.hash) && at.number == at.hash.header.number && at.number < n
    ensures Lookup(v, at, n) == None
  {
    LookupSound(v, head, at, n);
    AncestorAtSpec(at.hash, n);
  }

  /** From a block on the canonical chain, every height down to which the index has no gap is found. */
  lemma {:induction false} CanonicalFound(v: ChainView, head: NumHash, at: NumHash, n: nat)
    requires Sound(v, head) && AncestorAt(head.hash, at.number) == Some(at.hash)
    requires n <= at.number && forall m: nat :: n <= m <= at.number ==> m in v.canonical
    ensures Lookup(v, at, n) == AncestorAt(at.hash, n) && Lookup(v, at, n).Some?
    decreases at.hash
  {
    AncestorAtSpec(head.hash, at.number);
    if at.hash in v.blocks {
      if at.number != n {
        AncestorAtCompose(head.hash, at.number, at.number - 1);
        CanonicalFound(v, head, at.hash.header.ParentNumHash(), n);
      }
    } else {
      AncestorAtCompose(head.hash, at.number, n);
    }
  }

  // ---------- pruning ----------

  lemma CanonicalBlock(v: ChainView, head: NumHash, f: Hash)
    requires Sound(v, head) && f in v.blocks && IsCanonical(v.canonical, f)
    ensures f.HashOf? && AncestorAt(head.hash, f.header.number) == Some(f) && f.header.number <= head.number
    ensures f.header.number in v.canonical
  {
    var n :| n in v.canonical && v.canonical[n] == f;
    AncestorAtSpec(head.hash, n);
  }

  /** The index holds the whole window of the block at height `f`. */
  ghost predicate NoGap(canonical: map<nat, Hash>, f: nat)
  {
    forall n: nat :: WindowStart(f) <= n <= f ==> n in canonical
  }

  /**
   Pruning at a canonical block whose window has no gap changes no lookup from its descendants, down
   to the window's start.
   */
  lemma {:induction false} PruneTransparent(v: ChainView, head: NumHash, finalized: Hash, at: NumHash, n: nat)
    requires Sound(v, head) && IsCanonical(v.canonical, finalized) && finalized in v.blocks
    requires NoGap(v.canonical, finalized.header.number)
    requires Descends(finalized, at) && WindowStart(finalized.header.number) <= n
    ensures Lookup(Prune(v, finalized), at, n) == Lookup(v, at, n)
    decreases at.hash
  {
    var w := Prune(v, finalized);
    PruneSound(v, head, finalized);
    if at.number < n {
      NothingAbove(v, head, at, n);
      NothingAbove(w, head, at, n);
    } else if at.hash == finalized {
      CanonicalBlock(v, head, finalized);
      CanonicalFound(v, head, at, n);
      CanonicalFound(w, head, at, n);
    } else {
      assert !AncestorOrSelf(finalized, ZERO);
      AncestorOrSelfIsAncestorAt(finalized, at.hash.header.parent);
      if at.hash in v.blocks && at.number != n {
        PruneTransparent(v, head, finalized, at.hash.header.ParentNumHash(), n);
      }
    }
  }

  lemma PruneSound(v: ChainView, head: NumHash, finalized: Hash)
    requires Sound(v, head) && IsCanonical(v.canonical, finalized)
    ensures Sound(Prune(v, finalized), head)
  {
    PruneCoherent(v, finalized);
  }

  ghost predicate Transparent(v: ChainView, finalized: Hash)
    requires finalized.HashOf?
  {
    forall at: NumHash, n: nat ::
      Descends(finalized, at) && WindowStart(finalized.header.number) <= n ==>
        Lookup(Prune(v, finalized), at, n) == Lookup(v, at, n)
  }

  ghost predicate Descends(a: Hash, at: NumHash)
  {
    Numbered(at.hash) && at.number == at.hash.header.number && AncestorOrSelf(a, at.hash)
  }

  /** The lowest height that going down from `at` reaches in memory. */
  ghost function Floor(blocks: map<Hash, Header>, at: Hash): nat
    requires at.HashOf?
  {
    if at.header.parent.HashOf? && at.header.parent in blocks then Floor(blocks, at.header.parent) else at.header.number
  }

  /** With memory reaching down to `low`, a height is found there, or below if the index knows both ends. */
  ghost predicate FoundAbove(canonical: map<nat, Hash>, low: nat, n: nat)
  {
    n >= low || (low > 0 && low - 1 in canonical && n in canonical)
  }

  /** From a canonical block in memory, a height is found in memory, or below that if the index knows both ends. */
  lemma {:induction false} FoundIff(v: ChainView, head: NumHash, at: Hash, n: nat)
    requires Sound(v, head) && at in v.blocks && AncestorAt(head.hash, at.header.number) == Some(at)
    requires n <= at.header.number
    ensures Floor(v.blocks, at) <= at.header.number
    ensures Lookup(v, at.header.ToNumHash(), n).Some? <==> FoundAbove(v.canonical, Floor(v.blocks, at), n)
    decreases at
  {
    if at.header.number > 0 {
      var parent := at.header.parent;
      AncestorAtSpec(head.hash, at.header.number);
      AncestorAtCompose(head.hash, at.header.number, at.header.number - 1);
      assert Numbered(at) && parent.header.number == at.header.number - 1;
      assert AncestorAt(at, at.header.number - 1) == Some(parent);
      if parent in v.blocks && n < at.header.number {
        FoundIff(v, head, parent, n);
      } else if parent in v.blocks {
        FoundIff(v, head, parent, at.header.number - 1);
      }
    }
  }

  /** The index takes over from memory without a change in what is found. */
  ghost predicate TakesOver(v: ChainView, finalized: Hash)
    requires finalized.HashOf?
  {
    var f, low := finalized.header.number, Floor(v.blocks, finalized);
    low == f ||
    (&& (forall n: nat :: WindowStart(f) <= n < f && low <= n ==> n in v.canonical)
     && (low > 0 && low - 1 !in v.canonical ==> forall n: nat :: WindowStart(f) <= n < low ==> n !in v.canonical))
  }

  /** After a prune at a canonical block only the index is left below it. */
  lemma FloorPruned(v: ChainView, head: NumHash, finalized: Hash)
    requires Sound(v, head) && IsCanonical(v.canonical, finalized) && finalized in v.blocks
    ensures Floor(Prune(v, finalized).blocks, finalized) == finalized.header.number
  {
    assert Numbered(finalized);
  }

  /** Lookups from descendants change exactly as those from the finalized block itself. */
  lemma {:induction false} SameFromDescendant(v: ChainView, head: NumHash, finalized: Hash, at: NumHash, n: nat)
    requires Sound(v, head) && IsCanonical(v.canonical, finalized) && finalized in v.blocks
    requires Descends(finalized, at) && WindowStart(finalized.header.number) <= n
    requires Lookup(Prune(v, finalized), finalized.header.ToNumHash(), n) == Lookup(v, finalized.header.ToNumHash(), n)
    ensures Lookup(Prune(v, finalized), at, n) == Lookup(v, at, n)
    decreases at.hash
  {
    if at.hash != finalized {
      assert !AncestorOrSelf(finalized, ZERO);
      AncestorOrSelfIsAncestorAt(finalized, at.hash.header.parent);
      if at.hash in v.blocks && at.number != n {
        SameFromDescendant(v, head, finalized, at.hash.header.ParentNumHash(), n);
      }
    }
  }

  /** What a lookup from the finalized block finds before and after the prune. */
  lemma FoundBeforeAndAfter(v: ChainView, head: NumHash, finalized: Hash, n: nat)
    requires Sound(v, head) && IsCanonical(v.canonical, finalized) && finalized in v.blocks
    requires WindowStart(finalized.header.number) <= n
    ensures var f, low, at := finalized.header.number, Floor(v.blocks, finalized), finalized.header.ToNumHash();
            var before, after := Lookup(v, at, n), Lookup(Prune(v, finalized), at, n);
            && low <= f && (before == after <==> (before.Some? <==> after.Some?))
            && (before.Some? <==> n <= f && FoundAbove(v.canonical, low, n))
            && (after.Some? <==> n <= f && FoundAbove(v.canonical, f, n))
  {
    PruneSound(v, head, finalized);
    CanonicalBlock(v, head, finalized);
    FloorPruned(v, head, finalized);
    FoundFrom(v, head, finalized, n);
    FoundFrom(Prune(v, finalized), head, finalized, n);
  }

  lemma FoundFrom(v: ChainView, head: NumHash, at: Hash, n: nat)
    requires Sound(v, head) && at in v.blocks && Numbered(at) && AncestorAt(head.hash, at.header.number) == Some(at)
    ensures var r := Lookup(v, at.header.ToNumHash(), n);
            && Floor(v.blocks, at) <= at.header.number && (r.Some? ==> r == AncestorAt(at, n))
            && (r.Some? <==> n <= at.header.number && FoundAbove(v.canonical, Floor(v.blocks, at), n))
  {
    LookupSound(v, head, at.header.ToNumHash(), n);
    FoundIff(v, head, at, if n <= at.header.number then n else 0);
    if at.header.number < n {
      NothingAbove(v, head, at.header.ToNumHash(), n);
    }
  }

  /** Pruning is transparent exactly when the index takes over from memory below the finalized block. */
  lemma PruneTransparentIff(v: ChainView, head: NumHash, finalized: Hash)
    requires Sound(v, head) && IsCanonical(v.canonical, finalized) && finalized in v.blocks && finalized.HashOf?
    ensures Transparent(v, finalized) <==> TakesOver(v, finalized)
  {
    var f, at := finalized.header.number, finalized.header.ToNumHash();
    if TakesOver(v, finalized) {
      forall a: NumHash, n: nat | Descends(finalized, a) && WindowStart(f) <= n
        ensures Lookup(Prune(v, finalized), a, n) == Lookup(v, a, n)
      {
        FoundBeforeAndAfter(v, head, finalized, n);
        SameFromDescendant(v, head, finalized, a, n);
      }
    }
    if Transparent(v, finalized) {
      TransparentTakesOver(v, head, finalized);
    }
  }

  lemma TransparentTakesOver(v: ChainView, head: NumHash, finalized: Hash)
    requires Sound(v, head) && IsCanonical(v.canonical, finalized) && finalized in v.blocks && finalized.HashOf?
    requires Transparent(v, finalized)
    ensures TakesOver(v, finalized)
  {
    var f, low, at := finalized.header.number, Floor(v.blocks, finalized), finalized.header.ToNumHash();
    assert Descends(finalized, at);
    FoundBeforeAndAfter(v, head, finalized, f);
    forall n: nat | WindowStart(f) <= n <= f
      ensures FoundAbove(v.canonical, low, n) <==> FoundAbove(v.canonical, f, n)
    {
      FoundBeforeAndAfter(v, head, finalized, n);
      assert Lookup(Prune(v, finalized), at, n) == Lookup(v, at, n);
    }
    SameFound(v.canonical, f, low);
  }

  lemma SameFound(canonical: map<nat, Hash>, f: nat, low: nat)
    requires low < f ==> forall n: nat :: WindowStart(f) <= n <= f ==>
                                            (FoundAbove(canonical, low, n) <==> FoundAbove(canonical, f, n))
    ensures low < f ==> forall n: nat :: WindowStart(f) <= n < f && low <= n ==> n in canonical
    ensures low < f && low > 0 && low - 1 !in canonical ==>
              forall n: nat :: WindowStart(f) <= n < low ==> n !in canonical
  {
    if low < f {
      forall n: nat | WindowStart(f) <= n < f
        ensures low <= n ==> n in canonical
        ensures n < low && low - 1 !in canonical ==> n !in canonical
      {
        assert FoundAbove(canonical, low, n) <==> FoundAbove(canonical, f, n);
        assert FoundAbove(canonical, low, f - 1) <==> FoundAbove(canonical, f, f - 1);
      }
    }
  }

  /** A canonical finalized block never lies above the head, so pruning at it keeps the head in memory. */
  lemma PruneKeepsHead(v: ChainView, head: NumHash, finalized: Hash)
    requires Sound(v, head) && head.hash in v.blocks
    requires IsCanonical(v.canonical, finalized)
    ensures head.hash in Prune(v, finalized).blocks
  {
    var n :| n in v.canonical && v.canonical[n] == finalized;
    AncestorAtSpec(head.hash, n);
  }
}
