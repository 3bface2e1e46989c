/**
 Remembering blocks that failed validation, and naming the latest valid ancestor of an
 invalid payload as the "Payload validation" section of the Ethereum Engine API asks.
 */
module InvalidAncestors {
  import opened Blocks
  import opened ChainStates

  /** A failed block and its parent. */
  datatype BlockWithParent = BlockWithParent(block: Hash, parent: Hash)

  type Entries = map<Hash, BlockWithParent>

  /** The entry names a failed block that is `key` itself or one of its ancestors. */
  ghost predicate Blames(failed: set<Hash>, key: Hash, entry: BlockWithParent)
  {
    && entry.block in failed && entry.block.HashOf?
    && entry.parent == entry.block.header.parent
    && AncestorOrSelf(entry.block, key)
  }

  ghost predicate AllBlame(entries: Entries, failed: set<Hash>)
  {
    forall k :: k in entries ==> Blames(failed, k, entries[k])
  }

  /** A block is invalid if it, or a block it builds on, failed validation. */
  ghost predicate Invalid(failed: set<Hash>, h: Hash)
  {
    h in failed || (h.HashOf? && Invalid(failed, h.header.parent))
  }

  /** On the path down from `h`, the block directly above `valid` failed validation itself. */
  ghost predicate FailedAbove(failed: set<Hash>, valid: Hash, h: Hash)
  {
    exists c :: c in failed && c.HashOf? && c.header.parent == valid && AncestorOrSelf(c, h)
  }

  lemma FailedAboveHigher(failed: set<Hash>, valid: Hash, h: Hash, higher: Hash)
    requires FailedAbove(failed, valid, h) && AncestorOrSelf(h, higher)
    ensures FailedAbove(failed, valid, higher)
  {
    var c :| c in failed && c.HashOf? && c.header.parent == valid && AncestorOrSelf(c, h);
    AncestorTransitive(c, h, higher);
  }

  /** The entry at `h`, if there is one, leads further down. */
  ghost predicate GoesOn(entries: Entries, h: Hash)
  {
    h in entries && Depth(entries[h].parent) < Depth(h)
  }

  /** Where following the entries from `h` ends: the first hash without an entry. */
  ghost function EndOfTrail(entries: Entries, h: Hash): Hash
    decreases Depth(h)
  {
    if GoesOn(entries, h) then EndOfTrail(entries, entries[h].parent) else h
  }

  ghost function LatestValid(entries: Entries, blocks: map<Hash, Header>, parent: Hash): Option<Hash>
  {
    if parent in blocks then Some(parent)
    else
      var end := EndOfTrail(entries, parent);
      if end in blocks then Some(end) else None
  }

  lemma BlamedIsAbove(failed: set<Hash>, key: Hash, entry: BlockWithParent)
    requires Blames(failed, key, entry)
    ensures Depth(entry.parent) < Depth(entry.block) <= Depth(key) && key.HashOf?
  {
    AncestorDepth(entry.block, key);
  }

  lemma {:induction false} InvalidAbove(failed: set<Hash>, a: Hash, h: Hash)
    requires Invalid(failed, a) && AncestorOrSelf(a, h)
    ensures Invalid(failed, h)
  {
    if a != h {
      InvalidAbove(failed, a, h.header.parent);
    }
  }

  /** The trail ends at an ancestor right below a failed block, and every block between it and the start is invalid. */
  lemma {:induction false} TrailSound(entries: Entries, failed: set<Hash>, h: Hash)
    requires AllBlame(entries, failed)
    ensures AncestorOrSelf(EndOfTrail(entries, h), h)
    ensures EndOfTrail(entries, h) == h || FailedAbove(failed, EndOfTrail(entries, h), h)
    ensures forall a :: AncestorOrSelf(a, h) && Depth(EndOfTrail(entries, h)) < Depth(a) ==> Invalid(failed, a)
    decreases Depth(h)
  {
    if h in entries {
      var entry := entries[h];
      BlamedIsAbove(failed, h, entry);
      var next, end := entry.parent, EndOfTrail(entries, entry.parent);
      TrailSound(entries, failed, next);
      assert AncestorOrSelf(next, entry.block);
      AncestorTransitive(next, entry.block, h);
      AncestorTransitive(end, next, h);
      if end == next {
        assert entry.block in failed && entry.block.header.parent == end;
      } else {
        FailedAboveHigher(failed, end, next, h);
      }
      forall a | AncestorOrSelf(a, h) && Depth(end) < Depth(a)
        ensures Invalid(failed, a)
      {
        if Depth(a) <= Depth(next) {
          AncestorsComparable(a, next, h);
        } else {
          AncestorsComparable(entry.block, a, h);
          InvalidAbove(failed, entry.block, a);
        }
      }
    } else {
      forall a | AncestorOrSelf(a, h) && Depth(h) < Depth(a)
        ensures false
      {
        AncestorDepth(a, h);
      }
    }
  }

  /**
   What may be found from a parent hash: that very block, if it is in memory, or else a validated
   ancestor right below a failed block, everything above which is invalid.
   */
  ghost predicate IsLatestFrom(blocks: map<Hash, Header>, failed: set<Hash>, parent: Hash, valid: Hash)
  {
    && valid in blocks && AncestorOrSelf(valid, parent)
    && (if parent in blocks then valid == parent else FailedAbove(failed, valid, parent))
    && forall a :: AncestorOrSelf(a, parent) && Depth(valid) < Depth(a) ==> Invalid(failed, a)
  }

  /**
   A latest valid hash is a validated ancestor-or-self of the queried block, every other
   ancestor-or-self with a higher number is invalid, and the lowest of those failed itself.
   */
  lemma LatestValidSound(entries: Entries, failed: set<Hash>, blocks: map<Hash, Header>, parent: Hash)
    requires AllBlame(entries, failed) && LatestValid(entries, blocks, parent).Some?
    ensures IsLatestFrom(blocks, failed, parent, LatestValid(entries, blocks, parent).value)
  {
    TrailSound(entries, failed, parent);
    if parent in blocks {
      forall a | AncestorOrSelf(a, parent) && Depth(parent) < Depth(a)
        ensures false
      {
        AncestorDepth(a, parent);
      }
    }
  }

  /** Following the entries from `h` comes by `c`. */
  ghost predicate Leads(entries: Entries, h: Hash, c: Hash)
    decreases Depth(h)
  {
    h == c || (GoesOn(entries, h) && Leads(entries, entries[h].parent, c))
  }

  lemma {:induction false} LeadsToEnd(entries: Entries, h: Hash)
    ensures Leads(entries, h, EndOfTrail(entries, h))
    ensures forall c :: Leads(entries, h, c) && c !in entries ==> c == EndOfTrail(entries, h)
    decreases Depth(h)
  {
    if GoesOn(entries, h) {
      LeadsToEnd(entries, entries[h].parent);
    }
  }

  /** With entries that blame, a trail ends only where there is no entry. */
  lemma {:induction false} EndHasNoEntry(entries: Entries, failed: set<Hash>, h: Hash)
    requires AllBlame(entries, failed)
    ensures EndOfTrail(entries, h) !in entries
    decreases Depth(h)
  {
    if h in entries {
      BlamedIsAbove(failed, h, entries[h]);
      EndHasNoEntry(entries, failed, entries[h].parent);
    }
  }

  /**
   What is to be found from a parent hash: the parent itself if it is in memory, or else the block
   in memory at the end of the trail of entries that starts there; nothing if there is no such block.
   */
  ghost predicate Finds(entries: Entries, blocks: map<Hash, Header>, parent: Hash, r: Option<Hash>)
  {
    && (parent in blocks ==> r == Some(parent))
    && (parent !in blocks ==>
          forall c :: Leads(entries, parent, c) && c !in entries ==> r == if c in blocks then Some(c) else None)
  }

  /** The walk finds exactly that. */
  lemma LatestValidFinds(entries: Entries, failed: set<Hash>, blocks: map<Hash, Header>, parent: Hash)
    requires AllBlame(entries, failed)
    ensures Finds(entries, blocks, parent, LatestValid(entries, blocks, parent))
    ensures forall r :: Finds(entries, blocks, parent, r) ==> r == LatestValid(entries, blocks, parent)
  {
    LeadsToEnd(entries, parent);
    EndHasNoEntry(entries, failed, parent);
  }

  /** Dropping the entry at `c` makes every trail through `c` end there. */
  lemma {:induction false} TrailCut(entries: Entries, failed: set<Hash>, h: Hash, c: Hash)
    requires AllBlame(entries, failed) && Leads(entries, h, c)
    ensures AllBlame(entries - {c}, failed) && EndOfTrail(entries - {c}, h) == c && Depth(c) <= Depth(h)
    decreases Depth(h)
  {
    if h != c {
      BlamedIsAbove(failed, h, entries[h]);
      TrailCut(entries, failed, entries[h].parent, c);
    }
  }

  lemma {:induction false} TrailExtends(entries: Entries, failed: set<Hash>, h: Hash, c: Hash)
    requires AllBlame(entries, failed) && Leads(entries, h, c) && c in entries
    ensures Leads(entries, h, entries[c].parent)
    decreases Depth(h)
  {
    if h == c {
      BlamedIsAbove(failed, h, entries[h]);
    } else {
      TrailExtends(entries, failed, entries[h].parent, c);
    }
  }

  // ---------- the cache ----------

  /** The entries, and the hashes whose entry was dropped by the very access that looked for it. */
  datatype CacheView = CacheView(entries: Entries, dropped: seq<Hash>)

  ghost function DroppedAt(c: CacheView, h: Hash): CacheView
  {
    CacheView(c.entries - {h}, c.dropped + [h])
  }

  /** A lookup: a hit yields the entry, unless that access drops it. */
  ghost predicate Looked(c: CacheView, h: Hash, r: Option<BlockWithParent>, c': CacheView)
  {
    if h !in c.entries then r == None && c' == c
    else (r == Some(c.entries[h]) && c' == c) || (r == None && c' == DroppedAt(c, h))
  }

  /** A walk along the trail from `from`: nothing changes, or the entry it ends at has just been dropped. */
  ghost predicate Walked(c: CacheView, from: Hash, c': CacheView)
  {
    c' == c || exists h :: h in c.entries && Leads(c.entries, from, h) && c' == DroppedAt(c, h)
  }

  /** An entry is recorded unless one is there; others may be pushed out, but none is added or changed. */
  ghost predicate Recorded(c: CacheView, h: Hash, entry: BlockWithParent, c': CacheView)
  {
    && h in c'.entries && c.dropped <= c'.dropped
    && (forall k :: k in c'.entries && k != h ==> k in c.entries && c'.entries[k] == c.entries[k])
    && (c'.entries[h] == entry || (h in c.entries && c' == c))
  }

  /** The bounded cache: it may drop an entry on any access. */
  class InvalidHeaderCache {
    var entries: Entries
    ghost var failed: set<Hash>
    ghost var dropped: seq<Hash>

    ghost function View(): CacheView
      reads this
    {
      CacheView(entries, dropped)
    }

    ghost predicate Valid()
      reads this
    {
      AllBlame(entries, failed)
    }

    constructor ()
      ensures Valid() && View() == CacheView(map[], []) && failed == {}
    {
      entries, failed, dropped := map[], {}, [];
    }

    /** A hit may be the one that evicts the entry, in which case nothing is returned. */
    method Get(hash: Hash) returns (r: Option<BlockWithParent>)
      requires Valid()
      modifies this`entries, this`dropped
      ensures Valid() && Looked(old(View()), hash, r, View())
    {
      if hash !in entries {
        return None;
      }
      r := Some(entries[hash]);
      if * {
        entries, dropped := entries - {hash}, dropped + [hash];
        r := None;
      }
    }

    /** Records `hash` unless it is known, possibly pushing other entries out. */
    method InsertWithInvalidAncestor(hash: Hash, ancestor: BlockWithParent)
      requires Valid() && Blames(failed, hash, ancestor)
      modifies this`entries, this`dropped
      ensures Valid() && Recorded(old(View()), hash, ancestor, View())
    {
      var known := Get(hash);
      if known.None? {
        var pushedOut: set<Hash> := *;
        entries := (entries - pushedOut)[hash := ancestor];
      }
    }

    /** Records a block that has just failed validation. */
    method Insert(block: Header)
      requires Valid()
      modifies this
      ensures Valid() && failed == old(failed) + {HashOf(block)}
      ensures Recorded(old(View()), HashOf(block), BlockWithParent(HashOf(block), block.parent), View())
    {
      failed := failed + {HashOf(block)};
      InsertWithInvalidAncestor(HashOf(block), BlockWithParent(HashOf(block), block.parent));
    }
  }

  method LatestValidHashForInvalidPayload(chain: ChainState, cache: InvalidHeaderCache,
                                          parent: Hash) returns (r: Option<Hash>)
    requires cache.Valid()
    modifies cache`entries, cache`dropped
    ensures cache.Valid() && Walked(old(cache.View()), parent, cache.View())
    ensures r == LatestValid(cache.entries, chain.blocks, parent)
    ensures Finds(cache.entries, chain.blocks, parent, r)
  {
    if parent in chain.blocks {
      return Some(parent);
    }
    r := WalkTrail(chain, cache, parent);
    LatestValidFinds(cache.entries, cache.failed, chain.blocks, parent);
  }

  /** Follows the entries down from a hash that is not in memory. */
  method WalkTrail(chain: ChainState, cache: InvalidHeaderCache, parent: Hash) returns (r: Option<Hash>)
    requires cache.Valid() && parent !in chain.blocks
    modifies cache`entries, cache`dropped
    ensures cache.Valid() && Walked(old(cache.View()), parent, cache.View())
    ensures r == LatestValid(cache.entries, chain.blocks, parent)
  {
    var current := parent;
    ghost var c := cache.View();
    var entry := cache.Get(current);
    while entry.Some?
      invariant cache.Valid() && Walked(c, parent, cache.View())
      invariant entry.Some? ==> cache.View() == c && current in c.entries && entry.value == c.entries[current]
      invariant entry.Some? ==> Leads(c.entries, parent, current)
      invariant entry.None? ==> EndOfTrail(cache.entries, parent) == current && current !in chain.blocks
      decreases entry.Some?, Depth(current)
    {
      BlamedIsAbove(cache.failed, current, entry.value);
      TrailExtends(cache.entries, cache.failed, parent, current);
      current := entry.value.parent;
      TrailCut(cache.entries, cache.failed, parent, current);
      assert current !in c.entries ==> c.entries - {current} == c.entries;
      entry := cache.Get(current);
      if entry.None? && current in chain.blocks {
        return Some(current);
      }
    }
    r := None;
  }

  /** The hash an "invalid" answer gives for the latest valid one: zero for a proof-of-work parent and for "unknown". */
  ghost predicate Responds(entries: Entries, blocks: map<Hash, Header>, parent: Hash, latestValid: Hash)
  {
    if parent in blocks then latestValid == if parent.HashOf? && parent.header.pow then ZERO else parent
    else exists r :: Finds(entries, blocks, parent, r) && latestValid == if r.Some? then r.value else ZERO
  }

  /**
   It is the parent, if that is in memory and not a proof-of-work block; and if it is not in memory, the
   block in memory to which the entries lead from it.
   */
  lemma ResponseNames(entries: Entries, blocks: map<Hash, Header>, parent: Hash, latestValid: Hash)
    requires Responds(entries, blocks, parent, latestValid)
    ensures parent in blocks && parent.HashOf? ==> latestValid == if parent.header.pow then ZERO else parent
    ensures parent !in blocks ==>
              forall c :: Leads(entries, parent, c) && c !in entries && c in blocks ==> latestValid == c
  {
  }

  method PrepareInvalidResponse(chain: ChainState, cache: InvalidHeaderCache,
                                parentHash: Hash) returns (latestValid: Hash)
    requires cache.Valid() && chain.Valid()
    modifies cache`entries, cache`dropped
    ensures cache.Valid() && Walked(old(cache.View()), parentHash, cache.View())
    ensures Responds(cache.entries, chain.blocks, parentHash, latestValid)
    ensures latestValid != ZERO ==> LatestValid(cache.entries, chain.blocks, parentHash) == Some(latestValid)
  {
    var parent := parentHash;
    if parent in chain.blocks {
      if chain.blocks[parent].pow {
        parent := ZERO;
      }
    }
    NoEntryAtZero(cache.entries, cache.failed);
    var valid := LatestValidHashForInvalidPayload(chain, cache, parent);
    latestValid := if valid.Some? then valid.value else ZERO;
  }

  /** Nothing is recorded for the zero hash, and so nothing is found from it. */
  lemma NoEntryAtZero(entries: Entries, failed: set<Hash>)
    requires AllBlame(entries, failed)
    ensures forall h :: Leads(entries, ZERO, h) ==> h == ZERO && h !in entries
  {
    if ZERO in entries {
      BlamedIsAbove(failed, ZERO, entries[ZERO]);
    }
  }

  /**
   What an "invalid" answer for `h` may name: a validated ancestor right below a failed block, all
   of whose descendants up to `h` are invalid.
   */
  ghost predicate IsLatestValid(blocks: map<Hash, Header>, failed: set<Hash>, h: Hash, valid: Hash)
  {
    && valid in blocks && AncestorOrSelf(valid, h) && FailedAbove(failed, valid, h)
    && forall a :: AncestorOrSelf(a, h) && Depth(valid) < Depth(a) ==> Invalid(failed, a)
  }

  /** The answer found from a failed block's parent also answers for everything built on that block. */
  lemma AnswerForDescendant(entries: Entries, failed: set<Hash>, blocks: map<Hash, Header>, entry: BlockWithParent,
                            h: Hash)
    requires AllBlame(entries, failed) && Blames(failed, h, entry)
    requires LatestValid(entries, blocks, entry.parent).Some?
    ensures IsLatestValid(blocks, failed, h, LatestValid(entries, blocks, entry.parent).value)
  {
    var valid := LatestValid(entries, blocks, entry.parent).value;
    LatestValidSound(entries, failed, blocks, entry.parent);
    BlamedIsAbove(failed, h, entry);
    assert AncestorOrSelf(entry.parent, entry.block);
    AncestorTransitive(entry.parent, entry.block, h);
    AncestorTransitive(valid, entry.parent, h);
    if valid != entry.parent {
      FailedAboveHigher(failed, valid, entry.parent, h);
    }
    forall a | AncestorOrSelf(a, h) && Depth(valid) < Depth(a)
      ensures Invalid(failed, a)
    {
      if Depth(a) <= Depth(entry.parent) {
        AncestorsComparable(a, entry.parent, h);
      } else {
        AncestorsComparable(entry.block, a, h);
        InvalidAbove(failed, entry.block, a);
      }
    }
  }

  /** An answer about an invalid ancestor is an answer about every block above it. */
  lemma LatestValidAbove(blocks: map<Hash, Header>, failed: set<Hash>, check: Hash, valid: Hash, h: Hash)
    requires Invalid(failed, check) && AncestorOrSelf(check, h)
    ensures Invalid(failed, h)
    ensures IsLatestValid(blocks, failed, check, valid) ==> IsLatestValid(blocks, failed, h, valid)
  {
    InvalidAbove(failed, check, h);
    if IsLatestValid(blocks, failed, check, valid) {
      AncestorTransitive(valid, check, h);
      FailedAboveHigher(failed, valid, check, h);
      forall a | AncestorOrSelf(a, h) && Depth(valid) < Depth(a)
        ensures Invalid(failed, a)
      {
        if Depth(a) <= Depth(check) {
          AncestorsComparable(a, check, h);
        } else {
          AncestorsComparable(check, a, h);
          InvalidAbove(failed, check, a);
        }
      }
    }
  }

  lemma FailedAnswers(entries: Entries, failed: set<Hash>, before: set<Hash>, blocks: map<Hash, Header>, block: Header)
    requires AllBlame(entries, before) && before <= failed && HashOf(block) in failed
    requires LatestValid(entries, blocks, block.parent).Some?
    ensures IsLatestValid(blocks, failed, HashOf(block), LatestValid(entries, blocks, block.parent).value)
  {
    assert AllBlame(entries, failed);
    AnswerForDescendant(entries, failed, blocks, BlockWithParent(HashOf(block), block.parent), HashOf(block));
  }

  /**
   Checking a hash: nothing is said if no failed block is recorded for it, or if looking drops the
   record; otherwise the latest valid hash is found from the failed block's parent.
   */
  ghost predicate Checked(c: CacheView, blocks: map<Hash, Header>, check: Hash, latestValid: Option<Hash>,
                          c': CacheView)
  {
    match latestValid
    case None => (check !in c.entries && c' == c) || (check in c.entries && c' == DroppedAt(c, check))
    case Some(valid) =>
      && check in c.entries && Walked(c, c.entries[check].parent, c')
      && Responds(c'.entries, blocks, c.entries[check].parent, valid)
  }

  /** Answers for `head` if `check`, one of its ancestors or itself, is known bad, and then remembers `head` too. */
  method CheckInvalidAncestorWithHead(chain: ChainState, cache: InvalidHeaderCache, check: Hash, head: Hash)
      returns (latestValid: Option<Hash>, ghost checked: CacheView)
    requires cache.Valid() && chain.Valid() && AncestorOrSelf(check, head)
    modifies cache`entries, cache`dropped
    ensures cache.Valid() && Checked(old(cache.View()), chain.blocks, check, latestValid, checked)
    ensures latestValid.Some? ==>
              Recorded(checked, head, old(cache.entries)[check], cache.View()) && Invalid(cache.failed, head)
    ensures latestValid.Some? && latestValid.value != ZERO ==>
              IsLatestValid(chain.blocks, cache.failed, head, latestValid.value)
    ensures latestValid.None? ==> cache.View() == checked
  {
    var entry := cache.Get(check);
    if entry.None? {
      return None, cache.View();
    }
    AncestorTransitive(entry.value.block, check, head);
    InvalidAbove(cache.failed, entry.value.block, head);
    var valid := PrepareInvalidResponse(chain, cache, entry.value.parent);
    checked := cache.View();
    if valid != ZERO { AnswerForDescendant(cache.entries, cache.failed, chain.blocks, entry.value, head); }
    cache.InsertWithInvalidAncestor(head, entry.value);
    latestValid := Some(valid);
  }

  method CheckInvalidAncestor(chain: ChainState, cache: InvalidHeaderCache,
                              head: Hash) returns (latestValid: Option<Hash>)
    requires cache.Valid() && chain.Valid()
    modifies cache`entries, cache`dropped
    ensures cache.Valid() && Checked(old(cache.View()), chain.blocks, head, latestValid, cache.View())
    ensures latestValid.Some? ==> Invalid(cache.failed, head)
    ensures latestValid.Some? && latestValid.value != ZERO ==>
              IsLatestValid(chain.blocks, cache.failed, head, latestValid.value)
  {
    var entry := cache.Get(head);
    if entry.None? {
      return None;
    }
    InvalidAbove(cache.failed, entry.value.block, head);
    var valid := PrepareInvalidResponse(chain, cache, entry.value.parent);
    if valid != ZERO { AnswerForDescendant(cache.entries, cache.failed, chain.blocks, entry.value, head); }
    latestValid := Some(valid);
  }
}
